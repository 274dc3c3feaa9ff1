/**
 * `Session`: the terminal plus two append-only arenas, windows and objects,
 * each indexed by id. Registering an entity pushes it first and then links
 * it under its parent window, found by a bounds-checked lookup.
 *
 * The window type the session uses (with a parent, a child list and an
 * object list) is not the stub record of the `Window` module; it is modelled
 * here by the four members the session touches.
 */
module Session {
  import opened Ints
  import opened Errors
  import opened Decimal
  import opened Term
  import opened Ids
  import opened Objects
  import opened Cell

  const ONCE_MESSAGE: string := "Session::new() may only be invoked once per executable lifetime"

  /** A window as the session sees it: its id, its parent's id, and the ids of its child windows and objects. */
  datatype WindowRecord = WindowRecord(id: u32, parentId: u32, children: seq<u32>, objects: seq<u32>) {

    /** `add_child(id)`: one more child at the end of the list. */
    function AddChild(child: u32): (w: WindowRecord)
      ensures w.children == children + [child] && w.(children := children) == this
    {
      this.(children := children + [child])
    }

    /** `add_object(id)`: one more object at the end of the list. */
    function AddObject(objectId: u32): (w: WindowRecord)
      ensures w.objects == objects + [objectId] && w.(objects := objects) == this
    {
      this.(objects := objects + [objectId])
    }
  }

  /** The message of a failed lookup: the id asked for and the last valid index. */
  function InvalidIdMessage(kind: string, id: u32, len: nat): string
    requires len > 0
  {
    "invalid " + kind + " " + Dec(id) + ", max is " + Dec(len - 1)
  }

  /**
   * `window_direct(windows, id)`: the window at index `id`, or an error naming
   * the last valid index. The message subtracts 1 from the length, so the
   * arena must not be empty.
   */
  function WindowDirect(ws: seq<WindowRecord>, id: u32): (r: Result<WindowRecord>)
    requires |ws| > 0
    ensures r.Ok? <==> id < |ws|
    ensures r.Ok? ==> r.value == ws[id]
    ensures r.Err? ==> r.error == InvalidIdMessage("window_id", id, |ws|)
  {
    if id < |ws| then Ok(ws[id]) else Err(InvalidIdMessage("window_id", id, |ws|))
  }

  /** `object_direct(objects, id)`: the same lookup over the object arena. */
  function ObjectDirect(objs: seq<Object>, id: u32): (r: Result<Object>)
    requires |objs| > 0
    ensures r.Ok? <==> id < |objs|
    ensures r.Ok? ==> r.value == objs[id]
    ensures r.Err? ==> r.error == InvalidIdMessage("object_id", id, |objs|)
  {
    if id < |objs| then Ok(objs[id]) else Err(InvalidIdMessage("object_id", id, |objs|))
  }

  /**
   * `register_window(window)` on the window arena: the window is pushed, then
   * its parent is looked up in the grown arena and given the new id as its
   * last child. The push stays even when the lookup fails.
   */
  function PushWindow(ws: seq<WindowRecord>, w: WindowRecord): (r: (Result<u32>, seq<WindowRecord>))
    ensures |r.1| == |ws| + 1 && r.1[|ws|].id == w.id && r.1[|ws|].parentId == w.parentId
    ensures r.0.Ok? <==> w.parentId < |ws| + 1
    ensures r.0.Ok? ==> r.0.value == w.id
    ensures r.0.Err? ==> r.1 == ws + [w]
    ensures r.0.Err? ==> r.0.error == InvalidIdMessage("window_id", w.parentId, |ws| + 1)
    ensures r.0.Ok? ==> r.1[w.parentId] == (ws + [w])[w.parentId].AddChild(w.id)
    ensures forall i :: 0 <= i < |r.1| && i != w.parentId ==> r.1[i] == (ws + [w])[i]
  {
    var pushed := ws + [w];
    match WindowDirect(pushed, w.parentId)
    case Err(e) => (Err(e), pushed)
    case Ok(parent) => (Ok(w.id), pushed[w.parentId := parent.AddChild(w.id)])
  }

  /**
   * `register_object(object)` on the window arena (the object itself is
   * pushed onto the object arena whatever happens): window `windowId` gets
   * `objectId` as its last object, and no other window changes.
   */
  function LinkObject(ws: seq<WindowRecord>, objectId: u32, windowId: u32): (r: (Result<u32>, seq<WindowRecord>))
    requires |ws| > 0
    ensures |r.1| == |ws|
    ensures r.0.Ok? <==> windowId < |ws|
    ensures r.0.Ok? ==> r.0.value == objectId && r.1[windowId] == ws[windowId].AddObject(objectId)
    ensures r.0.Err? ==> r.1 == ws && r.0.error == InvalidIdMessage("window_id", windowId, |ws|)
    ensures forall i :: 0 <= i < |ws| && i != windowId ==> r.1[i] == ws[i]
  {
    match WindowDirect(ws, windowId)
    case Err(e) => (Err(e), ws)
    case Ok(parent) => (Ok(objectId), ws[windowId := parent.AddObject(objectId)])
  }

  /** Every window sits at the index of its own id. */
  predicate IdsAreIndices(ws: seq<WindowRecord>) {
    forall i :: 0 <= i < |ws| ==> ws[i].id == i
  }

  /** Registering a window whose id is the arena's length keeps ids equal to indices,
      whether or not the parent lookup succeeds. */
  lemma RegisterKeepsIdsAreIndices(ws: seq<WindowRecord>, w: WindowRecord)
    requires IdsAreIndices(ws) && w.id == |ws|
    ensures IdsAreIndices(PushWindow(ws, w).1)
  {
    var r := PushWindow(ws, w).1;
    forall i | 0 <= i < |r|
      ensures r[i].id == i
    {
      if i == w.parentId {
        assert r[i].id == (ws + [w])[i].id;
      }
    }
  }

  /** Linking an object leaves every window's id where it was. */
  lemma LinkKeepsIdsAreIndices(ws: seq<WindowRecord>, objectId: u32, windowId: u32)
    requires |ws| > 0 && IdsAreIndices(ws)
    ensures IdsAreIndices(LinkObject(ws, objectId, windowId).1)
  {
    var r := LinkObject(ws, objectId, windowId).1;
    forall i | 0 <= i < |r|
      ensures r[i].id == i
    {
      if i == windowId {
        assert r[i].id == ws[i].id;
      }
    }
  }

  /** While ids equal indices, a successful lookup returns the window with the id asked for. */
  lemma LookupFindsThatId(ws: seq<WindowRecord>, id: u32)
    requires |ws| > 0 && IdsAreIndices(ws) && id < |ws|
    ensures WindowDirect(ws, id) == Ok(ws[id]) && ws[id].id == id
  {
  }

  /**
   * Because the push comes before the lookup, a window naming its own future
   * index as parent is accepted and becomes its own child.
   */
  lemma SelfParentIsOwnChild(ws: seq<WindowRecord>, w: WindowRecord)
    requires w.parentId == |ws|
    ensures PushWindow(ws, w).0 == Ok(w.id)
    ensures PushWindow(ws, w).1[|ws|].children == w.children + [w.id]
  {
    assert (ws + [w])[|ws|] == w;
  }

  /** The System Window: id 0, parent 0, nothing under it yet. */
  const SYSTEM_WINDOW: WindowRecord := WindowRecord(0, 0, [], [])

  /** Registering the System Window into an empty arena makes it its own (only) child. */
  lemma SystemWindowRegisters()
    ensures PushWindow([], SYSTEM_WINDOW) == (Ok(0), [WindowRecord(0, 0, [0], [])])
  {
    var r := PushWindow([], SYSTEM_WINDOW);
    SelfParentIsOwnChild([], SYSTEM_WINDOW);
    assert r.1[0] == SYSTEM_WINDOW.AddChild(0);
    assert r.1 == [r.1[0]];
    assert r.0 == Ok(0);
    assert r.1[0] == WindowRecord(0, 0, [0], []);
  }

  class Session {
    var term: OmmaTerm
    var windows: seq<WindowRecord>
    var objects: seq<Object>
    /** Never read or written after construction. */
    var children: seq<u32>

    /** A usable terminal and at least the System Window. */
    ghost predicate Valid()
      reads this, term
    {
      term.Valid() && |windows| > 0
    }

    /** The struct literal of `new_inner`: both arenas empty. */
    constructor Empty(term: OmmaTerm)
      ensures this.term == term && windows == [] && objects == [] && children == []
    {
      this.term := term;
      windows, objects, children := [], [], [];
    }

    /**
     * `new_inner(term)`: refuses when any window id was already handed out
     * (a second session); otherwise builds an empty session and submits the
     * System Window, which takes id 0. The window builder is not part of this
     * model: the System Window is registered with parent 0, so the result
     * holds exactly one window, its own child.
     */
    static method NewInner(term: OmmaTerm, ids: IdCounters) returns (r: Result<Session>)
      requires term.Valid()
      modifies ids`windowId
      ensures r.Ok? <==> old(ids.windowId) == 0
      ensures r.Err? ==> r.error == ONCE_MESSAGE && ids.windowId == old(ids.windowId)
      ensures r.Ok? ==> fresh(r.value) && r.value.Valid() && r.value.term == term
      ensures r.Ok? ==> r.value.windows == [WindowRecord(0, 0, [0], [])] && r.value.objects == []
      ensures r.Ok? ==> ids.windowId == 1
    {
      if ids.CurrentWindowId() != 0 {
        return Err(ONCE_MESSAGE);
      }
      var session := new Session.Empty(term);
      var id := ids.NextWindowId();
      if id.Err? {
        return id.Cast();
      }
      var registered := session.RegisterWindow(WindowRecord(id.value, 0, [], []));
      if registered.Err? {
        return registered.Cast();
      }
      SystemWindowRegisters();
      return Ok(session);
    }

    /** `register_window(window)`: pushes the window, then links it under its parent; see `PushWindow`. */
    method RegisterWindow(w: WindowRecord) returns (r: Result<u32>)
      modifies this`windows
      ensures (r, windows) == PushWindow(old(windows), w)
    {
      windows := windows + [w];
      var parent := WindowDirect(windows, w.parentId);
      if parent.Err? {
        return parent.Cast();
      }
      windows := windows[w.parentId := parent.value.AddChild(w.id)];
      return Ok(w.id);
    }

    /** `window(id)`: the window at index `id`, or the lookup error. */
    function Window(id: u32): (r: Result<WindowRecord>)
      reads this
      requires |windows| > 0
      ensures r.Ok? <==> id < |windows|
      ensures r.Ok? ==> r.value == windows[id]
      ensures r.Err? ==> r.error == InvalidIdMessage("window_id", id, |windows|)
    {
      WindowDirect(windows, id)
    }

    /** `register_object(object)`: pushes the object, then links it under its window. */
    method RegisterObject(o: Object) returns (r: Result<u32>)
      requires |windows| > 0
      modifies this`objects, this`windows
      ensures objects == old(objects) + [o]
      ensures (r, windows) == LinkObject(old(windows), o.id, o.parentId)
    {
      var id := o.id;
      var window := o.WindowId();
      objects := objects + [o];
      var parent := WindowDirect(windows, window);
      if parent.Err? {
        return parent.Cast();
      }
      windows := windows[window := parent.value.AddObject(id)];
      return Ok(id);
    }

    /** `object(id)`: the object at index `id`, or the lookup error. */
    function Object(id: u32): (r: Result<Objects.Object>)
      reads this
      requires |objects| > 0
      ensures r.Ok? <==> id < |objects|
      ensures r.Ok? ==> r.value == objects[id]
      ensures r.Err? ==> r.error == InvalidIdMessage("object_id", id, |objects|)
    {
      ObjectDirect(objects, id)
    }

    /**
     * `render`: composite the System Window at (0, 0) into the back buffer,
     * then redraw the whole back buffer. Compositing is not part of this
     * model: its outcome comes in as `rootBlit` and the back buffer it leaves
     * as `composited`, which stays even when the composite fails part-way.
     * A failed composite is returned and nothing is drawn.
     */
    method Render(rootBlit: Result<u32>, composited: seq<seq<OmmaCell>>) returns (r: Result<u32>)
      requires Valid()
      requires IsGrid(composited, term.maxCol, term.maxRow)
      modifies term`back, term`row, term`col, term`out
      ensures term.back == composited && term.Valid()
      ensures rootBlit.Err? ==> r == Err(rootBlit.error) && term.out == old(term.out)
      ensures rootBlit.Err? ==> term.row == old(term.row) && term.col == old(term.col)
      ensures rootBlit.Ok? ==> r == Ok(term.maxCol * term.maxRow)
      ensures rootBlit.Ok? ==> term.out == old(term.out) + FrameLog(composited, term.maxCol, term.maxRow)
    {
      term.back := composited;
      if rootBlit.Err? {
        return rootBlit.Cast();
      }
      r := term.Render();
    }
  }
}
