/**
 * Leaf objects: at most one cell placed at an offset inside its parent
 * window, built through a chain of setters on an `ObjectBuilder` and drawn
 * into the terminal's back buffer by `Object.Blit`.
 */
module Objects {
  import opened Ints
  import opened Errors
  import opened Decimal
  import opened Cell
  import opened Term

  const UNNAMED_PREFIX: string := "Unnamed Object #"

  /**
   * `ObjectBuilder`: what the caller chose before submitting. Each setter
   * returns the builder with its own field(s) replaced and nothing else.
   */
  datatype ObjectBuilder = ObjectBuilder(
    parentId: u32,
    name: Option<string>,
    offsetX: nat,
    offsetY: nat,
    hidden: bool,
    cell: Option<OmmaCell>)
  {
    /** `parent(parent_id)`: owned by window `parentId`. */
    function Parent(parentId: u32): (b: ObjectBuilder)
      ensures b.parentId == parentId && b.(parentId := this.parentId) == this
    {
      this.(parentId := parentId)
    }

    /** `name(name)`: the object will carry `name`. */
    function Name(name: string): (b: ObjectBuilder)
      ensures b.name == Some(name) && b.(name := this.name) == this
    {
      this.(name := Some(name))
    }

    /** `offset(offset_x, offset_y)`: the position inside the parent. */
    function Offset(offsetX: nat, offsetY: nat): (b: ObjectBuilder)
      ensures b.offsetX == offsetX && b.offsetY == offsetY
      ensures b.(offsetX := this.offsetX, offsetY := this.offsetY) == this
    {
      this.(offsetX := offsetX, offsetY := offsetY)
    }

    /** `hidden()`: skipped when drawing. There is no setter back to visible. */
    function Hidden(): (b: ObjectBuilder)
      ensures b.hidden && b.(hidden := this.hidden) == this
    {
      this.(hidden := true)
    }

    /** `cell(cell)`: the object holds a copy of `cell`. */
    function Cell(cell: OmmaCell): (b: ObjectBuilder)
      ensures b.cell == Some(cell) && b.(cell := this.cell) == this
    {
      this.(cell := Some(cell))
    }
  }

  /** `ObjectBuilder::new()`: owned by the System Window (id 0), unnamed, at (0, 0), shown, empty. */
  function NewBuilder(): (b: ObjectBuilder)
    ensures b.parentId == 0 && b.name == None && b.offsetX == 0 && b.offsetY == 0
    ensures !b.hidden && b.cell == None
  {
    ObjectBuilder(0, None, 0, 0, false, None)
  }

  /** The name `submit` gives object `id`: the chosen one, or "Unnamed Object #{id}". */
  function ObjectName(name: Option<string>, id: u32): (s: string)
    ensures name.Some? ==> s == name.value
    ensures name.None? ==> |s| > |UNNAMED_PREFIX| && s[..|UNNAMED_PREFIX|] == UNNAMED_PREFIX
  {
    match name
    case Some(given) => given
    case None => UNNAMED_PREFIX + Dec(id)
  }

  /** The number after the prefix of a generated name reads back as the object's id. */
  lemma UnnamedNameReadsBack(id: u32)
    ensures ParseDec(ObjectName(None, id)[|UNNAMED_PREFIX|..]) == Some(id as nat)
  {
    assert ObjectName(None, id)[|UNNAMED_PREFIX|..] == Dec(id);
    ParseDecOfDec(id);
  }

  /** Two unnamed objects with different ids get different names. */
  lemma UnnamedNamesDistinct(id1: u32, id2: u32)
    requires id1 != id2
    ensures ObjectName(None, id1) != ObjectName(None, id2)
  {
    UnnamedNameReadsBack(id1);
    UnnamedNameReadsBack(id2);
  }

  /** `Object`: a submitted object; only its `hidden` flag changes afterwards. */
  class Object {
    var id: u32
    var parentId: u32
    var name: string
    var offsetX: nat
    var offsetY: nat
    var hidden: bool
    var cell: Option<OmmaCell>

    /** The struct literal `submit` builds. */
    constructor (id: u32, parentId: u32, name: string, offsetX: nat, offsetY: nat,
                 hidden: bool, cell: Option<OmmaCell>)
      ensures this.id == id && this.parentId == parentId && this.name == name
      ensures this.offsetX == offsetX && this.offsetY == offsetY
      ensures this.hidden == hidden && this.cell == cell
    {
      this.id, this.parentId, this.name := id, parentId, name;
      this.offsetX, this.offsetY := offsetX, offsetY;
      this.hidden, this.cell := hidden, cell;
    }

    /** `window_id()`: the owning window. */
    function WindowId(): u32
      reads this
    {
      parentId
    }

    /** `toggle_hidden()`: flips the flag; two toggles restore it. */
    method ToggleHidden()
      modifies this`hidden
      ensures hidden == !old(hidden)
    {
      hidden := !hidden;
    }

    /** `set_hidden()`: the object is hidden afterwards, whatever it was. */
    method SetHidden()
      modifies this`hidden
      ensures hidden
    {
      hidden := true;
    }

    /** `clear_hidden()`: the object is shown afterwards, whatever it was. */
    method ClearHidden()
      modifies this`hidden
      ensures !hidden
    {
      hidden := false;
    }

    /**
     * `blit(term, parent_x, parent_y)`: a hidden object or one without a cell
     * draws nothing and counts 0; otherwise its cell goes through
     * `put_cell_at` at the parent's position plus the offset, and that result
     * (0 for the transparent cell, 1 for a written one, or the bounds error)
     * is the object's. Only the back buffer may change.
     * `put_cell_at` reads column 0's height, so a cell needs a terminal with a column.
     */
    method Blit(term: OmmaTerm, parentX: nat, parentY: nat) returns (r: Result<u32>)
      requires term.Valid()
      requires !hidden && cell.Some? ==> term.maxCol > 0
      modifies term`back
      ensures term.Valid()
      ensures hidden || cell.None? ==> r == Ok(0) && term.back == old(term.back)
      ensures !hidden && cell.Some? ==>
                (r, term.back) == PutCell(old(term.back), offsetX + parentX, offsetY + parentY, cell.value)
    {
      if hidden {
        return Ok(0);
      }
      var written: u32 := 0;
      if cell.Some? {
        var put := term.PutCellAt(offsetX + parentX, offsetY + parentY, cell.value);
        if put.Err? {
          return put;
        }
        written := written + put.value;
      }
      return Ok(written);
    }

    /** `Display`: "H" or "V" for the flag, then id, name and parent id, separated by ':'. */
    function Display(): (s: string)
      reads this
      ensures |s| > 2 && (s[0] == 'H' <==> hidden) && (s[0] == 'V' <==> !hidden) && s[1] == ':'
    {
      [if hidden then 'H' else 'V'] + ":" + Dec(id) + ":" + name + ":" + Dec(parentId)
    }
  }

  /** The id field of `Display` is the text up to the second ':', and it reads back as the id. */
  lemma DisplayIdReadsBack(o: Object)
    ensures var t := o.Display()[2..];
            ParseDec(t[..IndexOf(t, ':')]) == Some(o.id as nat)
  {
    var d := Dec(o.id);
    var rest := o.name + ":" + Dec(o.parentId);
    var t := o.Display()[2..];
    assert t == d + [':'] + rest;
    IndexOfAfterDigits(d, ':', rest);
    assert t[..|d|] == d;
    ParseDecOfDec(o.id);
  }

  /** The parent field of `Display` is the text after the last ':', and it reads back as the parent id. */
  lemma DisplayParentReadsBack(o: Object)
    ensures var s := o.Display();
            var p := Dec(o.parentId);
            s[|s| - |p| - 1] == ':' && ParseDec(s[|s| - |p|..]) == Some(o.parentId as nat)
  {
    var s := o.Display();
    var p := Dec(o.parentId);
    var front := [if o.hidden then 'H' else 'V'] + ":" + Dec(o.id) + ":" + o.name;
    assert s == front + [':'] + p;
    assert s[|s| - |p|..] == p;
    ParseDecOfDec(o.parentId);
  }

  /** The name field of `Display` is everything between the id field and the parent field,
      so a name containing ':' or digits is still recovered whole. */
  lemma DisplayNameReadsBack(o: Object)
    ensures var s := o.Display();
            var d, p := Dec(o.id), Dec(o.parentId);
            3 + |d| <= |s| - |p| - 1 && s[2 + |d|] == ':'
            && s[3 + |d|..|s| - |p| - 1] == o.name
  {
    var s := o.Display();
    var d, p := Dec(o.id), Dec(o.parentId);
    var flag := [if o.hidden then 'H' else 'V'] + ":";
    assert s == flag + d + [':'] + o.name + [':'] + p;
    assert s[3 + |d|..|s| - |p| - 1] == o.name;
  }
}
