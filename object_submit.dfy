/**
 * `ObjectBuilder::submit`: turns a builder into an object with a fresh id
 * and registers it with the session. It lives apart from `Objects` because
 * the session holds objects and this operation holds the session.
 */
module ObjectSubmit {
  import opened Ints
  import opened Errors
  import opened Ids
  import opened Objects
  import opened Session

  /**
   * The next object id is taken (this cannot fail), the object gets the
   * builder's name or "Unnamed Object #{id}" and copies of every other
   * field, and `register_object` pushes it and links it under its window.
   * The id is spent and the object stays in the arena even when the window
   * does not exist.
   */
  method Submit(b: ObjectBuilder, ids: IdCounters, session: Session) returns (r: Result<u32>)
    requires |session.windows| > 0
    modifies ids`objectId, session`objects, session`windows
    ensures ids.objectId == FetchAdd(old(ids.objectId))
    ensures |session.objects| == |old(session.objects)| + 1
    ensures session.objects[..|old(session.objects)|] == old(session.objects)
    ensures var o := session.objects[|old(session.objects)|];
            fresh(o) && o.id == old(ids.objectId) && o.name == ObjectName(b.name, o.id)
            && o.parentId == b.parentId && o.offsetX == b.offsetX && o.offsetY == b.offsetY
            && o.hidden == b.hidden && o.cell == b.cell
    ensures (r, session.windows) == LinkObject(old(session.windows), old(ids.objectId), b.parentId)
  {
    var next := ids.NextObjectId();
    if next.Err? {
      return next.Cast();
    }
    var id := next.value;
    var name := ObjectName(b.name, id);
    var built := new Object(id, b.parentId, name, b.offsetX, b.offsetY, b.hidden, b.cell);
    r := session.RegisterObject(built);
  }
}
