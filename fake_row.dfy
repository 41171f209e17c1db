/** The row the admin console shows for one fake player, and how it is built. */
module FakeRows {
  import opened Common
  import opened Schema
  import opened Runtime

  /** `FakeAdminService.FakeRow`; `name` and `state` are nullable in the source. */
  datatype FakeRow = FakeRow(
    objectId: int, name: Option<string>, classId: Option<ClassId>, level: int,
    x: int, y: int, z: int, online: bool, state: Option<string>)

  /** The state label of a persisted character that is not live. */
  const OfflineState: string := "OFFLINE"

  /**
   * `ClassId.VALUES[classid]` when the raw column value indexes the enum (`values` are the
   * constants' names, in ordinal order), and null otherwise.
   */
  function ResolveClassId(values: seq<string>, raw: int): (r: Option<ClassId>)
    ensures r.None? <==> raw < 0 || raw >= |values|
    ensures r.Some? ==> r.value.id == raw && r.value.name == values[raw]
  {
    if 0 <= raw < |values| then Some(ClassId(raw, values[raw])) else None
  }

  /** The row a live-only player contributes: everything comes from the live player. */
  function RowOfLive(id: int, fp: LivePlayer): (r: FakeRow)
    ensures r.objectId == id && r.online
    ensures r.name == fp.name && r.classId == fp.classId && r.level == fp.level
    ensures r.x == fp.x && r.y == fp.y && r.z == fp.z && r.state == fp.action
  {
    FakeRow(id, fp.name, fp.classId, fp.level, fp.x, fp.y, fp.z, true, fp.action)
  }

  /**
   * The row of a persisted character: name, class and level from the store; position and
   * state from the live player when there is one, from the store (and "OFFLINE") otherwise.
   */
  function RowOfRecord(c: Character, live: map<int, LivePlayer>, values: seq<string>): (r: FakeRow)
    ensures r.objectId == c.objId && r.name == c.charName && r.level == c.level
    ensures r.classId.None? <==> c.classId < 0 || c.classId >= |values|
    ensures r.online <==> c.objId in live
    ensures r.online ==>
      var fp := live[c.objId];
      r.x == fp.x && r.y == fp.y && r.z == fp.z && r.state == fp.action
    ensures !r.online ==> r.x == c.x && r.y == c.y && r.z == c.z && r.state == Some(OfflineState)
  {
    var cid := ResolveClassId(values, c.classId);
    if c.objId in live then
      var fp := live[c.objId];
      FakeRow(c.objId, c.charName, cid, c.level, fp.x, fp.y, fp.z, true, fp.action)
    else
      FakeRow(c.objId, c.charName, cid, c.level, c.x, c.y, c.z, false, Some(OfflineState))
  }

  /** The object ids of `rows`, in order. */
  function RowIds(rows: seq<FakeRow>): (r: seq<int>)
    ensures |r| == |rows| && forall i :: 0 <= i < |rows| ==> r[i] == rows[i].objectId
  {
    seq(|rows|, i requires 0 <= i < |rows| => rows[i].objectId)
  }
}
