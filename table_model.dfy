/**
 * `FakeTableModel`: the rows the console displays and the set of pinned object ids, which
 * is the selection every bulk command acts on. Pins are kept by id, so they survive a
 * change of the displayed rows. `Option<int>` stands for a nullable `Integer`.
 */
module TableModel {
  import opened Common
  import opened JavaString
  import opened FakeRows

  /** A value the table hands to `setValueAt`: a `Boolean`, or any other object (or null). */
  datatype CellInput = BoolInput(b: bool) | OtherInput

  /** A value `getValueAt` returns: a `Boolean`, an `Integer` or a (nullable) `String`. */
  datatype Cell = BoolCell(b: bool) | IntCell(i: int) | TextCell(s: Option<string>)

  /** The object ids of `rows`, as a set. */
  function IdSet(rows: seq<FakeRow>): set<int> {
    set i | 0 <= i < |rows| :: rows[i].objectId
  }

  /** The non-null ids of `ids`, as a set. */
  function NonNull(ids: seq<Option<int>>): set<int> {
    set i | 0 <= i < |ids| && ids[i].Some? :: ids[i].value
  }

  lemma IdSetStep(rows: seq<FakeRow>, i: nat)
    requires i < |rows|
    ensures IdSet(rows[..i + 1]) == IdSet(rows[..i]) + {rows[i].objectId}
  {
    assert forall k :: 0 <= k < i ==> rows[..i + 1][k] == rows[..i][k];
    assert rows[..i + 1][i] == rows[i];
  }

  lemma NonNullStep(ids: seq<Option<int>>, i: nat)
    requires i < |ids|
    ensures NonNull(ids[..i + 1]) == NonNull(ids[..i]) + (if ids[i].Some? then {ids[i].value} else {})
  {
    assert forall k :: 0 <= k < i ==> ids[..i + 1][k] == ids[..i][k];
    assert ids[..i + 1][i] == ids[i];
  }

  /** The text of the class column: the class name with `_` shown as a space, or "UNKNOWN". */
  function ClassLabel(r: FakeRow): (text: string)
    ensures r.classId.None? ==> text == "UNKNOWN"
    ensures r.classId.Some? ==> |text| == |r.classId.value.name| && forall i :: 0 <= i < |text| ==> text[i] != '_'
    ensures r.classId.Some? ==> forall i :: 0 <= i < |text| && r.classId.value.name[i] == '_' ==> text[i] == ' '
    ensures r.classId.Some? ==> forall i :: 0 <= i < |text| && r.classId.value.name[i] != '_' ==> text[i] == r.classId.value.name[i]
  {
    if r.classId.Some? then ReplaceChar(r.classId.value.name, '_', ' ') else "UNKNOWN"
  }

  /** The text of the state column: the state, or "ONLINE"/"OFFLINE" by the online flag when it is null. */
  function StateLabel(r: FakeRow): (text: string)
    ensures r.state.Some? ==> text == r.state.value
    ensures r.state.None? ==> (text == "ONLINE" <==> r.online) && (text == "OFFLINE" <==> !r.online)
  {
    if r.state.Some? then r.state.value else if r.online then "ONLINE" else "OFFLINE"
  }

  class FakeTableModel {
    /** The displayed rows. */
    var data: seq<FakeRow>
    /** The pinned object ids. */
    var pinned: set<int>

    constructor ()
      ensures data == [] && pinned == {}
    {
      data := [];
      pinned := {};
    }

    /** `setData`: the rows are replaced; the pins stay, including those of ids no longer shown. */
    method SetData(list: seq<FakeRow>)
      modifies this
      ensures data == list
      ensures pinned == old(pinned)
    {
      data := list;
    }

    /** `getAt`: the row at that index, or null when it is out of range. */
    function GetAt(row: int): (r: Option<FakeRow>)
      reads this
      ensures r.None? <==> row < 0 || row >= |data|
      ensures r.Some? ==> r.value == data[row]
    {
      if row < 0 || row >= |data| then None else Some(data[row])
    }

    /** `isPinned`: whether the id is among the pins, shown or not. */
    predicate IsPinned(objectId: int): (b: bool)
      reads this
      ensures b <==> objectId in pinned
    {
      objectId in pinned
    }

    /** `pin`: the id joins the pins; pinning a pinned id changes nothing. */
    method Pin(objectId: int)
      modifies this
      ensures pinned == old(pinned) + {objectId}
      ensures old(objectId in pinned) ==> pinned == old(pinned)
      ensures IsPinned(objectId)
      ensures data == old(data)
    {
      pinned := pinned + {objectId};
    }

    /** `unpin`: the id leaves the pins; unpinning an id that is not pinned changes nothing. */
    method Unpin(objectId: int)
      modifies this
      ensures pinned == old(pinned) - {objectId}
      ensures old(objectId !in pinned) ==> pinned == old(pinned)
      ensures !IsPinned(objectId)
      ensures data == old(data)
    {
      pinned := pinned - {objectId};
    }

    /**
     * `getPinnedIds`: a copy of the pins. Sets are values here, so nothing done to the copy
     * can reach the model's own set.
     */
    method GetPinnedIds() returns (ids: set<int>)
      ensures ids == pinned
    {
      ids := pinned;
    }

    /** `hasPinned`. */
    function HasPinned(): (b: bool)
      reads this
      ensures b <==> pinned != {}
    {
      pinned != {}
    }

    /** `getPinnedCount`. */
    function GetPinnedCount(): (n: nat)
      reads this
      ensures n == 0 <==> pinned == {}
    {
      |pinned|
    }

    /** `clearPins`; `changed` says whether a change notification fires. */
    method ClearPins() returns (changed: bool)
      modifies this
      ensures pinned == {}
      ensures changed <==> old(pinned) != {}
      ensures data == old(data)
    {
      if pinned == {} {
        return false;
      }
      pinned := {};
      return true;
    }

    /**
     * `setPinnedForAllRows`: pin (or unpin) every displayed row; `changed` says whether some
     * pin was added (or removed), which is when a change notification fires.
     */
    method SetPinnedForAllRows(value: bool) returns (changed: bool)
      modifies this
      ensures value ==> pinned == old(pinned) + IdSet(data)
      ensures !value ==> pinned == old(pinned) - IdSet(data)
      ensures changed <==> pinned != old(pinned)
      ensures data == old(data)
    {
      changed := false;
      for i := 0 to |data|
        invariant data == old(data)
        invariant value ==> pinned == old(pinned) + IdSet(data[..i])
        invariant !value ==> pinned == old(pinned) - IdSet(data[..i])
        invariant changed <==> pinned != old(pinned)
      {
        var id := data[i].objectId;
        var effective := if value then id !in pinned else id in pinned;
        pinned := if value then pinned + {id} else pinned - {id};
        changed := changed || effective;
        IdSetStep(data, i);
      }
      assert data[..|data|] == data;
    }

    /**
     * `setPinnedForIds`: pin (or unpin) every non-null id of `ids`; `changed` says whether
     * some pin was added (or removed).
     */
    method SetPinnedForIds(ids: seq<Option<int>>, value: bool) returns (changed: bool)
      modifies this
      ensures value ==> pinned == old(pinned) + NonNull(ids)
      ensures !value ==> pinned == old(pinned) - NonNull(ids)
      ensures changed <==> pinned != old(pinned)
      ensures data == old(data)
    {
      changed := false;
      for i := 0 to |ids|
        invariant data == old(data)
        invariant value ==> pinned == old(pinned) + NonNull(ids[..i])
        invariant !value ==> pinned == old(pinned) - NonNull(ids[..i])
        invariant changed <==> pinned != old(pinned)
      {
        NonNullStep(ids, i);
        if ids[i].None? {
          continue;
        }
        var id := ids[i].value;
        var effective := if value then id !in pinned else id in pinned;
        pinned := if value then pinned + {id} else pinned - {id};
        changed := changed || effective;
      }
      assert ids[..|ids|] == ids;
    }

    /**
     * `setValueAt`: only the checkbox column of an existing row is editable; a `Boolean` true
     * pins the row's id and any other value unpins it.
     */
    method SetValueAt(value: CellInput, row: int, col: int)
      modifies this
      ensures col != 0 || GetAt(row).None? ==> pinned == old(pinned)
      ensures col == 0 && old(GetAt(row)).Some? ==>
        var id := old(data)[row].objectId;
        pinned == if value == BoolInput(true) then old(pinned) + {id} else old(pinned) - {id}
      ensures data == old(data)
    {
      if col != 0 {
        return;
      }
      var r := GetAt(row);
      if r.None? {
        return;
      }
      var v := if value.BoolInput? then value.b else false;
      if v {
        pinned := pinned + {r.value.objectId};
      } else {
        pinned := pinned - {r.value.objectId};
      }
    }

    /** `getValueAt` on an existing row: the pin checkbox, the online flag, name, class, level and state. */
    function GetValueAt(row: int, col: int): (c: Cell)
      requires 0 <= row < |data|
      reads this
      ensures col == 0 ==> c == BoolCell(IsPinned(data[row].objectId))
      ensures col == 1 ==> c == BoolCell(data[row].online)
      ensures col == 2 ==> c == TextCell(data[row].name)
      ensures col == 3 ==> c == TextCell(Some(ClassLabel(data[row])))
      ensures col == 4 ==> c == IntCell(data[row].level)
      ensures col == 5 ==> c == TextCell(Some(StateLabel(data[row])))
      ensures !(0 <= col <= 5) ==> c == TextCell(Some(""))
    {
      var r := data[row];
      if col == 0 then BoolCell(IsPinned(r.objectId))
      else if col == 1 then BoolCell(r.online)
      else if col == 2 then TextCell(r.name)
      else if col == 3 then TextCell(Some(ClassLabel(r)))
      else if col == 4 then IntCell(r.level)
      else if col == 5 then TextCell(Some(StateLabel(r)))
      else TextCell(Some(""))
    }
  }

  /** There is a pin exactly when the pin count is positive. */
  lemma HasPinnedIffCount(m: FakeTableModel)
    ensures m.HasPinned() <==> m.GetPinnedCount() > 0
  {
  }
}
