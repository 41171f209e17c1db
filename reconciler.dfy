/**
 * `FakeAdminService.loadAllRows`: the persisted characters of the fake accounts, merged with
 * the live registry. The character rows the two nested queries deliver are a parameter (one
 * sequence per fake account, in the order the account query returns them), and so is the
 * point where a query throws: `failure == Some(k)` means that the exception ends the reading
 * after `k` character rows.
 */
module Reconciler {
  import opened Common
  import opened Schema
  import opened Runtime
  import opened FakeRows

  /** `LinkedHashMap<Integer, FakeRow>`: the keys in insertion order and the value of each. */
  datatype LinkedRows = LinkedRows(keys: seq<int>, vals: map<int, FakeRow>) {
    ghost predicate Valid() {
      Distinct(keys) && forall k :: k in vals <==> k in keys
    }

    /** `put`: a new key goes last; a key already present keeps its place and takes the new value. */
    function Put(k: int, v: FakeRow): (r: LinkedRows)
      requires Valid()
      ensures r.Valid()
      ensures r.keys == if k in keys then keys else keys + [k]
      ensures r.vals == vals[k := v]
    {
      if k in vals then LinkedRows(keys, vals[k := v]) else LinkedRows(keys + [k], vals[k := v])
    }

    /** `values()`, in insertion order. */
    function Values(): (r: seq<FakeRow>)
      requires Valid()
      ensures |r| == |keys|
      ensures forall i :: 0 <= i < |keys| ==> keys[i] in vals && r[i] == vals[keys[i]]
      ensures forall k :: k in vals ==> vals[k] in r
    {
      assert forall i :: 0 <= i < |keys| ==> keys[i] in vals by {
        forall i | 0 <= i < |keys| ensures keys[i] in vals {
          var k := keys[i];
          assert k in keys;
        }
      }
      seq(|keys|, i requires 0 <= i < |keys| => vals[keys[i]])
    }
  }

  /** The rows of every account query, in delivery order. */
  function Flatten(batches: seq<seq<Character>>): seq<Character> {
    if batches == [] then [] else Flatten(batches[..|batches| - 1]) + batches[|batches| - 1]
  }

  /** The character rows read before the failure, if any. */
  function Processed(batches: seq<seq<Character>>, failure: Option<nat>): seq<Character> {
    var all := Flatten(batches);
    if failure.Some? && failure.value < |all| then all[..failure.value] else all
  }

  /** The object ids of `recs`, in order. */
  function Ids(recs: seq<Character>): (r: seq<int>)
    ensures |r| == |recs| && forall i :: 0 <= i < |recs| ==> r[i] == recs[i].objId
  {
    seq(|recs|, i requires 0 <= i < |recs| => recs[i].objId)
  }

  /** The distinct elements of `s`, in order of first occurrence. */
  function FirstOccurrences(s: seq<int>): (r: seq<int>)
    ensures Distinct(r)
    ensures forall x :: x in r <==> x in s
  {
    if s == [] then []
    else
      var d := FirstOccurrences(s[..|s| - 1]);
      assert forall x :: x in s <==> x in s[..|s| - 1] || x == s[|s| - 1];
      if s[|s| - 1] in d then d else d + [s[|s| - 1]]
  }

  /** The ids of `order` that no record in `recs` carries, in the order of `order`. */
  function LiveOnly(order: seq<int>, recs: seq<Character>): (r: seq<int>)
    ensures forall x :: x in r <==> x in order && x !in Ids(recs)
    ensures Distinct(order) ==> Distinct(r)
  {
    if order == [] then []
    else
      var init := order[..|order| - 1];
      var last := order[|order| - 1];
      assert forall x :: x in order <==> x in init || x == last;
      LiveOnly(init, recs) + (if last in Ids(recs) then [] else [last])
  }

  /** The record a load keeps for `id`: the last one delivered, since a later `put` overwrites. */
  function LastRecord(recs: seq<Character>, id: int): (c: Character)
    requires id in Ids(recs)
    ensures c in recs && c.objId == id
    ensures exists i :: 0 <= i < |recs| && recs[i] == c && forall j :: i < j < |recs| ==> recs[j].objId != id
  {
    var n := |recs|;
    if recs[n - 1].objId == id then recs[n - 1]
    else
      assert Ids(recs) == Ids(recs[..n - 1]) + [recs[n - 1].objId];
      LastRecord(recs[..n - 1], id)
  }

  /** The keys a load ends with: the persisted ids by first delivery, then the live-only ids. */
  function ReconciledKeys(recs: seq<Character>, order: seq<int>): seq<int> {
    FirstOccurrences(Ids(recs)) + LiveOnly(order, recs)
  }

  /** The row a load ends with for `id`. */
  function ExpectedRow(recs: seq<Character>, live: map<int, LivePlayer>, values: seq<string>, id: int): (r: FakeRow)
    requires id in Ids(recs) || id in live
    ensures r.objectId == id
  {
    if id in Ids(recs) then RowOfRecord(LastRecord(recs, id), live, values) else RowOfLive(id, live[id])
  }

  /** What a load of `recs` returns, given the live registry enumerated as `order`. */
  function Reconciled(recs: seq<Character>, live: map<int, LivePlayer>, order: seq<int>, values: seq<string>): (rows: seq<FakeRow>)
    requires IsEnumeration(order, live.Keys)
    ensures |rows| == |ReconciledKeys(recs, order)|
    ensures forall i :: 0 <= i < |rows| ==> rows[i].objectId == ReconciledKeys(recs, order)[i]
  {
    var keys := ReconciledKeys(recs, order);
    assert forall id :: id in order ==> id in live by {
      forall id | id in order ensures id in live {
        var i :| 0 <= i < |order| && order[i] == id;
        assert id in Elements(order);
      }
    }
    seq(|keys|, i requires 0 <= i < |keys| => ExpectedRow(recs, live, values, keys[i]))
  }

  lemma {:induction false} FlattenPrefix(batches: seq<seq<Character>>, a: nat)
    requires a <= |batches|
    ensures Flatten(batches[..a]) <= Flatten(batches)
    decreases |batches| - a
  {
    if a < |batches| {
      assert batches[..a + 1][..a] == batches[..a];
      FlattenPrefix(batches, a + 1);
    } else {
      assert batches[..a] == batches;
    }
  }

  /** The map a load holds once the persisted records are read: one entry per id, the last record winning. */
  ghost predicate HoldsRecords(m: LinkedRows, recs: seq<Character>, live: map<int, LivePlayer>, values: seq<string>) {
    m.Valid()
    && m.keys == FirstOccurrences(Ids(recs))
    && forall k :: k in m.vals ==> k in Ids(recs) && m.vals[k] == RowOfRecord(LastRecord(recs, k), live, values)
  }

  /**
   * The `try` block of the load: the nested result-set loops fill the ordered map until the
   * rows run out or the reading fails; what was put before the failure stays.
   */
  method ReadPersisted(live: map<int, LivePlayer>, batches: seq<seq<Character>>, failure: Option<nat>, values: seq<string>)
    returns (m: LinkedRows)
    ensures HoldsRecords(m, Processed(batches, failure), live, values)
  {
    m := LinkedRows([], map[]);
    var read := 0;
    ghost var consumed: seq<Character> := [];
    var a := 0;
    while a < |batches|
      invariant 0 <= a <= |batches|
      invariant consumed == Flatten(batches[..a]) && read == |consumed|
      invariant failure.Some? ==> read <= failure.value
      invariant HoldsRecords(m, consumed, live, values)
    {
      var b, failed;
      m, b, failed := ReadAccount(live, batches[a], m, consumed, read, failure, values);
      if failed {
        ReadPrefix(batches, a, b);
        consumed := consumed + batches[a][..b];
        break;
      }
      assert batches[a][..b] == batches[a];
      assert batches[..a + 1][..a] == batches[..a];
      consumed := consumed + batches[a];
      read := read + b;
      a := a + 1;
    }
    if a == |batches| {
      assert batches[..a] == batches;
    }
    AfterReading(batches, failure, consumed);
  }

  /**
   * The inner result-set loop over the characters of one account. It reads `b` rows, and
   * `failed` says that the next read throws.
   */
  method ReadAccount(live: map<int, LivePlayer>, batch: seq<Character>, m0: LinkedRows, ghost before: seq<Character>,
                     read: nat, failure: Option<nat>, values: seq<string>)
    returns (m: LinkedRows, b: nat, failed: bool)
    requires HoldsRecords(m0, before, live, values) && read == |before|
    requires failure.Some? ==> read <= failure.value
    ensures b <= |batch| && HoldsRecords(m, before + batch[..b], live, values)
    ensures failure.Some? ==> read + b <= failure.value
    ensures failed ==> failure == Some(read + b)
    ensures !failed ==> b == |batch|
  {
    m, b, failed := m0, 0, false;
    ghost var seen := before;
    assert before + batch[..0] == before;
    while b < |batch|
      invariant b <= |batch| && seen == before + batch[..b]
      invariant HoldsRecords(m, seen, live, values)
      invariant failure.Some? ==> read + b <= failure.value
    {
      if failure == Some(read + b) {
        return m, b, true;
      }
      var c := batch[b];
      m := PutRecord(m, seen, c, live, values);
      assert batch[..b + 1] == batch[..b] + [c];
      seen := seen + [c];
      b := b + 1;
    }
  }

  /** `rows.put(objectId, row)` for the next character row. */
  method PutRecord(m: LinkedRows, ghost seen: seq<Character>, c: Character, live: map<int, LivePlayer>, values: seq<string>)
    returns (m': LinkedRows)
    requires HoldsRecords(m, seen, live, values)
    ensures HoldsRecords(m', seen + [c], live, values)
  {
    var row := ReadRow(c, live, values);
    StepRecord(m, seen, c, live, values);
    m' := m.Put(c.objId, row);
  }

  /** The body of the inner result-set loop: one character row, overlaid by its live player if there is one. */
  method ReadRow(c: Character, live: map<int, LivePlayer>, values: seq<string>) returns (row: FakeRow)
    ensures row == RowOfRecord(c, live, values)
  {
    var x, y, z := c.x, c.y, c.z;
    var cid := ResolveClassId(values, c.classId);
    var online := c.objId in live;
    var state := Some(OfflineState);
    if online {
      var fp := live[c.objId];
      state := fp.action;
      x, y, z := fp.x, fp.y, fp.z;
    }
    row := FakeRow(c.objId, c.charName, cid, c.level, x, y, z, online, state);
  }

  /** The load: the persisted records, then every live player the map does not hold yet. */
  method LoadAllRows(world: World, batches: seq<seq<Character>>, failure: Option<nat>, liveOrder: seq<int>, values: seq<string>)
    returns (rows: seq<FakeRow>)
    requires IsEnumeration(liveOrder, world.live.Keys)
    ensures rows == Reconciled(Processed(batches, failure), world.live, liveOrder, values)
  {
    var m := ReadPersisted(world.live, batches, failure, values);
    ghost var recs := Processed(batches, failure);
    var j := 0;
    while j < |liveOrder|
      invariant 0 <= j <= |liveOrder|
      invariant HoldsMerged(m, recs, world.live, liveOrder[..j], values)
    {
      var id := liveOrder[j];
      StepLive(m, recs, world.live, liveOrder, j, values);
      if !(id in m.vals) {
        var fp := world.live[id];
        m := m.Put(id, FakeRow(id, fp.name, fp.classId, fp.level, fp.x, fp.y, fp.z, true, fp.action));
      }
      j := j + 1;
    }
    assert liveOrder[..j] == liveOrder;
    rows := m.Values();
    assert |rows| == |ReconciledKeys(recs, liveOrder)|;
  }

  /** The map once the live players of `done` are merged into the records `recs`. */
  ghost predicate HoldsMerged(m: LinkedRows, recs: seq<Character>, live: map<int, LivePlayer>, done: seq<int>, values: seq<string>) {
    HoldsKeys(m, recs, live, LiveOnly(done, recs), values)
  }

  /** The map holds the persisted ids followed by `tail`, each with the row a load ends with. */
  ghost predicate HoldsKeys(m: LinkedRows, recs: seq<Character>, live: map<int, LivePlayer>, tail: seq<int>, values: seq<string>) {
    m.Valid()
    && m.keys == FirstOccurrences(Ids(recs)) + tail
    && forall k :: k in m.vals ==> (k in Ids(recs) || k in live) && m.vals[k] == ExpectedRow(recs, live, values, k)
  }

  /** Merging the next live player keeps the append loop's description of the map. */
  lemma {:induction false} StepLive(m: LinkedRows, recs: seq<Character>, live: map<int, LivePlayer>, order: seq<int>, j: nat, values: seq<string>)
    requires IsEnumeration(order, live.Keys) && j < |order|
    requires HoldsMerged(m, recs, live, order[..j], values)
    ensures order[j] in live
    ensures order[j] in m.vals <==> order[j] in Ids(recs)
    ensures order[j] in m.vals ==> HoldsMerged(m, recs, live, order[..j + 1], values)
    ensures order[j] !in m.vals ==> HoldsMerged(m.Put(order[j], RowOfLive(order[j], live[order[j]])), recs, live, order[..j + 1], values)
  {
    var id := order[j];
    assert id in Elements(order);
    LiveOnlyStep(order, recs, j);
    if id !in Ids(recs) {
      PutLive(m, recs, live, LiveOnly(order[..j], recs), id, values);
    }
  }

  /** The live-only ids of one more registry entry: that entry is appended unless it has a record. */
  lemma {:induction false} LiveOnlyStep(order: seq<int>, recs: seq<Character>, j: nat)
    requires Distinct(order) && j < |order|
    ensures LiveOnly(order[..j + 1], recs) ==
            LiveOnly(order[..j], recs) + (if order[j] in Ids(recs) then [] else [order[j]])
    ensures order[j] !in LiveOnly(order[..j], recs)
  {
    assert order[..j + 1][..j] == order[..j];
    assert order[..j + 1][j] == order[j];
    assert order[j] !in order[..j];
  }

  /** Putting a live player that has no record extends the map by that player's row. */
  lemma {:induction false} PutLive(m: LinkedRows, recs: seq<Character>, live: map<int, LivePlayer>, tail: seq<int>, id: int, values: seq<string>)
    requires HoldsKeys(m, recs, live, tail, values)
    requires id in live && id !in Ids(recs) && id !in tail
    ensures id !in m.vals
    ensures HoldsKeys(m.Put(id, RowOfLive(id, live[id])), recs, live, tail + [id], values)
  {
    var fo := FirstOccurrences(Ids(recs));
    assert id !in fo;
    assert id !in m.keys;
    var m' := m.Put(id, RowOfLive(id, live[id]));
    assert m'.keys == (fo + tail) + [id];
    assert (fo + tail) + [id] == fo + (tail + [id]);
    forall k | k in m'.vals
      ensures (k in Ids(recs) || k in live) && m'.vals[k] == ExpectedRow(recs, live, values, k)
    {
      if k != id {
        assert k in m.vals;
      }
    }
  }

  /** The rows read before a failure inside account `a` are a prefix of all the rows. */
  lemma {:induction false} ReadPrefix(batches: seq<seq<Character>>, a: nat, b: nat)
    requires a < |batches| && b <= |batches[a]|
    ensures Flatten(batches[..a]) + batches[a][..b] <= Flatten(batches)
  {
    assert batches[..a + 1][..a] == batches[..a];
    assert Flatten(batches[..a + 1]) == Flatten(batches[..a]) + batches[a];
    FlattenPrefix(batches, a + 1);
  }

  /** One delivered record keeps the loop's description of the map. */
  lemma {:induction false} StepRecord(m: LinkedRows, consumed: seq<Character>, c: Character, live: map<int, LivePlayer>, values: seq<string>)
    requires HoldsRecords(m, consumed, live, values)
    ensures HoldsRecords(m.Put(c.objId, RowOfRecord(c, live, values)), consumed + [c], live, values)
  {
    var next := consumed + [c];
    assert Ids(next) == Ids(consumed) + [c.objId];
    assert Ids(next)[..|Ids(next)| - 1] == Ids(consumed);
    assert next[..|next| - 1] == consumed;
  }

  /** When the reading loops end, what they consumed is exactly the processed prefix. */
  lemma AfterReading(batches: seq<seq<Character>>, failure: Option<nat>, consumed: seq<Character>)
    requires consumed <= Flatten(batches) || consumed == Flatten(batches)
    requires consumed == Flatten(batches) || (failure.Some? && failure.value == |consumed|)
    requires failure.Some? ==> |consumed| <= failure.value
    ensures consumed == Processed(batches, failure)
  {
  }

  /** The ids of a load are its keys: the persisted ids by first delivery, then the live-only ids in registry order. */
  lemma ReconciledIds(recs: seq<Character>, live: map<int, LivePlayer>, order: seq<int>, values: seq<string>)
    requires IsEnumeration(order, live.Keys)
    ensures RowIds(Reconciled(recs, live, order, values)) == FirstOccurrences(Ids(recs)) + LiveOnly(order, recs)
  {
  }

  /** No object id appears on two rows. */
  lemma ReconciledDistinct(recs: seq<Character>, live: map<int, LivePlayer>, order: seq<int>, values: seq<string>)
    requires IsEnumeration(order, live.Keys)
    ensures Distinct(RowIds(Reconciled(recs, live, order, values)))
  {
    ReconciledIds(recs, live, order, values);
    var p, q := FirstOccurrences(Ids(recs)), LiveOnly(order, recs);
    forall i, j | 0 <= i < j < |p + q| ensures (p + q)[i] != (p + q)[j] {
      if i < |p| && j >= |p| {
        assert (p + q)[i] in p && (p + q)[j] in q;
      }
    }
  }

  /** A row exists for exactly the persisted ids and the live ids: every live player is listed, failure or not. */
  lemma ReconciledCovers(recs: seq<Character>, live: map<int, LivePlayer>, order: seq<int>, values: seq<string>)
    requires IsEnumeration(order, live.Keys)
    ensures forall id :: id in RowIds(Reconciled(recs, live, order, values)) <==> id in Ids(recs) || id in live
  {
    ReconciledIds(recs, live, order, values);
    forall id ensures id in order <==> id in live {
      if id in order {
        var i :| 0 <= i < |order| && order[i] == id;
        assert id in Elements(order);
      }
    }
  }

  /** The persisted rows come first: a row after a persisted row is persisted too. */
  lemma ReconciledPersistedFirst(recs: seq<Character>, live: map<int, LivePlayer>, order: seq<int>, values: seq<string>)
    requires IsEnumeration(order, live.Keys)
    ensures var rows := Reconciled(recs, live, order, values);
      forall i, j :: 0 <= i < j < |rows| && rows[j].objectId in Ids(recs) ==> rows[i].objectId in Ids(recs)
  {
    var rows := Reconciled(recs, live, order, values);
    ReconciledIds(recs, live, order, values);
    var p, q := FirstOccurrences(Ids(recs)), LiveOnly(order, recs);
    forall i, j | 0 <= i < j < |rows| && rows[j].objectId in Ids(recs) ensures rows[i].objectId in Ids(recs) {
      assert RowIds(rows)[j] == rows[j].objectId && RowIds(rows)[i] == rows[i].objectId;
      ConcatPart(p, q, i);
      ConcatPart(p, q, j);
    }
  }

  /** An element of a concatenation comes from the part its index falls in. */
  lemma ConcatPart(p: seq<int>, q: seq<int>, k: int)
    requires 0 <= k < |p + q|
    ensures k < |p| ==> (p + q)[k] in p
    ensures k >= |p| ==> (p + q)[k] in q
  {
    if k >= |p| {
      assert (p + q)[k] == q[k - |p|];
    }
  }

  /**
   * A live id's row is online and takes position and state from the live player; any other
   * row is offline, in state "OFFLINE", at the position of its last delivered record.
   */
  lemma ReconciledOnline(recs: seq<Character>, live: map<int, LivePlayer>, order: seq<int>, values: seq<string>)
    requires IsEnumeration(order, live.Keys)
    ensures var rows := Reconciled(recs, live, order, values);
      forall i :: 0 <= i < |rows| ==>
        var id := rows[i].objectId;
        (rows[i].online <==> id in live)
        && (id in live ==> rows[i].x == live[id].x && rows[i].y == live[id].y && rows[i].z == live[id].z
                           && rows[i].state == live[id].action)
        && (id !in live ==> id in Ids(recs) && rows[i].state == Some(OfflineState)
                            && rows[i].x == LastRecord(recs, id).x && rows[i].y == LastRecord(recs, id).y
                            && rows[i].z == LastRecord(recs, id).z)
  {
    var rows := Reconciled(recs, live, order, values);
    ReconciledIds(recs, live, order, values);
    forall i | 0 <= i < |rows| ensures rows[i] == ExpectedRow(recs, live, values, rows[i].objectId) {
      assert RowIds(rows)[i] == rows[i].objectId;
    }
  }

  /** A persisted row takes name, level and class from its last delivered record; the class is null exactly when the raw value is out of range. */
  lemma ReconciledRecordFields(recs: seq<Character>, live: map<int, LivePlayer>, order: seq<int>, values: seq<string>)
    requires IsEnumeration(order, live.Keys)
    ensures var rows := Reconciled(recs, live, order, values);
      forall i :: 0 <= i < |rows| && rows[i].objectId in Ids(recs) ==>
        var c := LastRecord(recs, rows[i].objectId);
        rows[i].name == c.charName && rows[i].level == c.level
        && (rows[i].classId.None? <==> c.classId < 0 || c.classId >= |values|)
  {
    var rows := Reconciled(recs, live, order, values);
    ReconciledIds(recs, live, order, values);
    forall i | 0 <= i < |rows| ensures rows[i] == ExpectedRow(recs, live, values, rows[i].objectId) {
      assert RowIds(rows)[i] == rows[i].objectId;
    }
  }

  /** Reading fewer records never reorders the first occurrences: they are a prefix of those of every longer read. */
  lemma {:induction false} FirstOccurrencesPrefix(s: seq<int>, k: nat)
    requires k <= |s|
    ensures FirstOccurrences(s[..k]) <= FirstOccurrences(s)
    decreases |s| - k
  {
    if k == |s| {
      assert s[..k] == s;
    } else {
      FirstOccurrencesPrefix(s[..|s| - 1], k);
      assert s[..|s| - 1][..k] == s[..k];
    }
  }

  /** A load that fails lists first the persisted ids of a complete load's leading rows, in the same order. */
  lemma PartialLoadPrefix(batches: seq<seq<Character>>, failure: Option<nat>)
    ensures FirstOccurrences(Ids(Processed(batches, failure))) <= FirstOccurrences(Ids(Flatten(batches)))
  {
    var all := Flatten(batches);
    if failure.Some? && failure.value < |all| {
      assert Ids(all[..failure.value]) == Ids(all)[..failure.value];
      FirstOccurrencesPrefix(Ids(all), failure.value);
    }
  }
}
