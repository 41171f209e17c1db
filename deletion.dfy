/**
 * The database side of `FakeAdminService`: `deleteCharAndMaybeAccount`, which unregisters the
 * name and then deletes one character in a transaction, and `deletePinnedDb`, which takes
 * every pinned player out of the world and deletes it. The transaction works on a copy of
 * the committed store and publishes it only on commit; any statement may throw, and then
 * the copy is dropped.
 */
module Deletion {
  import opened Common
  import opened Schema
  import opened DeletionPlan
  import opened Runtime
  import opened Lifecycle

  /** The committed state of the database behind `ConnectionPool`. */
  class Database {
    var store: Store

    constructor (store: Store)
      ensures this.store == store
    {
      this.store := store;
    }
  }

  /** Whether one JDBC call throws `SQLException`; the model leaves it open. */
  method Throws() returns (thrown: bool) {
    thrown :| true;
  }

  /**
   * `deleteCharacterDataUsingCoreSql`: the nineteen statements of the plan, in order, on the
   * transaction's copy. `None` is the exception one of them throws.
   */
  method DeleteCharacterData(work: Store, objectId: int) returns (r: Option<Store>)
    ensures r.Some? ==> r.value == CharacterDataRemoved(work, objectId)
  {
    var s := work;
    for i := 0 to |Plan|
      invariant s == ApplyPlan(work, objectId, Plan[..i])
    {
      var thrown := Throws();
      if thrown {
        return None;
      }
      assert Plan[..i + 1][..i] == Plan[..i];
      s := ApplyStep(s, objectId, Plan[i]);
    }
    assert Plan[..|Plan|] == Plan;
    PlanRemovesCharacterData(work, objectId);
    return Some(s);
  }

  /**
   * `deleteCharAndMaybeAccount`: a non-positive id is refused outright. Otherwise the name
   * is unregistered first, outside the transaction and for good; then the transaction looks
   * up the owning account (a missing character or an empty account name rolls back), deletes
   * the character's data, counts what is left on the account, deletes the account when
   * nothing is, and commits. Any exception leaves the committed store as it was.
   */
  method DeleteCharAndMaybeAccount(world: World, db: Database, objectId: int) returns (ok: bool)
    modifies world, db
    ensures objectId <= 0 ==> !ok && world.named == old(world.named)
    ensures objectId > 0 ==> world.named == old(world.named) - {objectId}
    ensures world.live == old(world.live)
    ensures !ok ==> db.store == old(db.store)
    ensures ok ==>
      objectId > 0 && objectId in old(db.store).characters
      && old(db.store).characters[objectId].accountName != ""
      && db.store == AfterDelete(old(db.store), objectId)
    ensures objectId !in old(db.store).characters ==> !ok
  {
    if objectId <= 0 {
      return false;
    }
    world.Unregister(objectId);
    var thrown := Throws();
    if thrown {
      return false;
    }
    var work := db.store;
    var accountName := GetAccountNameByObjId(work, objectId);
    if accountName.None? || accountName.value == "" {
      return false;
    }
    var removed := DeleteCharacterData(work, objectId);
    if removed.None? {
      return false;
    }
    work := removed.value;
    thrown := Throws();
    if thrown {
      return false;
    }
    var remaining := CountCharsByAccount(work, accountName.value);
    if remaining == 0 {
      thrown := Throws();
      if thrown {
        return false;
      }
      work := DeleteAccount(work, accountName.value);
    }
    thrown := Throws();
    if thrown {
      return false;
    }
    db.store := work;
    return true;
  }

  /** The ids among `ids` that the delete unregisters: the positive ones. */
  function Positive(ids: set<int>): set<int> {
    set id | id in ids && id > 0
  }

  /**
   * `deletePinnedDb`: every pinned player is taken out of the world, and then deleted from
   * the database; the count is the number of deletes that committed. The despawn stands
   * even when the delete fails, and so does the name unregistration.
   */
  method DeletePinnedDb(world: World, db: Database, pinned: set<int>) returns (r: Result<nat>, ghost order: seq<int>)
    modifies world, db
    ensures pinned == {} ==>
      r == Err(NoPinned) && world.live == old(world.live) && world.named == old(world.named) && db.store == old(db.store)
    ensures pinned != {} ==>
      var gone := old(db.store).characters.Keys - db.store.characters.Keys;
      r == Ok(|gone|) && r.value <= |pinned|
      && gone <= pinned
      && IsEnumeration(order, gone) && |order| == r.value
      && db.store == AfterDeleteAll(old(db.store), order)
      && db.store.characters.Keys <= old(db.store).characters.Keys
      && (forall id :: id in db.store.characters ==> db.store.characters[id] == old(db.store).characters[id])
      && world.live == old(world.live) - pinned
      && world.named == old(world.named) - Positive(pinned)
  {
    if pinned == {} {
      return Err(NoPinned), [];
    }
    ghost var live0, named0, chars0, store0 := world.live, world.named, db.store.characters, db.store;
    ghost var done: set<int> := {};
    ghost var gone: set<int> := {};
    order := [];
    var deleted := 0;
    var remaining := pinned;
    while remaining != {}
      invariant remaining <= pinned && done == pinned - remaining
      invariant world.live == live0 - done
      invariant world.named == named0 - Positive(done)
      invariant Shrunk(chars0, db.store.characters, gone) && gone <= done
      invariant deleted == |gone|
      invariant IsEnumeration(order, gone) && db.store == AfterDeleteAll(store0, order)
      decreases |remaining|
    {
      Inhabited(remaining);
      var objId :| objId in remaining;
      ghost var live1, named1, chars1, store1 := world.live, world.named, db.store.characters, db.store;
      remaining := remaining - {objId};
      var ok := DespawnAndDelete(world, db, objId);
      PinnedStep(live0, named0, chars0, live1, named1, chars1, world.live, world.named, db.store.characters, done, gone, objId, ok);
      if ok {
        DeletedStep(store0, order, gone, objId);
        order := order + [objId];
        gone := gone + {objId};
        deleted := deleted + 1;
      }
      done := done + {objId};
    }
    assert done == pinned;
    SubsetCardinality(gone, pinned);
    ShrunkFinal(chars0, db.store.characters, gone);
    assert world.live == old(world.live) - pinned;
    assert world.named == old(world.named) - Positive(pinned);
    assert old(db.store).characters.Keys - db.store.characters.Keys == gone;
    DistinctCardinality(order);
    return Ok(deleted), order;
  }

  /** One more committed delete extends the record of the deletes so far. */
  lemma DeletedStep(store0: Store, order: seq<int>, gone: set<int>, objId: int)
    requires IsEnumeration(order, gone) && objId !in gone
    ensures IsEnumeration(order + [objId], gone + {objId})
    ensures AfterDeleteAll(store0, order + [objId]) == AfterDelete(AfterDeleteAll(store0, order), objId)
  {
    ElementsAppend(order, objId);
    assert (order + [objId])[..|order|] == order;
  }

  /** One pass of the loop of `deletePinnedDb`: out of the world if live, then out of the database. */
  method DespawnAndDelete(world: World, db: Database, objId: int) returns (ok: bool)
    modifies world, db
    ensures world.live == old(world.live) - {objId}
    ensures world.named == if objId > 0 then old(world.named) - {objId} else old(world.named)
    ensures !ok ==> db.store == old(db.store)
    ensures ok ==> objId in old(db.store).characters && db.store == AfterDelete(old(db.store), objId)
    ensures ok ==> db.store.characters == old(db.store).characters - {objId}
  {
    if objId in world.live {
      world.Despawn(objId);
    }
    ghost var before := db.store;
    ok := DeleteCharAndMaybeAccount(world, db, objId);
    AfterDeleteCharacters(before, objId);
  }

  /** One pass keeps the loop's description of the registry, the names and the characters. */
  lemma PinnedStep(live0: map<int, LivePlayer>, named0: set<int>, chars0: map<int, Character>,
                   live1: map<int, LivePlayer>, named1: set<int>, chars1: map<int, Character>,
                   live2: map<int, LivePlayer>, named2: set<int>, chars2: map<int, Character>,
                   done: set<int>, gone: set<int>, objId: int, ok: bool)
    requires objId !in done
    requires live1 == live0 - done && named1 == named0 - Positive(done)
    requires Shrunk(chars0, chars1, gone) && gone <= done
    requires live2 == live1 - {objId}
    requires named2 == if objId > 0 then named1 - {objId} else named1
    requires !ok ==> chars2 == chars1
    requires ok ==> objId in chars1 && chars2 == chars1 - {objId}
    ensures live2 == live0 - (done + {objId}) && named2 == named0 - Positive(done + {objId})
    ensures var now := if ok then gone + {objId} else gone;
      Shrunk(chars0, chars2, now) && now <= done + {objId} && (ok ==> objId !in gone)
  {
    RemoveStep(live0, done, objId);
    assert Positive(done + {objId}) == Positive(done) + (if objId > 0 then {objId} else {});
    if ok {
      ShrinkStep(chars0, chars1, gone, objId);
    }
  }

  /** `chars` is `chars0` without the ids `gone`, which all had a row there. */
  ghost predicate Shrunk(chars0: map<int, Character>, chars: map<int, Character>, gone: set<int>) {
    gone <= chars0.Keys && chars == chars0 - gone
  }

  /** Deleting one more character that is still there keeps the map shrunk. */
  lemma ShrinkStep(chars0: map<int, Character>, chars: map<int, Character>, gone: set<int>, id: int)
    requires Shrunk(chars0, chars, gone) && id in chars
    ensures Shrunk(chars0, chars - {id}, gone + {id})
    ensures id !in gone
  {
  }

  /** What a shrunk map says about the characters that went and the ones that stayed. */
  lemma ShrunkFinal(chars0: map<int, Character>, chars: map<int, Character>, gone: set<int>)
    requires Shrunk(chars0, chars, gone)
    ensures chars0.Keys - chars.Keys == gone && chars.Keys <= chars0.Keys
    ensures forall id :: id in chars ==> chars[id] == chars0[id]
  {
  }
}
