/**
 * The cascading delete of one character as a declarative, ordered list of steps, each a
 * `DELETE` statement keyed by the character's object id, and what the whole list does to a
 * store snapshot.
 */
module DeletionPlan {
  import opened Common
  import opened Schema

  /** One `DELETE` statement of the cascade. */
  datatype Step =
    | DeleteFriends                    // character_friends WHERE char_id=? OR friend_id=?
    | DeleteCharRows(table: CharTable) // <table> WHERE <character id column>=?
    | DeletePetsOfOwnedItems           // pets WHERE item_obj_id IN (items owned by ?)
    | DeleteAugmentationsOfOwnedItems  // augmentations WHERE item_id IN (items owned by ?)
    | DeleteOwnedItems                 // items WHERE owner_id=?
    | DeleteCharacterRow               // characters WHERE obj_id=?

  /** The nineteen statements, in the order the transaction issues them. */
  const Plan: seq<Step> := [
    DeleteFriends,
    DeleteCharRows(Hennas),
    DeleteCharRows(Macroses),
    DeleteCharRows(Memo),
    DeleteCharRows(MemoAlt),
    DeleteCharRows(Quests),
    DeleteCharRows(RecipeBook),
    DeleteCharRows(Shortcuts),
    DeleteCharRows(Skills),
    DeleteCharRows(SkillsSave),
    DeleteCharRows(Subclasses),
    DeleteCharRows(Heroes),
    DeleteCharRows(OlympiadNobles),
    DeleteCharRows(SevenSigns),
    DeletePetsOfOwnedItems,
    DeleteAugmentationsOfOwnedItems,
    DeleteOwnedItems,
    DeleteCharRows(RaidPoints),
    DeleteCharacterRow
  ]

  function FriendsWithout(friends: set<Friend>, id: int): set<Friend> {
    set f | f in friends && f.charId != id && f.friendId != id
  }

  function CharRowsWithout(rows: set<CharRow>, id: int): set<CharRow> {
    set r | r in rows && r.charId != id
  }

  function ItemsWithout(items: set<Item>, id: int): set<Item> {
    set it | it in items && it.ownerId != id
  }

  function ItemRowsWithout(rows: set<ItemRow>, itemIds: set<int>): set<ItemRow> {
    set r | r in rows && r.itemId !in itemIds
  }

  /**
   * The effect of one statement on the store it runs against: it only deletes, and only
   * rows keyed by the character id (or by an item the character owns); `accounts` is
   * never touched.
   */
  function ApplyStep(s: Store, id: int, step: Step): (r: Store)
    ensures r.accounts == s.accounts
    ensures r.characters == s.characters || r.characters == s.characters - {id}
    ensures r.friends <= s.friends && forall f :: f in s.friends && f !in r.friends ==> f.charId == id || f.friendId == id
    ensures r.charRows <= s.charRows && forall c :: c in s.charRows && c !in r.charRows ==> c.charId == id
    ensures r.items <= s.items && forall it :: it in s.items && it !in r.items ==> it.ownerId == id
    ensures r.pets <= s.pets && forall p :: p in s.pets && p !in r.pets ==> p.itemId in OwnedItemIds(s, id)
    ensures r.augmentations <= s.augmentations
    ensures forall a :: a in s.augmentations && a !in r.augmentations ==> a.itemId in OwnedItemIds(s, id)
  {
    match step
    case DeleteFriends => s.(friends := FriendsWithout(s.friends, id))
    case DeleteCharRows(t) => s.(charRows := set r | r in s.charRows && !(r.table == t && r.charId == id))
    case DeletePetsOfOwnedItems => s.(pets := ItemRowsWithout(s.pets, OwnedItemIds(s, id)))
    case DeleteAugmentationsOfOwnedItems =>
      s.(augmentations := ItemRowsWithout(s.augmentations, OwnedItemIds(s, id)))
    case DeleteOwnedItems => s.(items := ItemsWithout(s.items, id))
    case DeleteCharacterRow => s.(characters := s.characters - {id})
  }

  /** The statements of `plan` run one after the other. */
  function ApplyPlan(s: Store, id: int, plan: seq<Step>): Store
    decreases |plan|
  {
    if plan == [] then s
    else ApplyStep(ApplyPlan(s, id, plan[..|plan| - 1]), id, plan[|plan| - 1])
  }

  /**
   * What deleting a character's data means, stated on the snapshot: every row keyed by the
   * id is gone (both columns of `character_friends`), the pets and augmentations of the
   * items the character owned in the snapshot are gone, and nothing else changes.
   */
  function CharacterDataRemoved(s: Store, id: int): Store {
    var owned := OwnedItemIds(s, id);
    s.(friends := FriendsWithout(s.friends, id),
       charRows := CharRowsWithout(s.charRows, id),
       items := ItemsWithout(s.items, id),
       pets := ItemRowsWithout(s.pets, owned),
       augmentations := ItemRowsWithout(s.augmentations, owned),
       characters := s.characters - {id})
  }

  lemma {:induction false} PlanAppend(s: Store, id: int, a: seq<Step>, b: seq<Step>)
    ensures ApplyPlan(s, id, a + b) == ApplyPlan(ApplyPlan(s, id, a), id, b)
    decreases |b|
  {
    if b == [] {
      assert a + b == a;
    } else {
      var b' := b[..|b| - 1];
      PlanAppend(s, id, a, b');
      assert (a + b)[..|a + b| - 1] == a + b';
    }
  }

  /** No statement of any plan touches `accounts`. */
  lemma {:induction false} PlanKeepsAccounts(s: Store, id: int, p: seq<Step>)
    ensures ApplyPlan(s, id, p).accounts == s.accounts
    decreases |p|
  {
    if p != [] {
      PlanKeepsAccounts(s, id, p[..|p| - 1]);
    }
  }

  lemma {:induction false} PlanCharacters(s: Store, id: int, p: seq<Step>)
    ensures ApplyPlan(s, id, p).characters ==
            if DeleteCharacterRow in p then s.characters - {id} else s.characters
    decreases |p|
  {
    if p != [] {
      var q := p[..|p| - 1];
      PlanCharacters(s, id, q);
      assert p == q + [p[|p| - 1]];
    }
  }

  lemma {:induction false} PlanFriends(s: Store, id: int, p: seq<Step>)
    ensures ApplyPlan(s, id, p).friends ==
            if DeleteFriends in p then FriendsWithout(s.friends, id) else s.friends
    decreases |p|
  {
    if p != [] {
      var q := p[..|p| - 1];
      PlanFriends(s, id, q);
      assert p == q + [p[|p| - 1]];
    }
  }

  lemma {:induction false} PlanCharRows(s: Store, id: int, p: seq<Step>)
    ensures ApplyPlan(s, id, p).charRows ==
            set r | r in s.charRows && !(r.charId == id && DeleteCharRows(r.table) in p)
    decreases |p|
  {
    if p != [] {
      var q := p[..|p| - 1];
      PlanCharRows(s, id, q);
      assert p == q + [p[|p| - 1]];
    }
  }

  lemma {:induction false} PlanItems(s: Store, id: int, p: seq<Step>)
    ensures ApplyPlan(s, id, p).items ==
            if DeleteOwnedItems in p then ItemsWithout(s.items, id) else s.items
    decreases |p|
  {
    if p != [] {
      var q := p[..|p| - 1];
      PlanItems(s, id, q);
      assert p == q + [p[|p| - 1]];
    }
  }

  /** While the items are still there, the pet and augmentation steps see the snapshot's items. */
  lemma {:induction false} PlanItemRowsBeforeItems(s: Store, id: int, p: seq<Step>)
    requires DeleteOwnedItems !in p
    ensures ApplyPlan(s, id, p).pets ==
            if DeletePetsOfOwnedItems in p then ItemRowsWithout(s.pets, OwnedItemIds(s, id)) else s.pets
    ensures ApplyPlan(s, id, p).augmentations ==
            if DeleteAugmentationsOfOwnedItems in p
            then ItemRowsWithout(s.augmentations, OwnedItemIds(s, id)) else s.augmentations
    decreases |p|
  {
    if p != [] {
      var q := p[..|p| - 1];
      assert p == q + [p[|p| - 1]];
      PlanItemRowsBeforeItems(s, id, q);
      PlanItems(s, id, q);
    }
  }

  lemma {:induction false} PlanItemRowsUntouched(s: Store, id: int, p: seq<Step>)
    requires DeletePetsOfOwnedItems !in p && DeleteAugmentationsOfOwnedItems !in p
    ensures ApplyPlan(s, id, p).pets == s.pets
    ensures ApplyPlan(s, id, p).augmentations == s.augmentations
    decreases |p|
  {
    if p != [] {
      var q := p[..|p| - 1];
      assert p == q + [p[|p| - 1]];
      PlanItemRowsUntouched(s, id, q);
    }
  }

  /**
   * The shape of the plan: nineteen distinct statements, the pets and augmentations of the
   * owned items before the items, and the character row last.
   */
  lemma PlanOrder()
    ensures |Plan| == 19 && Distinct(Plan)
    ensures Plan[14] == DeletePetsOfOwnedItems && Plan[15] == DeleteAugmentationsOfOwnedItems
    ensures Plan[16] == DeleteOwnedItems && Plan[18] == DeleteCharacterRow
    ensures forall i :: 0 <= i < 18 ==> Plan[i] != DeleteCharacterRow
  {
  }

  /** Every one of the fourteen character-keyed tables has its statement in the plan. */
  lemma PlanCoversCharTables(t: CharTable)
    ensures DeleteCharRows(t) in Plan
  {
  }

  lemma PlanCharRowsRemoved(s: Store, id: int)
    ensures ApplyPlan(s, id, Plan).charRows == CharRowsWithout(s.charRows, id)
  {
    PlanCharRows(s, id, Plan);
    forall t: CharTable ensures DeleteCharRows(t) in Plan {
      PlanCoversCharTables(t);
    }
  }

  lemma PlanItemRowsRemoved(s: Store, id: int)
    ensures ApplyPlan(s, id, Plan).pets == ItemRowsWithout(s.pets, OwnedItemIds(s, id))
    ensures ApplyPlan(s, id, Plan).augmentations == ItemRowsWithout(s.augmentations, OwnedItemIds(s, id))
  {
    var a, b := Plan[..16], Plan[16..];
    assert Plan == a + b;
    assert DeleteOwnedItems !in a;
    assert a[14] == DeletePetsOfOwnedItems && a[15] == DeleteAugmentationsOfOwnedItems;
    assert DeletePetsOfOwnedItems !in b && DeleteAugmentationsOfOwnedItems !in b;
    PlanAppend(s, id, a, b);
    PlanItemRowsBeforeItems(s, id, a);
    PlanItemRowsUntouched(ApplyPlan(s, id, a), id, b);
  }

  /**
   * The nineteen statements in their fixed order delete exactly the character's data:
   * the pets and augmentations are looked up through the items before the items go.
   */
  lemma PlanRemovesCharacterData(s: Store, id: int)
    ensures ApplyPlan(s, id, Plan) == CharacterDataRemoved(s, id)
  {
    PlanKeepsAccounts(s, id, Plan);
    PlanCharacters(s, id, Plan);
    PlanFriends(s, id, Plan);
    PlanItems(s, id, Plan);
    PlanCharRowsRemoved(s, id);
    PlanItemRowsRemoved(s, id);
    assert DeleteCharacterRow in Plan && DeleteFriends in Plan && DeleteOwnedItems in Plan;
  }

  /** Issued the other way round, the item statement would orphan the pets of those items. */
  lemma ItemsBeforePetsOrphansPets()
    ensures var s := Store(map[], map[], {}, {}, {Item(7, 70, [])}, {ItemRow(70, [])}, {});
            ApplyPlan(s, 7, [DeleteOwnedItems, DeletePetsOfOwnedItems]).pets == {ItemRow(70, [])}
            && CharacterDataRemoved(s, 7).pets == {}
  {
    var s := Store(map[], map[], {}, {}, {Item(7, 70, [])}, {ItemRow(70, [])}, {});
    var s1 := ApplyPlan(s, 7, [DeleteOwnedItems]);
    assert [DeleteOwnedItems, DeletePetsOfOwnedItems][..1] == [DeleteOwnedItems];
    assert s1.items == {};
    assert OwnedItemIds(s1, 7) == {};
    assert 70 in OwnedItemIds(s, 7);
  }

  /**
   * The store after a committed `deleteCharAndMaybeAccount(id)`: the character's data is
   * removed and, when no character is left on the owning account, the account row too.
   */
  function AfterDelete(s: Store, id: int): Store {
    if id !in s.characters then s
    else
      var login := s.characters[id].accountName;
      var removed := CharacterDataRemoved(s, id);
      if CountCharsByAccount(removed, login) == 0 then DeleteAccount(removed, login) else removed
  }

  /** The store after the committed deletes of `ids`, one after the other. */
  function AfterDeleteAll(s: Store, ids: seq<int>): Store
    decreases |ids|
  {
    if ids == [] then s else AfterDelete(AfterDeleteAll(s, ids[..|ids| - 1]), ids[|ids| - 1])
  }

  /** A committed delete removes exactly the character's own row from `characters`. */
  lemma AfterDeleteCharacters(s: Store, id: int)
    ensures AfterDelete(s, id).characters == s.characters - {id}
  {
    if id in s.characters {
      AfterDeleteFrame(s, id);
    } else {
      assert s.characters - {id} == s.characters;
    }
  }

  /** A run of deletes removes exactly the characters deleted, whatever their order. */
  lemma {:induction false} AfterDeleteAllCharacters(s: Store, ids: seq<int>)
    ensures AfterDeleteAll(s, ids).characters == s.characters - Elements(ids)
    decreases |ids|
  {
    if ids != [] {
      var init, last := ids[..|ids| - 1], ids[|ids| - 1];
      assert ids == init + [last];
      AfterDeleteAllCharacters(s, init);
      AfterDeleteCharacters(AfterDeleteAll(s, init), last);
      ElementsAppend(init, last);
    }
  }

  /** The owning account is deleted exactly when the character was its last one; other accounts stay. */
  lemma AccountDeletedIffOrphaned(s: Store, id: int)
    requires id in s.characters
    ensures var login := s.characters[id].accountName;
            var r := AfterDelete(s, id);
            && (login in r.accounts <==>
                login in s.accounts && exists c :: c in s.characters && c != id && s.characters[c].accountName == login)
            && (forall l :: l != login ==> (l in r.accounts <==> l in s.accounts))
            && (forall l :: l in r.accounts ==> r.accounts[l] == s.accounts[l])
  {
    var login := s.characters[id].accountName;
    var removed := CharacterDataRemoved(s, id);
    assert forall c :: c in removed.characters <==> c in s.characters && c != id;
  }

  /**
   * After the delete no row keyed by the id is left (`character_friends` on either column),
   * no pet or augmentation of an item it owned, and every other row of every table is kept.
   */
  lemma AfterDeleteFrame(s: Store, id: int)
    requires id in s.characters
    ensures var r := AfterDelete(s, id);
            var owned := OwnedItemIds(s, id);
            && r.characters == s.characters - {id}
            && (forall f :: f in r.friends <==> f in s.friends && f.charId != id && f.friendId != id)
            && (forall c :: c in r.charRows <==> c in s.charRows && c.charId != id)
            && (forall it :: it in r.items <==> it in s.items && it.ownerId != id)
            && (forall p :: p in r.pets <==> p in s.pets && p.itemId !in owned)
            && (forall a :: a in r.augmentations <==> a in s.augmentations && a.itemId !in owned)
  {
  }

  /**
   * A character with no dependent rows loses exactly its `characters` row, plus its
   * account row when it was the account's last character.
   */
  lemma DeleteWithoutDependents(s: Store, id: int)
    requires id in s.characters
    requires forall f :: f in s.friends ==> f.charId != id && f.friendId != id
    requires forall c :: c in s.charRows ==> c.charId != id
    requires forall it :: it in s.items ==> it.ownerId != id
    ensures var login := s.characters[id].accountName;
            var bare := s.(characters := s.characters - {id});
            AfterDelete(s, id) == if CountCharsByAccount(bare, login) == 0 then DeleteAccount(bare, login) else bare
  {
    var removed := CharacterDataRemoved(s, id);
    assert OwnedItemIds(s, id) == {};
    assert removed.friends == s.friends;
    assert removed.charRows == s.charRows;
    assert removed.items == s.items;
    assert removed.pets == s.pets;
    assert removed.augmentations == s.augmentations;
  }
}
