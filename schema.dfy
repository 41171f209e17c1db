/**
 * The persisted store the admin engine reads and deletes from, as values: one field per
 * table. Tables with a primary key the code relies on (`accounts.login`,
 * `characters.obj_id`) are maps from that key; every other table is a finite set of rows.
 * Columns the code never reads are folded into an opaque `data` payload.
 */
module Schema {
  import opened Common

  /** A row of `characters(obj_id, account_name, char_name, classid, level, x, y, z)`. */
  datatype Character = Character(
    objId: int, accountName: string, charName: Option<string>,
    classId: int, level: int, x: int, y: int, z: int)

  /** A row of `character_friends(char_id, friend_id)`. */
  datatype Friend = Friend(charId: int, friendId: int, data: seq<int>)

  /** The fourteen tables whose rows hang off one character id column. */
  datatype CharTable =
    | Hennas          // character_hennas.char_obj_id
    | Macroses        // character_macroses.char_obj_id
    | Memo            // character_memo.charId
    | MemoAlt         // character_memo_alt.obj_id
    | Quests          // character_quests.charId
    | RecipeBook      // character_recipebook.char_id
    | Shortcuts       // character_shortcuts.char_obj_id
    | Skills          // character_skills.char_obj_id
    | SkillsSave      // character_skills_save.char_obj_id
    | Subclasses      // character_subclasses.char_obj_id
    | Heroes          // heroes.char_id
    | OlympiadNobles  // olympiad_nobles.char_id
    | SevenSigns      // seven_signs.char_obj_id
    | RaidPoints      // character_raid_points.char_id

  /** A row of one of the `CharTable` tables, with the value of its character id column. */
  datatype CharRow = CharRow(table: CharTable, charId: int, data: seq<int>)

  /** A row of `items(owner_id, object_id)`. */
  datatype Item = Item(ownerId: int, objectId: int, data: seq<int>)

  /** A row of `pets(item_obj_id)` or of `augmentations(item_id)`, keyed by an item's object id. */
  datatype ItemRow = ItemRow(itemId: int, data: seq<int>)

  /** Every table the engine touches. `accounts` maps a login to its access level. */
  datatype Store = Store(
    accounts: map<string, int>,
    characters: map<int, Character>,
    friends: set<Friend>,
    charRows: set<CharRow>,
    items: set<Item>,
    pets: set<ItemRow>,
    augmentations: set<ItemRow>)

  /**
   * `SELECT account_name FROM characters WHERE obj_id=?`: the owning login, or `None`
   * when no row matches. A NULL column is read as the empty string.
   */
  function GetAccountNameByObjId(s: Store, objId: int): (r: Option<string>)
    ensures r.Some? <==> objId in s.characters
    ensures r.Some? ==> r.value == s.characters[objId].accountName
  {
    if objId in s.characters then Some(s.characters[objId].accountName) else None
  }

  /** The characters whose `account_name` is `login`. */
  function CharsOfAccount(s: Store, login: string): set<int> {
    set id | id in s.characters && s.characters[id].accountName == login
  }

  /** `SELECT COUNT(*) FROM characters WHERE account_name=?`. */
  function CountCharsByAccount(s: Store, login: string): (n: nat)
    ensures n == 0 <==> forall id :: id in s.characters ==> s.characters[id].accountName != login
  {
    var owned := CharsOfAccount(s, login);
    if owned != {} then
      Inhabited(owned);
      var id :| id in owned;
      assert id in s.characters && s.characters[id].accountName == login;
      |owned|
    else
      assert forall id :: id in s.characters ==> id in owned || s.characters[id].accountName != login;
      |owned|
  }

  /** `DELETE FROM accounts WHERE login=?`: the account row goes, nothing else changes. */
  function DeleteAccount(s: Store, login: string): (r: Store)
    ensures login !in r.accounts
    ensures r == s.(accounts := r.accounts)
    ensures forall l :: l != login ==> (l in r.accounts <==> l in s.accounts)
    ensures forall l :: l in r.accounts ==> r.accounts[l] == s.accounts[l]
  {
    s.(accounts := s.accounts - {login})
  }

  /** The object ids of the items `owner_id` holds: `SELECT object_id FROM items WHERE items.owner_id=?`. */
  function OwnedItemIds(s: Store, ownerId: int): set<int> {
    set it | it in s.items && it.ownerId == ownerId :: it.objectId
  }
}
