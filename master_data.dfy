/**
 * Master data: the item catalogue, the user accounts and the branches, and
 * the first-match lookups the stores answer queries with.
 */
module MasterData {
  import opened Common

  datatype Item = Item(
    id: string,
    itemCode: string,
    description: string,
    classification: Classification,
    notes: Option<string>,
    isActive: bool,
    isDeleted: bool,
    deletedAtUtc: Option<Instant>,
    deletedBy: Option<string>,
    createdAtUtc: Instant,
    createdBy: string,
    modifiedAtUtc: Option<Instant>,
    modifiedBy: Option<string>)

  datatype User = User(
    id: string,
    username: string,
    passwordHash: string,
    role: Role,
    branchId: Option<string>,
    isActive: bool,
    createdAtUtc: Instant,
    createdBy: string,
    modifiedAtUtc: Option<Instant>,
    modifiedBy: Option<string>)

  datatype Branch = Branch(id: string, code: string, name: string)

  /** Index of the first element satisfying p (FirstOrDefault), if any. */
  function FirstIndex<T>(s: seq<T>, p: T -> bool): (r: Option<nat>)
    ensures r.Some? ==> r.value < |s| && p(s[r.value])
    ensures r.Some? ==> forall j | 0 <= j < r.value :: !p(s[j])
    ensures r.None? <==> forall j | 0 <= j < |s| :: !p(s[j])
    decreases |s|
  {
    if |s| == 0 then None
    else if p(s[0]) then Some(0)
    else match FirstIndex(s[1..], p)
      case None => None
      case Some(i) => Some(i + 1)
  }

  /** The stored item with a code, deleted or not. */
  function ItemIndexByCode(items: seq<Item>, itemCode: string): Option<nat>
  {
    FirstIndex(items, (i: Item) => i.itemCode == itemCode)
  }

  /**
   * The item a query by id that skips soft-deleted items returns: the first
   * one with the id that is not deleted.
   */
  function LiveItemIndexById(items: seq<Item>, id: string): Option<nat>
  {
    FirstIndex(items, (i: Item) => i.id == id && !i.isDeleted)
  }

  /**
   * The item a query by code that skips soft-deleted items returns: the
   * first one with the code that is not deleted.
   */
  function LiveItemIndexByCode(items: seq<Item>, itemCode: string): Option<nat>
  {
    FirstIndex(items, (i: Item) => i.itemCode == itemCode && !i.isDeleted)
  }

  function UserIndexById(users: seq<User>, id: string): Option<nat>
  {
    FirstIndex(users, (u: User) => u.id == id)
  }

  function UserIndexByName(users: seq<User>, username: string): Option<nat>
  {
    FirstIndex(users, (u: User) => u.username == username)
  }

  function BranchById(branches: seq<Branch>, id: string): (r: Option<Branch>)
    ensures r.Some? ==> r.value in branches && r.value.id == id
    ensures r.None? <==> forall j | 0 <= j < |branches| :: branches[j].id != id
  {
    match FirstIndex(branches, (b: Branch) => b.id == id)
    case None => None
    case Some(k) => Some(branches[k])
  }

  function BranchByCode(branches: seq<Branch>, code: string): (r: Option<Branch>)
    ensures r.Some? ==> r.value in branches && r.value.code == code
    ensures r.None? <==> forall j | 0 <= j < |branches| :: branches[j].code != code
  {
    match FirstIndex(branches, (b: Branch) => b.code == code)
    case None => None
    case Some(k) => Some(branches[k])
  }

  /** The item store's unique index: no two items share a code. */
  predicate DistinctItemCodes(items: seq<Item>)
  {
    forall i, j | 0 <= i < j < |items| :: items[i].itemCode != items[j].itemCode
  }

  /** No two branches share a code, so a map from code to branch name can be built. */
  predicate DistinctBranchCodes(branches: seq<Branch>)
  {
    forall i, j | 0 <= i < j < |branches| :: branches[i].code != branches[j].code
  }

}
