/**
 * The category registry routes: the list of the requester's categories sorted
 * by name, and the create, update and delete scoped to the owner.
 */
module CategoryRoutes {
  import opened Wrappers
  import opened Ids
  import opened Folds
  import opened Sorting
  import opened Text
  import opened CategoryModel
  import opened Store

  function OwnedBy(user: Id): Category -> bool
  {
    (c: Category) => c.user == user
  }

  /** `.sort({name: 1})`. */
  predicate ByName(a: Category, b: Category)
  {
    StringLe(a.name, b.name)
  }

  lemma ByNameIsPreorder()
    ensures TotalPreorder(ByName)
  {
    forall a: Category, b: Category, c: Category
      ensures ByName(a, b) || ByName(b, a)
      ensures ByName(a, b) && ByName(b, c) ==> ByName(a, c)
    {
      StringLeTotal(a.name, b.name);
      if ByName(a, b) && ByName(b, c) {
        StringLeTransitive(a.name, b.name, c.name);
      }
    }
  }

  /** GET /categories: the requester's categories, by name ascending. */
  function ListCategories(rows: seq<Category>, user: Id): (r: seq<Category>)
    ensures multiset(r) == multiset(Filter(rows, OwnedBy(user)))
    ensures SortedBy(r, ByName)
  {
    ByNameIsPreorder();
    SortBy(Filter(rows, OwnedBy(user)), ByName)
  }

  /** The list holds exactly the requester's categories, each as often as it is stored. */
  lemma ListedCategories(rows: seq<Category>, user: Id, c: Category)
    ensures c in ListCategories(rows, user) <==> c in rows && c.user == user
    ensures multiset(ListCategories(rows, user))[c] == (if c.user == user then multiset(rows)[c] else 0)
  {
    var r := ListCategories(rows, user);
    var mine := Filter(rows, OwnedBy(user));
    PermutationMembers(r, mine);
    FilterCount(rows, OwnedBy(user), c);
    if c in rows && c.user == user {
      var k :| 0 <= k < |rows| && rows[k] == c;
      assert OwnedBy(user)(rows[k]);
      assert c in mine;
    }
    if c in r {
      var k :| 0 <= k < |r| && r[k] == c;
      assert c in mine;
      var j :| 0 <= j < |mine| && mine[j] == c;
    }
  }

  /** A filter keeps every copy of a selected element and no copy of another. */
  lemma {:induction false} FilterCount(s: seq<Category>, p: Category -> bool, c: Category)
    ensures multiset(Filter(s, p))[c] == (if p(c) then multiset(s)[c] else 0)
  {
    if s != [] {
      FilterCount(s[1..], p, c);
      assert s == [s[0]] + s[1..];
      assert multiset(s) == multiset{s[0]} + multiset(s[1..]);
      var head := if p(s[0]) then [s[0]] else [];
      assert Filter(s, p) == head + Filter(s[1..], p);
      assert multiset(Filter(s, p)) == multiset(head) + multiset(Filter(s[1..], p));
    }
  }

  /** POST /categories: one new category owned by the requester, with the given name, icon and color. */
  method CreateCategory(db: Database, user: Id, name: string, icon: string, color: string)
    returns (c: Category)
    requires db.Valid()
    modifies db
    ensures db.Valid()
    ensures c == Category(old(db.nextId), user, name, icon, color)
    ensures db.categories == old(db.categories) + [c]
    ensures db.nextId == old(db.nextId) + 1
    ensures db.expenses == old(db.expenses) && db.budgets == old(db.budgets)
  {
    c := Category(db.nextId, user, name, icon, color);
    KeysDistinctAppend(db.categories, CategoryId, c);
    db.categories := db.categories + [c];
    db.nextId := db.nextId + 1;
  }

  /** The fields of an update request; an absent field is left as it is. */
  datatype CategoryPatch = CategoryPatch(name: Option<string>, icon: Option<string>, color: Option<string>)

  function PatchedCategory(c: Category, p: CategoryPatch): (r: Category)
    ensures r.id == c.id && r.user == c.user
    ensures r.name == p.name.GetOr(c.name) && r.icon == p.icon.GetOr(c.icon) && r.color == p.color.GetOr(c.color)
  {
    c.(name := p.name.GetOr(c.name), icon := p.icon.GetOr(c.icon), color := p.color.GetOr(c.color))
  }

  function OwnedCategory(id: Id, user: Id): Category -> bool
  {
    (c: Category) => c.id == id && c.user == user
  }

  /** PUT /categories/:id: patch the category with that id and owner; otherwise not found. */
  method UpdateCategory(db: Database, id: Id, user: Id, patch: CategoryPatch) returns (r: Option<Category>)
    requires db.Valid()
    modifies db
    ensures db.Valid()
    ensures r.None? <==> forall i :: 0 <= i < |old(db.categories)| ==> !OwnedCategory(id, user)(old(db.categories)[i])
    ensures r.None? ==> db.categories == old(db.categories)
    ensures r.Some? ==>
      var k := FirstIndex(old(db.categories), OwnedCategory(id, user)).value;
      && db.categories == old(db.categories)[k := PatchedCategory(old(db.categories)[k], patch)]
      && r.value == db.categories[k]
    ensures db.expenses == old(db.expenses) && db.budgets == old(db.budgets) && db.nextId == old(db.nextId)
  {
    match FirstIndex(db.categories, OwnedCategory(id, user))
    case None =>
      r := None;
    case Some(k) =>
      var c := PatchedCategory(db.categories[k], patch);
      KeysDistinctReplace(db.categories, CategoryId, k, c);
      db.categories := db.categories[k := c];
      r := Some(c);
  }

  /**
   * DELETE /categories/:id: remove the category with that id and owner; otherwise
   * not found. Expenses and budgets that refer to it are left as they are.
   */
  method DeleteCategory(db: Database, id: Id, user: Id) returns (found: bool)
    requires db.Valid()
    modifies db
    ensures db.Valid()
    ensures found <==> exists i :: 0 <= i < |old(db.categories)| && OwnedCategory(id, user)(old(db.categories)[i])
    ensures found ==> db.categories == RemoveAt(old(db.categories), FirstIndex(old(db.categories), OwnedCategory(id, user)).value)
    ensures found ==> forall i :: 0 <= i < |db.categories| ==> db.categories[i].id != id
    ensures !found ==> db.categories == old(db.categories)
    ensures db.expenses == old(db.expenses) && db.budgets == old(db.budgets) && db.nextId == old(db.nextId)
  {
    match FirstIndex(db.categories, OwnedCategory(id, user))
    case None =>
      found := false;
    case Some(k) =>
      KeysDistinctRemove(db.categories, CategoryId, k);
      db.categories := RemoveAt(db.categories, k);
      found := true;
  }

  /**
   * After a category is deleted, the budgets view and the expense alert find no
   * record for it: the join by id comes back empty.
   */
  lemma DeletedCategoryNotFound(rows: seq<Category>, id: Id, user: Id)
    requires KeysDistinct(rows, CategoryId)
    requires FirstIndex(rows, OwnedCategory(id, user)).Some?
    ensures FindCategory(RemoveAt(rows, FirstIndex(rows, OwnedCategory(id, user)).value), id).None?
  {
    KeysDistinctRemove(rows, CategoryId, FirstIndex(rows, OwnedCategory(id, user)).value);
  }
}
