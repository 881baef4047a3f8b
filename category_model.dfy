/**
 * The Category record as the category routes read and write it. The Category
 * schema is not part of this model, so no field constraint is placed on it.
 */
module CategoryModel {
  import opened Wrappers
  import opened Ids
  import opened Folds

  datatype Category = Category(id: Id, user: Id, name: string, icon: string, color: string)

  function CategoryId(c: Category): Id
  {
    c.id
  }

  function HasId(id: Id): Category -> bool
  {
    (c: Category) => c.id == id
  }

  /** A join on the category id (`populate`, `$lookup`): whoever owns the record. */
  function FindCategory(rows: seq<Category>, id: Id): (r: Option<Category>)
    ensures r.Some? ==> r.value in rows && r.value.id == id
    ensures r.None? <==> forall i :: 0 <= i < |rows| ==> rows[i].id != id
  {
    match FirstIndex(rows, HasId(id))
    case Some(k) => Some(rows[k])
    case None => None
  }
}
