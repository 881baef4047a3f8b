/**
 * The Budget schema: a spending ceiling of at least 1 for one user, one
 * category and one (month, year), with a unique index on that scope.
 */
module BudgetModel {
  import opened Wrappers
  import opened Ids
  import opened Folds

  /** The schema's `min: 1` on `limit`. */
  const MinLimit: real := 1.0

  datatype Budget = Budget(id: Id, user: Id, category: Id, limit: real, month: int, year: int)

  /** The key of the unique index `{user, category, month, year}`. */
  datatype Scope = Scope(user: Id, category: Id, month: int, year: int)

  function ScopeOf(b: Budget): Scope
  {
    Scope(b.user, b.category, b.month, b.year)
  }

  function BudgetId(b: Budget): Id
  {
    b.id
  }

  predicate ValidBudget(b: Budget)
  {
    b.limit >= MinLimit
  }

  /** No two budgets share a scope. */
  predicate UniqueScopes(rows: seq<Budget>)
  {
    KeysDistinct(rows, ScopeOf)
  }

  datatype LimitError = LimitRequired | LimitBelowMinimum

  /** The `limit` validators: required, and at least `MinLimit`. */
  function CheckLimit(limit: Option<real>): (r: Result<real, LimitError>)
    ensures r.Ok? <==> limit.Some? && limit.value >= MinLimit
    ensures r.Ok? ==> r.value == limit.value
    ensures r == Err(LimitRequired) <==> limit.None?
    ensures r == Err(LimitBelowMinimum) <==> limit.Some? && limit.value < MinLimit
  {
    match limit
    case None => Err(LimitRequired)
    case Some(l) => if l < MinLimit then Err(LimitBelowMinimum) else Ok(l)
  }
}
