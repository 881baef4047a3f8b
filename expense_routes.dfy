/**
 * The expense ledger routes: the filtered listing with its total, the insert
 * with its budget alert, and the update and delete scoped to the owner.
 */
module ExpenseRoutes {
  import opened Wrappers
  import opened Ids
  import opened Folds
  import opened Sorting
  import opened Calendar
  import opened CategoryModel
  import opened ExpenseModel
  import opened BudgetModel
  import opened Store
  import opened BudgetRoutes

  /**
   * The listing query. A parameter is present when the query string carries a
   * non-empty value: `month && year` and `if (category)` test that.
   */
  datatype ListQuery = ListQuery(month: Option<int>, year: Option<int>, category: Option<Id>)

  /** The listing's `find` filter: the owner, the month window only with both month and year, the category only if given. */
  function Listed(user: Id, q: ListQuery): Expense -> bool
  {
    (e: Expense) =>
      && e.user == user
      && (q.month.Some? && q.year.Some? ==> InWindow(e.date, MonthWindow(q.year.value, q.month.value)))
      && (q.category.Some? ==> e.category == q.category.value)
  }

  /** `.sort({date: -1})`: later dates first. */
  predicate NewerFirst(a: Expense, b: Expense)
  {
    DateLe(b.date, a.date)
  }

  lemma NewerFirstIsPreorder()
    ensures TotalPreorder(NewerFirst)
  {
    forall a: Expense, b: Expense, c: Expense
      ensures NewerFirst(a, b) || NewerFirst(b, a)
      ensures NewerFirst(a, b) && NewerFirst(b, c) ==> NewerFirst(a, c)
    {
      DateLeTotal(c.date, b.date, a.date);
    }
  }

  datatype Listing = Listing(expenses: seq<Expense>, total: real)

  /** GET /expenses: the matching expenses, newest first, and the sum of their amounts. */
  function ListExpenses(expenses: seq<Expense>, user: Id, q: ListQuery): (r: Listing)
    ensures multiset(r.expenses) == multiset(Filter(expenses, Listed(user, q)))
    ensures SortedBy(r.expenses, NewerFirst)
    ensures r.total == SumOf(r.expenses, Amount)
    ensures r.total == SumOf(Filter(expenses, Listed(user, q)), Amount)
  {
    NewerFirstIsPreorder();
    var matched := Filter(expenses, Listed(user, q));
    var sorted := SortBy(matched, NewerFirst);
    SumPermutation(sorted, matched, Amount);
    Listing(sorted, SumOf(sorted, Amount))
  }

  /**
   * An expense is listed exactly when it is stored, it is the user's, it lies in
   * the requested month when both month and year are given, and it has the
   * requested category when one is given.
   */
  lemma ListedExactly(expenses: seq<Expense>, user: Id, q: ListQuery, e: Expense)
    requires AllExpensesValid(expenses)
    ensures e in ListExpenses(expenses, user, q).expenses <==>
      && e in expenses
      && e.user == user
      && (q.month.Some? && q.year.Some? ==>
            MonthNumber(e.date) == ConstructorYear(q.year.value) * 12 + q.month.value - 1)
      && (q.category.Some? ==> e.category == q.category.value)
  {
    var r := ListExpenses(expenses, user, q).expenses;
    assert e in r <==> e in expenses && Listed(user, q)(e) by {
      ListedMembers(expenses, Listed(user, q), r);
    }
    if e in expenses {
      ListedByMonth(e, user, q);
    }
  }

  /** Membership in a permutation of a selection. */
  lemma ListedMembers(expenses: seq<Expense>, p: Expense -> bool, r: seq<Expense>)
    requires multiset(r) == multiset(Filter(expenses, p))
    ensures forall e :: e in r <==> e in expenses && p(e)
  {
    var matched := Filter(expenses, p);
    PermutationMembers(r, matched);
    forall e | e in expenses && p(e)
      ensures e in r
    {
      var k :| 0 <= k < |expenses| && expenses[k] == e;
      assert e in matched;
    }
  }

  /** For a stored (valid) expense the window test is a test on its month number. */
  lemma ListedByMonth(e: Expense, user: Id, q: ListQuery)
    requires ValidExpense(e)
    ensures Listed(user, q)(e) <==>
      && e.user == user
      && (q.month.Some? && q.year.Some? ==>
            MonthNumber(e.date) == ConstructorYear(q.year.value) * 12 + q.month.value - 1)
      && (q.category.Some? ==> e.category == q.category.value)
  {
    if q.month.Some? && q.year.Some? {
      InMonthWindow(e.date, q.year.value, q.month.value);
    }
  }

  /** The post-insert alert; the percentage here is not capped. */
  datatype Alert = ExceededAlert(spent: real, limit: real) | WarningAlert(percentage: real)

  function BudgetAlert(spent: real, limit: real): (a: Option<Alert>)
    requires limit > 0.0
    ensures a == Some(ExceededAlert(spent, limit)) <==> spent >= limit
    ensures (a.Some? && a.value.WarningAlert?) <==> 80.0 <= spent / limit * 100.0 < 100.0
    ensures a.Some? && a.value.WarningAlert? ==> a.value.percentage == spent / limit * 100.0
    ensures a.None? <==> spent < 0.8 * limit
  {
    UncappedThresholds(spent, limit);
    var percentage := spent / limit * 100.0;
    if percentage >= 100.0 then Some(ExceededAlert(spent, limit))
    else if percentage >= 80.0 then Some(WarningAlert(percentage))
    else None
  }

  /** The uncapped alert and the capped status of the budgets view agree on every input. */
  lemma AlertAgreesWithStatus(spent: real, limit: real)
    requires limit > 0.0
    ensures BudgetAlert(spent, limit).None? <==> BudgetStatus(spent, limit) == Safe
    ensures (BudgetAlert(spent, limit).Some? && BudgetAlert(spent, limit).value.WarningAlert?)
        <==> BudgetStatus(spent, limit) == Warning
    ensures (BudgetAlert(spent, limit).Some? && BudgetAlert(spent, limit).value.ExceededAlert?)
        <==> BudgetStatus(spent, limit) == Exceeded
  {
    UncappedThresholds(spent, limit);
  }

  /** Why POST /expenses answers 500 after the insert: a budget exists but the category record does not. */
  datatype AlertError = AlertCategoryMissing

  /** The scope of the alert: the user, the category, and the month and year of the expense's date. */
  function AlertScope(e: Expense): Scope
  {
    Scope(e.user, e.category, e.date.month, e.date.year)
  }

  /**
   * The alert after `e` is stored in `expenses`: none without a budget for the
   * scope; otherwise the spent amount of the month against that budget's limit.
   */
  function AlertFor(budgets: seq<Budget>, categories: seq<Category>, expenses: seq<Expense>, e: Expense)
    : (r: Result<Option<Alert>, AlertError>)
    requires AllBudgetsValid(budgets) && UniqueScopes(budgets)
    ensures (forall i :: 0 <= i < |budgets| ==> ScopeOf(budgets[i]) != AlertScope(e)) ==> r == Ok(None)
    ensures r.Err? <==>
      (exists i :: 0 <= i < |budgets| && ScopeOf(budgets[i]) == AlertScope(e))
      && FindCategory(categories, e.category).None?
    ensures forall i :: 0 <= i < |budgets| && ScopeOf(budgets[i]) == AlertScope(e) && r.Ok? ==>
      r.value == BudgetAlert(Spent(expenses, e.user, e.category, MonthWindow(e.date.year, e.date.month)),
                             budgets[i].limit)
  {
    match FirstIndex(budgets, HasScope(AlertScope(e)))
    case None => Ok(None)
    case Some(k) =>
      KeysDistinctUnique(budgets, ScopeOf, k);
      if FindCategory(categories, e.category).None? then Err(AlertCategoryMissing)
      else Ok(BudgetAlert(Spent(expenses, e.user, e.category, MonthWindow(e.date.year, e.date.month)),
                          budgets[k].limit))
  }

  /**
   * The recomputed spent amount counts the expense just stored, whatever else
   * is stored (for a date whose year the Date constructor does not remap).
   */
  lemma AlertCountsNewExpense(expenses: seq<Expense>, e: Expense)
    requires ValidExpense(e) && !(0 <= e.date.year <= 99)
    ensures Spent(expenses + [e], e.user, e.category, MonthWindow(e.date.year, e.date.month))
         == Spent(expenses, e.user, e.category, MonthWindow(e.date.year, e.date.month)) + e.amount
  {
    SpentAppend(expenses, e, e.user, e.category, MonthWindow(e.date.year, e.date.month));
    InCalendarMonth(e.date, e.date.year, e.date.month);
  }

  /** The insert's rejections, and the failure after the insert. */
  datatype PostExpenseError = Invalid(fields: seq<Field>) | CategoryMissing

  datatype Created = Created(expense: Expense, alert: Option<Alert>)

  /** A fresh id is no stored expense's id. */
  lemma FreshExpenseId(rows: seq<Expense>, freshId: Id, e: Expense)
    requires KeysDistinct(rows, ExpenseId) && KeysBelow(rows, ExpenseId, freshId) && e.id == freshId
    ensures KeysDistinct(rows + [e], ExpenseId) && KeysBelow(rows + [e], ExpenseId, freshId + 1)
  {
    KeysDistinctAppend(rows, ExpenseId, e);
  }

  /**
   * POST /expenses: store the validated expense for the requester, then compute
   * the alert for its month. A missing category record behind an existing
   * budget fails the request after the expense has been stored.
   */
  method PostExpense(db: Database, user: Id, input: ExpenseInput, now: Date)
    returns (r: Result<Created, PostExpenseError>)
    requires db.Valid() && ValidDate(now)
    modifies db
    ensures db.Valid()
    ensures db.categories == old(db.categories) && db.budgets == old(db.budgets)
    ensures var made := NewExpense(old(db.nextId), user, input, now);
      && (made.Err? ==> r == Err(Invalid(made.error)))
      && (made.Err? ==> db.expenses == old(db.expenses) && db.nextId == old(db.nextId))
      && (made.Ok? ==> db.expenses == old(db.expenses) + [made.value] && db.nextId == old(db.nextId) + 1)
      && (made.Ok? ==>
            var alert := AlertFor(db.budgets, db.categories, db.expenses, made.value);
            r == if alert.Err? then Err(CategoryMissing) else Ok(Created(made.value, alert.value)))
  {
    var made := NewExpense(db.nextId, user, input, now);
    if made.Err? {
      r := Err(Invalid(made.error));
      return;
    }
    var e := made.value;
    FreshExpenseId(db.expenses, db.nextId, e);
    db.expenses := db.expenses + [e];
    db.nextId := db.nextId + 1;
    var alert := AlertFor(db.budgets, db.categories, db.expenses, e);
    if alert.Err? {
      r := Err(CategoryMissing);
    } else {
      r := Ok(Created(e, alert.value));
    }
  }

  /** The `{_id: id, user: user}` filter of the update and the delete. */
  function OwnedExpense(id: Id, user: Id): Expense -> bool
  {
    (e: Expense) => e.id == id && e.user == user
  }

  datatype UpdateOutcome = Updated(expense: Expense) | NotFound | Rejected(fields: seq<Field>)

  /**
   * PUT /expenses/:id: the update validators run first; then the record with
   * that id and owner, if any, gets the patched fields.
   */
  method PutExpense(db: Database, id: Id, user: Id, patch: ExpensePatch) returns (r: UpdateOutcome)
    requires db.Valid()
    modifies db
    ensures db.Valid()
    ensures db.categories == old(db.categories) && db.budgets == old(db.budgets) && db.nextId == old(db.nextId)
    ensures PatchErrors(patch) != [] ==> r == Rejected(PatchErrors(patch)) && db.expenses == old(db.expenses)
    ensures r.Rejected? <==> PatchErrors(patch) != []
    ensures PatchErrors(patch) == [] ==>
      (r == NotFound <==> forall i :: 0 <= i < |old(db.expenses)| ==> !OwnedExpense(id, user)(old(db.expenses)[i]))
    ensures r == NotFound ==> db.expenses == old(db.expenses)
    ensures r.Updated? ==>
      var k := FirstIndex(old(db.expenses), OwnedExpense(id, user)).value;
      && OwnedExpense(id, user)(old(db.expenses)[k])
      && db.expenses == old(db.expenses)[k := Patched(old(db.expenses)[k], patch)]
      && r.expense == db.expenses[k]
  {
    if PatchErrors(patch) != [] {
      r := Rejected(PatchErrors(patch));
      return;
    }
    match FirstIndex(db.expenses, OwnedExpense(id, user))
    case None =>
      r := NotFound;
    case Some(k) =>
      var e := Patched(db.expenses[k], patch);
      KeysDistinctReplace(db.expenses, ExpenseId, k, e);
      db.expenses := db.expenses[k := e];
      r := Updated(e);
  }

  /** DELETE /expenses/:id: remove the expense when both id and owner match; otherwise not found. */
  method DeleteExpense(db: Database, id: Id, user: Id) returns (found: bool)
    requires db.Valid()
    modifies db
    ensures db.Valid()
    ensures found <==> exists i :: 0 <= i < |old(db.expenses)| && OwnedExpense(id, user)(old(db.expenses)[i])
    ensures found ==> db.expenses == RemoveAt(old(db.expenses), FirstIndex(old(db.expenses), OwnedExpense(id, user)).value)
    ensures found ==> forall i :: 0 <= i < |db.expenses| ==> db.expenses[i].id != id
    ensures !found ==> db.expenses == old(db.expenses)
    ensures db.categories == old(db.categories) && db.budgets == old(db.budgets) && db.nextId == old(db.nextId)
  {
    match FirstIndex(db.expenses, OwnedExpense(id, user))
    case None =>
      found := false;
    case Some(k) =>
      KeysDistinctRemove(db.expenses, ExpenseId, k);
      db.expenses := RemoveAt(db.expenses, k);
      found := true;
  }
}
