/**
 * The budgets routes: the spending view (GET), the upsert by scope (POST) and
 * the delete scoped to the owner (DELETE).
 */
module BudgetRoutes {
  import opened Wrappers
  import opened Ids
  import opened Folds
  import opened Calendar
  import opened CategoryModel
  import opened ExpenseModel
  import opened BudgetModel
  import opened Store

  datatype Status = Safe | Warning | Exceeded

  /** The aggregate's `$match`: the same user and category, dated inside the window. */
  function InScope(user: Id, category: Id, w: Window): Expense -> bool
  {
    (e: Expense) => e.user == user && e.category == category && InWindow(e.date, w)
  }

  /** The aggregate's `$sum` of the matching amounts (`result[0]?.total || 0`). */
  function Spent(expenses: seq<Expense>, user: Id, category: Id, w: Window): real
  {
    SumOf(Filter(expenses, InScope(user, category, w)), Amount)
  }

  lemma SpentNonNegative(expenses: seq<Expense>, user: Id, category: Id, w: Window)
    requires AllExpensesValid(expenses)
    ensures Spent(expenses, user, category, w) >= 0.0
  {
    var matched := Filter(expenses, InScope(user, category, w));
    forall i | 0 <= i < |matched|
      ensures Amount(matched[i]) >= 0.0
    {
      assert matched[i] in expenses;
    }
    SumNonNegative(matched, Amount);
  }

  /** One more expense adds its amount exactly when it matches. */
  lemma SpentAppend(expenses: seq<Expense>, e: Expense, user: Id, category: Id, w: Window)
    ensures Spent(expenses + [e], user, category, w)
         == Spent(expenses, user, category, w) + (if InScope(user, category, w)(e) then e.amount else 0.0)
  {
    var p := InScope(user, category, w);
    FilterAppend(expenses, [e], p);
    SumAppend(Filter(expenses, p), Filter([e], p), Amount);
    assert Filter([e], p) == (if p(e) then [e] else []) + Filter([], p);
  }

  /**
   * For a month from 1 to 12, spent is the sum over the user's expenses in the
   * category whose date falls in that calendar month (a year 0 to 99 read as 19xx).
   */
  lemma SpentIsMonthlySum(expenses: seq<Expense>, user: Id, category: Id, y: int, m: int)
    requires AllExpensesValid(expenses) && 1 <= m <= 12
    ensures Spent(expenses, user, category, MonthWindow(y, m))
         == SumOf(Filter(expenses, (e: Expense) =>
              e.user == user && e.category == category && e.date.year == ConstructorYear(y) && e.date.month == m), Amount)
  {
    var q := (e: Expense) => e.user == user && e.category == category && e.date.year == ConstructorYear(y) && e.date.month == m;
    forall i | 0 <= i < |expenses|
      ensures InScope(user, category, MonthWindow(y, m))(expenses[i]) == q(expenses[i])
    {
      InCalendarMonth(expenses[i].date, y, m);
    }
    FilterCongruent(expenses, InScope(user, category, MonthWindow(y, m)), q);
  }

  /** The uncapped percentage against the two thresholds, in terms of spent and limit. */
  lemma UncappedThresholds(spent: real, limit: real)
    requires limit > 0.0
    ensures spent / limit * 100.0 >= 100.0 <==> spent >= limit
    ensures spent / limit * 100.0 >= 80.0 <==> spent >= 0.8 * limit
    ensures spent >= 0.0 ==> spent / limit * 100.0 >= 0.0
  {
    var q := spent / limit;
    assert q * limit == spent;
    assert spent / limit * 100.0 == q * 100.0;
    assert q >= 1.0 <==> spent >= limit by {
      if q >= 1.0 {
        assert q * limit >= 1.0 * limit;
      } else {
        assert q * limit < 1.0 * limit;
      }
    }
    assert q >= 0.8 <==> spent >= 0.8 * limit by {
      if q >= 0.8 {
        assert q * limit >= 0.8 * limit;
      } else {
        assert q * limit < 0.8 * limit;
      }
    }
    assert spent >= 0.0 ==> q >= 0.0 by {
      if q < 0.0 {
        assert q * limit < 0.0;
      }
    }
  }

  /** `Math.min(spent / limit * 100, 100)`, before display rounding. */
  function Percentage(spent: real, limit: real): (p: real)
    requires limit > 0.0
    ensures p <= 100.0
    ensures spent <= limit ==> p == spent / limit * 100.0
    ensures spent >= limit ==> p == 100.0
    ensures spent >= 0.0 ==> p >= 0.0
  {
    UncappedThresholds(spent, limit);
    var raw := spent / limit * 100.0;
    if raw <= 100.0 then raw else 100.0
  }

  /** The three-way status; both thresholds are inclusive. */
  function BudgetStatus(spent: real, limit: real): (s: Status)
    requires limit > 0.0
    ensures s == Exceeded <==> spent >= limit
    ensures s == Warning <==> 0.8 * limit <= spent < limit
    ensures s == Safe <==> spent < 0.8 * limit
  {
    UncappedThresholds(spent, limit);
    var p := Percentage(spent, limit);
    if p >= 100.0 then Exceeded else if p >= 80.0 then Warning else Safe
  }

  /** A budget with its category's display fields and the derived spending figures. */
  datatype BudgetView = BudgetView(
    budget: Budget, category: Category, spent: real, remaining: real, percentage: real, status: Status)

  function ViewOf(b: Budget, c: Category, expenses: seq<Expense>, user: Id, w: Window): (v: BudgetView)
    requires ValidBudget(b)
  {
    var spent := Spent(expenses, user, b.category, w);
    BudgetView(b, c, spent, b.limit - spent, Percentage(spent, b.limit), BudgetStatus(spent, b.limit))
  }

  /** The `Budget.find({user, month, year})` filter. */
  function InMonthOf(user: Id, m: int, y: int): Budget -> bool
  {
    (b: Budget) => b.user == user && b.month == m && b.year == y
  }

  predicate CategoriesPresent(scoped: seq<Budget>, categories: seq<Category>)
  {
    forall i :: 0 <= i < |scoped| ==> FindCategory(categories, scoped[i].category).Some?
  }

  /**
   * The per-budget map. Reading `budget.category._id` of a budget whose
   * category record is gone throws, and the whole request fails.
   */
  function Views(scoped: seq<Budget>, categories: seq<Category>, expenses: seq<Expense>, user: Id, w: Window)
    : (r: Option<seq<BudgetView>>)
    requires AllBudgetsValid(scoped)
    ensures r.Some? <==> CategoriesPresent(scoped, categories)
    ensures r.Some? ==> |r.value| == |scoped|
    ensures r.Some? ==> forall i :: 0 <= i < |scoped| ==>
      r.value[i] == ViewOf(scoped[i], FindCategory(categories, scoped[i].category).value, expenses, user, w)
  {
    if scoped == [] then Some([])
    else
      match FindCategory(categories, scoped[0].category)
      case None => None
      case Some(c) =>
        match Views(scoped[1..], categories, expenses, user, w)
        case None => None
        case Some(rest) => Some([ViewOf(scoped[0], c, expenses, user, w)] + rest)
  }

  datatype BudgetsPage = BudgetsPage(budgets: seq<BudgetView>, month: int, year: int)

  /** Why GET /budgets answers 500. */
  datatype GetBudgetsError = MissingCategory

  /** GET /budgets?month&year for `user`, at clock reading `now`. */
  function GetBudgets(categories: seq<Category>, expenses: seq<Expense>, budgets: seq<Budget>,
                      user: Id, monthQ: Option<int>, yearQ: Option<int>, now: Date)
    : (r: Result<BudgetsPage, GetBudgetsError>)
    requires AllBudgetsValid(budgets)
    ensures var m, y := ParsedOr(monthQ, now.month), ParsedOr(yearQ, now.year);
      var scoped := Filter(budgets, InMonthOf(user, m, y));
      && (r.Ok? <==> CategoriesPresent(scoped, categories))
      && (r.Ok? ==> r.value.month == m && r.value.year == y && |r.value.budgets| == |scoped|)
      && (r.Ok? ==> forall i :: 0 <= i < |scoped| ==>
            var v := r.value.budgets[i];
            && v.budget == scoped[i]
            && v.category.id == scoped[i].category
            && v.category == FindCategory(categories, scoped[i].category).value
            && v.spent == Spent(expenses, user, scoped[i].category, MonthWindow(y, m))
            && v.remaining == scoped[i].limit - v.spent
            && v.percentage == Percentage(v.spent, scoped[i].limit)
            && v.status == BudgetStatus(v.spent, scoped[i].limit))
  {
    var m, y := ParsedOr(monthQ, now.month), ParsedOr(yearQ, now.year);
    var scoped := Filter(budgets, InMonthOf(user, m, y));
    assert AllBudgetsValid(scoped) by {
      forall i | 0 <= i < |scoped|
        ensures ValidBudget(scoped[i])
      {
        assert scoped[i] in budgets;
      }
    }
    match Views(scoped, categories, expenses, user, MonthWindow(y, m))
    case None => Err(MissingCategory)
    case Some(views) => Ok(BudgetsPage(views, m, y))
  }

  /** The page lists exactly the user's budgets of that month and year, each once, in stored order. */
  lemma GetBudgetsListsScope(categories: seq<Category>, expenses: seq<Expense>, budgets: seq<Budget>,
                             user: Id, monthQ: Option<int>, yearQ: Option<int>, now: Date, b: Budget)
    requires AllBudgetsValid(budgets) && UniqueScopes(budgets)
    requires GetBudgets(categories, expenses, budgets, user, monthQ, yearQ, now).Ok?
    ensures var page := GetBudgets(categories, expenses, budgets, user, monthQ, yearQ, now).value;
      (exists i :: 0 <= i < |page.budgets| && page.budgets[i].budget == b) <==>
        b in budgets && b.user == user && b.month == page.month && b.year == page.year
  {
    var page := GetBudgets(categories, expenses, budgets, user, monthQ, yearQ, now).value;
    var scoped := Filter(budgets, InMonthOf(user, page.month, page.year));
    if b in budgets && b.user == user && b.month == page.month && b.year == page.year {
      var j :| 0 <= j < |budgets| && budgets[j] == b;
      assert InMonthOf(user, page.month, page.year)(budgets[j]);
      assert b in scoped;
      var i :| 0 <= i < |scoped| && scoped[i] == b;
      assert page.budgets[i].budget == b;
    }
    if exists i :: 0 <= i < |page.budgets| && page.budgets[i].budget == b {
      var i :| 0 <= i < |page.budgets| && page.budgets[i].budget == b;
      assert scoped[i] == b;
      assert InMonthOf(user, page.month, page.year)(scoped[i]);
    }
  }

  /** The store's `{user, category, month, year}` filter. */
  function HasScope(s: Scope): Budget -> bool
  {
    (b: Budget) => ScopeOf(b) == s
  }

  /** `findOneAndUpdate(scope, {limit}, {upsert: true})`: replace the limit, or insert a new budget. */
  function Upsert(rows: seq<Budget>, freshId: Id, s: Scope, limit: real): seq<Budget>
  {
    match FirstIndex(rows, HasScope(s))
    case Some(k) => rows[k := rows[k].(limit := limit)]
    case None => rows + [Budget(freshId, s.user, s.category, limit, s.month, s.year)]
  }

  /**
   * After an upsert exactly one budget has the scope, it carries the new limit,
   * and every budget of another scope is kept, with nothing added beside it.
   */
  lemma UpsertSetsScope(rows: seq<Budget>, freshId: Id, s: Scope, limit: real)
    requires UniqueScopes(rows)
    ensures var r := Upsert(rows, freshId, s, limit);
      && UniqueScopes(r)
      && (exists i :: 0 <= i < |r| && ScopeOf(r[i]) == s && r[i].limit == limit)
      && (forall i :: 0 <= i < |rows| && ScopeOf(rows[i]) != s ==> rows[i] in r)
      && (forall i :: 0 <= i < |r| && ScopeOf(r[i]) != s ==> r[i] in rows)
  {
    var r := Upsert(rows, freshId, s, limit);
    match FirstIndex(rows, HasScope(s))
    case Some(k) =>
      KeysDistinctReplace(rows, ScopeOf, k, rows[k].(limit := limit));
      assert ScopeOf(r[k]) == s && r[k].limit == limit;
      forall i | 0 <= i < |rows| && ScopeOf(rows[i]) != s
        ensures rows[i] in r
      {
        assert r[i] == rows[i];
      }
      forall i | 0 <= i < |r| && ScopeOf(r[i]) != s
        ensures r[i] in rows
      {
        assert r[i] == rows[i];
      }
    case None =>
      KeysDistinctAppend(rows, ScopeOf, Budget(freshId, s.user, s.category, limit, s.month, s.year));
      assert ScopeOf(r[|rows|]) == s;
      forall i | 0 <= i < |rows| && ScopeOf(rows[i]) != s
        ensures rows[i] in r
      {
        assert r[i] == rows[i];
      }
      forall i | 0 <= i < |r| && ScopeOf(r[i]) != s
        ensures r[i] in rows
      {
        assert i < |rows| && r[i] == rows[i];
      }
  }

  /** Upsert keeps ids distinct and below the counter, and keeps every limit at least 1. */
  lemma UpsertKeepsRecordsValid(rows: seq<Budget>, freshId: Id, s: Scope, limit: real)
    requires KeysDistinct(rows, BudgetId) && KeysBelow(rows, BudgetId, freshId)
    requires AllBudgetsValid(rows) && limit >= MinLimit
    ensures var r := Upsert(rows, freshId, s, limit);
      KeysDistinct(r, BudgetId) && KeysBelow(r, BudgetId, freshId + 1) && AllBudgetsValid(r)
  {
    match FirstIndex(rows, HasScope(s))
    case Some(k) =>
      KeysDistinctReplace(rows, BudgetId, k, rows[k].(limit := limit));
    case None =>
      KeysDistinctAppend(rows, BudgetId, Budget(freshId, s.user, s.category, limit, s.month, s.year));
  }

  /** Setting the same scope twice leaves the state the latest call alone would: last write wins. */
  lemma UpsertTwice(rows: seq<Budget>, freshId: Id, laterId: Id, s: Scope, first: real, second: real)
    ensures Upsert(Upsert(rows, freshId, s, first), laterId, s, second) == Upsert(rows, freshId, s, second)
  {
    var once := Upsert(rows, freshId, s, first);
    match FirstIndex(rows, HasScope(s))
    case Some(k) =>
      assert forall i :: 0 <= i < k ==> once[i] == rows[i] && !HasScope(s)(once[i]);
      assert HasScope(s)(once[k]);
      assert FirstIndex(once, HasScope(s)) == Some(k);
    case None =>
      assert forall i :: 0 <= i < |rows| ==> once[i] == rows[i] && !HasScope(s)(once[i]);
      assert HasScope(s)(once[|rows|]);
      assert FirstIndex(once, HasScope(s)) == Some(|rows|);
      assert once[|rows| := once[|rows|].(limit := second)] == rows + [Budget(freshId, s.user, s.category, second, s.month, s.year)];
  }

  /** The budget an upsert returns: the record of that scope after the write. */
  datatype BudgetWithCategory = BudgetWithCategory(budget: Budget, category: Option<Category>)

  /** POST /budgets: validate the limit, then upsert by (user, category, month, year). */
  method PostBudget(db: Database, user: Id, category: Id, limit: Option<real>, month: int, year: int)
    returns (r: Result<BudgetWithCategory, LimitError>)
    requires db.Valid()
    modifies db
    ensures db.Valid()
    ensures db.categories == old(db.categories) && db.expenses == old(db.expenses)
    ensures r.Err? <==> CheckLimit(limit).Err?
    ensures r.Err? ==> r.error == CheckLimit(limit).error
    ensures r.Err? ==> db.budgets == old(db.budgets) && db.nextId == old(db.nextId)
    ensures r.Ok? ==> db.budgets == Upsert(old(db.budgets), old(db.nextId), Scope(user, category, month, year), limit.value)
    ensures r.Ok? ==> r.value.budget in db.budgets
    ensures r.Ok? ==> ScopeOf(r.value.budget) == Scope(user, category, month, year)
    ensures r.Ok? ==> r.value.budget.limit == limit.value
    ensures r.Ok? ==> r.value.category == FindCategory(db.categories, category)
  {
    match CheckLimit(limit)
    case Err(e) =>
      r := Err(e);
    case Ok(l) =>
      var s := Scope(user, category, month, year);
      UpsertSetsScope(db.budgets, db.nextId, s, l);
      UpsertKeepsRecordsValid(db.budgets, db.nextId, s, l);
      var rows := Upsert(db.budgets, db.nextId, s, l);
      var i :| 0 <= i < |rows| && ScopeOf(rows[i]) == s && rows[i].limit == l;
      db.budgets := rows;
      db.nextId := db.nextId + 1;
      r := Ok(BudgetWithCategory(rows[i], FindCategory(db.categories, category)));
  }

  /** The `{_id: id, user: user}` filter of the delete. */
  function OwnedBudget(id: Id, user: Id): Budget -> bool
  {
    (b: Budget) => b.id == id && b.user == user
  }

  /** DELETE /budgets/:id: remove the budget when both id and owner match; otherwise not found. */
  method DeleteBudget(db: Database, id: Id, user: Id) returns (found: bool)
    requires db.Valid()
    modifies db
    ensures db.Valid()
    ensures found <==> exists i :: 0 <= i < |old(db.budgets)| && old(db.budgets)[i].id == id && old(db.budgets)[i].user == user
    ensures found ==> db.budgets == RemoveAt(old(db.budgets), FirstIndex(old(db.budgets), OwnedBudget(id, user)).value)
    ensures found ==> forall i :: 0 <= i < |db.budgets| ==> db.budgets[i].id != id
    ensures !found ==> db.budgets == old(db.budgets)
    ensures db.categories == old(db.categories) && db.expenses == old(db.expenses) && db.nextId == old(db.nextId)
  {
    match FirstIndex(db.budgets, OwnedBudget(id, user))
    case None =>
      found := false;
    case Some(k) =>
      KeysDistinctRemove(db.budgets, BudgetId, k);
      KeysDistinctRemove(db.budgets, ScopeOf, k);
      db.budgets := RemoveAt(db.budgets, k);
      found := true;
  }
}
