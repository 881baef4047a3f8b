/**
 * The legacy single-document ledger: one User record holding a budget and an
 * embedded list of expenses, with the add-expense, set-budget, dashboard and
 * reset handlers and the remaining-budget classification they report.
 */
module LegacyLedger {
  import opened Wrappers
  import opened Ids
  import opened Folds
  import opened Text
  import opened Calendar
  import opened LegacyErrors
  import opened LegacyAuth

  /** A body value after `parseFloat`: a number, or NaN. */
  datatype Number = Num(value: real) | NaN

  /** An embedded expense: `{title, amount, date}`. */
  datatype LegacyExpense = LegacyExpense(title: string, amount: real, date: Date)

  function LegacyAmount(e: LegacyExpense): real
  {
    e.amount
  }

  /** The embedded schema: a required trimmed title and `amount >= 0`. */
  predicate ValidLegacyExpense(e: LegacyExpense)
  {
    e.title != "" && Trim(e.title) == e.title && e.amount >= 0.0
  }

  class User {
    var name: string
    var email: string
    var passwordHash: string
    var budget: real
    var expenses: seq<LegacyExpense>

    /** The user schema: `budget >= 0` and every embedded expense valid. */
    ghost predicate Valid()
      reads this
    {
      budget >= 0.0 && forall i :: 0 <= i < |expenses| ==> ValidLegacyExpense(expenses[i])
    }

    /** The document register saves: the account's fields, budget 0 and no expenses. */
    constructor FromAccount(a: Account)
      ensures Valid()
      ensures name == a.name && email == a.email && passwordHash == a.passwordHash
      ensures budget == 0.0 && expenses == []
    {
      name, email, passwordHash := a.name, a.email, a.passwordHash;
      budget, expenses := 0.0, [];
    }
  }

  /** What the handlers report of `remaining = budget - totalExpense`. */
  datatype LegacyStatus = OverBudget(exceedAmount: real) | BudgetReached | WithinBudget

  /** `remaining < 0` is over budget by `|remaining|`, `remaining === 0` is reached, anything else is within. */
  function Classify(remaining: real): (s: LegacyStatus)
    ensures s.OverBudget? <==> remaining < 0.0
    ensures s.OverBudget? ==> s.exceedAmount > 0.0 && s.exceedAmount == -remaining
    ensures s == BudgetReached <==> remaining == 0.0
    ensures s == WithinBudget <==> remaining > 0.0
  {
    if remaining < 0.0 then OverBudget(-remaining)
    else if remaining == 0.0 then BudgetReached
    else WithinBudget
  }

  /** The figures of an add-expense or dashboard response. */
  datatype Report = Report(totalExpense: real, remaining: real, exceedAmount: real, status: LegacyStatus)

  function ReportOf(budget: real, expenses: seq<LegacyExpense>): Report
  {
    var total := SumOf(expenses, LegacyAmount);
    var status := Classify(budget - total);
    Report(total, budget - total, if status.OverBudget? then status.exceedAmount else 0.0, status)
  }

  /** The report compares the budget with the sum of all embedded expenses. */
  lemma ReportAgainstBudget(budget: real, expenses: seq<LegacyExpense>)
    ensures var r := ReportOf(budget, expenses);
      && r.totalExpense == SumOf(expenses, LegacyAmount)
      && r.remaining == budget - r.totalExpense
      && (r.status.OverBudget? <==> r.totalExpense > budget)
      && (r.status == BudgetReached <==> r.totalExpense == budget)
      && (r.status == WithinBudget <==> r.totalExpense < budget)
      && r.exceedAmount == (if r.totalExpense > budget then r.totalExpense - budget else 0.0)
      && r.exceedAmount >= 0.0
  {
  }

  /** A valid ledger never reports a negative total, and never exceeds a budget it does not spend past. */
  lemma {:induction false} ValidTotals(budget: real, expenses: seq<LegacyExpense>)
    requires forall i :: 0 <= i < |expenses| ==> ValidLegacyExpense(expenses[i])
    ensures ReportOf(budget, expenses).totalExpense >= 0.0
    ensures ReportOf(budget, expenses).remaining <= budget
  {
    SumNonNegative(expenses, LegacyAmount);
  }

  /** One more expense adds its amount to the total and takes it off the remaining budget. */
  lemma AppendedExpense(budget: real, expenses: seq<LegacyExpense>, e: LegacyExpense)
    ensures ReportOf(budget, expenses + [e]).totalExpense == ReportOf(budget, expenses).totalExpense + e.amount
    ensures ReportOf(budget, expenses + [e]).remaining == ReportOf(budget, expenses).remaining - e.amount
  {
    SumAppend(expenses, [e], LegacyAmount);
  }

  /** Spending a positive amount from a reached or exceeded budget leaves it exceeded, by that amount more. */
  lemma PositiveExpenseExceeds(budget: real, expenses: seq<LegacyExpense>, e: LegacyExpense)
    requires e.amount > 0.0
    requires !ReportOf(budget, expenses).status.WithinBudget?
    ensures ReportOf(budget, expenses + [e]).status.OverBudget?
    ensures ReportOf(budget, expenses + [e]).exceedAmount == ReportOf(budget, expenses).exceedAmount + e.amount
  {
    AppendedExpense(budget, expenses, e);
  }

  /** A token, if the header carries one the handlers accept (`if (!token)` rejects the empty string). */
  predicate HasToken(header: Option<string>)
  {
    ExtractToken(header).Some? && ExtractToken(header).value != ""
  }

  /** The token check every ledger handler makes: the header, then the verifier, its errors passed through the global handler. */
  function Session(header: Option<string>, jwt: JwtOutcome): (r: Result<Id, Failure>)
    ensures !HasToken(header) ==> r == Err(Failure(401, NoTokenProvided))
    ensures r.Ok? <==> HasToken(header) && jwt.Verified?
    ensures r.Ok? ==> r.value == jwt.id
    ensures r.Err? ==> r.error.status == 401
    ensures HasToken(header) && jwt.ExpiredError? ==> r == Err(Failure(401, Custom("Token expired")))
    ensures HasToken(header) && jwt.MalformedError? ==> r == Err(Failure(401, Custom("Malformed token")))
    ensures HasToken(header) && jwt.OtherError? ==> r == Err(Failure(401, Custom("Invalid token")))
  {
    if !HasToken(header) then Err(Failure(401, NoTokenProvided))
    else
      match VerifyToken(ExtractToken(header).value, jwt)
      case Ok(id) => Ok(id)
      case Err(f) =>
        VerifyFailurePassesThrough(ExtractToken(header).value, jwt);
        Err(HandleError(Thrown(Some(f.status), ReasonText(f.reason), "", None)))
  }

  /** What the add-expense checks accept: the verified id, the trimmed title and the amount. */
  datatype NewLegacyExpense = NewLegacyExpense(id: Id, title: string, amount: real)

  /**
   * POST /api/expenses up to the user lookup: the token must be present, then
   * the body is validated, then the token is verified.
   */
  function CheckAddExpense(header: Option<string>, title: Option<string>, amount: Option<Number>, jwt: JwtOutcome)
    : (r: Result<NewLegacyExpense, Failure>)
    ensures !HasToken(header) ==> r == Err(Failure(401, NoTokenProvided))
    ensures HasToken(header) && (Blank(title) || amount.None?) ==> r == Err(Failure(400, TitleAndAmountRequired))
    ensures r.Ok? <==>
      && HasToken(header) && !Blank(title) && amount.Some?
      && Trim(title.value) != "" && amount.value.Num? && amount.value.value > 0.0
      && jwt.Verified?
    ensures r.Ok? ==> r.value == NewLegacyExpense(jwt.id, Trim(title.value), amount.value.value)
    ensures r.Err? ==> (r.error.status == 400 <==> HasToken(header) && !CheckAddBody(title, amount).Ok?)
    ensures HasToken(header) && CheckAddBody(title, amount).Err? ==> r == Err(CheckAddBody(title, amount).error)
    ensures HasToken(header) && CheckAddBody(title, amount).Ok? && Session(header, jwt).Err? ==>
      r == Err(Session(header, jwt).error)
  {
    if !HasToken(header) then Err(Failure(401, NoTokenProvided))
    else
      match CheckAddBody(title, amount)
      case Err(f) => Err(f)
      case Ok(body) =>
        match Session(header, jwt)
        case Err(f) => Err(f)
        case Ok(id) => Ok(NewLegacyExpense(id, body.0, body.1))
  }

  /** The body checks of add-expense, in order. */
  function CheckAddBody(title: Option<string>, amount: Option<Number>): (r: Result<(string, real), Failure>)
    ensures Blank(title) || amount.None? ==> r == Err(Failure(400, TitleAndAmountRequired))
    ensures !Blank(title) && amount.Some? && Trim(title.value) == "" ==> r == Err(Failure(400, TitleEmpty))
    ensures !Blank(title) && amount.Some? && Trim(title.value) != "" && !(amount.value.Num? && amount.value.value > 0.0) ==>
      r == Err(Failure(400, AmountNotPositive))
    ensures r.Ok? <==> !Blank(title) && amount.Some? && Trim(title.value) != "" && amount.value.Num? && amount.value.value > 0.0
    ensures r.Ok? ==> r.value == (Trim(title.value), amount.value.value)
    ensures r.Err? ==> r.error.status == 400
  {
    if Blank(title) || amount.None? then Err(Failure(400, TitleAndAmountRequired))
    else if Trim(title.value) == "" then Err(Failure(400, TitleEmpty))
    else if amount.value.NaN? || amount.value.value <= 0.0 then Err(Failure(400, AmountNotPositive))
    else Ok((Trim(title.value), amount.value.value))
  }

  /** An accepted expense fits the embedded schema. */
  lemma AcceptedExpenseValid(header: Option<string>, title: Option<string>, amount: Option<Number>, jwt: JwtOutcome, now: Date)
    requires CheckAddExpense(header, title, amount, jwt).Ok?
    ensures var n := CheckAddExpense(header, title, amount, jwt).value;
      ValidLegacyExpense(LegacyExpense(n.title, n.amount, now)) && n.amount > 0.0
  {
    TrimIdempotent(title.value);
  }

  /**
   * POST /api/expenses. `user` is the record the store finds for the verified id
   * (null when there is none) and `now` the clock at the push.
   */
  method AddExpense(user: User?, header: Option<string>, title: Option<string>, amount: Option<Number>, jwt: JwtOutcome, now: Date)
    returns (r: Result<Report, Failure>)
    requires user != null ==> user.Valid()
    modifies user
    ensures user != null ==> user.Valid()
    ensures CheckAddExpense(header, title, amount, jwt).Err? ==>
      r == Err(CheckAddExpense(header, title, amount, jwt).error)
    ensures CheckAddExpense(header, title, amount, jwt).Ok? && user == null ==> r == Err(Failure(404, UserNotFound))
    ensures user != null ==>
      && user.name == old(user.name) && user.email == old(user.email)
      && user.passwordHash == old(user.passwordHash) && user.budget == old(user.budget)
    ensures user != null && CheckAddExpense(header, title, amount, jwt).Err? ==> user.expenses == old(user.expenses)
    ensures user != null && CheckAddExpense(header, title, amount, jwt).Ok? ==>
      var n := CheckAddExpense(header, title, amount, jwt).value;
      && user.expenses == old(user.expenses) + [LegacyExpense(n.title, n.amount, now)]
      && r == Ok(ReportOf(user.budget, user.expenses))
  {
    match CheckAddExpense(header, title, amount, jwt)
    case Err(f) =>
      r := Err(f);
    case Ok(n) =>
      if user == null {
        r := Err(Failure(404, UserNotFound));
      } else {
        AcceptedExpenseValid(header, title, amount, jwt, now);
        user.expenses := user.expenses + [LegacyExpense(n.title, n.amount, now)];
        r := Ok(ReportOf(user.budget, user.expenses));
      }
  }

  /** The set-budget body check: present, a number, and not negative. */
  function CheckLimit(limit: Option<Number>): (r: Result<real, Failure>)
    ensures limit.None? ==> r == Err(Failure(400, BudgetLimitRequired))
    ensures r.Ok? <==> limit.Some? && limit.value.Num? && limit.value.value >= 0.0
    ensures r.Ok? ==> r.value == limit.value.value
    ensures limit.Some? && r.Err? ==> r == Err(Failure(400, BudgetNegative))
  {
    if limit.None? then Err(Failure(400, BudgetLimitRequired))
    else if limit.value.NaN? || limit.value.value < 0.0 then Err(Failure(400, BudgetNegative))
    else Ok(limit.value.value)
  }

  /** POST /api/budgets: the token, the limit, the verifier, the user, in that order. */
  function CheckSetBudget(header: Option<string>, limit: Option<Number>, jwt: JwtOutcome): (r: Result<real, Failure>)
    ensures !HasToken(header) ==> r == Err(Failure(401, NoTokenProvided))
    ensures HasToken(header) && CheckLimit(limit).Err? ==> r == CheckLimit(limit)
    ensures r.Ok? <==> HasToken(header) && CheckLimit(limit).Ok? && jwt.Verified?
    ensures r.Ok? ==> r.value == limit.value.value && r.value >= 0.0
    ensures HasToken(header) && CheckLimit(limit).Ok? && Session(header, jwt).Err? ==> r == Err(Session(header, jwt).error)
  {
    if !HasToken(header) then Err(Failure(401, NoTokenProvided))
    else
      match CheckLimit(limit)
      case Err(f) => Err(f)
      case Ok(v) =>
        match Session(header, jwt)
        case Err(f) => Err(f)
        case Ok(_) => Ok(v)
  }

  /** POST /api/budgets: replace the budget and nothing else; a rejected request changes nothing. */
  method SetBudget(user: User?, header: Option<string>, limit: Option<Number>, jwt: JwtOutcome)
    returns (r: Result<real, Failure>)
    requires user != null ==> user.Valid()
    modifies user
    ensures user != null ==> user.Valid()
    ensures CheckSetBudget(header, limit, jwt).Err? ==> r == CheckSetBudget(header, limit, jwt)
    ensures CheckSetBudget(header, limit, jwt).Ok? && user == null ==> r == Err(Failure(404, UserNotFound))
    ensures user != null ==>
      && user.name == old(user.name) && user.email == old(user.email)
      && user.passwordHash == old(user.passwordHash) && user.expenses == old(user.expenses)
    ensures user != null && CheckSetBudget(header, limit, jwt).Err? ==> user.budget == old(user.budget)
    ensures user != null && CheckSetBudget(header, limit, jwt).Ok? ==>
      user.budget == limit.value.value && r == Ok(user.budget)
  {
    match CheckSetBudget(header, limit, jwt)
    case Err(f) =>
      r := Err(f);
    case Ok(v) =>
      if user == null {
        r := Err(Failure(404, UserNotFound));
      } else {
        user.budget := v;
        r := Ok(v);
      }
  }

  /**
   * The GET /api/user response: the stored document's fields (the password
   * hash included, as `toObject` copies it) followed by the report.
   */
  datatype UserView = UserView(name: string, email: string, passwordHash: string, budget: real,
                               expenses: seq<LegacyExpense>, report: Report)

  /** GET /api/user: a copy of the stored record with its report, after the token and the lookup. */
  function Dashboard(user: User?, header: Option<string>, jwt: JwtOutcome): (r: Result<UserView, Failure>)
    reads user
    ensures Session(header, jwt).Err? ==> r == Err(Session(header, jwt).error)
    ensures Session(header, jwt).Ok? && user == null ==> r == Err(Failure(404, UserNotFound))
    ensures Session(header, jwt).Ok? && user != null ==> r.Ok?
    ensures r.Ok? ==>
      && user != null
      && r.value.name == user.name && r.value.email == user.email
      && r.value.passwordHash == user.passwordHash
      && r.value.budget == user.budget && r.value.expenses == user.expenses
      && r.value.report == ReportOf(user.budget, user.expenses)
  {
    match Session(header, jwt)
    case Err(f) => Err(f)
    case Ok(_) =>
      if user == null then Err(Failure(404, UserNotFound))
      else Ok(UserView(user.name, user.email, user.passwordHash, user.budget, user.expenses,
                       ReportOf(user.budget, user.expenses)))
  }

  /** The DELETE /api/user/reset response: the new budget and expenses, and the constant zero totals. */
  datatype ResetView = ResetView(budget: real, expenses: seq<LegacyExpense>, totalExpense: real, remaining: real)

  /** DELETE /api/user/reset: budget 0 and no expenses; the account fields stay. */
  method Reset(user: User?, header: Option<string>, jwt: JwtOutcome) returns (r: Result<ResetView, Failure>)
    requires user != null ==> user.Valid()
    modifies user
    ensures user != null ==> user.Valid()
    ensures Session(header, jwt).Err? ==> r == Err(Session(header, jwt).error)
    ensures Session(header, jwt).Ok? && user == null ==> r == Err(Failure(404, UserNotFound))
    ensures user != null ==>
      && user.name == old(user.name) && user.email == old(user.email)
      && user.passwordHash == old(user.passwordHash)
    ensures user != null && Session(header, jwt).Err? ==>
      user.budget == old(user.budget) && user.expenses == old(user.expenses)
    ensures user != null && Session(header, jwt).Ok? ==>
      user.budget == 0.0 && user.expenses == [] && r == Ok(ResetView(0.0, [], 0.0, 0.0))
  {
    match Session(header, jwt)
    case Err(f) =>
      r := Err(f);
    case Ok(_) =>
      if user == null {
        r := Err(Failure(404, UserNotFound));
      } else {
        user.budget := 0.0;
        user.expenses := [];
        r := Ok(ResetView(user.budget, [], 0.0, 0.0));
      }
  }

  /**
   * The zero totals the reset answers with are the report of the reset record,
   * and a dashboard of a reset record reports its budget as reached.
   */
  lemma DashboardAfterReset(user: User, header: Option<string>, jwt: JwtOutcome)
    requires user.budget == 0.0 && user.expenses == []
    requires Session(header, jwt).Ok?
    ensures ReportOf(user.budget, user.expenses).totalExpense == 0.0
    ensures ReportOf(user.budget, user.expenses).remaining == 0.0
    ensures Dashboard(user, header, jwt)
      == Ok(UserView(user.name, user.email, user.passwordHash, 0.0, [], Report(0.0, 0.0, 0.0, BudgetReached)))
  {
  }
}
