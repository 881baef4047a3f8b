/**
 * The Expense schema: a titled, dated, non-negative amount in one category,
 * owned by one user. Strings are trimmed before they are validated; a missing
 * date takes the creation time.
 */
module ExpenseModel {
  import opened Wrappers
  import opened Ids
  import opened Calendar
  import opened Text

  datatype Expense = Expense(
    id: Id, user: Id, category: Id, title: string, amount: real, date: Date, note: Option<string>)

  /** The schema paths whose validators can fail, in schema order. */
  datatype Field = TitleField | AmountField | DateField | CategoryField

  /** What the schema guarantees of every stored expense. */
  predicate ValidExpense(e: Expense)
  {
    && e.title != [] && Trim(e.title) == e.title
    && e.amount >= 0.0
    && ValidDate(e.date)
    && (e.note.Some? ==> Trim(e.note.value) == e.note.value)
  }

  function ExpenseId(e: Expense): Id
  {
    e.id
  }

  function Amount(e: Expense): real
  {
    e.amount
  }

  /** The fields of a create request, each possibly absent. */
  datatype ExpenseInput = ExpenseInput(
    title: Option<string>, amount: Option<real>, date: Option<Date>,
    category: Option<Id>, note: Option<string>)

  predicate TitleRejected(title: Option<string>)
  {
    title.None? || Trim(title.value) == []
  }

  predicate AmountRejected(amount: Option<real>)
  {
    amount.None? || amount.value < 0.0
  }

  predicate DateRejected(date: Option<Date>)
  {
    date.Some? && !ValidDate(date.value)
  }

  /** The failing paths of a create request: required title, amount and category, `min: 0` on amount. */
  function InputErrors(input: ExpenseInput): (errs: seq<Field>)
    ensures TitleField in errs <==> TitleRejected(input.title)
    ensures AmountField in errs <==> AmountRejected(input.amount)
    ensures DateField in errs <==> DateRejected(input.date)
    ensures CategoryField in errs <==> input.category.None?
    ensures errs == [] <==>
      !TitleRejected(input.title) && !AmountRejected(input.amount)
      && !DateRejected(input.date) && input.category.Some?
  {
    (if TitleRejected(input.title) then [TitleField] else [])
    + (if AmountRejected(input.amount) then [AmountField] else [])
    + (if DateRejected(input.date) then [DateField] else [])
    + (if input.category.None? then [CategoryField] else [])
  }

  function TrimNote(note: Option<string>): Option<string>
  {
    match note
    case Some(n) => Some(Trim(n))
    case None => None
  }

  lemma TrimmedOption(s: Option<string>)
    ensures s.Some? ==> Trim(Trim(s.value)) == Trim(s.value)
  {
    if s.Some? {
      TrimIdempotent(s.value);
    }
  }

  /** `Expense.create`: the document stored for `input`, or the paths that failed validation. */
  function NewExpense(id: Id, user: Id, input: ExpenseInput, now: Date): (r: Result<Expense, seq<Field>>)
    requires ValidDate(now)
    ensures r.Err? <==> InputErrors(input) != []
    ensures r.Err? ==> r.error == InputErrors(input)
    ensures r.Ok? ==> ValidExpense(r.value)
    ensures r.Ok? ==> r.value.id == id && r.value.user == user
    ensures r.Ok? ==> && r.value.title == Trim(input.title.value)
                      && r.value.amount == input.amount.value
                      && r.value.date == input.date.GetOr(now)
                      && r.value.category == input.category.value
                      && r.value.note == TrimNote(input.note)
  {
    if InputErrors(input) != [] then Err(InputErrors(input))
    else
      var title := Trim(input.title.value);
      TrimIdempotent(input.title.value);
      TrimmedOption(input.note);
      Ok(Expense(id, user, input.category.value, title, input.amount.value,
                 input.date.GetOr(now), TrimNote(input.note)))
  }

  /** The fields of an update request; an absent field is left as it is. */
  datatype ExpensePatch = ExpensePatch(
    title: Option<string>, amount: Option<real>, date: Option<Date>,
    category: Option<Id>, note: Option<string>)

  /** The update validators: a set title must not trim to empty, a set amount must not be negative. */
  function PatchErrors(p: ExpensePatch): (errs: seq<Field>)
    ensures TitleField in errs <==> p.title.Some? && Trim(p.title.value) == []
    ensures AmountField in errs <==> p.amount.Some? && p.amount.value < 0.0
    ensures DateField in errs <==> DateRejected(p.date)
    ensures CategoryField !in errs
  {
    (if p.title.Some? && Trim(p.title.value) == [] then [TitleField] else [])
    + (if p.amount.Some? && p.amount.value < 0.0 then [AmountField] else [])
    + (if DateRejected(p.date) then [DateField] else [])
  }

  /** The record after the update: the patched fields replaced (strings trimmed), the rest kept. */
  function Patched(e: Expense, p: ExpensePatch): (r: Expense)
    requires ValidExpense(e) && PatchErrors(p) == []
    ensures ValidExpense(r)
    ensures r.id == e.id && r.user == e.user
    ensures r.title == (if p.title.Some? then Trim(p.title.value) else e.title)
    ensures r.amount == p.amount.GetOr(e.amount) && r.date == p.date.GetOr(e.date)
    ensures r.category == p.category.GetOr(e.category)
    ensures r.note == (if p.note.Some? then TrimNote(p.note) else e.note)
  {
    TrimmedOption(p.title);
    TrimmedOption(p.note);
    e.(title := if p.title.Some? then Trim(p.title.value) else e.title,
       amount := p.amount.GetOr(e.amount),
       date := p.date.GetOr(e.date),
       category := p.category.GetOr(e.category),
       note := if p.note.Some? then TrimNote(p.note) else e.note)
  }
}
