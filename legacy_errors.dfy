/**
 * The legacy server's responses for failures: the reasons a handler answers
 * with an error, and the global error handler that turns a thrown error into
 * a status and a reason.
 */
module LegacyErrors {
  import opened Wrappers

  /** The reason carried in an error response, without its display text. */
  datatype Reason =
    | NoTokenProvided | TokenExpired | MalformedToken | InvalidToken
    | AllFieldsRequired | NameTooShort | PasswordTooShort | InvalidEmailFormat | UserAlreadyExists
    | CredentialsRequired | InvalidCredentials
    | TitleAndAmountRequired | TitleEmpty | AmountNotPositive
    | BudgetLimitRequired | BudgetNegative
    | UserNotFound
    | Custom(text: string)
    | ValidationMessages | DuplicateKey | InternalServerError

  datatype Failure = Failure(status: int, reason: Reason)

  /** What the handler can see of a thrown value: `status`, `message`, `name` and `code`. */
  datatype Thrown = Thrown(status: Option<int>, message: string, name: string, code: Option<int>)

  /** A custom error object in the sense of the handler: a truthy status and a non-empty message. */
  predicate IsCustom(e: Thrown)
  {
    e.status.Some? && e.status.value != 0 && e.message != ""
  }

  /** The global error handler: the first matching rule decides. */
  function HandleError(e: Thrown): (f: Failure)
    ensures IsCustom(e) ==> f == Failure(e.status.value, Custom(e.message))
    ensures !IsCustom(e) && e.name == "ValidationError" ==> f == Failure(400, ValidationMessages)
    ensures !IsCustom(e) && e.name != "ValidationError" && e.code == Some(11000) ==> f == Failure(400, DuplicateKey)
    ensures !IsCustom(e) && e.name != "ValidationError" && e.code != Some(11000) ==>
      && (e.name == "TokenExpiredError" ==> f == Failure(401, TokenExpired))
      && (e.name == "JsonWebTokenError" ==> f == Failure(401, InvalidToken))
      && (e.name != "TokenExpiredError" && e.name != "JsonWebTokenError" ==> f == Failure(500, InternalServerError))
  {
    if IsCustom(e) then Failure(e.status.value, Custom(e.message))
    else if e.name == "ValidationError" then Failure(400, ValidationMessages)
    else if e.code == Some(11000) then Failure(400, DuplicateKey)
    else if e.name == "TokenExpiredError" then Failure(401, TokenExpired)
    else if e.name == "JsonWebTokenError" then Failure(401, InvalidToken)
    else Failure(500, InternalServerError)
  }

  /** Every error the handler does not recognise becomes a 500; no other rule gives 500 unless asked to. */
  lemma HandledStatuses(e: Thrown)
    ensures HandleError(e).status == 500 <==>
      (IsCustom(e) && e.status.value == 500) || (!IsCustom(e) && e.name != "ValidationError" && e.code != Some(11000)
        && e.name != "TokenExpiredError" && e.name != "JsonWebTokenError")
    ensures !IsCustom(e) ==> HandleError(e).status in {400, 401, 500}
  {
  }

  /** A custom error keeps its message; the same text without a status falls through to the other rules. */
  lemma CustomNeedsStatus(e: Thrown)
    requires e.message != "" && e.name == "" && e.code.None?
    ensures HandleError(e.(status := None)) == Failure(500, InternalServerError)
    ensures e.status.Some? && e.status.value != 0 ==> HandleError(e).reason == Custom(e.message)
  {
  }
}
