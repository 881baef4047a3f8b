/**
 * The legacy server's authentication helpers: reading the bearer token from
 * the Authorization header, mapping token verification failures, the email
 * shape check, and the register and login validation.
 */
module LegacyAuth {
  import opened Wrappers
  import opened Ids
  import opened Folds
  import opened Text
  import opened LegacyErrors

  const BearerScheme: string := "Bearer"

  /** `extractToken`: the trimmed second piece of a two-piece, space-separated `Bearer` header. */
  function ExtractToken(header: Option<string>): Option<string>
  {
    if header.None? || header.value == "" then None
    else
      var parts := Split(header.value, ' ');
      if |parts| != 2 || parts[0] != BearerScheme then None
      else Some(Trim(parts[1]))
  }

  /** A header `Bearer <t>`, where `<t>` holds no space, yields `<t>` trimmed. */
  lemma ExtractTokenAccepts(rest: string)
    requires ' ' !in rest
    ensures ExtractToken(Some(BearerScheme + " " + rest)) == Some(Trim(rest))
  {
    assert BearerScheme + " " + rest == BearerScheme + [' '] + rest;
    assert ' ' !in BearerScheme;
    SplitPrefix(BearerScheme, rest, ' ');
    SplitNoSeparator(rest, ' ');
  }

  /** Any token extracted comes from a header of exactly that shape. */
  lemma ExtractTokenShape(header: Option<string>)
    requires ExtractToken(header).Some?
    ensures header.Some? && |header.value| >= 7
    ensures header.value[..7] == BearerScheme + " "
    ensures ' ' !in header.value[7..]
    ensures ExtractToken(header).value == Trim(header.value[7..])
  {
    var h := header.value;
    var parts := Split(h, ' ');
    JoinSplit(h, ' ');
    assert parts == [parts[0], parts[1]];
    assert Join(parts, ' ') == parts[0] + [' '] + parts[1];
    assert h == BearerScheme + [' '] + parts[1];
    assert h[7..] == parts[1];
  }

  /** The token verifier of the signing library, as an outcome. */
  datatype JwtOutcome = Verified(id: Id) | ExpiredError | MalformedError | OtherError

  /** `verifyToken`: an empty trimmed token, then the verifier's errors, each mapped to a 401. */
  function VerifyToken(token: string, jwt: JwtOutcome): (r: Result<Id, Failure>)
    ensures Trim(token) == [] ==> r == Err(Failure(401, NoTokenProvided))
    ensures Trim(token) != [] ==> match jwt
      case Verified(id) => r == Ok(id)
      case ExpiredError => r == Err(Failure(401, TokenExpired))
      case MalformedError => r == Err(Failure(401, MalformedToken))
      case OtherError => r == Err(Failure(401, InvalidToken))
  {
    if Trim(token) == [] then Err(Failure(401, NoTokenProvided))
    else
      match jwt
      case Verified(id) => Ok(id)
      case ExpiredError => Err(Failure(401, TokenExpired))
      case MalformedError => Err(Failure(401, MalformedToken))
      case OtherError => Err(Failure(401, InvalidToken))
  }

  /** The message text of a verification failure, as the thrown object carries it. */
  function ReasonText(reason: Reason): string
  {
    match reason
    case NoTokenProvided => "No token provided"
    case TokenExpired => "Token expired"
    case MalformedToken => "Malformed token"
    case _ => "Invalid token"
  }

  /**
   * A verification failure is thrown as a custom error object `{status, message}`;
   * the global handler answers it with that status and message unchanged.
   */
  lemma VerifyFailurePassesThrough(token: string, jwt: JwtOutcome)
    requires VerifyToken(token, jwt).Err?
    ensures var f := VerifyToken(token, jwt).error;
      HandleError(Thrown(Some(f.status), ReasonText(f.reason), "", None)) == Failure(401, Custom(ReasonText(f.reason)))
  {
  }

  predicate NoSpaceOrAt(s: string)
  {
    NoWhitespace(s) && '@' !in s
  }

  /**
   * `^[^\s@]+@[^\s@]+\.[^\s@]+$`: a non-empty local part, `@`, then a part with a
   * `.` that has at least one character on each side, no part holding
   * whitespace or `@`.
   */
  ghost predicate EmailShape(s: string)
  {
    exists i, j :: 0 < i && i + 1 < j && j + 1 < |s| && s[i] == '@' && s[j] == '.'
      && NoSpaceOrAt(s[..i]) && NoSpaceOrAt(s[i + 1..j]) && NoSpaceOrAt(s[j + 1..])
  }

  function IsAt(c: char): bool
  {
    c == '@'
  }

  /** `isValidEmail`, computed: split at the first `@`, then look for an inner `.` in the rest. */
  predicate IsValidEmail(s: string)
  {
    match FirstIndex(s, IsAt)
    case None => false
    case Some(i) =>
      var domain := s[i + 1..];
      && i > 0 && NoWhitespace(s[..i])
      && NoSpaceOrAt(domain)
      && |domain| >= 3 && '.' in domain[1..|domain| - 1]
  }

  /** The computed check accepts exactly the strings the regular expression matches. */
  lemma IsValidEmailMatchesShape(s: string)
    ensures IsValidEmail(s) <==> EmailShape(s)
  {
    if IsValidEmail(s) {
      ValidEmailHasShape(s);
    }
    if EmailShape(s) {
      var i, j :| 0 < i && i + 1 < j && j + 1 < |s| && s[i] == '@' && s[j] == '.'
        && NoSpaceOrAt(s[..i]) && NoSpaceOrAt(s[i + 1..j]) && NoSpaceOrAt(s[j + 1..]);
      ShapeIsValidEmail(s, i, j);
    }
  }

  lemma ValidEmailHasShape(s: string)
    requires IsValidEmail(s)
    ensures EmailShape(s)
  {
    var i := FirstIndex(s, IsAt).value;
    var domain := s[i + 1..];
    var inner := domain[1..|domain| - 1];
    var d :| 0 <= d < |inner| && inner[d] == '.';
    var j := i + 2 + d;
    assert s[j] == '.';
    assert s[i + 1..j] == domain[..d + 1];
    assert s[j + 1..] == domain[d + 2..];
    assert NoSpaceOrAt(s[i + 1..j]) && NoSpaceOrAt(s[j + 1..]);
    assert '@' !in s[..i] by {
      forall k | 0 <= k < i
        ensures s[..i][k] != '@'
      {
        assert !IsAt(s[k]);
      }
    }
  }

  lemma ShapeIsValidEmail(s: string, i: nat, j: nat)
    requires 0 < i && i + 1 < j && j + 1 < |s| && s[i] == '@' && s[j] == '.'
    requires NoSpaceOrAt(s[..i]) && NoSpaceOrAt(s[i + 1..j]) && NoSpaceOrAt(s[j + 1..])
    ensures IsValidEmail(s)
  {
    assert forall k :: 0 <= k < i ==> !IsAt(s[k]) by {
      forall k | 0 <= k < i
        ensures !IsAt(s[k])
      {
        assert s[..i][k] == s[k];
      }
    }
    assert FirstIndex(s, IsAt) == Some(i);
    var domain := s[i + 1..];
    assert domain == s[i + 1..j] + [s[j]] + s[j + 1..];
    assert NoSpaceOrAt(domain);
    assert domain[1..|domain| - 1][j - i - 2] == '.';
  }

  /** The register body fields, each possibly absent. */
  datatype RegisterInput = RegisterInput(name: Option<string>, email: Option<string>, password: Option<string>)

  /** `!x` on a body field: absent or the empty string. */
  predicate Blank(x: Option<string>)
  {
    x.None? || x.value == ""
  }

  /** The stored form of an email: trimmed, then lower-cased. */
  function NormalizeEmail(email: string): string
  {
    ToLowerAscii(Trim(email))
  }

  /** The account register stores; the password hash comes from the hashing library. */
  datatype Account = Account(name: string, email: string, passwordHash: string, budget: real)

  /** POST /api/auth/register, against the set of stored emails; `hashed` is the library's hash of the password. */
  function Register(input: RegisterInput, registered: set<string>, hashed: string): (r: Result<Account, Failure>)
    ensures Blank(input.name) || Blank(input.email) || Blank(input.password) ==> r == Err(Failure(400, AllFieldsRequired))
    ensures r.Ok? <==>
      && !Blank(input.name) && !Blank(input.email) && !Blank(input.password)
      && |Trim(input.name.value)| >= 2
      && |input.password.value| >= 6
      && EmailShape(NormalizeEmail(input.email.value))
      && NormalizeEmail(input.email.value) !in registered
    ensures r.Ok? ==> r.value == Account(Trim(input.name.value), NormalizeEmail(input.email.value), hashed, 0.0)
    ensures r.Err? ==> r.error.status == 400
    ensures !Blank(input.name) && !Blank(input.email) && !Blank(input.password) ==>
      var name, email := Trim(input.name.value), NormalizeEmail(input.email.value);
      && (r == Err(Failure(400, NameTooShort)) <==> |name| < 2)
      && (r == Err(Failure(400, PasswordTooShort)) <==> |name| >= 2 && |input.password.value| < 6)
      && (r == Err(Failure(400, InvalidEmailFormat)) <==>
            |name| >= 2 && |input.password.value| >= 6 && !EmailShape(email))
      && (r == Err(Failure(400, UserAlreadyExists)) <==>
            |name| >= 2 && |input.password.value| >= 6 && EmailShape(email) && email in registered)
  {
    if Blank(input.name) || Blank(input.email) || Blank(input.password) then Err(Failure(400, AllFieldsRequired))
    else
      var name, email := Trim(input.name.value), NormalizeEmail(input.email.value);
      IsValidEmailMatchesShape(email);
      if |name| < 2 then Err(Failure(400, NameTooShort))
      else if |input.password.value| < 6 then Err(Failure(400, PasswordTooShort))
      else if !IsValidEmail(email) then Err(Failure(400, InvalidEmailFormat))
      else if email in registered then Err(Failure(400, UserAlreadyExists))
      else Ok(Account(name, email, hashed, 0.0))
  }

  /**
   * The checks run in order: a short name is reported before a short password.
   * `Register`'s own contract states the full order; this is the case of two failing checks.
   */
  lemma RegisterCheckOrder(input: RegisterInput, registered: set<string>, hashed: string)
    requires !Blank(input.name) && !Blank(input.email) && !Blank(input.password)
    ensures |Trim(input.name.value)| < 2 ==> Register(input, registered, hashed) == Err(Failure(400, NameTooShort))
    ensures |Trim(input.name.value)| >= 2 && |input.password.value| < 6 ==>
      Register(input, registered, hashed) == Err(Failure(400, PasswordTooShort))
  {
  }

  /** Once an account is stored, registering another with the same normalised email is refused. */
  lemma RegisterOnce(first: RegisterInput, second: RegisterInput, registered: set<string>, h1: string, h2: string)
    requires Register(first, registered, h1).Ok?
    requires !Blank(second.email) && NormalizeEmail(second.email.value) == Register(first, registered, h1).value.email
    ensures Register(second, registered + {Register(first, registered, h1).value.email}, h2).Err?
  {
  }

  /** The login body fields. */
  datatype LoginInput = LoginInput(email: Option<string>, password: Option<string>)

  /**
   * POST /api/auth/login: `accounts` are the stored accounts by (normalised)
   * email, and `matches` the hashing library's comparison of the given password
   * with the stored hash.
   */
  function Login(input: LoginInput, accounts: map<string, Account>, matches: bool): (r: Result<Account, Failure>)
    ensures Blank(input.email) || Blank(input.password) ==> r == Err(Failure(400, CredentialsRequired))
    ensures !Blank(input.email) && !Blank(input.password) ==>
      (r.Ok? <==> NormalizeEmail(input.email.value) in accounts && matches)
    ensures r.Ok? ==> r == Ok(accounts[NormalizeEmail(input.email.value)])
    ensures r.Err? && !Blank(input.email) && !Blank(input.password) ==> r.error == Failure(401, InvalidCredentials)
  {
    if Blank(input.email) || Blank(input.password) then Err(Failure(400, CredentialsRequired))
    else
      var email := NormalizeEmail(input.email.value);
      if email !in accounts || !matches then Err(Failure(401, InvalidCredentials))
      else Ok(accounts[email])
  }

  /**
   * An account just registered is found by login with the same email as it
   * was registered with, once the password matches its hash.
   */
  lemma RegisteredCanLogin(input: RegisterInput, accounts: map<string, Account>, hashed: string)
    requires Register(input, accounts.Keys, hashed).Ok?
    ensures var a := Register(input, accounts.Keys, hashed).value;
      && a.email !in accounts
      && Login(LoginInput(input.email, input.password), accounts[a.email := a], true) == Ok(a)
  {
  }
}
