/** Values shared by every route: optional values, the INCOME/EXPENSE kind,
    the tagged HTTP response, the session check, and decimal digit strings. */
module Common {

  datatype Option<T> = None | Some(value: T) {
    /** `x ?? d` in TypeScript. */
    function GetOr(default: T): T {
      if Some? then value else default
    }
  }

  /** The INCOME/EXPENSE discriminator shared by categories and transactions. */
  datatype Kind = Income | Expense

  /** The enum spelling used in request bodies, query strings and the database. */
  function KindName(k: Kind): string {
    match k
    case Income => "INCOME"
    case Expense => "EXPENSE"
  }

  /** `z.enum(["INCOME", "EXPENSE"])`: only the two exact spellings are accepted. */
  function ParseKind(s: string): (r: Option<Kind>)
    ensures r.Some? <==> (s == "INCOME" || s == "EXPENSE")
    ensures r.Some? ==> KindName(r.value) == s
  {
    if s == "INCOME" then Some(Income)
    else if s == "EXPENSE" then Some(Expense)
    else None
  }

  lemma KindNameRoundTrip(k: Kind)
    ensures ParseKind(KindName(k)) == Some(k)
  {
  }

  /** Identifiers of users, categories and transactions are strings. */
  type Id = string

  /** A route's answer: a success payload or an error message, each with its
      HTTP status. `issues` lists the request fields that failed validation
      (empty for errors that are not validation errors). */
  datatype Response<T> =
    | Ok(status: int, value: T)
    | Fail(status: int, message: string, issues: seq<string>)

  /** `const userId = session?.user?.id; if (!userId) ...`: a missing session,
      a missing id and the empty id are all unauthenticated. */
  function SessionUser(session: Option<Id>): (r: Option<Id>)
    ensures r.Some? <==> session.Some? && session.value != ""
    ensures r.Some? ==> r.value == session.value
  {
    if session.Some? && session.value != "" then session else None
  }

  /** A request body as `await req.json().catch(() => null)` followed by
      `if (!body)` sees it. */
  datatype Body<T> =
    | Unusable        // not JSON at all, or a falsy JSON value (null, false, 0, "")
    | NotAnObject     // truthy JSON that an object schema rejects at its root
    | Object(fields: T)

  /** One member of a JSON object as a non-coercing zod schema sees it:
      missing, a string, or any other JSON value (null included). */
  datatype Field = Absent | Text(text: string) | NonText

  /** The issue path zod reports for a body rejected at its root. */
  const RootPath: string := ""

  // ---------------------------------------------------------------------
  // Decimal digit strings (`\d` in a JavaScript regular expression is the
  // ASCII range 0-9; `Number` of a digit string is its decimal value).
  // ---------------------------------------------------------------------

  predicate IsDigit(c: char) {
    '0' <= c <= '9'
  }

  predicate AllDigits(s: string) {
    forall i :: 0 <= i < |s| ==> IsDigit(s[i])
  }

  function DigitValue(c: char): (d: nat)
    requires IsDigit(c)
    ensures d < 10
  {
    (c as int) - ('0' as int)
  }

  function DigitChar(d: nat): (c: char)
    requires d < 10
    ensures IsDigit(c) && DigitValue(c) == d
  {
    (('0' as int) + d) as char
  }

  function Pow10(n: nat): (p: nat)
    ensures p >= 1
  {
    if n == 0 then 1 else 10 * Pow10(n - 1)
  }

  /** The number a string of decimal digits denotes, most significant first. */
  function DecimalValue(s: string): (v: nat)
    requires AllDigits(s)
    ensures v < Pow10(|s|)
    decreases |s|
  {
    if s == [] then 0 else DecimalValue(s[..|s| - 1]) * 10 + DigitValue(s[|s| - 1])
  }

  /** The shortest decimal spelling of `n`. */
  function Decimal(n: nat): (s: string)
    ensures AllDigits(s) && s != []
  {
    if n < 10 then [DigitChar(n)] else Decimal(n / 10) + [DigitChar(n % 10)]
  }

  lemma {:induction false} DecimalRoundTrip(n: nat)
    ensures DecimalValue(Decimal(n)) == n
  {
    if n >= 10 {
      var s := Decimal(n);
      assert s[..|s| - 1] == Decimal(n / 10);
      DecimalRoundTrip(n / 10);
    }
  }

  lemma DecimalInjective(m: nat, n: nat)
    requires Decimal(m) == Decimal(n)
    ensures m == n
  {
    DecimalRoundTrip(m);
    DecimalRoundTrip(n);
  }
}
