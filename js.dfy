/** Values as the data-access layer receives them from its JavaScript callers,
    the coercions it relies on (JavaScript's isNaN, String(), and the integer
    value SQLite gives a literal compared with an INTEGER column), and two
    shapes shared by both stores: a chain of guards that throws at the first
    failure, and a lookup of the first row satisfying a condition. */
module Js {

  datatype Option<+T> = None | Some(value: T)

  /** A resolved promise (`Ok`) or a rejected one carrying the Error's message. */
  datatype Result<+T> = Ok(value: T) | Err(error: string)

  /** An argument a caller passes: a (whole) number or a string. */
  datatype JsValue = Num(n: int) | Str(s: string)

  predicate IsDigit(c: char) {
    '0' <= c <= '9'
  }

  predicate AllDigits(s: string) {
    forall i | 0 <= i < |s| :: IsDigit(s[i])
  }

  /** An optional sign followed by at least one decimal digit. */
  predicate IsIntegerLiteral(s: string) {
    var digits := if |s| > 0 && (s[0] == '-' || s[0] == '+') then s[1..] else s;
    |digits| > 0 && AllDigits(digits)
  }

  function DigitValue(c: char): (d: nat)
    requires IsDigit(c)
    ensures d < 10
  {
    c as int - '0' as int
  }

  function DigitChar(d: nat): (c: char)
    requires d < 10
    ensures IsDigit(c) && DigitValue(c) == d
  {
    ('0' as int + d) as char
  }

  /** The value of a string of decimal digits, most significant first. */
  function ParseDigits(s: string): nat
    requires AllDigits(s)
  {
    if s == [] then 0 else 10 * ParseDigits(s[..|s| - 1]) + DigitValue(s[|s| - 1])
  }

  function ParseInteger(s: string): int
    requires IsIntegerLiteral(s)
  {
    if s[0] == '-' then -(ParseDigits(s[1..]) as int)
    else if s[0] == '+' then ParseDigits(s[1..])
    else ParseDigits(s)
  }

  /** Decimal notation of a natural number, without leading zeros. */
  function NatToString(n: nat): (r: string)
    ensures |r| > 0 && AllDigits(r)
    ensures n > 0 ==> r[0] != '0'
    ensures |r| > 1 ==> r[0] != '0'
  {
    if n < 10 then [DigitChar(n)] else NatToString(n / 10) + [DigitChar(n % 10)]
  }

  lemma {:induction false} ParseNatToString(n: nat)
    ensures ParseDigits(NatToString(n)) == n
  {
    if n >= 10 {
      var s := NatToString(n);
      assert s[..|s| - 1] == NatToString(n / 10);
      ParseNatToString(n / 10);
    }
  }

  /** JavaScript's String(n) for a whole number: a minus sign exactly for a
      negative number, never a plus sign, no leading zero; reading it back gives n. */
  function IntToString(n: int): (r: string)
    ensures IsIntegerLiteral(r) && ParseInteger(r) == n
    ensures r[0] == '-' <==> n < 0
    ensures r[0] != '+'
    ensures r[0] == '-' ==> r[1] != '0'
    ensures r[0] != '-' && |r| > 1 ==> r[0] != '0'
  {
    if n < 0 then
      ParseNatToString(-n);
      var r := "-" + NatToString(-n);
      assert r[1..] == NatToString(-n);
      r
    else
      ParseNatToString(n);
      NatToString(n)
  }

  /** `String(v)` / `v.toString()`, and what a template literal interpolates:
      a number's decimal text, which reads back as the number; a string itself. */
  function Display(v: JsValue): (r: string)
    ensures v.Num? ==> r != "" && IsIntegerLiteral(r) && ParseInteger(r) == v.n
    ensures v.Str? ==> r == v.s
  {
    match v
    case Num(n) => IntToString(n)
    case Str(s) => s
  }

  /** JavaScript's `isNaN(v)`: a number never is; a string is unless it is
      empty (which converts to 0) or an integer literal. */
  predicate IsNaN(v: JsValue)
    ensures IsNaN(v) <==> Display(v) != "" && !IsIntegerLiteral(Display(v))
  {
    match v
    case Num(_) => false
    case Str(s) => s != "" && !IsIntegerLiteral(s)
  }

  /** The integer a value denotes once interpolated into SQL and compared
      with an INTEGER column, if any: a number denotes itself, a string its
      literal's value; the empty string and all other text denote nothing here.
      SQLite would also convert numeric text such as "3.0" or " 3", which this
      model does not. */
  function AsInteger(v: JsValue): (r: Option<int>)
    ensures r.Some? <==> !IsNaN(v) && Display(v) != ""
    ensures v.Num? ==> r == Some(v.n)
  {
    match v
    case Num(n) => Some(n)
    case Str(s) => if IsIntegerLiteral(s) then Some(ParseInteger(s)) else None
  }

  /** Whether an id argument selects the row whose integer key is `key`. */
  predicate Matches(arg: JsValue, key: int) {
    AsInteger(arg) == Some(key)
  }

  /** An id given as a number or as its decimal string selects that key and no other. */
  lemma MatchesExactly(key: int, other: int)
    ensures Matches(Num(key), other) <==> key == other
    ensures Matches(Str(IntToString(key)), other) <==> key == other
  {
  }

  /** One guard of a chain: whether it passes, and the message it throws otherwise. */
  datatype Check = Check(passes: bool, message: string)

  /** The message of the first guard that fails, or None when all pass. */
  function FirstFailure(checks: seq<Check>): (r: Option<string>)
    ensures r.None? <==> forall i | 0 <= i < |checks| :: checks[i].passes
    ensures r.Some? ==> exists k | 0 <= k < |checks| ::
      !checks[k].passes && r.value == checks[k].message &&
      forall j | 0 <= j < k :: checks[j].passes
  {
    if checks == [] then None
    else if !checks[0].passes then Some(checks[0].message)
    else
      var r := FirstFailure(checks[1..]);
      if r.Some? then
        var k :| 0 <= k < |checks[1..]| && !checks[1..][k].passes && r.value == checks[1..][k].message &&
          forall j | 0 <= j < k :: checks[1..][j].passes;
        assert !checks[k + 1].passes && forall j | 0 <= j < k + 1 :: checks[j].passes;
        r
      else
        r
  }

  /** The chain reports exactly the first failing guard. */
  lemma FirstFailureAt(checks: seq<Check>, k: nat)
    requires k < |checks| && !checks[k].passes
    requires forall j | 0 <= j < k :: checks[j].passes
    ensures FirstFailure(checks) == Some(checks[k].message)
  {
  }

  /** The number of elements satisfying `p`, as a `SELECT COUNT(...) ... WHERE`
      query returns it: zero exactly when no element satisfies `p`. */
  function CountWhere<T>(s: seq<T>, p: T -> bool): (n: nat)
    ensures n <= |s|
    ensures n == 0 <==> forall i | 0 <= i < |s| :: !p(s[i])
  {
    if s == [] then 0
    else
      var n := (if p(s[0]) then 1 else 0) + CountWhere(s[1..], p);
      assert forall i | 1 <= i < |s| :: s[i] == s[1..][i - 1];
      n
  }

  /** The index of the first element satisfying `p`, as a `WHERE` lookup
      followed by taking the first row returned. */
  function IndexWhere<T>(s: seq<T>, p: T -> bool): (r: Option<nat>)
    ensures r.None? <==> forall i | 0 <= i < |s| :: !p(s[i])
    ensures r.Some? ==> r.value < |s| && p(s[r.value])
    ensures r.Some? ==> forall j | 0 <= j < r.value :: !p(s[j])
  {
    if s == [] then None
    else if p(s[0]) then Some(0)
    else
      match IndexWhere(s[1..], p)
      case None => None
      case Some(k) => Some(k + 1)
  }
}
