/** Small shared datatypes: optional values, pass/fail outcomes and the
    JavaScript number values (finite or Infinity) that several modules store. */
module Wrappers {

  /** A value that may be `undefined`. */
  datatype Option<+T> = None | Some(value: T)

  /** A value or the error thrown instead. */
  datatype Result<+T, +E> = Ok(value: T) | Err(error: E)

  /** The outcome of a check that either passes or throws an error. */
  datatype Outcome<+E> = Pass | Fail(error: E)

  /** A JavaScript number as the modelled code uses it: a whole number or `Infinity`. */
  datatype JsNumber = Finite(n: int) | Infinity

  /** `a < b` on JavaScript numbers. */
  predicate Less(a: JsNumber, b: JsNumber)
  {
    match (a, b)
    case (Finite(x), Finite(y)) => x < y
    case (Finite(_), Infinity) => true
    case (Infinity, _) => false
  }

  /** Decimal rendering of a natural number, as JavaScript's template strings print it. */
  function NatToString(n: nat): (s: string)
    ensures |s| > 0
    ensures forall i :: 0 <= i < |s| ==> '0' <= s[i] <= '9'
    ensures DigitsValue(s) == n
  {
    if n < 10 then [DigitChar(n)]
    else
      var s := NatToString(n / 10) + [DigitChar(n % 10)];
      assert s[..|s| - 1] == NatToString(n / 10);
      s
  }

  /** The number a string of decimal digits denotes, most significant digit first. */
  function DigitsValue(s: string): nat
  {
    if |s| == 0 then 0 else 10 * DigitsValue(s[..|s| - 1]) + DigitValue(s[|s| - 1])
  }

  /** The value of one decimal digit character, 0 for any other character. */
  function DigitValue(c: char): (d: nat)
    ensures d < 10
  {
    if '0' <= c <= '9' then (c as int - 48) else 0
  }

  /** Decimal rendering of an integer, with a leading minus sign when negative. */
  function IntToString(i: int): (s: string)
    ensures |s| > 0
    ensures i >= 0 ==> s == NatToString(i)
    ensures i < 0 ==> s[0] == '-' && s[1..] == NatToString(-i)
  {
    if i < 0 then "-" + NatToString(-i) else NatToString(i)
  }

  /** The first index `k` in `[from, n)` with `p(k)`, if any. */
  function FirstFrom(from: nat, n: nat, p: nat -> bool): (r: Option<nat>)
    ensures r.None? <==> forall k :: from <= k < n ==> !p(k)
    ensures r.Some? ==> from <= r.value < n && p(r.value)
    ensures r.Some? ==> forall k :: from <= k < r.value ==> !p(k)
    decreases n - from
  {
    if from >= n then None
    else if p(from) then Some(from)
    else FirstFrom(from + 1, n, p)
  }

  /** The first index below `n` satisfying `p`: what a loop that stops (or
      throws) at the first hit finds. */
  function FirstWhere(n: nat, p: nat -> bool): (r: Option<nat>)
    ensures r.None? <==> forall k :: 0 <= k < n ==> !p(k)
    ensures r.Some? ==> r.value < n && p(r.value)
    ensures r.Some? ==> forall k :: 0 <= k < r.value ==> !p(k)
  {
    FirstFrom(0, n, p)
  }

  function DigitChar(d: nat): (c: char)
    requires d < 10
    ensures '0' <= c <= '9'
  {
    (48 + d) as char
  }

  /** Rendering a digit and reading it back gives the digit. */
  lemma DigitRoundTrip(d: nat)
    requires d < 10
    ensures DigitValue(DigitChar(d)) == d
  {
  }
}
