/**
 * Go's `strconv.Atoi` for base-10 strings, as `up` uses it to turn a
 * snapshot's textual ID into the integer image reference of a create
 * request. Range and overflow errors are not modelled (integers here are
 * unbounded).
 */
module Strconv {
  import opened Wrappers

  predicate IsDigit(c: char) {
    '0' <= c <= '9'
  }

  predicate AllDigits(s: string) {
    forall i :: 0 <= i < |s| ==> IsDigit(s[i])
  }

  /** The value of a string of decimal digits, most significant digit first. */
  function DecimalValue(s: string): nat
    requires AllDigits(s)
  {
    if s == [] then 0
    else 10 * DecimalValue(s[..|s| - 1]) + (s[|s| - 1] as int - '0' as int)
  }

  /** What `Atoi` accepts: an optional sign followed by at least one digit. */
  predicate IsDecimalInteger(s: string) {
    if |s| > 0 && (s[0] == '+' || s[0] == '-') then |s| > 1 && AllDigits(s[1..])
    else |s| > 0 && AllDigits(s)
  }

  /** `strconv.Atoi(s)`: `None` stands for the syntax error Go returns. */
  function Atoi(s: string): (r: Option<int>)
    ensures r.Some? <==> IsDecimalInteger(s)
  {
    if s == [] then None
    else if s[0] == '+' || s[0] == '-' then
      var digits := s[1..];
      if digits == [] || !AllDigits(digits) then None
      else
        var magnitude: int := DecimalValue(digits);
        Some(if s[0] == '-' then -magnitude else magnitude)
    else if !AllDigits(s) then None
    else Some(DecimalValue(s))
  }

  /** The decimal digits of `n` without sign or leading zeros: the text Go's `strconv.Itoa` prints. */
  function Itoa(n: nat): (s: string)
    ensures s != [] && AllDigits(s)
    decreases n
  {
    var last := ['0' + (n % 10) as char];
    if n < 10 then last else Itoa(n / 10) + last
  }

  /** The value of the digits `Itoa` prints is the number printed. */
  lemma {:induction false} ItoaValue(n: nat)
    ensures DecimalValue(Itoa(n)) == n
    decreases n
  {
    var s := Itoa(n);
    if n >= 10 {
      ItoaValue(n / 10);
      assert s[..|s| - 1] == Itoa(n / 10);
    }
  }

  /** A snapshot ID made of digits only is passed on as its decimal value. */
  lemma AtoiOfDigits(s: string)
    requires s != [] && AllDigits(s)
    ensures Atoi(s) == Some(DecimalValue(s))
  {
  }

  /** Round trip: `Atoi` reads back every number `Itoa` prints. */
  lemma AtoiItoa(n: nat)
    ensures Atoi(Itoa(n)) == Some(n)
  {
    ItoaValue(n);
    AtoiOfDigits(Itoa(n));
  }
}
