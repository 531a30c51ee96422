/**
 * The parts of Go's `strconv` package the parser relies on: `Atoi` with a
 * 64-bit `int`, `ParseBool`, and their formatting inverses `Itoa` and
 * `FormatBool`.
 */
module Strconv {
  import opened Wrappers
  import opened Errors

  const MinInt: int := -0x8000_0000_0000_0000
  const MaxInt: int := 0x7FFF_FFFF_FFFF_FFFF

  predicate InIntRange(n: int) {
    MinInt <= n <= MaxInt
  }

  // ---------------------------------------------------------------- digits

  predicate IsDigit(c: char) {
    '0' <= c <= '9'
  }

  predicate AllDigits(s: string) {
    forall i :: 0 <= i < |s| ==> IsDigit(s[i])
  }

  function DigitValue(c: char): nat
    requires IsDigit(c)
  {
    c as int - '0' as int
  }

  function DigitChar(d: nat): (c: char)
    requires d < 10
    ensures IsDigit(c) && DigitValue(c) == d
  {
    ('0' as int + d) as char
  }

  /** The number a run of decimal digits denotes, most significant first. */
  function DigitsValue(s: string): nat
    requires AllDigits(s)
  {
    if |s| == 0 then 0 else DigitsValue(s[..|s| - 1]) * 10 + DigitValue(s[|s| - 1])
  }

  /** Base-10 integer syntax as `Atoi` accepts it: an optional `+` or `-`, then at least one digit. */
  predicate IsDecimal(s: string) {
    if |s| > 0 && (s[0] == '+' || s[0] == '-') then |s| > 1 && AllDigits(s[1..])
    else |s| > 0 && AllDigits(s)
  }

  function DecimalValue(s: string): int
    requires IsDecimal(s)
  {
    if s[0] == '-' then -(DigitsValue(s[1..]) as int)
    else if s[0] == '+' then DigitsValue(s[1..])
    else DigitsValue(s)
  }

  // ---------------------------------------------------------------- Atoi / Itoa

  const MaxUint64: int := 0xFFFF_FFFF_FFFF_FFFF

  /** The digit loop of `strconv.ParseUint` in base 10 for 64 bits: each character must be a
      digit, and `n * 10 + digit` must stay within `MaxUint64`, checked against the cutoff
      before the multiplication and against the maximum after the addition. `None` is a syntax
      or range error, which `Atoi` reports alike. */
  function AccumulateDigits(s: string, n: nat): Option<nat>
    requires n <= MaxUint64
    decreases |s|
  {
    if |s| == 0 then Some(n)
    else if !IsDigit(s[0]) then None
    else if n >= MaxUint64 / 10 + 1 then None
    else
      var n1 := n * 10 + DigitValue(s[0]);
      if n1 > MaxUint64 then None else AccumulateDigits(s[1..], n1)
  }

  /** A digit string's value is at least that of each of its prefixes. */
  lemma {:induction false} DigitsValuePrefix(s: string, k: nat)
    requires AllDigits(s) && k <= |s|
    ensures AllDigits(s[..k]) && DigitsValue(s[..k]) <= DigitsValue(s)
    decreases |s|
  {
    if k < |s| {
      var init := s[..|s| - 1];
      assert init[..k] == s[..k];
      DigitsValuePrefix(init, k);
    } else {
      assert s[..k] == s;
    }
  }

  /** Started on the value of the digits already read, the loop ends on the value of the whole
      string exactly when it is all digits and fits 64 unsigned bits. */
  lemma {:induction false} AccumulateDigitsFrom(s: string, k: nat)
    requires k <= |s| && AllDigits(s[..k]) && DigitsValue(s[..k]) <= MaxUint64
    ensures AccumulateDigits(s[k..], DigitsValue(s[..k]))
         == if AllDigits(s) && DigitsValue(s) <= MaxUint64 then Some(DigitsValue(s)) else None
    decreases |s| - k
  {
    var n := DigitsValue(s[..k]);
    if k == |s| {
      assert s[..k] == s;
    } else if !IsDigit(s[k]) {
      assert !AllDigits(s);
    } else {
      var next := s[..k + 1];
      assert next[..k] == s[..k] && next[k] == s[k];
      assert AllDigits(next);
      assert DigitsValue(next) == n * 10 + DigitValue(s[k]);
      if AllDigits(s) {
        DigitsValuePrefix(s, k + 1);
      }
      if n < MaxUint64 / 10 + 1 && DigitsValue(next) <= MaxUint64 {
        assert s[k..][1..] == s[k + 1..];
        AccumulateDigitsFrom(s, k + 1);
      }
    }
  }

  /** `strconv.Atoi` with a 64-bit `int`, as `strconv.ParseInt(s, 10, 0)` does it: the empty
      string is a syntax error; one leading `+` or `-` is taken off; the remaining digits are
      read by the `ParseUint` loop; the magnitude may then be at most 2^63 - 1, or 2^63 when
      negative. The fast path Go takes for inputs shorter than 19 bytes computes the same.
      It succeeds exactly on base-10 integer syntax whose value fits, yielding that value;
      every failure is a `*NumError` naming the function and the whole input. */
  function Atoi(s: string): (r: Result<int, Err>)
    ensures r.Success? <==> IsDecimal(s) && InIntRange(DecimalValue(s))
    ensures r.Success? ==> r.value == DecimalValue(s)
    ensures r.Failure? ==> r.error == NumError("Atoi", s)
  {
    if |s| == 0 then Failure(NumError("Atoi", s))
    else
      var neg := s[0] == '-';
      var digits := if s[0] == '+' || s[0] == '-' then s[1..] else s;
      assert digits[..0] == [];
      AccumulateDigitsFrom(digits, 0);
      assert digits[0..] == digits;
      var un := if |digits| == 0 then None else AccumulateDigits(digits, 0);
      match un
      case None => Failure(NumError("Atoi", s))
      case Some(m) =>
        if !neg && m >= 0x8000_0000_0000_0000 then Failure(NumError("Atoi", s))
        else if neg && m > 0x8000_0000_0000_0000 then Failure(NumError("Atoi", s))
        else Success(if neg then -m else m)
  }

  /** The decimal digits of a natural number, without leading zeros. */
  function NatString(n: nat): (s: string)
    ensures |s| > 0 && AllDigits(s)
    ensures |s| > 1 ==> s[0] != '0'
  {
    if n < 10 then [DigitChar(n)] else NatString(n / 10) + [DigitChar(n % 10)]
  }

  /** `strconv.Itoa`. */
  function Itoa(n: int): string {
    if n < 0 then "-" + NatString(-n) else NatString(n)
  }

  lemma {:induction false} NatStringValue(n: nat)
    ensures DigitsValue(NatString(n)) == n
  {
    if n >= 10 {
      var s := NatString(n);
      assert s[..|s| - 1] == NatString(n / 10);
      NatStringValue(n / 10);
    }
  }

  /** `Atoi` reads back every in-range integer `Itoa` writes. */
  lemma AtoiItoa(n: int)
    requires InIntRange(n)
    ensures Atoi(Itoa(n)) == Success(n)
  {
    var s := Itoa(n);
    if n < 0 {
      var digits := NatString(-n);
      NatStringValue(-n);
      assert s[0] == '-' && s[1..] == digits;
      assert IsDecimal(s);
      assert DecimalValue(s) == -(DigitsValue(digits) as int) == n;
    } else {
      NatStringValue(n);
      assert IsDigit(s[0]);
      assert IsDecimal(s);
      assert DecimalValue(s) == DigitsValue(s) == n;
    }
  }

  // ---------------------------------------------------------------- ParseBool / FormatBool

  predicate IsTrueLiteral(s: string) {
    s in {"1", "t", "T", "TRUE", "true", "True"}
  }

  predicate IsFalseLiteral(s: string) {
    s in {"0", "f", "F", "FALSE", "false", "False"}
  }

  /** `strconv.ParseBool`: the twelve literals and nothing else. */
  function ParseBool(s: string): (r: Result<bool, Err>)
    ensures r.Success? <==> IsTrueLiteral(s) || IsFalseLiteral(s)
    ensures r.Success? ==> (r.value <==> IsTrueLiteral(s))
    ensures r.Failure? ==> r.error == NumError("ParseBool", s)
  {
    match s
    case "1" | "t" | "T" | "TRUE" | "true" | "True" => Success(true)
    case "0" | "f" | "F" | "FALSE" | "false" | "False" => Success(false)
    case _ => Failure(NumError("ParseBool", s))
  }

  /** `strconv.FormatBool`. */
  function FormatBool(b: bool): string {
    if b then "true" else "false"
  }

  lemma ParseBoolFormatBool(b: bool)
    ensures ParseBool(FormatBool(b)) == Success(b)
  {
  }
}
