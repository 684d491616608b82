/**
 * The parts of PHP's runtime behaviour that the feed parser relies on:
 * conversion of scalars to booleans and strings, `strtolower` and
 * `str_replace`.
 */
module Php {

  /**
   * A value held in a configuration array: null, a boolean, an integer or
   * a string, the kinds the default table uses. PHP floats and arrays are
   * not among them.
   */
  datatype Value = Null | Bool(b: bool) | Int(i: int) | Str(s: string)

  /** PHP's conversion to boolean of the modelled value kinds, used by `if ($v)`, `$v ? a : b` and `empty()`. */
  predicate Truthy(v: Value)
    ensures !Truthy(v) <==> v in {Null, Bool(false), Int(0), Str(""), Str("0")}
  {
    match v
    case Null => false
    case Bool(b) => b
    case Int(i) => i != 0
    case Str(s) => s != "" && s != "0"
  }

  /** `empty($s)` for a string `$s`. */
  predicate EmptyString(s: string) {
    !Truthy(Str(s))
  }

  lemma EmptyStringCases(s: string)
    ensures EmptyString(s) <==> s == "" || s == "0"
  {
  }

  // ---------------------------------------------------------------------
  // Decimal formatting, as used by `%d` and by `%s` on an integer

  predicate IsDigit(c: char) {
    '0' <= c <= '9'
  }

  function DigitChar(d: nat): (c: char)
    requires d < 10
    ensures IsDigit(c) && c as int - '0' as int == d
  {
    "0123456789"[d]
  }

  /** The decimal digits of `n`, without leading zeros. */
  function NatToDecimal(n: nat): (s: string)
    ensures |s| > 0
    ensures forall k :: 0 <= k < |s| ==> IsDigit(s[k])
    ensures n > 0 ==> s[0] != '0'
    decreases n
  {
    if n < 10 then [DigitChar(n)] else NatToDecimal(n / 10) + [DigitChar(n % 10)]
  }

  /** The value of a string of decimal digits (the reading partner of `NatToDecimal`). */
  function DecimalToNat(s: string): nat
    requires forall k :: 0 <= k < |s| ==> IsDigit(s[k])
  {
    if s == [] then 0
    else
      assert IsDigit(s[|s| - 1]);
      DecimalToNat(s[..|s| - 1]) * 10 + (s[|s| - 1] as int - '0' as int)
  }

  lemma {:induction false} DecimalRoundTrip(n: nat)
    ensures DecimalToNat(NatToDecimal(n)) == n
  {
    if n >= 10 {
      var s := NatToDecimal(n);
      assert s[..|s| - 1] == NatToDecimal(n / 10);
      DecimalRoundTrip(n / 10);
    }
  }

  /** `sprintf("%d", $i)` for an integer `$i`. */
  function IntToDecimal(i: int): string {
    if i < 0 then "-" + NatToDecimal(-i) else NatToDecimal(i)
  }

  /** The reading partner of `IntToDecimal`. */
  function DecimalToInt(s: string): int
    requires |s| > 0
    requires forall k :: 1 <= k < |s| ==> IsDigit(s[k])
    requires s[0] == '-' || IsDigit(s[0])
  {
    if s[0] == '-' then 0 - DecimalToNat(s[1..]) as int else DecimalToNat(s)
  }

  lemma IntDecimalRoundTrip(i: int)
    ensures var s := IntToDecimal(i);
      && |s| > 0
      && (forall k :: 1 <= k < |s| ==> IsDigit(s[k]))
      && (s[0] == '-' <==> i < 0)
      && DecimalToInt(s) == i
  {
    var s := IntToDecimal(i);
    if i < 0 {
      assert s[1..] == NatToDecimal(-i);
      DecimalRoundTrip(-i);
    } else {
      DecimalRoundTrip(i);
    }
  }

  /**
   * The string a scalar becomes under `%s` (and under string
   * interpolation): null and false print nothing, true prints `1`, an
   * integer its decimal digits, a string itself.
   */
  function StrOf(v: Value): (r: string)
    ensures v.Str? ==> r == v.s
    ensures v == Null || v == Bool(false) ==> r == ""
    ensures v == Bool(true) ==> r == "1"
    ensures v.Int? ==>
      && |r| > 0
      && (forall k :: 1 <= k < |r| ==> IsDigit(r[k]))
      && (r[0] == '-' || IsDigit(r[0]))
      && DecimalToInt(r) == v.i
  {
    match v
    case Null => ""
    case Bool(b) => if b then "1" else ""
    case Int(i) => IntDecimalRoundTrip(i); IntToDecimal(i)
    case Str(s) => s
  }

  // ---------------------------------------------------------------------
  // strtolower

  function LowerChar(c: char): char {
    if 'A' <= c <= 'Z' then (c as int + 32) as char else c
  }

  /** `strtolower`, on ASCII letters only. */
  function ToLower(s: string): (r: string)
    ensures |r| == |s|
    ensures forall k :: 0 <= k < |r| ==> !('A' <= r[k] <= 'Z')
    ensures forall k :: 0 <= k < |s| && !('A' <= s[k] <= 'Z') ==> r[k] == s[k]
    ensures forall k :: 0 <= k < |s| && 'A' <= s[k] <= 'Z' ==> r[k] as int == s[k] as int + 32
  {
    seq(|s|, k requires 0 <= k < |s| => LowerChar(s[k]))
  }

  lemma ToLowerIdempotent(s: string)
    ensures ToLower(ToLower(s)) == ToLower(s)
  {
  }

  // ---------------------------------------------------------------------
  // str_replace

  /** True when `search` occurs in `s` starting at index `k`. */
  predicate OccursAt(search: string, s: string, k: nat) {
    k + |search| <= |s| && s[k..k + |search|] == search
  }

  /**
   * `str_replace($search, $replace, $subject)` on strings: every
   * occurrence of `search`, found left to right without overlapping and
   * without rescanning the text already replaced, becomes `replace`.
   * An empty `search` leaves the subject unchanged.
   */
  function StrReplace(search: string, replace: string, subject: string): (r: string)
    ensures search == "" ==> r == subject
    ensures |replace| >= |search| ==> |r| >= |subject|
    ensures |replace| == |search| ==> |r| == |subject|
    decreases |subject|
  {
    if search == [] || |subject| < |search| then subject
    else if subject[..|search|] == search then
      replace + StrReplace(search, replace, subject[|search|..])
    else
      [subject[0]] + StrReplace(search, replace, subject[1..])
  }

  /** Without an occurrence of `search`, `str_replace` returns its subject unchanged. */
  lemma {:induction false} StrReplaceNoOccurrence(search: string, replace: string, subject: string)
    requires forall k :: 0 <= k <= |subject| ==> !OccursAt(search, subject, k)
    ensures StrReplace(search, replace, subject) == subject
    decreases |subject|
  {
    if search != [] && |subject| >= |search| {
      assert !OccursAt(search, subject, 0);
      var rest := subject[1..];
      forall k | 0 <= k <= |rest| ensures !OccursAt(search, rest, k) {
        assert !OccursAt(search, subject, k + 1);
        if k + |search| <= |rest| {
          assert rest[k..k + |search|] == subject[k + 1..k + 1 + |search|];
        }
      }
      StrReplaceNoOccurrence(search, replace, rest);
    }
  }
}
