/**
  The two text grammars of Go's strconv package that knob accessors rely on:
  ParseBool / FormatBool for boolean knobs and Atoi / Itoa for integer knobs.
  Go's `int` is taken to be 64 bits wide.
 */
module Strconv {

  datatype Option<+T> = None | Some(value: T)

  /** The spellings strconv.ParseBool reads as true, and as false. */
  const TrueSpellings: set<string> := {"1", "t", "T", "TRUE", "true", "True"}
  const FalseSpellings: set<string> := {"0", "f", "F", "FALSE", "false", "False"}

  /** strconv.ParseBool: a switch over the accepted spellings; anything else is a syntax error. */
  function ParseBool(s: string): (r: Option<bool>)
    ensures r == Some(true) <==> s in TrueSpellings
    ensures r == Some(false) <==> s in FalseSpellings
    ensures r.None? <==> s !in TrueSpellings + FalseSpellings
    ensures r.Some? ==> s != ""
  {
    if s == "1" || s == "t" || s == "T" || s == "true" || s == "TRUE" || s == "True" then Some(true)
    else if s == "0" || s == "f" || s == "F" || s == "false" || s == "FALSE" || s == "False" then Some(false)
    else None
  }

  /** strconv.FormatBool: the canonical spelling, which ParseBool reads back. */
  function FormatBool(b: bool): (r: string)
    ensures ParseBool(r) == Some(b)
    ensures r in (if b then TrueSpellings else FalseSpellings)
  {
    if b then "true" else "false"
  }

  /** The range of a 64-bit Go `int`. */
  const MinInt: int := -0x8000_0000_0000_0000
  const MaxInt: int := 0x7FFF_FFFF_FFFF_FFFF

  predicate IsDigit(c: char) {
    '0' <= c <= '9'
  }

  predicate AllDigits(s: string) {
    forall i :: 0 <= i < |s| ==> IsDigit(s[i])
  }

  function DigitValue(c: char): (d: nat)
    requires IsDigit(c)
  {
    c as int - '0' as int
  }

  /** The value of a run of decimal digits, most significant first. */
  function DigitsValue(s: string): (n: nat)
    requires AllDigits(s)
  {
    if s == [] then 0 else DigitsValue(s[..|s| - 1]) * 10 + DigitValue(s[|s| - 1])
  }

  /**
    strconv.Atoi: an optional '+' or '-' followed by one or more decimal
    digits (no underscores, no base prefix, leading zeros allowed), whose
    value must fit a 64-bit int.
   */
  function Atoi(s: string): (r: Option<int>)
    ensures r.Some? ==> s != "" && MinInt <= r.value <= MaxInt
    ensures r.Some? ==> (s[0] == '-' <==> r.value < 0) || r.value == 0
  {
    var unsigned := if s != [] && (s[0] == '+' || s[0] == '-') then s[1..] else s;
    if unsigned == [] || !AllDigits(unsigned) then None
    else
      var magnitude: int := DigitsValue(unsigned);
      var n := if s[0] == '-' then -magnitude else magnitude;
      if MinInt <= n <= MaxInt then Some(n) else None
  }

  function DigitChar(d: nat): (c: char)
    requires d < 10
    ensures IsDigit(c) && DigitValue(c) == d
  {
    ('0' as int + d) as char
  }

  /** The shortest decimal spelling of n. */
  function NatDigits(n: nat): (s: string)
    decreases n
  {
    if n < 10 then [DigitChar(n)] else NatDigits(n / 10) + [DigitChar(n % 10)]
  }

  /** strconv.Itoa: a '-' for negative numbers, then the digits of the magnitude. */
  function Itoa(n: int): (s: string)
  {
    if n < 0 then "-" + NatDigits(-n) else NatDigits(n)
  }

  lemma {:induction false} NatDigitsRoundTrip(n: nat)
    ensures NatDigits(n) != [] && AllDigits(NatDigits(n))
    ensures DigitsValue(NatDigits(n)) == n
  {
    if n >= 10 {
      NatDigitsRoundTrip(n / 10);
      var s := NatDigits(n);
      assert s[..|s| - 1] == NatDigits(n / 10);
    }
  }

  /** Every int64 survives formatting and parsing back. */
  lemma {:induction false} AtoiItoa(n: int)
    requires MinInt <= n <= MaxInt
    ensures Atoi(Itoa(n)) == Some(n)
  {
    if n < 0 {
      NatDigitsRoundTrip(-n);
      assert Itoa(n)[1..] == NatDigits(-n);
    } else {
      NatDigitsRoundTrip(n);
    }
  }
}
