/**
  Decimal text for integers: Rust's `Display` for `u32`/`i32` (used when
  the `go` command is formatted) and `str::parse::<i32>` (used to read a
  centipawn score).
 */
module Decimal {
  import opened Wrappers

  const I32Min: int := -0x8000_0000
  const I32Max: int := 0x7FFF_FFFF
  const U32Max: int := 0xFFFF_FFFF

  predicate IsDigit(c: char) {
    '0' <= c <= '9'
  }

  predicate AllDigits(s: string) {
    forall i :: 0 <= i < |s| ==> IsDigit(s[i])
  }

  function DigitChar(d: nat): (c: char)
    requires d < 10
    ensures IsDigit(c)
  {
    ('0' as int + d) as char
  }

  function DigitValue(c: char): (d: nat)
    requires IsDigit(c)
    ensures d < 10 && DigitChar(d) == c
  {
    c as int - '0' as int
  }

  /** The value of a string of decimal digits, most significant first. */
  function ValueOf(s: string): nat
    requires AllDigits(s)
    decreases |s|
  {
    if |s| == 0 then 0 else ValueOf(s[..|s| - 1]) * 10 + DigitValue(s[|s| - 1])
  }

  /** `Display` for an unsigned integer: its shortest decimal digit string. */
  function Format(n: nat): (r: string)
    ensures |r| > 0 && AllDigits(r)
    ensures ValueOf(r) == n
    ensures r[0] == '0' ==> r == "0"
    decreases n
  {
    if n < 10 then [DigitChar(n)]
    else
      var r := Format(n / 10) + [DigitChar(n % 10)];
      assert r[..|r| - 1] == Format(n / 10);
      r
  }

  /** `Display` for a signed integer: a minus sign before the magnitude when negative. */
  function FormatInt(n: int): (r: string)
    ensures |r| > 0
    ensures n >= 0 <==> IsDigit(r[0])
  {
    if n < 0 then "-" + Format(-n) else Format(n)
  }

  /**
    `str::parse::<i32>`: an optional `+` or `-`, then at least one ASCII
    digit and nothing else, with a value that fits in 32 signed bits.
   */
  function ParseI32(s: string): (r: Option<int>)
    ensures r.Some? ==> I32Min <= r.value <= I32Max
    ensures r.Some? ==> |s| > 0 && forall i :: 0 < i < |s| ==> IsDigit(s[i])
    ensures r.Some? ==> IsDigit(s[0]) || s[0] == '-' || s[0] == '+'
    ensures r.Some? ==> IsDigit(s[0]) || |s| > 1
    ensures r.Some? ==> r.value == if s[0] == '-' then -(ValueOf(s[1..]) as int)
                                   else if s[0] == '+' then ValueOf(s[1..])
                                   else ValueOf(s)
    ensures |s| > 1 && s[0] == '-' && AllDigits(s[1..]) && ValueOf(s[1..]) <= -I32Min ==> r == Some(-(ValueOf(s[1..]) as int))
    ensures |s| > 1 && s[0] == '+' && AllDigits(s[1..]) && ValueOf(s[1..]) <= I32Max ==> r == Some(ValueOf(s[1..]))
    ensures |s| > 0 && AllDigits(s) && ValueOf(s) <= I32Max ==> r == Some(ValueOf(s))
  {
    if |s| == 0 then None
    else
      var negative := s[0] == '-';
      var digits := if s[0] == '-' || s[0] == '+' then s[1..] else s;
      if |digits| == 0 || !AllDigits(digits) then None
      else
        var magnitude: int := ValueOf(digits);
        var v := if negative then -magnitude else magnitude;
        if I32Min <= v <= I32Max then Some(v) else None
  }

  /** Formatting and parsing are inverse on the 32-bit signed range. */
  lemma ParseFormatInt(n: int)
    requires I32Min <= n <= I32Max
    ensures ParseI32(FormatInt(n)) == Some(n)
  {
    if n < 0 {
      assert ("-" + Format(-n))[1..] == Format(-n);
    }
  }

  /** A token that still carries a trailing newline never parses. */
  lemma NewlineTokenDoesNotParse(t: string)
    ensures ParseI32(t + "\n") == None
  {
    var s := t + "\n";
    if |s| > 1 {
      assert s[|s| - 1] == '\n';
    }
  }

  /** Leading-zero-free digit strings are exactly the formatted numbers. */
  lemma {:induction false} FormatValueOf(s: string)
    requires |s| > 0 && AllDigits(s) && (s[0] == '0' ==> s == "0")
    ensures Format(ValueOf(s)) == s
    decreases |s|
  {
    var init := s[..|s| - 1];
    if |init| == 0 {
      assert s == [s[0]];
    } else {
      assert init[0] == s[0];
      FormatValueOf(init);
      ValueOfPositive(init);
      var n := ValueOf(s);
      assert n / 10 == ValueOf(init) && n % 10 == DigitValue(s[|s| - 1]);
      assert s == init + [s[|s| - 1]];
    }
  }

  /** A digit string that does not start with `0` has a value of at least 1. */
  lemma {:induction false} ValueOfPositive(s: string)
    requires |s| > 0 && AllDigits(s) && s[0] != '0'
    ensures ValueOf(s) >= 1
    decreases |s|
  {
    if |s| > 1 {
      ValueOfPositive(s[..|s| - 1]);
    }
  }
}
