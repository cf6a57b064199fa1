/**
  The C-string operations the plugin's request parser relies on.
  A C string is modelled by its bytes before the terminating NUL, so reading
  the first character of the empty string yields the NUL itself.
 */
module CText {
  import opened Midi

  const Nul: Byte := 0
  const PlusSign: Byte := 43   // '+'
  const MinusSign: Byte := 45  // '-'
  const DigitZero: Byte := 48  // '0'

  /** `value[0]` of the C string whose bytes before the NUL are `s`. */
  function FirstByte(s: seq<Byte>): (b: Byte)
    ensures |s| == 0 ==> b == Nul
  {
    if |s| == 0 then Nul else s[0]
  }

  /** isspace in the "C" locale: space, \t, \n, \v, \f, \r. */
  predicate IsSpace(b: Byte) {
    b == 32 || 9 <= b <= 13
  }

  predicate IsDigit(b: Byte) {
    DigitZero <= b <= DigitZero + 9
  }

  predicate AllDigits(d: seq<Byte>) {
    forall i :: 0 <= i < |d| ==> IsDigit(d[i])
  }

  /** What remains of `s` after its leading white space. */
  function SkipSpace(s: seq<Byte>): (t: seq<Byte>)
    ensures |t| <= |s| && t == s[|s| - |t|..]
    ensures |t| > 0 ==> !IsSpace(t[0])
  {
    if |s| > 0 && IsSpace(s[0]) then SkipSpace(s[1..]) else s
  }

  /**
    SkipSpace drops only white space: every byte before what it leaves is
    white space, and what it leaves does not start with white space.
   */
  lemma {:induction false} SkipSpaceDropsOnlySpace(s: seq<Byte>)
    ensures var t := SkipSpace(s);
      |t| <= |s| && t == s[|s| - |t|..] && (|t| > 0 ==> !IsSpace(t[0])) &&
      forall i :: 0 <= i < |s| - |t| ==> IsSpace(s[i])
  {
    if |s| > 0 && IsSpace(s[0]) {
      SkipSpaceDropsOnlySpace(s[1..]);
      var t := SkipSpace(s);
      assert t == SkipSpace(s[1..]);
      forall i | 0 <= i < |s| - |t|
        ensures IsSpace(s[i])
      {
        if i > 0 {
          assert s[i] == s[1..][i - 1];
        }
      }
    }
  }

  /** The longest prefix of `s` made of decimal digits. */
  function DigitPrefix(s: seq<Byte>): (d: seq<Byte>)
    ensures d <= s && AllDigits(d)
    ensures |d| < |s| ==> !IsDigit(s[|d|])
  {
    if |s| > 0 && IsDigit(s[0]) then [s[0]] + DigitPrefix(s[1..]) else []
  }

  /** The number a string of decimal digits denotes, most significant digit first. */
  function DigitsValue(d: seq<Byte>): nat
    requires AllDigits(d)
  {
    if |d| == 0 then 0 else 10 * DigitsValue(d[..|d| - 1]) + (d[|d| - 1] - DigitZero)
  }

  /**
    std::atoi on an unbounded integer: leading white space, an optional sign,
    then as many decimal digits as follow; no digits gives 0.
   */
  function Atoi(s: seq<Byte>): int {
    var t := SkipSpace(s);
    if |t| > 0 && t[0] == MinusSign then -(DigitsValue(DigitPrefix(t[1..])) as int)
    else if |t| > 0 && t[0] == PlusSign then DigitsValue(DigitPrefix(t[1..]))
    else DigitsValue(DigitPrefix(t))
  }

  /** The decimal spelling of a natural number, without leading zeros. */
  function Decimal(n: nat): (s: seq<Byte>)
    ensures |s| > 0 && AllDigits(s)
  {
    if n < 10 then [DigitZero + n] else Decimal(n / 10) + [DigitZero + n % 10]
  }

  /** The decimal spelling of an integer, with a '-' when it is negative. */
  function SignedDecimal(n: int): (s: seq<Byte>)
    ensures |s| > 0 && (IsDigit(s[0]) || s[0] == MinusSign)
  {
    if n < 0 then [MinusSign] + Decimal(-n) else Decimal(n)
  }

  lemma {:induction false} DigitsValueOfDecimal(n: nat)
    ensures DigitsValue(Decimal(n)) == n
  {
    if n >= 10 {
      var s := Decimal(n);
      assert s[..|s| - 1] == Decimal(n / 10);
      DigitsValueOfDecimal(n / 10);
    }
  }

  lemma {:induction false} DigitPrefixOfDigits(d: seq<Byte>, tail: seq<Byte>)
    requires AllDigits(d)
    requires |tail| == 0 || !IsDigit(tail[0])
    ensures DigitPrefix(d + tail) == d
  {
    if |d| == 0 {
      assert d + tail == tail;
    } else {
      assert (d + tail)[1..] == d[1..] + tail;
      DigitPrefixOfDigits(d[1..], tail);
    }
  }

  /** Text that starts with neither white space nor a sign is read from its first byte. */
  lemma AtoiUnsigned(s: seq<Byte>)
    requires |s| > 0 && IsDigit(s[0])
    ensures Atoi(s) == DigitsValue(DigitPrefix(s))
  {
    assert SkipSpace(s) == s;
  }

  /** Text that starts with '-' is read as the negated digits after it. */
  lemma AtoiNegative(s: seq<Byte>)
    requires |s| > 0 && s[0] == MinusSign
    ensures Atoi(s) == -(DigitsValue(DigitPrefix(s[1..])) as int)
  {
    assert SkipSpace(s) == s;
  }

  /** atoi reads back every integer written in decimal, whatever non-digit text follows it. */
  lemma AtoiOfDecimal(n: int, tail: seq<Byte>)
    requires |tail| == 0 || !IsDigit(tail[0])
    ensures Atoi(SignedDecimal(n) + tail) == n
  {
    var s := SignedDecimal(n) + tail;
    if n < 0 {
      var d := Decimal(-n);
      assert s == [MinusSign] + (d + tail);
      assert s[1..] == d + tail;
      AtoiNegative(s);
      DigitPrefixOfDigits(d, tail);
      DigitsValueOfDecimal(-n);
    } else {
      var d := Decimal(n);
      assert s == d + tail;
      assert s[0] == d[0];
      AtoiUnsigned(s);
      DigitPrefixOfDigits(d, tail);
      DigitsValueOfDecimal(n);
    }
  }

  lemma {:induction false} SkipSpaceOfSpaces(sp: seq<Byte>, s: seq<Byte>)
    requires forall i :: 0 <= i < |sp| ==> IsSpace(sp[i])
    ensures SkipSpace(sp + s) == SkipSpace(s)
  {
    if |sp| > 0 {
      assert (sp + s)[1..] == sp[1..] + s;
      SkipSpaceOfSpaces(sp[1..], s);
    } else {
      assert sp + s == s;
    }
  }

  /** Leading white space does not change what atoi reads. */
  lemma AtoiSkipsSpace(sp: seq<Byte>, s: seq<Byte>)
    requires forall i :: 0 <= i < |sp| ==> IsSpace(sp[i])
    ensures Atoi(sp + s) == Atoi(s)
  {
    SkipSpaceOfSpaces(sp, s);
  }

  /** Text that starts with neither white space, a sign nor a digit reads as 0. */
  lemma AtoiOfNonNumber(s: seq<Byte>)
    requires |s| == 0 || !(IsSpace(s[0]) || IsDigit(s[0]) || s[0] == PlusSign || s[0] == MinusSign)
    ensures Atoi(s) == 0
  {
  }
}
