/** Strings as the services build them: decimal rendering of Java `long` values, zero-padded
    date fields, prefix concatenation, and hutool's notion of a blank string. */
module Text {

  /** The characters hutool's `StrUtil.isBlank` treats as blank (the ASCII whitespace,
      the no-break and ideographic spaces and the byte-order mark). */
  predicate IsBlankChar(c: char)
  {
    c == ' ' || c == '\t' || c == '\n' || c == '\r' || c == '\U{000B}' || c == '\U{000C}'
    || c == '\U{00A0}' || c == '\U{3000}' || c == '\U{FEFF}' || c == '\0'
  }

  /** `StrUtil.isBlank` on a non-null string: empty or made only of blank characters. */
  predicate IsBlank(s: string)
  {
    forall i :: 0 <= i < |s| ==> IsBlankChar(s[i])
  }

  predicate IsDigit(c: char)
  {
    '0' <= c <= '9'
  }

  function DigitChar(d: nat): (c: char)
    requires d < 10
    ensures IsDigit(c) && c as int - '0' as int == d
  {
    ('0' as int + d) as char
  }

  /** Decimal digits of a non-negative number, most significant first, no leading zeros. */
  function NatToString(n: nat): (s: string)
    ensures 1 <= |s|
    ensures forall i :: 0 <= i < |s| ==> IsDigit(s[i])
    ensures n < 10 <==> |s| == 1
    decreases n
  {
    if n < 10 then [DigitChar(n)] else NatToString(n / 10) + [DigitChar(n % 10)]
  }

  /** `Long.toString`: an optional minus sign followed by the digits of the magnitude. */
  function IntToString(x: int): (s: string)
    ensures 1 <= |s|
  {
    if x < 0 then "-" + NatToString(-x) else NatToString(x)
  }

  /** Different numbers never render to the same decimal text. */
  lemma {:induction false} NatToStringInjective(a: nat, b: nat)
    requires NatToString(a) == NatToString(b)
    ensures a == b
  {
    var s := NatToString(a);
    if a >= 10 && b >= 10 {
      assert s[..|s| - 1] == NatToString(a / 10) && s[|s| - 1] == DigitChar(a % 10);
      assert s[..|s| - 1] == NatToString(b / 10) && s[|s| - 1] == DigitChar(b % 10);
      NatToStringInjective(a / 10, b / 10);
    } else {
      assert a < 10 && b < 10;
      assert s[0] == DigitChar(a) && s[0] == DigitChar(b);
    }
  }

  /** The rendering starts with a minus sign exactly for negative numbers. */
  lemma SignOfRendering(x: int)
    ensures (IntToString(x)[0] == '-') <==> x < 0
  {
    if x >= 0 {
      assert IsDigit(NatToString(x)[0]);
    }
  }

  lemma IntToStringInjective(a: int, b: int)
    requires IntToString(a) == IntToString(b)
    ensures a == b
  {
    var s := IntToString(a);
    SignOfRendering(a);
    SignOfRendering(b);
    if a < 0 {
      assert s[1..] == NatToString(-a) && s[1..] == NatToString(-b);
      NatToStringInjective(-a, -b);
    } else {
      NatToStringInjective(a, b);
    }
  }

  /** Keys built as `prefix + suffix` with one prefix are equal only for equal suffixes. */
  lemma PrefixInjective(p: string, a: string, b: string)
    requires p + a == p + b
    ensures a == b
  {
    assert a == (p + a)[|p|..];
    assert b == (p + b)[|p|..];
  }

  /** A key built from one prefix and one rendered number identifies the number. */
  lemma NumberedKeyInjective(p: string, a: int, b: int)
    requires p + IntToString(a) == p + IntToString(b)
    ensures a == b
  {
    PrefixInjective(p, IntToString(a), IntToString(b));
    IntToStringInjective(a, b);
  }

  function Pow10(w: nat): (p: nat)
    ensures p >= 1
  {
    if w == 0 then 1 else 10 * Pow10(w - 1)
  }

  /** A number below 10^w needs at most w digits. */
  lemma {:induction false} NatToStringLength(n: nat, w: nat)
    requires 1 <= w && n < Pow10(w)
    ensures |NatToString(n)| <= w
  {
    if n >= 10 {
      assert Pow10(1) == 10;
      assert n / 10 < Pow10(w - 1);
      NatToStringLength(n / 10, w - 1);
    }
  }

  /** Zero padding to a minimum width, as `DateTimeFormatter` prints `yyyy`, `MM` and `dd`. */
  function Pad(n: nat, width: nat): (s: string)
    ensures |NatToString(n)| <= width ==> |s| == width
  {
    var digits := NatToString(n);
    if |digits| >= width then digits else seq(width - |digits|, _ => '0') + digits
  }

  /** A positive number's rendering never starts with the digit zero. */
  lemma {:induction false} NatToStringLeading(n: nat)
    requires n >= 1
    ensures NatToString(n)[0] != '0'
    decreases n
  {
    if n >= 10 {
      NatToStringLeading(n / 10);
      assert NatToString(n)[0] == NatToString(n / 10)[0];
    }
  }

  /** The character at each position of a zero-padded rendering. */
  lemma PadAt(n: nat, width: nat, i: nat)
    requires |NatToString(n)| <= width && i < width
    ensures var z := width - |NatToString(n)|;
      Pad(n, width)[i] == if i < z then '0' else NatToString(n)[i - z]
  {
  }

  /** Two numbers that fit the width have equal zero-padded renderings only if they are equal. */
  lemma PadInjective(a: nat, b: nat, width: nat)
    requires |NatToString(a)| <= width && |NatToString(b)| <= width
    requires Pad(a, width) == Pad(b, width)
    ensures a == b
  {
    var da, db := NatToString(a), NatToString(b);
    if |da| == |db| {
      var z := width - |da|;
      forall i | 0 <= i < |da|
        ensures da[i] == db[i]
      {
        PadAt(a, width, z + i);
        PadAt(b, width, z + i);
      }
      NatToStringInjective(a, b);
    } else if |da| < |db| {
      NatToStringLeading(b);
      PadAt(a, width, width - |db|);
      PadAt(b, width, width - |db|);
      assert false;
    } else {
      NatToStringLeading(a);
      PadAt(a, width, width - |da|);
      PadAt(b, width, width - |da|);
      assert false;
    }
  }
}
