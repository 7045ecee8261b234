/** Python's `str(n)` for an integer and `int(s)` for a decimal string. */
module Numbers {
  import opened Wrappers

  predicate IsDigit(c: char) {
    '0' <= c <= '9'
  }

  predicate AllDigits(s: string) {
    forall i :: 0 <= i < |s| ==> IsDigit(s[i])
  }

  function DigitValue(c: char): nat
    requires IsDigit(c)
  {
    c as int - '0' as int
  }

  function DigitChar(d: nat): (c: char)
    requires d < 10
    ensures IsDigit(c) && DigitValue(c) == d
  {
    ('0' as int + d) as char
  }

  /** Decimal digits of `n`, most significant first, without leading zeros. */
  function NatToDecimal(n: nat): (s: string)
    ensures |s| > 0 && AllDigits(s)
  {
    if n < 10 then [DigitChar(n)] else NatToDecimal(n / 10) + [DigitChar(n % 10)]
  }

  /** Python's `str(n)`: a minus sign for negative numbers, then the digits. */
  function IntToDecimal(n: int): string {
    if n < 0 then "-" + NatToDecimal(-n) else NatToDecimal(n)
  }

  /** A digit, or an `_` that groups digits. */
  predicate IsDigitOrUnderscore(c: char) {
    IsDigit(c) || c == '_'
  }

  predicate AllDigitsOrUnderscores(s: string) {
    forall i :: 0 <= i < |s| ==> IsDigitOrUnderscore(s[i])
  }

  /** The number a string of decimal digits denotes; grouping underscores are skipped. */
  function DigitsValue(s: string): nat
    requires AllDigitsOrUnderscores(s)
  {
    if s == [] then 0
    else if s[|s| - 1] == '_' then DigitsValue(s[..|s| - 1])
    else DigitsValue(s[..|s| - 1]) * 10 + DigitValue(s[|s| - 1])
  }

  /**
    The whitespace `int()` ignores around its argument, restricted to ASCII: space, tab, line
    feed, vertical tab, form feed, carriage return and the four separators 0x1C-0x1F.
   */
  predicate IsSpace(c: char) {
    c as int == 32 || 9 <= c as int <= 13 || 28 <= c as int <= 31
  }

  predicate AllSpaces(s: string) {
    forall i :: 0 <= i < |s| ==> IsSpace(s[i])
  }

  /** `s.lstrip()`. */
  function StripStart(s: string): string {
    if s != [] && IsSpace(s[0]) then StripStart(s[1..]) else s
  }

  /** `s.rstrip()`. */
  function StripEnd(s: string): string {
    if s != [] && IsSpace(s[|s| - 1]) then StripEnd(s[..|s| - 1]) else s
  }

  /** `s.strip()`. */
  function Strip(s: string): string {
    StripEnd(StripStart(s))
  }

  /** Digits, where a single `_` may stand between two of them (`1_000`). */
  predicate IsDigitGroups(s: string) {
    && |s| > 0
    && AllDigitsOrUnderscores(s)
    && forall i :: 0 <= i < |s| && s[i] == '_' ==> 0 < i && i + 1 < |s| && IsDigit(s[i + 1])
  }

  /**
    Python's `int(s)` for a string: surrounding whitespace is ignored, then an optional sign,
    then decimal digits, possibly grouped by single underscores.
   */
  function ParseInt(s: string): Option<int> {
    var t := Strip(s);
    if |t| > 0 && (t[0] == '-' || t[0] == '+') && IsDigitGroups(t[1..]) then
      var magnitude: int := DigitsValue(t[1..]);
      Some(if t[0] == '-' then -magnitude else magnitude)
    else if IsDigitGroups(t) then
      Some(DigitsValue(t))
    else
      None
  }

  lemma {:induction false} DigitsOfNat(n: nat)
    ensures DigitsValue(NatToDecimal(n)) == n
  {
    if n >= 10 {
      DigitsOfNat(n / 10);
      var s := NatToDecimal(n);
      assert s[..|s| - 1] == NatToDecimal(n / 10);
    }
  }

  /** Leading whitespace is skipped up to the first other character. */
  lemma {:induction false} StripStartSkips(pre: string, x: string)
    requires AllSpaces(pre) && x != [] && !IsSpace(x[0])
    ensures StripStart(pre + x) == x
  {
    if pre != [] {
      assert (pre + x)[1..] == pre[1..] + x;
      StripStartSkips(pre[1..], x);
    }
  }

  /** Trailing whitespace is skipped back to the last other character. */
  lemma {:induction false} StripEndSkips(x: string, post: string)
    requires AllSpaces(post) && x != [] && !IsSpace(x[|x| - 1])
    ensures StripEnd(x + post) == x
  {
    if post != [] {
      var n := |post| - 1;
      assert (x + post)[..|x| + n] == x + post[..n];
      StripEndSkips(x, post[..n]);
    } else {
      assert x + post == x;
    }
  }

  /** The decimal text of an integer starts with a digit or `-` and ends with a digit. */
  lemma DecimalEnds(n: int)
    ensures var d := IntToDecimal(n);
            d != [] && (IsDigit(d[0]) || d[0] == '-') && IsDigit(d[|d| - 1])
  {
  }

  /** The decimal text of any integer, with any whitespace around it, reads back as the integer. */
  lemma ParseIntPadded(n: int, pre: string, post: string)
    requires AllSpaces(pre) && AllSpaces(post)
    ensures ParseInt(pre + IntToDecimal(n) + post) == Some(n)
  {
    var d := IntToDecimal(n);
    DecimalEnds(n);
    StripStartSkips(pre, d + post);
    assert pre + d + post == pre + (d + post);
    StripEndSkips(d, post);
    assert Strip(pre + d + post) == d;
    if n < 0 {
      DigitsOfNat(-n);
      assert d[1..] == NatToDecimal(-n);
    } else {
      DigitsOfNat(n);
    }
  }

  /** Reading back the decimal text of any integer gives the integer. */
  lemma ParseIntOfDecimal(n: int)
    ensures ParseInt(IntToDecimal(n)) == Some(n)
  {
    ParseIntPadded(n, "", "");
    assert "" + IntToDecimal(n) + "" == IntToDecimal(n);
  }

  /** A grouping underscore does not change the value of the digits around it. */
  lemma {:induction false} UnderscoreSkipped(a: string, b: string)
    requires AllDigitsOrUnderscores(a) && AllDigitsOrUnderscores(b)
    ensures DigitsValue(a + "_" + b) == DigitsValue(a + b)
    decreases |b|
  {
    if b == [] {
      assert (a + "_" + b)[..|a|] == a;
      assert a + b == a;
    } else {
      var n := |b| - 1;
      UnderscoreSkipped(a, b[..n]);
      assert (a + "_" + b)[..|a| + 1 + n] == a + "_" + b[..n];
      assert (a + b)[..|a| + n] == a + b[..n];
    }
  }

  /** With no whitespace around it, `int()` reads the text itself. */
  lemma StripBare(s: string)
    requires s != [] && !IsSpace(s[0]) && !IsSpace(s[|s| - 1])
    ensures Strip(s) == s
  {
    StripStartSkips("", s);
    StripEndSkips(s, "");
    assert "" + s == s && s + "" == s;
  }

  /** Two digit runs joined by one underscore form digit groups. */
  lemma GroupedDigits(a: string, b: string)
    requires |a| > 0 && |b| > 0 && AllDigits(a) && AllDigits(b)
    ensures IsDigitGroups(a + "_" + b)
  {
    var s := a + "_" + b;
    forall i | 0 <= i < |s| ensures IsDigitOrUnderscore(s[i]) {
      if i < |a| {
        assert s[i] == a[i];
      } else if i > |a| {
        assert s[i] == b[i - |a| - 1];
      }
    }
    forall i | 0 <= i < |s| && s[i] == '_' ensures 0 < i && i + 1 < |s| && IsDigit(s[i + 1]) {
      if i == |a| {
        assert s[i + 1] == b[0];
      }
    }
  }

  /** `int("1_000") == int("1000")`: one underscore between two digit runs is ignored. */
  lemma ParseIntGrouped(a: string, b: string)
    requires |a| > 0 && |b| > 0 && AllDigits(a) && AllDigits(b)
    ensures ParseInt(a + "_" + b) == ParseInt(a + b) == Some(DigitsValue(a + b))
  {
    var s, t := a + "_" + b, a + b;
    assert s[0] == a[0] && t[0] == a[0] && s[|s| - 1] == b[|b| - 1] && t[|t| - 1] == b[|b| - 1];
    StripBare(s);
    StripBare(t);
    GroupedDigits(a, b);
    assert AllDigits(t) by {
      forall i | 0 <= i < |t| ensures IsDigit(t[i]) {
        if i < |a| {
          assert t[i] == a[i];
        } else {
          assert t[i] == b[i - |a|];
        }
      }
    }
    UnderscoreSkipped(a, b);
  }

  /** The decimal text of an integer holds only digits and a leading minus sign. */
  lemma DecimalCharacters(n: int, c: char)
    requires c in IntToDecimal(n)
    ensures IsDigit(c) || c == '-'
  {
    if n < 0 {
      assert IntToDecimal(n) == ['-'] + NatToDecimal(-n);
    }
  }
}
