/**
 * Decimal integers as text: Python's `str(n)` (and an f-string `{n}`) for
 * formatting, and `int(s)` on a string for parsing.
 */
module Integers {
  import opened Results
  import opened Strings

  predicate IsDigit(c: char) {
    '0' <= c <= '9'
  }

  predicate AllDigits(s: string) {
    forall i :: 0 <= i < |s| ==> IsDigit(s[i])
  }

  function DigitChar(d: nat): (c: char)
    requires d < 10
    ensures IsDigit(c)
  {
    ('0' as int + d) as char
  }

  function DigitValue(c: char): (d: nat)
    requires IsDigit(c)
    ensures d < 10 && DigitChar(d) == c
  {
    c as int - '0' as int
  }

  /** The decimal digits of `n`, most significant first, without leading zeros. */
  function NatDigits(n: nat): (r: string)
    ensures r != [] && AllDigits(r)
    ensures |r| > 1 ==> r[0] != '0'
    decreases n
  {
    if n < 10 then [DigitChar(n)] else NatDigits(n / 10) + [DigitChar(n % 10)]
  }

  /** `str(n)`: an optional minus sign followed by the digits of the magnitude. */
  function Decimal(n: int): (r: string)
    ensures r != [] && (r[0] == '-' <==> n < 0)
    ensures var d := if n < 0 then r[1..] else r; d != [] && AllDigits(d) && (|d| > 1 ==> d[0] != '0')
  {
    if n < 0 then "-" + NatDigits(-n) else NatDigits(n)
  }

  /** The value of a non-empty run of decimal digits. */
  function DigitsValue(s: string): nat
    requires AllDigits(s)
    decreases |s|
  {
    if s == [] then 0 else 10 * DigitsValue(s[..|s| - 1]) + DigitValue(s[|s| - 1])
  }

  /**
   * The digit part of Python's integer literal grammar: digits, where a
   * single underscore may stand between two digits (`1_000`).
   */
  predicate IsDigitGroups(s: string) {
    && s != []
    && IsDigit(s[0])
    && (forall i :: 0 <= i < |s| ==> IsDigit(s[i]) || s[i] == '_')
    && (forall i :: 0 <= i < |s| && s[i] == '_' ==> i + 1 < |s| && IsDigit(s[i + 1]))
  }

  /** The digits of `s` with the group underscores removed. */
  function WithoutUnderscores(s: string): (r: string)
    requires forall i :: 0 <= i < |s| ==> IsDigit(s[i]) || s[i] == '_'
    ensures AllDigits(r)
    ensures AllDigits(s) ==> r == s
    ensures |r| == |s| - CountOf(s, '_')
    decreases |s|
  {
    if s == [] then [] else (if s[0] == '_' then [] else [s[0]]) + WithoutUnderscores(s[1..])
  }

  /** Removing underscores works piece by piece: the digits of a concatenation are the digits of each part, in order. */
  lemma {:induction false} WithoutUnderscoresAppend(a: string, b: string)
    requires forall i :: 0 <= i < |a| ==> IsDigit(a[i]) || a[i] == '_'
    requires forall i :: 0 <= i < |b| ==> IsDigit(b[i]) || b[i] == '_'
    ensures WithoutUnderscores(a + b) == WithoutUnderscores(a) + WithoutUnderscores(b)
    decreases |a|
  {
    if a == [] {
      assert a + b == b;
    } else {
      assert (a + b)[0] == a[0];
      assert (a + b)[1..] == a[1..] + b;
      WithoutUnderscoresAppend(a[1..], b);
    }
  }

  /** The information separators U+001C to U+001F: whitespace to `str.isspace()`, but not to `int()`. */
  predicate IsInfoSeparator(c: char) {
    '\U{1C}' <= c <= '\U{1F}'
  }

  /**
   * The whitespace `int()` skips around a numeral: ASCII space, tab, line feed,
   * vertical tab, form feed and carriage return, and the non-ASCII characters
   * `str.isspace()` accepts. The ASCII information separators are not skipped.
   */
  predicate IsIntSpace(c: char) {
    IsSpace(c) && !IsInfoSeparator(c)
  }

  /** Text that starts or ends with an information separator. */
  predicate SeparatorFramed(s: string) {
    s != [] && (IsInfoSeparator(s[0]) || IsInfoSeparator(s[|s| - 1]))
  }

  /** Python's integer literal for `int()`: an optional sign, then digit groups. */
  predicate IsIntegerLiteral(t: string) {
    if t != [] && (t[0] == '-' || t[0] == '+') then IsDigitGroups(t[1..]) else IsDigitGroups(t)
  }

  /**
   * `int(s)` for a string `s`: surrounding whitespace (`IsIntSpace`) is ignored, an optional
   * sign is followed by digit groups; any other text is rejected (Python raises
   * `ValueError`), here `None`.
   */
  function ParseInt(s: string): (r: Option<int>)
    ensures Strip(s, IsIntSpace) == "" ==> r == None
    ensures r.Some? <==> IsIntegerLiteral(Strip(s, IsIntSpace))
    ensures r.Some? && r.value < 0 ==> Strip(s, IsIntSpace)[0] == '-'
  {
    ParseLiteral(Strip(s, IsIntSpace))
  }

  /** The value of text with no surrounding whitespace, when it is an integer literal. */
  function ParseLiteral(t: string): (r: Option<int>)
    ensures t == "" ==> r == None
    ensures r.Some? <==> IsIntegerLiteral(t)
    ensures r.Some? && r.value < 0 ==> t[0] == '-'
  {
    var signed := t != [] && (t[0] == '-' || t[0] == '+');
    var digits := if signed then t[1..] else t;
    if !IsDigitGroups(digits) then None
    else
      var magnitude: int := DigitsValue(WithoutUnderscores(digits));
      Some(if signed && t[0] == '-' then -magnitude else magnitude)
  }

  lemma {:induction false} DigitsValueOfNatDigits(n: nat)
    ensures DigitsValue(NatDigits(n)) == n
    decreases n
  {
    if n >= 10 {
      var r := NatDigits(n);
      DigitsValueOfNatDigits(n / 10);
      assert r[..|r| - 1] == NatDigits(n / 10);
    }
  }

  /** `int(str(n)) == n`: parsing gives back every formatted integer. */
  lemma DecimalRoundTrip(n: int)
    ensures ParseInt(Decimal(n)) == Some(n)
  {
    var m: nat := if n < 0 then -n else n;
    var digits := NatDigits(m);
    DecimalStripped(n);
    PlainDigits(digits);
    DigitsValueOfNatDigits(m);
    if n < 0 {
      assert Decimal(n)[1..] == digits;
    }
  }

  /** The decimal form has no whitespace for `int()` to skip. */
  lemma DecimalStripped(n: int)
    ensures Strip(Decimal(n), IsIntSpace) == Decimal(n)
  {
    var d := Decimal(n);
    assert d[|d| - 1] == NatDigits(if n < 0 then -n else n)[|NatDigits(if n < 0 then -n else n)| - 1];
    StripStripped(d, IsIntSpace);
  }

  /** A run of digits without underscores is its own digit groups. */
  lemma PlainDigits(s: string)
    requires s != [] && AllDigits(s)
    ensures IsDigitGroups(s) && WithoutUnderscores(s) == s
  {
  }

  /** `int()` ignores surrounding whitespace: `int(" \t42\n") == 42`. */
  lemma ParseIntPadded(pre: string, n: int, post: string)
    requires AllSpace(pre, IsIntSpace) && AllSpace(post, IsIntSpace)
    ensures ParseInt(pre + Decimal(n) + post) == Some(n)
  {
    var d := Decimal(n);
    DecimalStripped(n);
    StripFramed(pre, d, post, IsIntSpace);
    DecimalRoundTrip(n);
  }

  /** `int()` accepts an explicit plus sign: `int("+42") == 42`, surrounding whitespace allowed. */
  lemma ParseIntPlus(pre: string, n: nat, post: string)
    requires AllSpace(pre, IsIntSpace) && AllSpace(post, IsIntSpace)
    ensures ParseInt(pre + "+" + Decimal(n) + post) == Some(n)
  {
    var d := Decimal(n);
    var x := "+" + d;
    assert x[|x| - 1] == d[|d| - 1];
    assert pre + "+" + d + post == pre + x + post;
    StripFramed(pre, x, post, IsIntSpace);
    assert x[1..] == d;
    PlainDigits(d);
    DigitsValueOfNatDigits(n);
  }

  /** Leading zeros do not change the value of a run of digits. */
  lemma {:induction false} DigitsValueLeadingZeros(z: string, d: string)
    requires forall i :: 0 <= i < |z| ==> z[i] == '0'
    requires AllDigits(d)
    ensures DigitsValue(z + d) == DigitsValue(d)
    decreases |d|
  {
    if d == [] {
      assert z + d == z;
      ZerosValue(z);
    } else {
      var s := z + d;
      assert s[..|s| - 1] == z + d[..|d| - 1];
      DigitsValueLeadingZeros(z, d[..|d| - 1]);
    }
  }

  lemma {:induction false} ZerosValue(z: string)
    requires forall i :: 0 <= i < |z| ==> z[i] == '0'
    ensures DigitsValue(z) == 0
    decreases |z|
  {
    if z != [] {
      ZerosValue(z[..|z| - 1]);
    }
  }

  /** Unsigned digit groups, with nothing around them, parse to the value of their digits. */
  lemma ParseIntDigitGroups(s: string)
    requires IsDigitGroups(s)
    ensures ParseInt(s) == Some(DigitsValue(WithoutUnderscores(s)))
  {
    assert !IsIntSpace(s[0]);
    assert s[|s| - 1] != '_';
    StripStripped(s, IsIntSpace);
  }

  /** `int()` accepts leading zeros: `int("007") == 7`. */
  lemma ParseIntLeadingZeros(z: string, n: nat)
    requires forall i :: 0 <= i < |z| ==> z[i] == '0'
    ensures ParseInt(z + Decimal(n)) == Some(n)
  {
    var d := Decimal(n);
    var s := z + d;
    assert AllDigits(s) by {
      forall i | 0 <= i < |s| ensures IsDigit(s[i]) {
        if i >= |z| {
          assert s[i] == d[i - |z|];
        }
      }
    }
    assert IsDigitGroups(s);
    ParseIntDigitGroups(s);
    DigitsValueLeadingZeros(z, d);
    DigitsValueOfNatDigits(n);
  }

  /** Putting two digit groups side by side, with or without an underscore between them, gives digit groups. */
  lemma GroupsJoin(a: string, b: string)
    requires IsDigitGroups(a) && IsDigitGroups(b)
    ensures IsDigitGroups(a + "_" + b) && IsDigitGroups(a + b)
  {
    var g, p := a + "_" + b, a + b;
    forall i | 0 <= i < |g| && g[i] == '_' ensures i + 1 < |g| && IsDigit(g[i + 1]) {
      if i < |a| {
        assert g[i] == a[i] && g[i + 1] == (if i + 1 < |a| then a[i + 1] else '_');
      } else if i > |a| {
        assert g[i] == b[i - |a| - 1];
      }
    }
    forall i | 0 <= i < |p| && p[i] == '_' ensures i + 1 < |p| && IsDigit(p[i + 1]) {
      if i < |a| - 1 {
        assert p[i] == a[i] && p[i + 1] == a[i + 1];
      } else if i >= |a| {
        assert p[i] == b[i - |a|];
      }
    }
  }

  /** An underscore between two parts contributes no digit. */
  lemma {:induction false} UnderscoreDropped(a: string, b: string)
    requires forall i :: 0 <= i < |a| ==> IsDigit(a[i]) || a[i] == '_'
    requires forall i :: 0 <= i < |b| ==> IsDigit(b[i]) || b[i] == '_'
    ensures WithoutUnderscores(a + "_" + b) == WithoutUnderscores(a + b)
    decreases |a|
  {
    var g, p := a + "_" + b, a + b;
    if a == [] {
      assert g[0] == '_' && g[1..] == b && p == b;
    } else {
      assert g[0] == a[0] && g[1..] == a[1..] + "_" + b;
      assert p[0] == a[0] && p[1..] == a[1..] + b;
      UnderscoreDropped(a[1..], b);
    }
  }

  /** An underscore between two digit groups does not change the value: `int("1_000") == int("1000")`. */
  lemma ParseIntGrouped(a: string, b: string)
    requires IsDigitGroups(a) && IsDigitGroups(b)
    ensures ParseInt(a + "_" + b) == ParseInt(a + b)
  {
    GroupsJoin(a, b);
    ParseIntDigitGroups(a + "_" + b);
    ParseIntDigitGroups(a + b);
    UnderscoreDropped(a, b);
  }

  /** A sign, or none, in front of an integer literal's digits. */
  predicate IsSign(sign: string) {
    |sign| <= 1 && (sign != [] ==> sign[0] == '-' || sign[0] == '+')
  }

  /** Digit groups with a sign in front are the signed value of the groups. */
  lemma ParseLiteralSigned(t: string)
    requires t != [] && (t[0] == '-' || t[0] == '+') && IsDigitGroups(t[1..])
    ensures var m: int := DigitsValue(WithoutUnderscores(t[1..]));
      ParseLiteral(t) == Some(if t[0] == '-' then -m else m)
  {
  }

  /** Digit groups with no sign are the value of the groups. */
  lemma ParseLiteralUnsigned(g: string)
    requires IsDigitGroups(g)
    ensures ParseLiteral(g) == Some(DigitsValue(WithoutUnderscores(g)))
  {
    assert IsDigit(g[0]);
  }

  /** A sign (or none) followed by digit groups is the signed value of the digits. */
  lemma ParseLiteralSignedGroups(sign: string, g: string)
    requires IsSign(sign) && IsDigitGroups(g)
    ensures var m: int := DigitsValue(WithoutUnderscores(g));
      ParseLiteral(sign + g) == Some(if sign != [] && sign[0] == '-' then -m else m)
  {
    var x := sign + g;
    if sign != [] {
      assert x[0] == sign[0] && x[1..] == g;
      ParseLiteralSigned(x);
    } else {
      assert x == g;
      ParseLiteralUnsigned(g);
    }
  }

  /**
   * The value of every integer literal `int()` accepts: whitespace around it is
   * ignored, an optional sign is applied to the digit groups' value, and the
   * group underscores are skipped (`int(" -1_007 ") == -1007`).
   */
  lemma ParseIntLiteral(pre: string, sign: string, g: string, post: string)
    requires AllSpace(pre, IsIntSpace) && AllSpace(post, IsIntSpace) && IsSign(sign) && IsDigitGroups(g)
    ensures var m: int := DigitsValue(WithoutUnderscores(g));
      ParseInt(pre + sign + g + post) == Some(if sign != [] && sign[0] == '-' then -m else m)
  {
    var x := sign + g;
    assert x[|x| - 1] == g[|g| - 1] && g[|g| - 1] != '_';
    assert x[0] == (if sign == [] then g[0] else sign[0]);
    assert pre + sign + g + post == pre + x + post;
    StripFramed(pre, x, post, IsIntSpace);
    ParseLiteralSignedGroups(sign, g);
  }

  /**
   * `int()` rejects text with any character, after an optional leading sign,
   * that is neither a digit nor an underscore: `int("1.5")` and `int("abc")`
   * raise `ValueError`.
   */
  lemma ParseIntRejects(s: string, i: nat)
    requires var t := Strip(s, IsIntSpace);
      && i < |t| && !IsDigit(t[i]) && t[i] != '_'
      && !(i == 0 && (t[0] == '-' || t[0] == '+'))
    ensures ParseInt(s) == None
  {
    var t := Strip(s, IsIntSpace);
    if t[0] == '-' || t[0] == '+' {
      assert t[1..][i - 1] == t[i];
    }
  }

  /**
   * `int()` rejects text that starts or ends with an information separator,
   * although `strip()` would remove it: `int("\x1c8080")` raises `ValueError`.
   */
  lemma ParseIntRejectsSeparator(s: string)
    requires SeparatorFramed(s)
    ensures ParseInt(s) == None
  {
    if IsInfoSeparator(s[0]) {
      StripKeepsFirst(s, IsIntSpace);
    } else {
      StripKeepsLast(s, IsIntSpace);
    }
  }

  /** The two whitespace sets differ: `"\x1c5".strip() == "5"`, yet `int("\x1c5")` is rejected. */
  lemma SeparatorStrippedNotSkipped()
    ensures Strip("\U{1C}5") == "5" && ParseInt("\U{1C}5") == None
  {
    assert "\U{1C}5"[1..] == "5";
    ParseIntRejectsSeparator("\U{1C}5");
  }

  lemma DecimalRoundTripAll()
    ensures forall n: int :: ParseInt(Decimal(n)) == Some(n)
  {
    forall n: int ensures ParseInt(Decimal(n)) == Some(n) {
      DecimalRoundTrip(n);
    }
  }

  /** Distinct integers have distinct decimal forms. */
  lemma DecimalInjective(a: int, b: int)
    requires Decimal(a) == Decimal(b)
    ensures a == b
  {
    DecimalRoundTrip(a);
    DecimalRoundTrip(b);
  }
}
