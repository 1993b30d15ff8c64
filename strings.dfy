/**
 * The string operations the application relies on, with Python's `str`
 * semantics: `strip()`, `split(sep)`, `sep.join(parts)` and
 * `replace("\n", " ")`, plus the shape of `uuid.uuid4().hex`.
 */
module Strings {

  /** Python's `str.isspace()` for one character: the characters `strip()` removes. */
  predicate IsSpace(c: char) {
    || ('\t' <= c <= '\r')        // tab, line feed, vertical tab, form feed, carriage return
    || ('\U{1C}' <= c <= ' ')     // file/group/record/unit separators and space
    || c == '\U{85}' || c == '\U{A0}' || c == '\U{1680}'
    || ('\U{2000}' <= c <= '\U{200A}')
    || c == '\U{2028}' || c == '\U{2029}' || c == '\U{202F}' || c == '\U{205F}'
    || c == '\U{3000}'
  }

  /*
   * The stripping below takes the set of whitespace characters as a parameter,
   * `str.isspace()` unless told otherwise: `int()` skips a smaller set around
   * a numeral than `strip()` removes.
   */

  predicate AllSpace(s: string, space: char -> bool := IsSpace) {
    forall i :: 0 <= i < |s| ==> space(s[i])
  }

  /** No whitespace at either end. */
  predicate Stripped(s: string, space: char -> bool := IsSpace) {
    s == [] || (!space(s[0]) && !space(s[|s| - 1]))
  }

  /**
   * `s.strip()`: whitespace is removed from the front and from the back until
   * neither end is whitespace.
   */
  function Strip(s: string, space: char -> bool := IsSpace): (r: string)
    ensures Stripped(r, space) && |r| <= |s|
    decreases |s|
  {
    if s != [] && space(s[0]) then Strip(s[1..], space)
    else if s != [] && space(s[|s| - 1]) then Strip(s[..|s| - 1], space)
    else s
  }

  /** Text with no whitespace at either end is left as it is. */
  lemma StripStripped(s: string, space: char -> bool := IsSpace)
    requires Stripped(s, space)
    ensures Strip(s, space) == s
  {
  }

  /** Whitespace in front of a text that starts with something else is all that `strip()` removes there. */
  lemma {:induction false} StripLeading(pre: string, y: string, space: char -> bool := IsSpace)
    requires AllSpace(pre, space) && y != [] && !space(y[0])
    ensures Strip(pre + y, space) == Strip(y, space)
    decreases |pre|
  {
    if pre != [] {
      assert (pre + y)[0] == pre[0];
      assert (pre + y)[1..] == pre[1..] + y;
      StripLeading(pre[1..], y, space);
    } else {
      assert pre + y == y;
    }
  }

  /** Whitespace behind a text that starts with something else is removed, and nothing more. */
  lemma {:induction false} StripTrailing(x: string, post: string, space: char -> bool := IsSpace)
    requires AllSpace(post, space) && x != [] && !space(x[0])
    ensures Strip(x + post, space) == Strip(x, space)
    decreases |post|
  {
    if post != [] {
      var s := x + post;
      assert s[0] == x[0] && s[|s| - 1] == post[|post| - 1];
      assert s[..|s| - 1] == x + post[..|post| - 1];
      StripTrailing(x, post[..|post| - 1], space);
    } else {
      assert x + post == x;
    }
  }

  /** Stripping whitespace-framed text with no whitespace at its ends gives that text. */
  lemma StripFramed(pre: string, x: string, post: string, space: char -> bool := IsSpace)
    requires AllSpace(pre, space) && AllSpace(post, space) && x != [] && Stripped(x, space)
    ensures Strip(pre + x + post, space) == x
  {
    StripTrailing(x, post, space);
    assert pre + x + post == pre + (x + post);
    StripLeading(pre, x + post, space);
    StripStripped(x, space);
  }

  /** A first character that is not whitespace is kept, and stays first. */
  lemma {:induction false} StripKeepsFirst(s: string, space: char -> bool := IsSpace)
    requires s != [] && !space(s[0])
    ensures Strip(s, space) != [] && Strip(s, space)[0] == s[0]
    decreases |s|
  {
    if |s| > 1 && space(s[|s| - 1]) {
      StripKeepsFirst(s[..|s| - 1], space);
    }
  }

  /** A last character that is not whitespace is kept, and stays last. */
  lemma {:induction false} StripKeepsLast(s: string, space: char -> bool := IsSpace)
    requires s != [] && !space(s[|s| - 1])
    ensures var r := Strip(s, space); r != [] && r[|r| - 1] == s[|s| - 1]
    decreases |s|
  {
    if |s| > 1 && space(s[0]) {
      StripKeepsLast(s[1..], space);
    }
  }

  /** `r` is the slice of `s` at `k`, and everything before and after it is whitespace. */
  predicate FramedSlice(s: string, r: string, k: nat) {
    k + |r| <= |s| && r == s[k..k + |r|] && AllSpace(s[..k]) && AllSpace(s[k + |r|..])
  }

  /**
   * What `strip()` keeps is one slice `s[k..k + |r|]` of the input, and what
   * it removes before and after that slice is all whitespace.
   */
  lemma {:induction false} StripSlice(s: string) returns (k: nat)
    ensures FramedSlice(s, Strip(s), k)
    decreases |s|
  {
    if s != [] && IsSpace(s[0]) {
      var j := StripSlice(s[1..]);
      FramedAfterSpace(s, Strip(s[1..]), j);
      k := j + 1;
    } else if s != [] && IsSpace(s[|s| - 1]) {
      k := StripSlice(s[..|s| - 1]);
      FramedBeforeSpace(s, Strip(s[..|s| - 1]), k);
    } else {
      k := 0;
      assert s[..0] == [] && s[|s|..] == [];
    }
  }

  /** A framed slice stays framed, one position further on, when whitespace is put in front. */
  lemma FramedAfterSpace(s: string, r: string, j: nat)
    requires s != [] && IsSpace(s[0]) && FramedSlice(s[1..], r, j)
    ensures FramedSlice(s, r, j + 1)
  {
    var t, k := s[1..], j + 1;
    assert s[k..k + |r|] == t[j..j + |r|];
    assert s[k + |r|..] == t[j + |r|..];
    forall i | 0 <= i < k ensures IsSpace(s[..k][i]) {
      if i > 0 {
        assert s[..k][i] == t[..j][i - 1];
      }
    }
  }

  /** A framed slice stays framed when whitespace is put behind. */
  lemma FramedBeforeSpace(s: string, r: string, k: nat)
    requires s != [] && IsSpace(s[|s| - 1]) && FramedSlice(s[..|s| - 1], r, k)
    ensures FramedSlice(s, r, k)
  {
    var t := s[..|s| - 1];
    assert s[k..k + |r|] == t[k..k + |r|];
    assert s[..k] == t[..k];
    var tail := s[k + |r|..];
    forall i | 0 <= i < |tail| ensures IsSpace(tail[i]) {
      if i < |tail| - 1 {
        assert tail[i] == t[k + |r|..][i];
      }
    }
  }

  /** `s.replace("\n", " ")`. */
  function ReplaceNewlines(s: string): (r: string)
    ensures |r| == |s| && '\n' !in r
    decreases |s|
  {
    if s == [] then [] else [if s[0] == '\n' then ' ' else s[0]] + ReplaceNewlines(s[1..])
  }

  /** Each line feed becomes a space, and every other character stays where it was. */
  lemma {:induction false} ReplaceNewlinesAt(s: string, i: nat)
    requires i < |s|
    ensures ReplaceNewlines(s)[i] == if s[i] == '\n' then ' ' else s[i]
    decreases i
  {
    if i > 0 {
      ReplaceNewlinesAt(s[1..], i - 1);
    }
  }

  /** Text without line feeds is left as it is. */
  lemma {:induction false} ReplaceNewlinesWithoutNewline(s: string)
    requires '\n' !in s
    ensures ReplaceNewlines(s) == s
    decreases |s|
  {
    if s != [] {
      assert s[0] in s;
      assert '\n' !in s[1..] by {
        forall c | c in s[1..] ensures c != '\n' {
          assert c in s;
        }
      }
      ReplaceNewlinesWithoutNewline(s[1..]);
      assert s == [s[0]] + s[1..];
    }
  }

  /** Number of occurrences of `c` in `s`. */
  function CountOf(s: string, c: char): nat
    decreases |s|
  {
    if s == [] then 0 else (if s[0] == c then 1 else 0) + CountOf(s[1..], c)
  }

  /**
   * `s.split(sep)` for a one-character separator: the pieces between
   * separators, empty pieces included, one more piece than separators.
   */
  function Split(s: string, sep: char): (r: seq<string>)
    ensures |r| == CountOf(s, sep) + 1
    ensures forall i :: 0 <= i < |r| ==> sep !in r[i]
    decreases |s|
  {
    if s == [] then [""]
    else
      var rest := Split(s[1..], sep);
      if s[0] == sep then [""] + rest
      else [[s[0]] + rest[0]] + rest[1..]
  }

  /** `sep.join(parts)` for a one-character separator and at least one part. */
  function Join(parts: seq<string>, sep: char): string
    requires parts != []
    decreases |parts|
  {
    if |parts| == 1 then parts[0] else parts[0] + [sep] + Join(parts[1..], sep)
  }

  /** Joining the pieces of a split restores the string. */
  lemma {:induction false} JoinSplit(s: string, sep: char)
    ensures Join(Split(s, sep), sep) == s
    decreases |s|
  {
    if s != [] {
      var rest := Split(s[1..], sep);
      JoinSplit(s[1..], sep);
      if s[0] == sep {
        assert Split(s, sep) == [""] + rest;
        assert s == [sep] + s[1..];
      } else if |rest| == 1 {
        assert Split(s, sep) == [[s[0]] + rest[0]];
        assert s == [s[0]] + s[1..];
      } else {
        assert Split(s, sep) == [[s[0]] + rest[0]] + rest[1..];
        assert Join(rest, sep) == rest[0] + [sep] + Join(rest[1..], sep);
        assert ([[s[0]] + rest[0]] + rest[1..])[1..] == rest[1..];
        assert s == [s[0]] + s[1..];
      }
    }
  }

  /** Splitting a string behind a separator-free prefix extends the first piece. */
  lemma {:induction false} SplitAfterPlainPrefix(p: string, t: string, sep: char)
    requires sep !in p
    ensures Split(p + t, sep) == [p + Split(t, sep)[0]] + Split(t, sep)[1..]
    decreases |p|
  {
    if p != [] {
      assert (p + t)[1..] == p[1..] + t;
      assert p[1..] + t == (p + t)[1..];
      SplitAfterPlainPrefix(p[1..], t, sep);
      var r, rest := Split(t, sep), Split(p[1..] + t, sep);
      assert p[0] in p;
      assert Split(p + t, sep) == [[p[0]] + rest[0]] + rest[1..];
      assert rest[1..] == r[1..];
      assert [p[0]] + (p[1..] + r[0]) == p + r[0];
    } else {
      var r := Split(t, sep);
      assert p + t == t;
      assert p + r[0] == r[0];
      assert r == [r[0]] + r[1..];
    }
  }

  /** Splitting a join of separator-free parts gives the parts back. */
  lemma {:induction false} SplitJoin(parts: seq<string>, sep: char)
    requires parts != []
    requires forall i :: 0 <= i < |parts| ==> sep !in parts[i]
    ensures Split(Join(parts, sep), sep) == parts
    decreases |parts|
  {
    if |parts| == 1 {
      SplitAfterPlainPrefix(parts[0], "", sep);
      assert parts[0] + "" == parts[0];
    } else {
      var tail := Join(parts[1..], sep);
      SplitJoin(parts[1..], sep);
      assert Split([sep] + tail, sep) == [""] + parts[1..];
      assert parts[0] + [sep] + tail == parts[0] + ([sep] + tail);
      SplitAfterPlainPrefix(parts[0], [sep] + tail, sep);
      assert parts[0] + "" == parts[0];
    }
  }

  /** Python's `uuid.uuid4().hex`: 32 lower-case hexadecimal digits. */
  predicate IsUuidHex(s: string) {
    |s| == 32 && forall i :: 0 <= i < |s| ==> ('0' <= s[i] <= '9' || 'a' <= s[i] <= 'f')
  }
}
