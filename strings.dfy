/** The JavaScript string operations the application relies on, over
    `string` (= `seq<char>`): `includes`, `join`, `split` (on one character
    and taking the first part on a longer separator), `trim`, and the decimal
    rendering of a non-negative integer in a template literal. */
module Strings {

  // ----- includes -----

  /** `s.includes(t)`: `t` occurs in `s` at some position. */
  predicate Contains(s: string, t: string) {
    exists i | 0 <= i <= |s| - |t| :: OccursAt(s, t, i)
  }

  /** `t` occurs in `s` starting at index `i`. */
  predicate OccursAt(s: string, t: string, i: int) {
    0 <= i <= |s| - |t| && s[i..i + |t|] == t
  }

  /** A string cannot contain `t` if one of the characters of `t` is absent from it. */
  lemma NotContainsMissingChar(s: string, t: string, k: nat)
    requires k < |t| && t[k] !in s
    ensures !Contains(s, t)
  {
    forall i | 0 <= i <= |s| - |t|
      ensures !OccursAt(s, t, i)
    {
      assert s[i..i + |t|][k] == s[i + k];
    }
  }

  /** An occurrence survives putting text in front. */
  lemma ContainsAfter(pre: string, s: string, t: string)
    requires Contains(s, t)
    ensures Contains(pre + s, t)
  {
    var i :| 0 <= i <= |s| - |t| && OccursAt(s, t, i);
    assert (pre + s)[|pre| + i..|pre| + i + |t|] == s[i..i + |t|];
    assert OccursAt(pre + s, t, |pre| + i);
  }

  /** An occurrence is either at the front or in the tail. */
  lemma ContainsFrontOrTail(s: string, t: string)
    requires |s| > 0
    ensures Contains(s, t) ==> OccursAt(s, t, 0) || Contains(s[1..], t)
  {
    if Contains(s, t) && !OccursAt(s, t, 0) {
      var i :| 0 <= i <= |s| - |t| && OccursAt(s, t, i);
      assert s[1..][i - 1..i - 1 + |t|] == s[i..i + |t|];
      assert OccursAt(s[1..], t, i - 1);
    }
  }

  /** Containment is transitive. */
  lemma ContainsWithin(s: string, m: string, t: string)
    requires Contains(s, m) && Contains(m, t)
    ensures Contains(s, t)
  {
    var i :| 0 <= i <= |s| - |m| && OccursAt(s, m, i);
    var j :| 0 <= j <= |m| - |t| && OccursAt(m, t, j);
    forall k | 0 <= k < |t| ensures s[i + j + k] == t[k] {
      assert m[j + k] == t[k] by { assert m[j..j + |t|][k] == m[j + k]; }
      assert s[i + j + k] == m[j + k] by { assert s[i..i + |m|][j + k] == s[i + j + k]; }
    }
    assert s[i + j..i + j + |t|] == t;
    assert OccursAt(s, t, i + j);
  }

  lemma ContainsMiddle(a: string, t: string, b: string)
    ensures Contains(a + t + b, t)
  {
    assert OccursAt(a + t + b, t, |a|) by {
      assert (a + t + b)[|a|..|a| + |t|] == t;
    }
  }

  // ----- join -----

  /** `parts.join(sep)`: no separator before the first part or after the last. */
  function Join(parts: seq<string>, sep: string): string
  {
    if |parts| == 0 then ""
    else if |parts| == 1 then parts[0]
    else parts[0] + sep + Join(parts[1..], sep)
  }

  /** Every part of a join occurs in the joined string. */
  lemma {:induction false} JoinContainsPart(parts: seq<string>, sep: string, k: nat)
    requires k < |parts|
    ensures Contains(Join(parts, sep), parts[k])
  {
    if |parts| == 1 {
      assert OccursAt(parts[0], parts[0], 0);
    } else if k == 0 {
      var j := Join(parts, sep);
      assert j == parts[0] + (sep + Join(parts[1..], sep));
      assert j[0..|parts[0]|] == parts[0];
      assert OccursAt(j, parts[0], 0);
    } else {
      JoinContainsPart(parts[1..], sep, k - 1);
      assert parts[1..][k - 1] == parts[k];
      ContainsAfter(parts[0] + sep, Join(parts[1..], sep), parts[k]);
      assert Join(parts, sep) == parts[0] + sep + Join(parts[1..], sep);
    }
  }

  // ----- split on one character -----

  /** `s.split(c)` for a one-character separator `c`: the maximal runs
      between occurrences of `c`; there is always at least one part. */
  function Split(s: string, c: char): (parts: seq<string>)
    ensures |parts| >= 1
    ensures forall k :: 0 <= k < |parts| ==> c !in parts[k]
  {
    if |s| == 0 then [""]
    else
      var rest := Split(s[1..], c);
      if s[0] == c then [""] + rest
      else [[s[0]] + rest[0]] + rest[1..]
  }

  lemma {:induction false} SplitWithoutSeparator(s: string, c: char)
    requires c !in s
    ensures Split(s, c) == [s]
  {
    if |s| > 0 {
      SplitWithoutSeparator(s[1..], c);
      assert [s[0]] + s[1..] == s;
    }
  }

  lemma {:induction false} SplitAtFirstSeparator(a: string, c: char, b: string)
    requires c !in a
    ensures Split(a + [c] + b, c) == [a] + Split(b, c)
  {
    if |a| == 0 {
      assert a + [c] + b == [c] + b;
      assert ([c] + b)[1..] == b;
    } else {
      SplitAtFirstSeparator(a[1..], c, b);
      assert (a + [c] + b)[1..] == a[1..] + [c] + b;
      assert [a[0]] + a[1..] == a;
    }
  }

  /** Splitting undoes joining when no part holds the separator. */
  lemma {:induction false} SplitJoin(parts: seq<string>, c: char)
    requires |parts| >= 1
    requires forall k :: 0 <= k < |parts| ==> c !in parts[k]
    ensures Split(Join(parts, [c]), c) == parts
  {
    if |parts| == 1 {
      SplitWithoutSeparator(parts[0], c);
    } else {
      SplitJoin(parts[1..], c);
      SplitAtFirstSeparator(parts[0], c, Join(parts[1..], [c]));
      assert [parts[0]] + parts[1..] == parts;
    }
  }

  /** Joining undoes splitting, for every string. */
  lemma {:induction false} JoinSplit(s: string, c: char)
    ensures Join(Split(s, c), [c]) == s
  {
    if |s| > 0 {
      JoinSplit(s[1..], c);
      var rest := Split(s[1..], c);
      if s[0] == c {
        assert ([""] + rest)[1..] == rest;
        assert [s[0]] + s[1..] == s;
      } else {
        var parts := [[s[0]] + rest[0]] + rest[1..];
        if |rest| == 1 {
          assert [s[0]] + s[1..] == s;
        } else {
          assert parts[1..] == rest[1..];
          assert Join(rest, [c]) == rest[0] + [c] + Join(rest[1..], [c]);
          assert [s[0]] + s[1..] == s;
        }
      }
    }
  }

  // ----- split on a separator string, first part -----

  /** `s.split(sep)[0]`: the text before the first occurrence of `sep`, or
      all of `s` when `sep` does not occur. */
  function SplitFirst(s: string, sep: string): string
    requires |sep| > 0
  {
    if |s| < |sep| then s
    else if s[..|sep|] == sep then ""
    else [s[0]] + SplitFirst(s[1..], sep)
  }

  /** The first part is a prefix free of the separator, no occurrence of the
      separator in `s` starts inside it, and unless it is the whole string,
      the separator follows it: the cut is at the first occurrence. */
  lemma SplitFirstSpec(s: string, sep: string)
    requires |sep| > 0
    ensures SplitFirst(s, sep) <= s
    ensures !Contains(SplitFirst(s, sep), sep)
    ensures forall i :: 0 <= i < |SplitFirst(s, sep)| ==> !OccursAt(s, sep, i)
    ensures var r := SplitFirst(s, sep);
      |r| < |s| ==> |r| + |sep| <= |s| && s[|r|..|r| + |sep|] == sep
  {
    var r := SplitFirst(s, sep);
    SplitFirstCut(s, sep);
    NoSeparatorBeforeCut(s, sep);
    forall j | 0 <= j <= |r| - |sep| ensures !OccursAt(r, sep, j) {
      assert !OccursAt(s, sep, j);
      assert r[j..j + |sep|] == s[j..j + |sep|];
    }
  }

  /** The first part is a prefix, followed by the separator unless it is the
      whole string. */
  lemma {:induction false} SplitFirstCut(s: string, sep: string)
    requires |sep| > 0
    ensures SplitFirst(s, sep) <= s
    ensures var r := SplitFirst(s, sep);
      |r| < |s| ==> |r| + |sep| <= |s| && s[|r|..|r| + |sep|] == sep
  {
    var r := SplitFirst(s, sep);
    if |s| < |sep| {
    } else if s[..|sep|] == sep {
      assert r == "";
    } else {
      SplitFirstCut(s[1..], sep);
      var rest := SplitFirst(s[1..], sep);
      assert r == [s[0]] + rest;
      assert r <= s by { assert s == [s[0]] + s[1..]; }
      if |r| < |s| {
        assert s[|r|..|r| + |sep|] == s[1..][|rest|..|rest| + |sep|];
      }
    }
  }

  /** No occurrence of the separator starts before the cut. */
  lemma {:induction false} NoSeparatorBeforeCut(s: string, sep: string)
    requires |sep| > 0
    ensures forall i :: 0 <= i < |SplitFirst(s, sep)| ==> !OccursAt(s, sep, i)
  {
    if |s| >= |sep| && s[..|sep|] != sep {
      NoSeparatorBeforeCut(s[1..], sep);
      var rest := SplitFirst(s[1..], sep);
      forall i | 0 <= i < 1 + |rest| ensures !OccursAt(s, sep, i) {
        if 0 < i && OccursAt(s, sep, i) {
          assert s[1..][i - 1..i - 1 + |sep|] == s[i..i + |sep|];
          assert OccursAt(s[1..], sep, i - 1);
        }
      }
    }
  }

  /** Past a first character that cannot start the separator, the first part
      keeps that character and continues with the rest. */
  lemma SplitFirstStep(s: string, sep: string)
    requires 0 < |sep| <= |s| && s[0] != sep[0]
    ensures SplitFirst(s, sep) == [s[0]] + SplitFirst(s[1..], sep)
  {
    assert s[..|sep|][0] == s[0];
  }

  lemma {:induction false} SplitFirstOf(a: string, sep: string, b: string)
    requires |sep| > 0 && sep[0] !in a
    ensures SplitFirst(a + sep + b, sep) == a
  {
    var s := a + sep + b;
    if |a| == 0 {
      assert s == sep + b;
      assert s[..|sep|] == sep;
    } else {
      var tail := a[1..];
      assert a == [a[0]] + tail;
      assert s[0] == a[0];
      SplitFirstStep(s, sep);
      SplitFirstOf(tail, sep, b);
      assert s[1..] == tail + sep + b;
    }
  }

  // ----- trim -----

  /** The characters `String.prototype.trim` removes: the ECMAScript
      WhiteSpace and LineTerminator code points. */
  predicate IsWhitespace(ch: char) {
    var n := ch as int;
    n == 0x09 || n == 0x0A || n == 0x0B || n == 0x0C || n == 0x0D || n == 0x20
    || n == 0xA0 || n == 0x1680 || (0x2000 <= n <= 0x200A) || n == 0x2028 || n == 0x2029
    || n == 0x202F || n == 0x205F || n == 0x3000 || n == 0xFEFF
  }

  predicate AllWhitespace(s: string) {
    forall i :: 0 <= i < |s| ==> IsWhitespace(s[i])
  }

  /** `trimStart`: the longest suffix of `s` that does not begin with whitespace. */
  function TrimStart(s: string): (r: string)
    ensures |r| <= |s| && r == s[|s| - |r|..]
    ensures AllWhitespace(s[..|s| - |r|])
    ensures r == [] || !IsWhitespace(r[0])
  {
    if |s| > 0 && IsWhitespace(s[0]) then
      var r := TrimStart(s[1..]);
      assert s[..|s| - |r|] == [s[0]] + s[1..][..|s[1..]| - |r|];
      r
    else s
  }

  /** `trimEnd`: the longest prefix of `s` that does not end with whitespace. */
  function TrimEnd(s: string): (r: string)
    ensures |r| <= |s| && r == s[..|r|]
    ensures AllWhitespace(s[|r|..])
    ensures r == [] || !IsWhitespace(r[|r| - 1])
  {
    if |s| > 0 && IsWhitespace(s[|s| - 1]) then
      var r := TrimEnd(s[..|s| - 1]);
      assert s[|r|..] == s[..|s| - 1][|r|..] + [s[|s| - 1]];
      r
    else s
  }

  lemma AllWhitespaceConcat(p: string, q: string)
    ensures AllWhitespace(p + q) <==> AllWhitespace(p) && AllWhitespace(q)
  {
    if AllWhitespace(p) && AllWhitespace(q) {
      forall i | 0 <= i < |p + q| ensures IsWhitespace((p + q)[i]) {
        if i < |p| { assert (p + q)[i] == p[i]; } else { assert (p + q)[i] == q[i - |p|]; }
      }
    }
    if AllWhitespace(p + q) {
      forall i | 0 <= i < |p| ensures IsWhitespace(p[i]) { assert (p + q)[i] == p[i]; }
      forall i | 0 <= i < |q| ensures IsWhitespace(q[i]) { assert (p + q)[|p| + i] == q[i]; }
    }
  }

  /** `s.trim()`: `s` with whitespace removed at both ends; the result is
      empty exactly when `s` is all whitespace, and is otherwise the part of
      `s` between its first and last non-whitespace characters. */
  function Trim(s: string): (r: string)
    ensures r == "" <==> AllWhitespace(s)
    ensures exists p, q :: s == p + r + q && AllWhitespace(p) && AllWhitespace(q)
    ensures r != "" ==> !IsWhitespace(r[0]) && !IsWhitespace(r[|r| - 1])
  {
    var t := TrimStart(s);
    var r := TrimEnd(t);
    TrimParts(s, t, r);
    var p, q := s[..|s| - |t|], t[|r|..];
    assert s == p + r + q && AllWhitespace(p) && AllWhitespace(q);
    r
  }

  /** The facts about `Trim`, stated over the two halves' characterisations. */
  lemma TrimParts(s: string, t: string, r: string)
    requires |t| <= |s| && t == s[|s| - |t|..] && AllWhitespace(s[..|s| - |t|])
    requires t == [] || !IsWhitespace(t[0])
    requires |r| <= |t| && r == t[..|r|] && AllWhitespace(t[|r|..])
    requires r == [] || !IsWhitespace(r[|r| - 1])
    ensures r == "" <==> AllWhitespace(s)
    ensures s == s[..|s| - |t|] + r + t[|r|..]
    ensures r != "" ==> !IsWhitespace(r[0]) && !IsWhitespace(r[|r| - 1])
  {
    var p, q := s[..|s| - |t|], t[|r|..];
    assert s == p + t;
    assert t == r + q;
    if r == "" {
      assert s == p + q;
      AllWhitespaceConcat(p, q);
    } else {
      assert r[0] == t[0];
      assert s[|p|] == t[0];
    }
  }

  // ----- decimal numerals -----

  predicate IsDigit(ch: char) {
    '0' <= ch <= '9'
  }

  predicate AllDigits(s: string) {
    forall i :: 0 <= i < |s| ==> IsDigit(s[i])
  }

  function DigitChar(d: nat): (ch: char)
    requires d < 10
    ensures IsDigit(ch)
  {
    ('0' as int + d) as char
  }

  function DigitValue(ch: char): (d: nat)
    requires IsDigit(ch)
    ensures d < 10 && DigitChar(d) == ch
  {
    ch as int - '0' as int
  }

  /** `${n}` for a non-negative integer: its decimal digits, most significant
      first, with no leading zero except for 0 itself. */
  function DecimalString(n: nat): (r: string)
    ensures |r| >= 1 && AllDigits(r)
    ensures r[0] == '0' ==> n == 0
    ensures n < 10 <==> |r| == 1
  {
    if n < 10 then [DigitChar(n)]
    else DecimalString(n / 10) + [DigitChar(n % 10)]
  }

  /** The value of a string of decimal digits (the empty string reads as 0). */
  function ParseDecimal(s: string): nat
    requires AllDigits(s)
  {
    if |s| == 0 then 0
    else ParseDecimal(s[..|s| - 1]) * 10 + DigitValue(s[|s| - 1])
  }

  lemma {:induction false} ParseDecimalString(n: nat)
    ensures ParseDecimal(DecimalString(n)) == n
  {
    if n >= 10 {
      ParseDecimalString(n / 10);
      var r := DecimalString(n);
      assert r[..|r| - 1] == DecimalString(n / 10);
      assert DigitValue(r[|r| - 1]) == n % 10 by {
        assert DigitChar(DigitValue(r[|r| - 1])) == DigitChar(n % 10);
      }
    } else {
      assert DecimalString(n)[..0] == "";
    }
  }
}
