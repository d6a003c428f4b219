/**
 * Character classes and the handful of Python string operations the
 * predicate tools use: `in`, `str.replace`, `str.split(sep)[0]`,
 * `str.strip()`, `int()` on a run of digits and `str()` of a natural number.
 */
module Strings {

  predicate IsDigit(c: char) { '0' <= c <= '9' }

  predicate IsLetter(c: char) { 'a' <= c <= 'z' || 'A' <= c <= 'Z' }

  /** `\w` restricted to ASCII: letters, digits and the underscore. */
  predicate IsWordChar(c: char) { IsLetter(c) || IsDigit(c) || c == '_' }

  predicate IsHexDigit(c: char) { IsDigit(c) || 'a' <= c <= 'f' || 'A' <= c <= 'F' }

  /** The characters Python's `str.isspace` (and so the regex class `\s`) accepts. */
  predicate IsSpace(c: char)
  {
    || '\U{0009}' <= c <= '\U{000D}'
    || '\U{001C}' <= c <= '\U{0020}'
    || c == '\U{0085}' || c == '\U{00A0}' || c == '\U{1680}'
    || '\U{2000}' <= c <= '\U{200A}'
    || c == '\U{2028}' || c == '\U{2029}' || c == '\U{202F}' || c == '\U{205F}'
    || c == '\U{3000}'
  }

  predicate AllChars(s: string, p: char -> bool)
  {
    forall i | 0 <= i < |s| :: p(s[i])
  }

  lemma ConcatAssoc(x: string, p: string, q: string)
    ensures x + (p + q) == (x + p) + q
  {
  }

  /** Two cut points split a string into three slices. */
  lemma SliceThree(s: string, a: nat, b: nat)
    requires a <= b <= |s|
    ensures s == s[..a] + (s[a..b] + s[b..])
  {
    assert s[a..] == s[a..b] + s[b..];
    assert s == s[..a] + s[a..];
  }

  lemma AllCharsConcat(a: string, b: string, p: char -> bool)
    requires AllChars(a, p) && AllChars(b, p)
    ensures AllChars(a + b, p)
  {
    forall i | 0 <= i < |a + b| ensures p((a + b)[i]) {
      if i >= |a| { assert (a + b)[i] == b[i - |a|]; }
    }
  }

  /** The end of the longest run of characters satisfying `p` that starts at `i`. */
  function RunEnd(s: string, i: nat, p: char -> bool): (e: nat)
    requires i <= |s|
    ensures i <= e <= |s|
    ensures forall j | i <= j < e :: p(s[j])
    ensures e < |s| ==> !p(s[e])
    decreases |s| - i
  {
    if i < |s| && p(s[i]) then RunEnd(s, i + 1, p) else i
  }

  /** `t` occurs in `s` at index `i`. */
  predicate At(s: string, i: nat, t: string)
  {
    i + |t| <= |s| && s[i..i + |t|] == t
  }

  /** Python's `t in s`. */
  predicate Occurs(t: string, s: string)
  {
    exists i: nat | i <= |s| :: At(s, i, t)
  }

  lemma AtFirst(s: string, i: nat, t: string)
    requires |t| > 0 && At(s, i, t)
    ensures s[i] == t[0]
  {
    assert s[i..i + |t|][0] == s[i];
  }

  /** Python's `s.replace(pat, rep)` for a non-empty `pat`: left to right, non-overlapping. */
  function ReplaceAll(s: string, pat: string, rep: string): string
    requires |pat| > 0
    decreases |s|
  {
    if |s| < |pat| then s
    else if s[..|pat|] == pat then rep + ReplaceAll(s[|pat|..], pat, rep)
    else [s[0]] + ReplaceAll(s[1..], pat, rep)
  }

  /** Replacing a pattern that does not occur changes nothing. */
  lemma {:induction false} ReplaceAllAbsent(s: string, pat: string, rep: string)
    requires |pat| > 0 && !Occurs(pat, s)
    ensures ReplaceAll(s, pat, rep) == s
    decreases |s|
  {
    if |s| >= |pat| {
      assert !At(s, 0, pat);
      assert !Occurs(pat, s[1..]) by {
        forall i: nat | At(s[1..], i, pat) ensures At(s, i + 1, pat) {
          assert s[1..][i..i + |pat|] == s[i + 1..i + 1 + |pat|];
        }
      }
      ReplaceAllAbsent(s[1..], pat, rep);
      assert [s[0]] + s[1..] == s;
    }
  }

  /** A string without the pattern's first character is left as it is. */
  lemma {:induction false} ReplaceAllNoLead(s: string, pat: string, rep: string)
    requires |pat| > 0 && forall k | 0 <= k < |s| :: s[k] != pat[0]
    ensures ReplaceAll(s, pat, rep) == s
    decreases |s|
  {
    if |s| >= |pat| {
      assert s[..|pat|][0] == s[0];
      ReplaceAllNoLead(s[1..], pat, rep);
      assert [s[0]] + s[1..] == s;
    }
  }

  /** Replacing a one-character pattern works character by character, so it distributes over concatenation. */
  lemma {:induction false} ReplaceAllConcat(a: string, b: string, pat: string, rep: string)
    requires |pat| == 1
    ensures ReplaceAll(a + b, pat, rep) == ReplaceAll(a, pat, rep) + ReplaceAll(b, pat, rep)
    decreases |a|
  {
    if a == [] {
      assert a + b == b;
    } else {
      assert (a + b)[..1] == a[..1] && (a + b)[1..] == a[1..] + b;
      ReplaceAllConcat(a[1..], b, pat, rep);
    }
  }

  /** A prefix holding no first character of the pattern is copied as it is. */
  lemma {:induction false} ReplaceAllSkip(x: string, t: string, pat: string, rep: string)
    requires |pat| > 0 && forall k | 0 <= k < |x| :: x[k] != pat[0]
    ensures ReplaceAll(x + t, pat, rep) == x + ReplaceAll(t, pat, rep)
    decreases |x|
  {
    if x == [] {
      assert x + t == t;
    } else if |x + t| >= |pat| {
      assert (x + t)[..|pat|][0] == x[0];
      assert (x + t)[1..] == x[1..] + t;
      ReplaceAllSkip(x[1..], t, pat, rep);
      assert x == [x[0]] + x[1..];
    }
  }

  /** An occurrence at the start is replaced, and the scan resumes after it. */
  lemma ReplaceAllAtStart(pat: string, t: string, rep: string)
    requires |pat| > 0
    ensures ReplaceAll(pat + t, pat, rep) == rep + ReplaceAll(t, pat, rep)
  {
    assert (pat + t)[..|pat|] == pat && (pat + t)[|pat|..] == t;
  }

  /** A piece of a string without `t` holds no `t` either. */
  lemma OccursInSlice(s: string, i: nat, j: nat, t: string)
    requires i <= j <= |s| && Occurs(t, s[i..j])
    ensures Occurs(t, s)
  {
    var k: nat :| k <= |s[i..j]| && At(s[i..j], k, t);
    assert k + |t| <= j - i;
    forall m | 0 <= m < |t| ensures s[i + k..i + k + |t|][m] == t[m] {
      assert s[i..j][k..k + |t|][m] == t[m];
    }
    assert s[i + k..i + k + |t|] == t;
    assert At(s, i + k, t);
    assert i + k <= |s|;
  }

  /** A replacement by a text of the same length keeps the length. */
  lemma {:induction false} ReplaceAllLength(s: string, pat: string, rep: string)
    requires |pat| == |rep| > 0
    ensures |ReplaceAll(s, pat, rep)| == |s|
    decreases |s|
  {
    if |s| >= |pat| {
      if s[..|pat|] == pat {
        ReplaceAllLength(s[|pat|..], pat, rep);
      } else {
        ReplaceAllLength(s[1..], pat, rep);
      }
    }
  }

  /**
   * Where no replacement text has been emitted yet, the output agrees with the
   * input: a prefix of the output free of `rep`'s first character is a prefix
   * of the input.
   */
  lemma {:induction false} ReplaceAllPrefix(s: string, pat: string, rep: string, m: nat)
    requires |pat| > 0 && |rep| > 0
    requires m <= |ReplaceAll(s, pat, rep)|
    requires forall k | 0 <= k < m :: ReplaceAll(s, pat, rep)[k] != rep[0]
    ensures m <= |s| && ReplaceAll(s, pat, rep)[..m] == s[..m]
    decreases |s|
  {
    var r := ReplaceAll(s, pat, rep);
    if |s| < |pat| {
    } else if s[..|pat|] == pat {
      assert r[0] == rep[0];
    } else if m > 0 {
      var tail := ReplaceAll(s[1..], pat, rep);
      assert r == [s[0]] + tail;
      forall k | 0 <= k < m - 1 ensures tail[k] != rep[0] {
        assert tail[k] == r[k + 1];
      }
      ReplaceAllPrefix(s[1..], pat, rep, m - 1);
      assert r[..m] == [s[0]] + tail[..m - 1];
      assert s[..m] == [s[0]] + s[1..][..m - 1];
    }
  }

  /**
   * When no character of `rep` appears in `pat`, the output of the
   * replacement contains no occurrence of `pat` at all.
   */
  lemma {:induction false} ReplaceAllRemoves(s: string, pat: string, rep: string)
    requires |pat| > 0 && |rep| > 0
    requires forall i, j | 0 <= i < |rep| && 0 <= j < |pat| :: rep[i] != pat[j]
    ensures !Occurs(pat, ReplaceAll(s, pat, rep))
    decreases |s|
  {
    var r := ReplaceAll(s, pat, rep);
    if |s| < |pat| {
    } else if s[..|pat|] == pat {
      var tail := ReplaceAll(s[|pat|..], pat, rep);
      ReplaceAllRemoves(s[|pat|..], pat, rep);
      assert r == rep + tail;
      forall i: nat ensures !At(r, i, pat) {
        if i < |rep| {
          assert r[i] == rep[i] != pat[0];
          if At(r, i, pat) { AtFirst(r, i, pat); }
        } else if i + |pat| <= |r| {
          assert r[i..i + |pat|] == tail[i - |rep|..i - |rep| + |pat|];
          assert !At(tail, i - |rep|, pat);
        }
      }
    } else {
      var tail := ReplaceAll(s[1..], pat, rep);
      ReplaceAllRemoves(s[1..], pat, rep);
      assert r == [s[0]] + tail;
      forall i: nat ensures !At(r, i, pat) {
        if i == 0 {
          HeadKeptNotPattern(s, pat, rep);
        } else if i + |pat| <= |r| {
          assert r[i..i + |pat|] == tail[i - 1..i - 1 + |pat|];
          assert !At(tail, i - 1, pat);
        }
      }
    }
  }

  /** When `s` does not start with `pat`, neither does its replacement, whose first character is kept. */
  lemma HeadKeptNotPattern(s: string, pat: string, rep: string)
    requires |pat| > 0 && |rep| > 0 && |s| >= |pat| && s[..|pat|] != pat
    requires forall i, j | 0 <= i < |rep| && 0 <= j < |pat| :: rep[i] != pat[j]
    ensures !At([s[0]] + ReplaceAll(s[1..], pat, rep), 0, pat)
  {
    var tail := ReplaceAll(s[1..], pat, rep);
    var r := [s[0]] + tail;
    if |r| >= |pat| {
      if k :| 0 <= k < |pat| - 1 && tail[k] == rep[0] {
        assert r[..|pat|][k + 1] == rep[0];
        assert rep[0] != pat[k + 1];
      } else {
        HeadKept(s, pat, rep);
      }
    }
  }

  /** Before the first replacement text, the output of `[s[0]] + ReplaceAll(s[1..])` is the input. */
  lemma HeadKept(s: string, pat: string, rep: string)
    requires |pat| > 0 && |rep| > 0 && |s| >= |pat|
    requires |pat| - 1 <= |ReplaceAll(s[1..], pat, rep)|
    requires forall k | 0 <= k < |pat| - 1 :: ReplaceAll(s[1..], pat, rep)[k] != rep[0]
    ensures ([s[0]] + ReplaceAll(s[1..], pat, rep))[..|pat|] == s[..|pat|]
  {
    var tail := ReplaceAll(s[1..], pat, rep);
    ReplaceAllPrefix(s[1..], pat, rep, |pat| - 1);
    assert ([s[0]] + tail)[..|pat|] == [s[0]] + tail[..|pat| - 1];
    assert s[..|pat|] == [s[0]] + s[1..][..|pat| - 1];
  }

  /** Replacing a pattern that occurs leaves an occurrence of the replacement. */
  lemma {:induction false} ReplaceAllLeavesReplacement(s: string, pat: string, rep: string)
    requires |pat| > 0 && Occurs(pat, s)
    ensures Occurs(rep, ReplaceAll(s, pat, rep))
    decreases |s|
  {
    var r := ReplaceAll(s, pat, rep);
    if s[..|pat|] == pat {
      assert At(r, 0, rep);
    } else {
      var i: nat :| i <= |s| && At(s, i, pat);
      assert i != 0 && i + |pat| <= |s|;
      assert s[1..][i - 1..i - 1 + |pat|] == s[i..i + |pat|];
      assert At(s[1..], i - 1, pat);
      ReplaceAllLeavesReplacement(s[1..], pat, rep);
      var tail := ReplaceAll(s[1..], pat, rep);
      var j: nat :| j <= |tail| && At(tail, j, rep);
      assert j + |rep| <= |tail|;
      assert r == [s[0]] + tail;
      assert r[j + 1..j + 1 + |rep|] == tail[j..j + |rep|];
      assert At(r, j + 1, rep);
    }
  }

  /**
   * Swapping a pattern for one of the same length and back is the identity
   * when the input holds no first character of the replacement.
   */
  lemma {:induction false} ReplaceAllRoundTrip(s: string, a: string, b: string)
    requires |a| == |b| > 0
    requires forall k | 0 <= k < |s| :: s[k] != b[0]
    ensures ReplaceAll(ReplaceAll(s, a, b), b, a) == s
    decreases |s|
  {
    var r := ReplaceAll(s, a, b);
    if |s| < |a| {
      ReplaceAllNoLead(s, b, a);
    } else if s[..|a|] == a {
      var tail := ReplaceAll(s[|a|..], a, b);
      ReplaceAllRoundTrip(s[|a|..], a, b);
      assert r[..|b|] == b && r[|b|..] == tail;
      assert s == a + s[|a|..];
    } else {
      var tail := ReplaceAll(s[1..], a, b);
      ReplaceAllRoundTrip(s[1..], a, b);
      ReplaceAllLength(s, a, b);
      assert r == [s[0]] + tail && r[1..] == tail;
      assert r[..|b|][0] == s[0];
      assert s == [s[0]] + s[1..];
    }
  }

  /** Python's `s.split(sep)[0]`: everything before the first occurrence of `sep`. */
  function SplitFirst(s: string, sep: string): (r: string)
    requires |sep| > 0
    ensures |r| <= |s| && r == s[..|r|]
    ensures !Occurs(sep, r)
    ensures !Occurs(sep, s) ==> r == s
    decreases |s|
  {
    if |s| < |sep| then s
    else if s[..|sep|] == sep then
      assert At(s, 0, sep);
      ""
    else
      var rest := SplitFirst(s[1..], sep);
      SplitFirstStep(s, sep, rest);
      [s[0]] + rest
  }

  lemma SplitFirstStep(s: string, sep: string, rest: string)
    requires |sep| > 0 && |s| >= |sep| && s[..|sep|] != sep
    requires |rest| <= |s[1..]| && rest == s[1..][..|rest|] && !Occurs(sep, rest)
    requires !Occurs(sep, s[1..]) ==> rest == s[1..]
    ensures !Occurs(sep, [s[0]] + rest)
    ensures !Occurs(sep, s) ==> [s[0]] + rest == s
  {
    var r := [s[0]] + rest;
    forall i: nat ensures !At(r, i, sep) {
      if i == 0 {
        if |r| >= |sep| {
          assert r[..|sep|] == s[..|sep|];
        }
      } else if i + |sep| <= |r| {
        assert r[i..i + |sep|] == rest[i - 1..i - 1 + |sep|];
        assert !At(rest, i - 1, sep);
      }
    }
    if !Occurs(sep, s) {
      forall i: nat ensures !At(s[1..], i, sep) {
        if i + |sep| <= |s| - 1 {
          assert s[1..][i..i + |sep|] == s[i + 1..i + 1 + |sep|];
          assert !At(s, i + 1, sep);
        }
      }
      assert s == [s[0]] + s[1..];
    }
  }

  /** The start of the run of characters satisfying `p` that ends at `j`. */
  function RunStart(s: string, j: nat, p: char -> bool): (b: nat)
    requires j <= |s|
    ensures b <= j
    ensures forall k | b <= k < j :: p(s[k])
    ensures b > 0 ==> !p(s[b - 1])
  {
    if j > 0 && p(s[j - 1]) then RunStart(s, j - 1, p) else j
  }

  /**
   * Python's `s.strip()`: the piece of `s` between its leading and its
   * trailing whitespace (empty when `s` is all whitespace).
   */
  function Strip(s: string): (r: string)
    ensures r == [] || (!IsSpace(r[0]) && !IsSpace(r[|r| - 1]))
  {
    var a := RunEnd(s, 0, IsSpace);
    var b := RunStart(s, |s|, IsSpace);
    s[a..if b < a then a else b]
  }

  /** What `Strip` drops is whitespace. */
  lemma StripDropsWhitespace(s: string)
    ensures var a := RunEnd(s, 0, IsSpace);
      && a + |Strip(s)| <= |s|
      && Strip(s) == s[a..a + |Strip(s)|]
      && (forall k | 0 <= k < a :: IsSpace(s[k]))
      && (forall k | a + |Strip(s)| <= k < |s| :: IsSpace(s[k]))
  {
  }

  function DigitValue(c: char): nat
    requires IsDigit(c)
  {
    (c as int) - ('0' as int)
  }

  function DigitChar(d: nat): (c: char)
    requires d < 10
    ensures IsDigit(c) && DigitValue(c) == d
  {
    ('0' as int + d) as char
  }

  /** Python's `int(d)` for a non-empty run of ASCII digits. */
  function DecimalValue(d: string): nat
    requires AllChars(d, IsDigit)
    decreases |d|
  {
    if d == [] then 0
    else DecimalValue(d[..|d| - 1]) * 10 + DigitValue(d[|d| - 1])
  }

  /** Python's `str(n)` for a natural number: decimal digits, no leading zero. */
  function NatToString(n: nat): (r: string)
    ensures |r| > 0 && AllChars(r, IsDigit)
    ensures |r| > 1 ==> r[0] != '0'
    ensures DecimalValue(r) == n
    decreases n
  {
    if n < 10 then [DigitChar(n)]
    else
      var high := NatToString(n / 10);
      var r := high + [DigitChar(n % 10)];
      assert r[..|r| - 1] == high;
      r
  }
}
