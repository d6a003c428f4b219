/**
 * `Tokenizer.normalize`: a chain of regular-expression substitutions that
 * brings a predicate's spacing into one canonical form. Each substitution is a
 * function on strings; the properties are stated on the whole chain.
 */
module Normalization {
  import opened Strings

  // ---------------------------------------------------------------------------
  // The substitutions

  /** `re.sub(r'\s+', '', s)`: the characters of `s` that are not whitespace, in order. */
  function RemoveWhitespace(s: string): (r: string)
    ensures |r| <= |s|
    ensures forall i | 0 <= i < |r| :: !IsSpace(r[i])
    decreases |s|
  {
    if s == [] then []
    else if IsSpace(s[0]) then RemoveWhitespace(s[1..])
    else [s[0]] + RemoveWhitespace(s[1..])
  }

  predicate IsComparisonChar(c: char)
  {
    c == '!' || c == '=' || c == '<' || c == '>'
  }

  /**
   * `re.sub(r'([!=<>]=?)', r' \1 ', s)`: each of `!`, `=`, `<`, `>`, together
   * with one `=` right after it, is surrounded by spaces; the scan resumes after
   * the match.
   */
  function PadComparisons(s: string): (r: string)
    ensures |r| >= |s|
    decreases |s|
  {
    if s == [] then []
    else if IsComparisonChar(s[0]) then
      var n := if |s| > 1 && s[1] == '=' then 2 else 1;
      " " + s[..n] + " " + PadComparisons(s[n..])
    else [s[0]] + PadComparisons(s[1..])
  }

  /** `s` starts with `&&` or `||`. */
  predicate ConnectiveFirst(s: string)
  {
    |s| >= 2 && (s[0] == '&' || s[0] == '|') && s[1] == s[0]
  }

  /** `re.sub(r'(\&\&|\|\|)', r' \1 ', s)`: each `&&` and `||` is surrounded by spaces. */
  function PadConnectives(s: string): (r: string)
    ensures |r| >= |s|
    decreases |s|
  {
    if s == [] then []
    else if ConnectiveFirst(s) then " " + s[..2] + " " + PadConnectives(s[2..])
    else [s[0]] + PadConnectives(s[1..])
  }

  /** `re.sub(r'\(', r' ( ', s)` followed by `re.sub(r'\)', r' ) ', s)`. */
  function PadParentheses(s: string): string
  {
    ReplaceAll(ReplaceAll(s, "(", " ( "), ")", " ) ")
  }

  /**
   * `re.sub(r'\s+', ' ', s)`: each maximal run of whitespace becomes one space.
   * The first character of the result tells what `s` starts with.
   */
  function CollapseWhitespace(s: string): (r: string)
    ensures |r| <= |s|
    ensures |s| > 0 ==> |r| > 0 && (if IsSpace(s[0]) then r[0] == ' ' else r[0] == s[0])
    ensures SingleSpaced(r)
    decreases |s|
  {
    if s == [] then []
    else if IsSpace(s[0]) then
      var e := RunEnd(s, 0, IsSpace);
      var rest := CollapseWhitespace(s[e..]);
      SingleSpacedConcat(" ", rest);
      " " + rest
    else
      var rest := CollapseWhitespace(s[1..]);
      SingleSpacedConcat([s[0]], rest);
      [s[0]] + rest
  }

  /** `Tokenizer.normalize`. */
  function Normalize(p: string): string
  {
    Strip(CollapseWhitespace(PadParentheses(PadConnectives(PadComparisons(RemoveWhitespace(p))))))
  }

  // ---------------------------------------------------------------------------
  // The text is kept: only whitespace changes

  lemma {:induction false} RemoveWhitespaceAppend(a: string, b: string)
    ensures RemoveWhitespace(a + b) == RemoveWhitespace(a) + RemoveWhitespace(b)
    decreases |a|
  {
    if a == [] {
      assert a + b == b;
    } else {
      assert (a + b)[0] == a[0];
      assert (a + b)[1..] == a[1..] + b;
      RemoveWhitespaceAppend(a[1..], b);
    }
  }

  /** Whitespace only: nothing is left. */
  lemma {:induction false} RemoveWhitespaceOfSpaces(s: string)
    requires forall i | 0 <= i < |s| :: IsSpace(s[i])
    ensures RemoveWhitespace(s) == []
    decreases |s|
  {
    if s != [] {
      RemoveWhitespaceOfSpaces(s[1..]);
    }
  }

  /** No whitespace: nothing is removed. */
  lemma {:induction false} RemoveWhitespaceOfText(s: string)
    requires forall i | 0 <= i < |s| :: !IsSpace(s[i])
    ensures RemoveWhitespace(s) == s
    decreases |s|
  {
    if s != [] {
      RemoveWhitespaceOfText(s[1..]);
      assert s == [s[0]] + s[1..];
    }
  }

  /** Removing whitespace twice is removing it once. */
  lemma RemoveWhitespaceIdempotent(s: string)
    ensures RemoveWhitespace(RemoveWhitespace(s)) == RemoveWhitespace(s)
  {
    RemoveWhitespaceOfText(RemoveWhitespace(s));
  }

  /** Wrapping in spaces adds no text. */
  lemma Padded(m: string, rest: string)
    ensures RemoveWhitespace(" " + m + " " + rest) == RemoveWhitespace(m) + RemoveWhitespace(rest)
  {
    RemoveWhitespaceAppend(" " + m + " ", rest);
    RemoveWhitespaceAppend(" " + m, " ");
    RemoveWhitespaceAppend(" ", m);
  }

  lemma {:induction false} PadComparisonsKeepsText(s: string)
    ensures RemoveWhitespace(PadComparisons(s)) == RemoveWhitespace(s)
    decreases |s|
  {
    if s != [] {
      if IsComparisonChar(s[0]) {
        var n := if |s| > 1 && s[1] == '=' then 2 else 1;
        PadComparisonsKeepsText(s[n..]);
        Padded(s[..n], PadComparisons(s[n..]));
        RemoveWhitespaceAppend(s[..n], s[n..]);
        assert s[..n] + s[n..] == s;
      } else {
        PadComparisonsKeepsText(s[1..]);
        RemoveWhitespaceAppend([s[0]], PadComparisons(s[1..]));
        RemoveWhitespaceAppend([s[0]], s[1..]);
        assert [s[0]] + s[1..] == s;
      }
    }
  }

  lemma {:induction false} PadConnectivesKeepsText(s: string)
    ensures RemoveWhitespace(PadConnectives(s)) == RemoveWhitespace(s)
    decreases |s|
  {
    if s != [] {
      if ConnectiveFirst(s) {
        PadConnectivesKeepsText(s[2..]);
        Padded(s[..2], PadConnectives(s[2..]));
        RemoveWhitespaceAppend(s[..2], s[2..]);
        assert s[..2] + s[2..] == s;
      } else {
        PadConnectivesKeepsText(s[1..]);
        RemoveWhitespaceAppend([s[0]], PadConnectives(s[1..]));
        RemoveWhitespaceAppend([s[0]], s[1..]);
        assert [s[0]] + s[1..] == s;
      }
    }
  }

  /** Replacing a pattern by one with the same text apart from whitespace keeps the text. */
  lemma {:induction false} ReplaceAllKeepsText(s: string, pat: string, rep: string)
    requires |pat| > 0 && RemoveWhitespace(rep) == RemoveWhitespace(pat)
    ensures RemoveWhitespace(ReplaceAll(s, pat, rep)) == RemoveWhitespace(s)
    decreases |s|
  {
    if |s| >= |pat| {
      if s[..|pat|] == pat {
        ReplaceAllKeepsText(s[|pat|..], pat, rep);
        RemoveWhitespaceAppend(rep, ReplaceAll(s[|pat|..], pat, rep));
        RemoveWhitespaceAppend(pat, s[|pat|..]);
        assert pat + s[|pat|..] == s;
      } else {
        ReplaceAllKeepsText(s[1..], pat, rep);
        RemoveWhitespaceAppend([s[0]], ReplaceAll(s[1..], pat, rep));
        RemoveWhitespaceAppend([s[0]], s[1..]);
        assert [s[0]] + s[1..] == s;
      }
    }
  }

  lemma PadParenthesesKeepsText(s: string)
    ensures RemoveWhitespace(PadParentheses(s)) == RemoveWhitespace(s)
  {
    Padded("(", "");
    Padded(")", "");
    assert " " + "(" + " " + "" == " ( ";
    assert " " + ")" + " " + "" == " ) ";
    ReplaceAllKeepsText(s, "(", " ( ");
    ReplaceAllKeepsText(ReplaceAll(s, "(", " ( "), ")", " ) ");
  }

  lemma {:induction false} CollapseKeepsText(s: string)
    ensures RemoveWhitespace(CollapseWhitespace(s)) == RemoveWhitespace(s)
    decreases |s|
  {
    if s != [] {
      if IsSpace(s[0]) {
        CollapseKeepsText(s[RunEnd(s, 0, IsSpace)..]);
        CollapseKeepsTextSpace(s);
      } else {
        CollapseKeepsText(s[1..]);
        CollapseKeepsTextOther(s);
      }
    }
  }

  /** A run of whitespace becomes one space, and both vanish from the text. */
  lemma CollapseKeepsTextSpace(s: string)
    requires s != [] && IsSpace(s[0])
    requires var e := RunEnd(s, 0, IsSpace);
      RemoveWhitespace(CollapseWhitespace(s[e..])) == RemoveWhitespace(s[e..])
    ensures RemoveWhitespace(CollapseWhitespace(s)) == RemoveWhitespace(s)
  {
    var e := RunEnd(s, 0, IsSpace);
    CollapseSpaceRun(s);
    RemoveWhitespaceAppend(" ", CollapseWhitespace(s[e..]));
    RemoveLeadingSpaces(s, e);
  }

  lemma CollapseSpaceRun(s: string)
    requires s != [] && IsSpace(s[0])
    ensures CollapseWhitespace(s) == " " + CollapseWhitespace(s[RunEnd(s, 0, IsSpace)..])
  {
  }

  /** Leading whitespace leaves no trace once whitespace is removed. */
  lemma RemoveLeadingSpaces(s: string, e: nat)
    requires e <= |s| && forall i | 0 <= i < e :: IsSpace(s[i])
    ensures RemoveWhitespace(s) == RemoveWhitespace(s[e..])
  {
    RemoveWhitespaceAppend(s[..e], s[e..]);
    RemoveWhitespaceOfSpaces(s[..e]);
    assert s[..e] + s[e..] == s;
  }

  /** Any other character is copied. */
  lemma CollapseKeepsTextOther(s: string)
    requires s != [] && !IsSpace(s[0])
    requires RemoveWhitespace(CollapseWhitespace(s[1..])) == RemoveWhitespace(s[1..])
    ensures RemoveWhitespace(CollapseWhitespace(s)) == RemoveWhitespace(s)
  {
    RemoveWhitespaceAppend([s[0]], CollapseWhitespace(s[1..]));
    RemoveWhitespaceAppend([s[0]], s[1..]);
    assert [s[0]] + s[1..] == s;
  }

  lemma StripKeepsText(s: string)
    ensures RemoveWhitespace(Strip(s)) == RemoveWhitespace(s)
  {
    var a, r := RunEnd(s, 0, IsSpace), Strip(s);
    StripDropsWhitespace(s);
    RemoveWhitespaceBetween(s, a, a + |r|);
  }

  /** With only whitespace before `a` and from `b` on, the text of `s` is the text of `s[a..b]`. */
  lemma RemoveWhitespaceBetween(s: string, a: nat, b: nat)
    requires a <= b <= |s|
    requires forall k | 0 <= k < a :: IsSpace(s[k])
    requires forall k | b <= k < |s| :: IsSpace(s[k])
    ensures RemoveWhitespace(s) == RemoveWhitespace(s[a..b])
  {
    var x, m, y := s[..a], s[a..b], s[b..];
    SliceThree(s, a, b);
    RemoveWhitespaceAppend(x, m + y);
    RemoveWhitespaceAppend(m, y);
    SpacesBefore(s, a);
    SpacesFrom(s, b);
    assert RemoveWhitespace(s) == [] + (RemoveWhitespace(m) + []);
  }

  lemma SpacesBefore(s: string, a: nat)
    requires a <= |s| && forall k | 0 <= k < a :: IsSpace(s[k])
    ensures RemoveWhitespace(s[..a]) == []
  {
    var x := s[..a];
    assert forall i | 0 <= i < |x| :: IsSpace(x[i]);
    RemoveWhitespaceOfSpaces(x);
  }

  lemma SpacesFrom(s: string, b: nat)
    requires b <= |s| && forall k | b <= k < |s| :: IsSpace(s[k])
    ensures RemoveWhitespace(s[b..]) == []
  {
    var y := s[b..];
    assert forall i | 0 <= i < |y| :: IsSpace(y[i]) by {
      forall i | 0 <= i < |y| ensures IsSpace(y[i]) {
        assert y[i] == s[b + i];
      }
    }
    RemoveWhitespaceOfSpaces(y);
  }

  /** Normalizing changes only whitespace: the other characters are kept, in order. */
  lemma NormalizeKeepsText(p: string)
    ensures RemoveWhitespace(Normalize(p)) == RemoveWhitespace(p)
  {
    var s1 := RemoveWhitespace(p);
    var s2 := PadComparisons(s1);
    var s3 := PadConnectives(s2);
    var s4 := PadParentheses(s3);
    var s5 := CollapseWhitespace(s4);
    RemoveWhitespaceIdempotent(p);
    PadComparisonsKeepsText(s1);
    PadConnectivesKeepsText(s2);
    PadParenthesesKeepsText(s3);
    CollapseKeepsText(s4);
    StripKeepsText(s5);
  }

  // ---------------------------------------------------------------------------
  // The shape of the output

  /** The characters at `i` and `i + 1` are not both whitespace. */
  predicate NotTwoSpaces(s: string, i: nat)
    requires i + 1 < |s|
  {
    !(IsSpace(s[i]) && IsSpace(s[i + 1]))
  }

  /** Whitespace in `s` is single spaces, never two in a row. */
  predicate SingleSpaced(s: string)
  {
    && (forall i | 0 <= i < |s| :: IsSpace(s[i]) ==> s[i] == ' ')
    && (forall i | 0 <= i < |s| - 1 :: NotTwoSpaces(s, i))
  }

  /** ... and none at either end. */
  predicate Canonical(s: string)
  {
    SingleSpaced(s) && (s == [] || (!IsSpace(s[0]) && !IsSpace(s[|s| - 1])))
  }

  lemma SingleSpacedSlice(s: string, a: nat, b: nat)
    requires SingleSpaced(s) && a <= b <= |s|
    ensures SingleSpaced(s[a..b])
  {
    var t := s[a..b];
    forall i | 0 <= i < |t| - 1
      ensures NotTwoSpaces(t, i)
    {
      assert NotTwoSpaces(s, a + i);
      assert t[i] == s[a + i] && t[i + 1] == s[a + i + 1];
    }
  }

  lemma SingleSpacedConcat(a: string, b: string)
    requires SingleSpaced(a) && SingleSpaced(b)
    requires |a| > 0 && |b| > 0 ==> NotTwoSpaces([a[|a| - 1], b[0]], 0)
    ensures SingleSpaced(a + b)
  {
    var t := a + b;
    forall i | 0 <= i < |t| - 1
      ensures NotTwoSpaces(t, i)
    {
      if i + 1 < |a| {
        assert NotTwoSpaces(a, i);
        assert t[i] == a[i] && t[i + 1] == a[i + 1];
      } else if i + 1 == |a| {
        assert NotTwoSpaces([a[|a| - 1], b[0]], 0);
        assert t[i] == a[|a| - 1] && t[i + 1] == b[0];
      } else {
        assert NotTwoSpaces(b, i - |a|);
        assert t[i] == b[i - |a|] && t[i + 1] == b[i - |a| + 1];
      }
    }
  }

  /** `normalize` yields a string with single spaces between its parts and none at the ends. */
  lemma NormalizeCanonical(p: string)
    ensures Canonical(Normalize(p))
  {
    var c := CollapseWhitespace(PadParentheses(PadConnectives(PadComparisons(RemoveWhitespace(p)))));
    var a, r := RunEnd(c, 0, IsSpace), Strip(c);
    StripDropsWhitespace(c);
    SingleSpacedSlice(c, a, a + |r|);
  }

  /** Neither character at `i` and `i + 1` is a `c` next to a non-whitespace character. */
  predicate SpacedAt(s: string, c: char, i: nat)
    requires i + 1 < |s|
  {
    (s[i] == c ==> IsSpace(s[i + 1])) && (s[i + 1] == c ==> IsSpace(s[i]))
  }

  /** Every `c` in `s` has whitespace on both sides, or is at an end of `s`. */
  predicate Spaced(s: string, c: char)
  {
    forall i | 0 <= i < |s| - 1 :: SpacedAt(s, c, i)
  }

  lemma SpacedSlice(s: string, c: char, a: nat, b: nat)
    requires Spaced(s, c) && a <= b <= |s|
    ensures Spaced(s[a..b], c)
  {
    var t := s[a..b];
    forall i | 0 <= i < |t| - 1
      ensures SpacedAt(t, c, i)
    {
      assert SpacedAt(s, c, a + i);
      assert t[i] == s[a + i] && t[i + 1] == s[a + i + 1];
    }
  }

  lemma SpacedConcat(a: string, b: string, c: char)
    requires Spaced(a, c) && Spaced(b, c)
    requires |a| > 0 && |b| > 0 ==> SpacedAt([a[|a| - 1], b[0]], c, 0)
    ensures Spaced(a + b, c)
  {
    var t := a + b;
    forall i | 0 <= i < |t| - 1
      ensures SpacedAt(t, c, i)
    {
      if i + 1 < |a| {
        assert SpacedAt(a, c, i);
        assert t[i] == a[i] && t[i + 1] == a[i + 1];
      } else if i + 1 == |a| {
        assert SpacedAt([a[|a| - 1], b[0]], c, 0);
        assert t[i] == a[|a| - 1] && t[i + 1] == b[0];
      } else {
        assert SpacedAt(b, c, i - |a|);
        assert t[i] == b[i - |a|] && t[i + 1] == b[i - |a| + 1];
      }
    }
  }

  /** What `re.sub` of one character `d` by ` d ` starts with. */
  lemma PadCharStart(t: string, d: char)
    requires |t| > 0
    ensures |ReplaceAll(t, [d], [' ', d, ' '])| > 0
    ensures ReplaceAll(t, [d], [' ', d, ' '])[0] == if t[0] == d then ' ' else t[0]
  {
    assert t[..1] == [t[0]];
  }

  /** Surrounding `d` with spaces spaces out `d`, and keeps every other spaced character spaced. */
  lemma {:induction false} PadCharSpaced(s: string, d: char, c: char)
    requires !IsSpace(c) && (c == d || Spaced(s, c))
    ensures Spaced(ReplaceAll(s, [d], [' ', d, ' ']), c)
    decreases |s|
  {
    if |s| > 0 {
      var rest := ReplaceAll(s[1..], [d], [' ', d, ' ']);
      if c != d {
        SpacedSlice(s, c, 1, |s|);
        assert s[1..|s|] == s[1..];
      }
      PadCharSpaced(s[1..], d, c);
      if |s| > 1 {
        PadCharStart(s[1..], d);
      }
      if s[..1] == [d] {
        assert s[0] == d;
        assert ReplaceAll(s, [d], [' ', d, ' ']) == [' ', d, ' '] + rest;
        assert Spaced([' ', d, ' '], c) by {
          assert SpacedAt([' ', d, ' '], c, 0);
          assert SpacedAt([' ', d, ' '], c, 1);
        }
        SpacedConcat([' ', d, ' '], rest, c);
      } else {
        assert s[0] != d;
        assert ReplaceAll(s, [d], [' ', d, ' ']) == [s[0]] + rest;
        if |s| > 1 && c != d {
          assert SpacedAt(s, c, 0);
        }
        SpacedConcat([s[0]], rest, c);
      }
    }
  }

  lemma PadParenthesesSpaced(s: string)
    ensures Spaced(PadParentheses(s), '(') && Spaced(PadParentheses(s), ')')
  {
    var once := ReplaceAll(s, "(", " ( ");
    assert "(" == ['('] && " ( " == [' ', '(', ' '];
    assert ")" == [')'] && " ) " == [' ', ')', ' '];
    PadCharSpaced(s, '(', '(');
    PadCharSpaced(once, ')', '(');
    PadCharSpaced(once, ')', ')');
  }

  /** Collapsing whitespace keeps a spaced non-space character spaced. */
  lemma {:induction false} CollapseSpaced(s: string, c: char)
    requires !IsSpace(c) && Spaced(s, c)
    ensures Spaced(CollapseWhitespace(s), c)
    decreases |s|
  {
    if |s| > 0 {
      if IsSpace(s[0]) {
        var e := RunEnd(s, 0, IsSpace);
        SpacedSlice(s, c, e, |s|);
        assert s[e..|s|] == s[e..];
        CollapseSpaced(s[e..], c);
        SpacedConcat(" ", CollapseWhitespace(s[e..]), c);
      } else {
        SpacedSlice(s, c, 1, |s|);
        assert s[1..|s|] == s[1..];
        CollapseSpaced(s[1..], c);
        if |s| > 1 {
          assert SpacedAt(s, c, 0);
        }
        SpacedConcat([s[0]], CollapseWhitespace(s[1..]), c);
      }
    }
  }

  lemma StripSpaced(s: string, c: char)
    requires Spaced(s, c)
    ensures Spaced(Strip(s), c)
  {
    var a, r := RunEnd(s, 0, IsSpace), Strip(s);
    StripDropsWhitespace(s);
    SpacedSlice(s, c, a, a + |r|);
  }

  /** `normalize` puts a space on each side of every parenthesis not at an end of the result. */
  lemma NormalizeSpacesParentheses(p: string)
    ensures Spaced(Normalize(p), '(') && Spaced(Normalize(p), ')')
  {
    var padded := PadParentheses(PadConnectives(PadComparisons(RemoveWhitespace(p))));
    PadParenthesesSpaced(PadConnectives(PadComparisons(RemoveWhitespace(p))));
    CollapseSpaced(padded, '(');
    CollapseSpaced(padded, ')');
    StripSpaced(CollapseWhitespace(padded), '(');
    StripSpaced(CollapseWhitespace(padded), ')');
  }

  // ---------------------------------------------------------------------------
  // Operators are spaced

  /** `x` then `y` do not put a comparison character against a non-whitespace character of another kind. */
  predicate ComparisonApart(x: char, y: char)
  {
    (IsComparisonChar(x) && !IsComparisonChar(y) ==> IsSpace(y))
    && (IsComparisonChar(y) && !IsComparisonChar(x) ==> IsSpace(x))
  }

  /** Every run of comparison characters has whitespace on each side, or is at an end of `s`. */
  predicate ComparisonsSpaced(s: string)
  {
    forall i | 0 <= i < |s| - 1 :: ComparisonApart(s[i], s[i + 1])
  }

  /** `x` then `y` are `&&` or `||`. */
  predicate ConnectivePair(x: char, y: char)
  {
    (x == '&' || x == '|') && y == x
  }

  /** `x`, `y`, `z` do not put `&&` or `||` against a non-whitespace character. */
  predicate ConnectiveApart(x: char, y: char, z: char)
  {
    (ConnectivePair(y, z) ==> IsSpace(x)) && (ConnectivePair(x, y) ==> IsSpace(z))
  }

  /** Every `&&` and `||` has whitespace on each side, or is at an end of `s`. */
  predicate ConnectivesSpaced(s: string)
  {
    forall i | 0 <= i < |s| - 2 :: ConnectiveApart(s[i], s[i + 1], s[i + 2])
  }

  /** Both kinds of operator are spaced. */
  predicate OperatorsSpaced(s: string)
  {
    ComparisonsSpaced(s) && ConnectivesSpaced(s)
  }

  lemma OperatorsSpacedSlice(s: string, a: nat, b: nat)
    requires a <= b <= |s|
    ensures ComparisonsSpaced(s) ==> ComparisonsSpaced(s[a..b])
    ensures ConnectivesSpaced(s) ==> ConnectivesSpaced(s[a..b])
  {
    var t := s[a..b];
    if ComparisonsSpaced(s) {
      forall i | 0 <= i < |t| - 1
        ensures ComparisonApart(t[i], t[i + 1])
      {
        assert t[i] == s[a + i] && t[i + 1] == s[a + i + 1];
      }
    }
    if ConnectivesSpaced(s) {
      forall i | 0 <= i < |t| - 2
        ensures ConnectiveApart(t[i], t[i + 1], t[i + 2])
      {
        assert t[i] == s[a + i] && t[i + 1] == s[a + i + 1] && t[i + 2] == s[a + i + 2];
      }
    }
  }

  lemma ComparisonsConcat(a: string, b: string)
    requires ComparisonsSpaced(a) && ComparisonsSpaced(b)
    requires |a| > 0 && |b| > 0 ==> ComparisonApart(a[|a| - 1], b[0])
    ensures ComparisonsSpaced(a + b)
  {
    var t := a + b;
    forall i | 0 <= i < |t| - 1
      ensures ComparisonApart(t[i], t[i + 1])
    {
      if i + 1 < |a| {
        assert t[i] == a[i] && t[i + 1] == a[i + 1];
      } else if i + 1 == |a| {
        assert t[i] == a[|a| - 1] && t[i + 1] == b[0];
      } else {
        assert t[i] == b[i - |a|] && t[i + 1] == b[i - |a| + 1];
      }
    }
  }

  lemma ConnectivesConcat(a: string, b: string)
    requires ConnectivesSpaced(a) && ConnectivesSpaced(b)
    requires |a| > 1 && |b| > 0 ==> ConnectiveApart(a[|a| - 2], a[|a| - 1], b[0])
    requires |a| > 0 && |b| > 1 ==> ConnectiveApart(a[|a| - 1], b[0], b[1])
    ensures ConnectivesSpaced(a + b)
  {
    var t := a + b;
    forall i | 0 <= i < |t| - 2
      ensures ConnectiveApart(t[i], t[i + 1], t[i + 2])
    {
      if i + 2 < |a| {
        assert t[i] == a[i] && t[i + 1] == a[i + 1] && t[i + 2] == a[i + 2];
      } else if i + 2 == |a| {
        assert t[i] == a[|a| - 2] && t[i + 1] == a[|a| - 1] && t[i + 2] == b[0];
      } else if i + 1 == |a| {
        assert t[i] == a[|a| - 1] && t[i + 1] == b[0] && t[i + 2] == b[1];
      } else {
        assert t[i] == b[i - |a|] && t[i + 1] == b[i - |a| + 1] && t[i + 2] == b[i - |a| + 2];
      }
    }
  }

  /** Operators are spaced in `a + b` when `a` ends or `b` starts with whitespace. */
  lemma OperatorsConcatAtSpace(a: string, b: string)
    requires OperatorsSpaced(a) && OperatorsSpaced(b)
    requires (|a| > 0 && IsSpace(a[|a| - 1])) || (|b| > 0 && IsSpace(b[0]))
    ensures OperatorsSpaced(a + b)
  {
    ComparisonsConcat(a, b);
    ConnectivesConcat(a, b);
  }

  /** What the comparison padding starts with. */
  lemma PadComparisonsStart(t: string)
    requires |t| > 0
    ensures |PadComparisons(t)| > 0
    ensures PadComparisons(t)[0] == if IsComparisonChar(t[0]) then ' ' else t[0]
  {
  }

  /** After the comparison padding, every comparison operator is spaced. */
  lemma {:induction false} PadComparisonsSpaced(s: string)
    ensures ComparisonsSpaced(PadComparisons(s))
    decreases |s|
  {
    if s != [] {
      if IsComparisonChar(s[0]) {
        var n := if |s| > 1 && s[1] == '=' then 2 else 1;
        var piece := " " + s[..n] + " ";
        PadComparisonsSpaced(s[n..]);
        assert ComparisonsSpaced(piece) by {
          assert piece[1] == s[0] && piece[n] == s[n - 1];
        }
        ComparisonsConcat(piece, PadComparisons(s[n..]));
        assert PadComparisons(s) == piece + PadComparisons(s[n..]);
      } else {
        PadComparisonsSpaced(s[1..]);
        if |s| > 1 {
          PadComparisonsStart(s[1..]);
        }
        ComparisonsConcat([s[0]], PadComparisons(s[1..]));
      }
    }
  }

  /** What the connective padding starts with. */
  lemma PadConnectivesStart(t: string)
    requires |t| > 0
    ensures |PadConnectives(t)| > 0
    ensures PadConnectives(t)[0] == if ConnectiveFirst(t) then ' ' else t[0]
    ensures !ConnectiveFirst(t) && |t| > 1 ==>
              |PadConnectives(t)| > 1 && PadConnectives(t)[1] == if ConnectiveFirst(t[1..]) then ' ' else t[1]
  {
    if !ConnectiveFirst(t) && |t| > 1 {
      assert t[1..][0] == t[1];
    }
  }

  /** The connective padding keeps comparison operators spaced. */
  lemma {:induction false} PadConnectivesKeepsComparisons(s: string)
    requires ComparisonsSpaced(s)
    ensures ComparisonsSpaced(PadConnectives(s))
    decreases |s|
  {
    if s != [] {
      if ConnectiveFirst(s) {
        OperatorsSpacedSlice(s, 2, |s|);
        assert s[2..|s|] == s[2..];
        PadConnectivesKeepsComparisons(s[2..]);
        ComparisonsConcat(" " + s[..2] + " ", PadConnectives(s[2..]));
      } else {
        OperatorsSpacedSlice(s, 1, |s|);
        assert s[1..|s|] == s[1..];
        PadConnectivesKeepsComparisons(s[1..]);
        if |s| > 1 {
          PadConnectivesStart(s[1..]);
          assert ComparisonApart(s[0], s[1]);
        }
        ComparisonsConcat([s[0]], PadConnectives(s[1..]));
      }
    }
  }

  /** After the connective padding, every `&&` and `||` is spaced. */
  lemma {:induction false} PadConnectivesSpaced(s: string)
    ensures ConnectivesSpaced(PadConnectives(s))
    decreases |s|
  {
    if s != [] {
      if ConnectiveFirst(s) {
        var piece := " " + s[..2] + " ";
        PadConnectivesSpaced(s[2..]);
        assert ConnectivesSpaced(piece) by {
          assert piece[1] == s[0] && piece[2] == s[1];
        }
        ConnectivesConcat(piece, PadConnectives(s[2..]));
      } else {
        PadConnectivesSpaced(s[1..]);
        if |s| > 1 {
          PadConnectivesStart(s[1..]);
          if |s| > 2 {
            assert s[1..][1..] == s[2..];
            assert ConnectiveFirst(s[1..]) == ConnectivePair(s[1], s[2]);
          }
        }
        ConnectivesConcat([s[0]], PadConnectives(s[1..]));
      }
    }
  }

  /** Surrounding a character other than an operator character with spaces keeps operators spaced. */
  lemma {:induction false} PadCharKeepsOperators(s: string, d: char)
    requires !IsSpace(d) && !IsComparisonChar(d) && d != '&' && d != '|'
    requires OperatorsSpaced(s)
    ensures OperatorsSpaced(ReplaceAll(s, [d], [' ', d, ' ']))
    decreases |s|
  {
    if |s| > 0 {
      var rest := ReplaceAll(s[1..], [d], [' ', d, ' ']);
      OperatorsSpacedSlice(s, 1, |s|);
      assert s[1..|s|] == s[1..];
      PadCharKeepsOperators(s[1..], d);
      if s[..1] == [d] {
        assert ReplaceAll(s, [d], [' ', d, ' ']) == [' ', d, ' '] + rest;
        OperatorsConcatAtSpace([' ', d, ' '], rest);
      } else {
        assert ReplaceAll(s, [d], [' ', d, ' ']) == [s[0]] + rest;
        PadCharJoins(s, d);
      }
    }
  }

  /** A character other than `d` keeps operators spaced in front of the rest's padding. */
  lemma PadCharJoins(s: string, d: char)
    requires !IsSpace(d) && !IsComparisonChar(d) && d != '&' && d != '|'
    requires |s| > 0 && s[0] != d && OperatorsSpaced(s)
    requires OperatorsSpaced(ReplaceAll(s[1..], [d], [' ', d, ' ']))
    ensures OperatorsSpaced([s[0]] + ReplaceAll(s[1..], [d], [' ', d, ' ']))
  {
    var rest := ReplaceAll(s[1..], [d], [' ', d, ' ']);
    if |s| > 1 {
      PadCharStart(s[1..], d);
      assert ComparisonApart(s[0], s[1]);
      if s[1] != d && |s| > 2 {
        assert s[1..][..1] != [d];
        assert s[1..][1..] == s[2..];
        assert rest == [s[1]] + ReplaceAll(s[2..], [d], [' ', d, ' ']);
        PadCharStart(s[2..], d);
        assert ConnectiveApart(s[0], s[1], s[2]);
      }
    }
    ComparisonsConcat([s[0]], rest);
    ConnectivesConcat([s[0]], rest);
  }

  lemma PadParenthesesKeepsOperators(s: string)
    requires OperatorsSpaced(s)
    ensures OperatorsSpaced(PadParentheses(s))
  {
    assert "(" == ['('] && " ( " == [' ', '(', ' '];
    assert ")" == [')'] && " ) " == [' ', ')', ' '];
    PadCharKeepsOperators(s, '(');
    PadCharKeepsOperators(ReplaceAll(s, "(", " ( "), ')');
  }

  /** Collapsing whitespace keeps operators spaced. */
  lemma {:induction false} CollapseKeepsOperators(s: string)
    requires OperatorsSpaced(s)
    ensures OperatorsSpaced(CollapseWhitespace(s))
    decreases |s|
  {
    if |s| > 0 {
      if IsSpace(s[0]) {
        var e := RunEnd(s, 0, IsSpace);
        OperatorsSpacedSlice(s, e, |s|);
        assert s[e..|s|] == s[e..];
        CollapseKeepsOperators(s[e..]);
        OperatorsConcatAtSpace(" ", CollapseWhitespace(s[e..]));
      } else {
        OperatorsSpacedSlice(s, 1, |s|);
        assert s[1..|s|] == s[1..];
        CollapseKeepsOperators(s[1..]);
        CollapseJoins(s);
      }
    }
  }

  /** A character other than whitespace keeps operators spaced in front of the rest's collapse. */
  lemma CollapseJoins(s: string)
    requires |s| > 0 && !IsSpace(s[0]) && OperatorsSpaced(s)
    requires OperatorsSpaced(CollapseWhitespace(s[1..]))
    ensures OperatorsSpaced(CollapseWhitespace(s))
  {
    var rest := CollapseWhitespace(s[1..]);
    if |s| > 1 {
      assert ComparisonApart(s[0], s[1]);
      if !IsSpace(s[1]) && |s| > 2 {
        assert s[1..][1..] == s[2..];
        assert rest == [s[1]] + CollapseWhitespace(s[2..]);
        assert ConnectiveApart(s[0], s[1], s[2]);
      }
    }
    ComparisonsConcat([s[0]], rest);
    ConnectivesConcat([s[0]], rest);
  }

  /**
   * `normalize` puts whitespace on each side of every comparison operator and
   * of every `&&` and `||` not at an end of the result.
   */
  lemma NormalizeSpacesOperators(p: string)
    ensures ComparisonsSpaced(Normalize(p)) && ConnectivesSpaced(Normalize(p))
  {
    var padded := PadParentheses(PadConnectives(PadComparisons(RemoveWhitespace(p))));
    PaddedOperatorsSpaced(p);
    CollapseKeepsOperators(padded);
    StripKeepsOperators(CollapseWhitespace(padded));
  }

  lemma StripKeepsOperators(s: string)
    requires OperatorsSpaced(s)
    ensures OperatorsSpaced(Strip(s))
  {
    var a, r := RunEnd(s, 0, IsSpace), Strip(s);
    StripDropsWhitespace(s);
    OperatorsSpacedSlice(s, a, a + |r|);
  }

  /** After the three paddings, operators are spaced. */
  lemma PaddedOperatorsSpaced(p: string)
    ensures OperatorsSpaced(PadParentheses(PadConnectives(PadComparisons(RemoveWhitespace(p)))))
  {
    var compared := PadComparisons(RemoveWhitespace(p));
    PadComparisonsSpaced(RemoveWhitespace(p));
    PadConnectivesKeepsComparisons(compared);
    PadConnectivesSpaced(compared);
    PadParenthesesKeepsOperators(PadConnectives(compared));
  }

  // ---------------------------------------------------------------------------
  // Substitutions piece by piece

  /** Text with no comparison character is left alone. */
  lemma {:induction false} PadComparisonsPlain(w: string)
    requires forall k | 0 <= k < |w| :: !IsComparisonChar(w[k])
    ensures PadComparisons(w) == w
    decreases |w|
  {
    if w != [] {
      PadComparisonsPlain(w[1..]);
      assert w == [w[0]] + w[1..];
    }
  }

  /** The scan never runs past a piece that does not end in a comparison character. */
  lemma {:induction false} PadComparisonsAppend(a: string, b: string)
    requires a == [] || !IsComparisonChar(a[|a| - 1])
    ensures PadComparisons(a + b) == PadComparisons(a) + PadComparisons(b)
    decreases |a|
  {
    if a == [] {
      assert a + b == b;
    } else {
      var n := PadComparisonsHead(a, b);
      PadComparisonsAppend(a[n..], b);
      ConcatAssoc(PadComparisonsPiece(a, n), PadComparisons(a[n..]), PadComparisons(b));
    }
  }

  /** What the scan emits for the first character or operator of `s`. */
  function PadComparisonsPiece(s: string, n: nat): string
    requires 0 < n <= |s|
  {
    if IsComparisonChar(s[0]) then " " + s[..n] + " " else [s[0]]
  }

  /** The first step of the scan over `a + b` stays inside `a`. */
  lemma PadComparisonsHead(a: string, b: string) returns (n: nat)
    requires a != [] && !IsComparisonChar(a[|a| - 1])
    ensures 0 < n <= |a| && (a[n..] == [] || !IsComparisonChar(a[n..][|a[n..]| - 1]))
    ensures PadComparisons(a) == PadComparisonsPiece(a, n) + PadComparisons(a[n..])
    ensures PadComparisons(a + b) == PadComparisonsPiece(a, n) + PadComparisons(a[n..] + b)
  {
    var ab := a + b;
    assert ab[0] == a[0];
    if IsComparisonChar(a[0]) {
      n := if |a| > 1 && a[1] == '=' then 2 else 1;
      assert |a| >= 2;
      assert ab[..n] == a[..n];
    } else {
      n := 1;
    }
    assert ab[n..] == a[n..] + b;
  }

  /** Text with no `&` or `|` is left alone. */
  lemma {:induction false} PadConnectivesPlain(w: string)
    requires forall k | 0 <= k < |w| :: w[k] != '&' && w[k] != '|'
    ensures PadConnectives(w) == w
    decreases |w|
  {
    if w != [] {
      PadConnectivesPlain(w[1..]);
      assert w == [w[0]] + w[1..];
    }
  }

  lemma {:induction false} PadConnectivesAppend(a: string, b: string)
    requires a == [] || (a[|a| - 1] != '&' && a[|a| - 1] != '|')
    ensures PadConnectives(a + b) == PadConnectives(a) + PadConnectives(b)
    decreases |a|
  {
    if a == [] {
      assert a + b == b;
    } else {
      var ab := a + b;
      assert ab[0] == a[0];
      assert ConnectiveFirst(ab) == ConnectiveFirst(a) by {
        if |a| >= 2 { assert ab[1] == a[1]; }
      }
      if ConnectiveFirst(a) {
        assert ab[..2] == a[..2];
        assert ab[2..] == a[2..] + b;
        PadConnectivesAppend(a[2..], b);
      } else {
        assert ab[1..] == a[1..] + b;
        PadConnectivesAppend(a[1..], b);
      }
    }
  }

  /** Replacing one character works piece by piece. */
  lemma {:induction false} ReplaceCharAppend(a: string, b: string, d: char, rep: string)
    ensures ReplaceAll(a + b, [d], rep) == ReplaceAll(a, [d], rep) + ReplaceAll(b, [d], rep)
    decreases |a|
  {
    if a == [] {
      assert a + b == b;
    } else {
      var ab := a + b;
      assert ab[..1] == a[..1];
      assert ab[1..] == a[1..] + b;
      ReplaceCharAppend(a[1..], b, d, rep);
    }
  }

  /** Whitespace that is already single spaces is not changed by collapsing it. */
  lemma {:induction false} CollapseSingleSpaced(s: string)
    requires SingleSpaced(s)
    ensures CollapseWhitespace(s) == s
    decreases |s|
  {
    if s != [] {
      SingleSpacedSlice(s, 1, |s|);
      assert s[1..|s|] == s[1..];
      CollapseSingleSpacedHead(s);
      CollapseSingleSpaced(s[1..]);
      assert s == [s[0]] + s[1..];
    }
  }

  /** On single-spaced text the scan moves one character at a time. */
  lemma CollapseSingleSpacedHead(s: string)
    requires SingleSpaced(s) && s != []
    ensures CollapseWhitespace(s) == [s[0]] + CollapseWhitespace(s[1..])
  {
    if IsSpace(s[0]) {
      if |s| > 1 {
        assert NotTwoSpaces(s, 0);
      }
      assert RunEnd(s, 0, IsSpace) == 1;
    }
  }
}
