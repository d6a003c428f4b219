/** What the diversifier's rewrites promise. */
module DiversifyProperties {
  import opened Strings
  import opened Diversify

  /** `s` holds no `c`. */
  predicate Lacks(s: string, c: char)
  {
    forall k | 0 <= k < |s| :: s[k] != c
  }

  // ---------------------------------------------------------------------------
  // `change_logical_operators`

  /** A text holding `t` holds `t`'s first character. */
  lemma OccursHasFirst(s: string, t: string)
    requires |t| > 0 && Occurs(t, s)
    ensures !Lacks(s, t[0])
  {
    var i: nat :| i <= |s| && At(s, i, t);
    AtFirst(s, i, t);
  }

  /**
   * On a predicate without any `|`, or without any `&`, changing the
   * connectives twice gives the predicate back.
   */
  lemma {:induction false} ChangeTwice(p: string)
    requires Lacks(p, '|') || Lacks(p, '&')
    ensures ChangeLogicalOperators(ChangeLogicalOperators(p)) == p
  {
    if Occurs("&&", p) {
      OccursHasFirst(p, "&&");
      ReplaceAllRoundTrip(p, "&&", "||");
    } else if Occurs("||", p) {
      OccursHasFirst(p, "||");
      ReplaceAllRoundTrip(p, "||", "&&");
    }
  }

  // ---------------------------------------------------------------------------
  // `negate_condition`

  /** The characters comparison operators are made of. */
  predicate IsComparisonChar(c: char)
  {
    c == '<' || c == '>' || c == '=' || c == '!'
  }

  /** `s` holds no character of a comparison operator. */
  predicate FreeOfComparisons(s: string)
  {
    forall k | 0 <= k < |s| :: !IsComparisonChar(s[k])
  }

  /** The replacement of a comparison's replacement is the comparison again. */
  lemma ComplementInvolution(op: string)
    requires IsComparison(op)
    ensures Complement(Complement(op)) == op
  {
  }

  /**
   * Around an operator, with no comparison character on either side, a text
   * made of comparison characters occurs exactly when it occurs in the
   * operator itself.
   */
  lemma {:induction false} OccursAroundOperator(x: string, op: string, y: string, t: string)
    requires FreeOfComparisons(x) && FreeOfComparisons(y)
    requires |t| > 0 && forall k | 0 <= k < |t| :: IsComparisonChar(t[k])
    ensures Occurs(t, x + op + y) <==> Occurs(t, op)
  {
    var s := x + op + y;
    assert forall m | 0 <= m < |x| :: s[m] == x[m];
    assert forall m | 0 <= m < |op| :: s[|x| + m] == op[m];
    assert forall m | 0 <= m < |y| :: s[|x| + |op| + m] == y[m];
    if Occurs(t, s) {
      var i: nat :| i <= |s| && At(s, i, t);
      forall m | 0 <= m < |t| ensures s[i + m] == t[m] {
        assert s[i..i + |t|][m] == t[m];
      }
      assert IsComparisonChar(s[i]) && IsComparisonChar(t[|t| - 1]);
      assert |x| <= i;
      var e := i + |t| - 1;
      assert IsComparisonChar(s[e]);
      assert e < |x| + |op|;
      var j := i - |x|;
      forall m | 0 <= m < |t| ensures op[j..j + |t|][m] == t[m] {
        assert op[j + m] == s[i + m];
      }
      assert op[j..j + |t|] == t;
      assert At(op, j, t);
    }
    if Occurs(t, op) {
      var j: nat :| j <= |op| && At(op, j, t);
      forall m | 0 <= m < |t| ensures s[|x| + j..|x| + j + |t|][m] == t[m] {
        assert op[j..j + |t|][m] == t[m];
      }
      assert s[|x| + j..|x| + j + |t|] == t;
      assert At(s, |x| + j, t);
    }
  }

  /** Replacing the operator between two comparison-free texts. */
  lemma {:induction false} ReplaceOperator(x: string, op: string, y: string, c: string)
    requires IsComparison(op) && FreeOfComparisons(x) && FreeOfComparisons(y)
    ensures ReplaceAll(x + op + y, op, c) == x + c + y
  {
    ConcatAssoc(x, op, y);
    ReplaceAllSkip(x, op + y, op, c);
    ReplaceAllAtStart(op, y, c);
    ReplaceAllNoLead(y, op, c);
    ConcatAssoc(x, c, y);
  }

  /**
   * A single comparison `x op y` with comparison-free operands is negated:
   * the operator is replaced by its complement and nothing else changes.
   */
  lemma {:induction false} NegateComparison(x: string, op: string, y: string)
    requires IsComparison(op) && FreeOfComparisons(x) && FreeOfComparisons(y)
    ensures NegateCondition(x + op + y) == x + Complement(op) + y
  {
    var p := x + op + y;
    OccursAroundOperator(x, op, y, "==");
    OccursAroundOperator(x, op, y, "!=");
    OccursAroundOperator(x, op, y, "<=");
    OccursAroundOperator(x, op, y, ">=");
    OccursAroundOperator(x, op, y, "<");
    OccursAroundOperator(x, op, y, ">");
    assert At(op, 0, op);
    ReplaceOperator(x, op, y, Complement(op));
    if op == "<" || op == ">" {
      assert !Occurs("==", op) && !Occurs("!=", op) && !Occurs("<=", op) && !Occurs(">=", op);
      if op == ">" {
        assert !Occurs("<", op) by {
          forall i: nat | At(op, i, "<") ensures false { AtFirst(op, i, "<"); }
        }
      }
    } else {
      forall t | t in ["==", "!=", "<=", ">="] && t != op ensures !Occurs(t, op) {
      }
    }
  }

  /** Negating a single comparison twice gives it back. */
  lemma {:induction false} NegateTwice(x: string, op: string, y: string)
    requires IsComparison(op) && FreeOfComparisons(x) && FreeOfComparisons(y)
    ensures NegateCondition(NegateCondition(x + op + y)) == x + op + y
  {
    NegateComparison(x, op, y);
    NegateComparison(x, Complement(op), y);
    ComplementInvolution(op);
  }

  // ---------------------------------------------------------------------------
  // `simplify_condition`

  /** `r` is a piece of `s` that only whitespace precedes. */
  predicate LeadingPiece(r: string, s: string)
  {
    exists i | 0 <= i <= |s| - |r| :: r == s[i..i + |r|] && AllChars(s[..i], IsSpace)
  }

  /** A prefix, and what `Strip` leaves, are leading pieces. */
  lemma LeadingPieces(s: string, n: nat)
    requires n <= |s|
    ensures LeadingPiece(s[..n], s)
    ensures LeadingPiece(Strip(s), s)
  {
    assert s[..n] == s[0..n] && s[..0] == [];
    StrippedIsLeadingPiece(s);
  }

  lemma StrippedIsLeadingPiece(s: string)
    ensures LeadingPiece(Strip(s), s)
  {
    StripDropsWhitespace(s);
    var a := RunEnd(s, 0, IsSpace);
    assert AllChars(s[..a], IsSpace);
  }

  /** A leading piece of a leading piece is a leading piece, and holds no text the whole lacks. */
  lemma {:induction false} LeadingPieceTransitive(r: string, c: string, s: string, t: string)
    requires LeadingPiece(r, c) && LeadingPiece(c, s)
    ensures LeadingPiece(r, s)
    ensures Occurs(t, r) ==> Occurs(t, c)
  {
    var k :| 0 <= k <= |c| - |r| && r == c[k..k + |r|] && AllChars(c[..k], IsSpace);
    var i :| 0 <= i <= |s| - |c| && c == s[i..i + |c|] && AllChars(s[..i], IsSpace);
    PieceOfPiece(r, c, s, k, i);
    if Occurs(t, r) {
      OccursInSlice(c, k, k + |r|, t);
    }
  }

  /** The piece at `k` of the piece at `i` is the piece at `i + k`. */
  lemma PieceOfPiece(r: string, c: string, s: string, k: nat, i: nat)
    requires k <= |c| - |r| && r == c[k..k + |r|] && AllChars(c[..k], IsSpace)
    requires i <= |s| - |c| && c == s[i..i + |c|] && AllChars(s[..i], IsSpace)
    ensures i + k <= |s| - |r| && r == s[i + k..i + k + |r|] && AllChars(s[..i + k], IsSpace)
  {
    forall m | 0 <= m < |r| ensures r[m] == s[i + k + m] {
      assert r[m] == c[k + m];
      assert c[k + m] == s[i + k + m];
    }
    assert r == s[i + k..i + k + |r|];
    assert s[..i + k] == s[..i] + c[..k];
    AllCharsConcat(s[..i], c[..k], IsSpace);
  }

  /**
   * The output holds neither connective, and it is a piece of the input
   * preceded only by whitespace: the first operand, trimmed. Without a
   * connective the input is returned as it is.
   */
  lemma {:induction false} SimplifyConditionMeaning(p: string)
    ensures !Occurs("&&", SimplifyCondition(p)) && !Occurs("||", SimplifyCondition(p))
    ensures LeadingPiece(SimplifyCondition(p), p)
    ensures !Occurs("&&", p) && !Occurs("||", p) ==> SimplifyCondition(p) == p
  {
    var r := SimplifyCondition(p);
    if Occurs("&&", p) || Occurs("||", p) {
      var a := SplitFirst(p, "&&");
      var b := Strip(a);
      var c := SplitFirst(b, "||");
      LeadingPieces(p, |a|);
      LeadingPieces(a, 0);
      LeadingPieces(b, |c|);
      LeadingPieces(c, 0);
      LeadingPieceTransitive(b, a, p, "&&");
      LeadingPieceTransitive(c, b, p, "&&");
      LeadingPieceTransitive(r, c, p, "&&");
      LeadingPieceTransitive(r, c, p, "||");
    } else {
      LeadingPieces(p, |p|);
      assert p[..|p|] == p;
    }
  }

  // ---------------------------------------------------------------------------
  // `add_complexity` and `random_modification`

  /** The last `n` characters of a template are the last `n` of its suffix. */
  lemma TemplateEnd(p: string, suffix: string, n: nat)
    requires n <= |suffix|
    ensures var r := Template(p, suffix); r[|r| - n..] == suffix[|suffix| - n..]
  {
    var r := Template(p, suffix);
    assert r[|r| - n..] == r[|p| + 2..][|suffix| - n..];
  }

  /** The four suffixes of `add_complexity` differ in their last four characters. */
  lemma ComplexityEndsDiffer(k: nat, m: nat)
    requires k < 4 && m < 4 && k != m
    ensures ComplexitySuffix(k)[|ComplexitySuffix(k)| - 4..] != ComplexitySuffix(m)[|ComplexitySuffix(m)| - 4..]
  {
    var a, b := ComplexitySuffix(k), ComplexitySuffix(m);
    assert a[|a| - 4] != b[|b| - 4] || a[|a| - 2] != b[|b| - 2];
  }

  /** The four suffixes of `random_modification` differ in their last three characters. */
  lemma ModificationEndsDiffer(k: nat, m: nat)
    requires k < 4 && m < 4 && k != m
    ensures ModificationSuffix(k)[|ModificationSuffix(k)| - 3..] != ModificationSuffix(m)[|ModificationSuffix(m)| - 3..]
  {
    var a, b := ModificationSuffix(k), ModificationSuffix(m);
    assert a[|a| - 3] != b[|b| - 3] || a[|a| - 2] != b[|b| - 2];
  }

  /** A template holds the predicate between its first two parentheses. */
  lemma TemplatePredicate(p: string, suffix: string)
    ensures Template(p, suffix)[1..|p| + 1] == p
  {
    var r := Template(p, suffix);
    assert r[1..|p| + 1] == r[..|p| + 2][1..|p| + 1];
  }

  /** The diversified predicate tells both the predicate and the template it came from. */
  lemma {:induction false} AddComplexityInjective(p: string, q: string, k: nat, m: nat)
    requires k < 4 && m < 4 && AddComplexity(p, k) == AddComplexity(q, m)
    ensures p == q && k == m
  {
    var sk, sm := ComplexitySuffix(k), ComplexitySuffix(m);
    TemplateEnd(p, sk, 4);
    TemplateEnd(q, sm, 4);
    if k != m {
      ComplexityEndsDiffer(k, m);
    }
    assert sk == sm;
    assert |p| == |q|;
    TemplatePredicate(p, sk);
    TemplatePredicate(q, sm);
  }

  /** The modified predicate tells both the predicate and the template it came from. */
  lemma {:induction false} RandomModificationInjective(p: string, q: string, k: nat, m: nat)
    requires k < 4 && m < 4 && RandomModification(p, k) == RandomModification(q, m)
    ensures p == q && k == m
  {
    var sk, sm := ModificationSuffix(k), ModificationSuffix(m);
    TemplateEnd(p, sk, 3);
    TemplateEnd(q, sm, 3);
    if k != m {
      ModificationEndsDiffer(k, m);
    }
    assert sk == sm;
    assert |p| == |q|;
    TemplatePredicate(p, sk);
    TemplatePredicate(q, sm);
  }
}
