/** The substitution chain on a small comparison: `a >=b` becomes `a >= b`. */
module NormalizationExamples {
  import opened Strings
  import opened Normalization

  lemma RemovesSpaces()
    ensures RemoveWhitespace("a >=b") == "a>=b"
  {
  }

  lemma PadsComparison()
    ensures PadComparisons("a>=b") == "a >= b"
  {
  }

  lemma NoConnective()
    ensures PadConnectives("a >= b") == "a >= b"
  {
    PadConnectivesPlain("a >= b");
  }

  lemma NoParenthesis()
    ensures PadParentheses("a >= b") == "a >= b"
  {
    var s := "a >= b";
    forall i: nat | i <= |s|
      ensures !At(s, i, "(") && !At(s, i, ")")
    {
      if i < |s| {
        assert s[i] != '(' && s[i] != ')';
      }
    }
    ReplaceAllAbsent(s, "(", " ( ");
    ReplaceAllAbsent(s, ")", " ) ");
  }

  lemma CollapsesAndStrips()
    ensures Strip(CollapseWhitespace("a >= b")) == "a >= b"
  {
    var s := "a >= b";
    assert SingleSpaced(s) by {
      forall i | 0 <= i < |s| - 1
        ensures NotTwoSpaces(s, i)
      {
      }
    }
    CollapseSingleSpaced(s);
  }

  /** `a >=b` normalizes to `a >= b`: the operator gets one space on each side. */
  lemma SpacesComparison()
    ensures Normalize("a >=b") == "a >= b"
  {
    RemovesSpaces();
    PadsComparison();
    NoConnective();
    NoParenthesis();
    CollapsesAndStrips();
  }
}
