/** The four answers both comparators give, and the fixed sentences they return them as. */
module Verdicts {

  datatype Verdict = FirstStronger | SecondStronger | Equivalent | Unrelated

  /** The four fixed strings `compare` returns. */
  function VerdictText(v: Verdict): string
  {
    match v
    case FirstStronger => "The first predicate is stronger."
    case SecondStronger => "The second predicate is stronger."
    case Equivalent => "The predicates are equivalent."
    case Unrelated => "The predicates are not equivalent and neither is stronger."
  }

  /** The verdict with the roles of the two predicates exchanged. */
  function Swap(v: Verdict): Verdict
  {
    match v
    case FirstStronger => SecondStronger
    case SecondStronger => FirstStronger
    case _ => v
  }

  /** The four verdict strings are distinct, so the string tells the verdict. */
  lemma {:induction false} VerdictTextsDistinct(v: Verdict, w: Verdict)
    requires v != w
    ensures VerdictText(v) != VerdictText(w)
  {
    VerdictTextLength(v);
    VerdictTextLength(w);
  }

  /** The four strings have four different lengths. */
  lemma VerdictTextLength(v: Verdict)
    ensures |VerdictText(v)| == match v
      case FirstStronger => 32
      case SecondStronger => 33
      case Equivalent => 30
      case Unrelated => 58
  {
  }
}
