/**
 * What the implication engine of src/predi/comparator.py promises: the
 * verdict table and its symmetry, the order and meaning of the structural
 * rules, how the rules fail closed, what the lowering builds, and the two
 * corrected rules.
 */
module PrediComparatorProperties {
  import opened Wrappers
  import opened Strings
  import Syntax
  import opened Symbolic
  import opened Verdicts
  import opened PrediComparator
  import PrediParser
  import PrediParserProperties
  import TokenizerExamples

  // ---------------------------------------------------------------------------
  // Verdicts

  /** Exchanging the two answers exchanges the two "stronger" verdicts and keeps the others. */
  lemma {:induction false} SelectVerdictSwap(forward: bool, backward: bool)
    ensures SelectVerdict(backward, forward) == Swap(SelectVerdict(forward, backward))
  {
  }

  /**
   * Comparing in the other order runs the same stages on the same inputs, so
   * it succeeds exactly when the first order does, and then the two
   * "stronger" verdicts trade places.
   */
  lemma {:induction false} CompareSwap(o: Oracles, rules: Rules, p1: string, p2: string)
    ensures Compare(o, rules, p2, p1).Ok? <==> Compare(o, rules, p1, p2).Ok?
    ensures Compare(o, rules, p1, p2).Ok? ==> Compare(o, rules, p2, p1).value == Swap(Compare(o, rules, p1, p2).value)
  {
    var ok12, s1, s2 := CompareStages(o, rules, p1, p2);
    var ok21, t2, t1 := CompareStages(o, rules, p2, p1);
    if ok12 {
      SelectVerdictSwap(Implies(o, rules, s1, s2).value, Implies(o, rules, s2, s1).value);
    }
  }

  /**
   * `compare` gets through when every stage of both predicates gets through;
   * its verdict then comes from the two implications between the simplified
   * sides, which do not depend on the order of the arguments.
   */
  lemma CompareStages(o: Oracles, rules: Rules, p1: string, p2: string) returns (ok: bool, s1: Expr, s2: Expr)
    ensures ok <==> Compare(o, rules, p1, p2).Ok?
    ensures ok <==> (Side(o, rules, p1).Some? && Side(o, rules, p2).Some? &&
      Implies(o, rules, Side(o, rules, p1).value, Side(o, rules, p2).value).Ok? && Implies(o, rules, Side(o, rules, p2).value, Side(o, rules, p1).value).Ok?)
    ensures ok ==> Side(o, rules, p1) == Some(s1) && Side(o, rules, p2) == Some(s2)
    ensures ok ==> Compare(o, rules, p1, p2).value == SelectVerdict(Implies(o, rules, s1, s2).value, Implies(o, rules, s2, s1).value)
  {
    ok := Compare(o, rules, p1, p2).Ok?;
    if Side(o, rules, p1).Some? && Side(o, rules, p2).Some? {
      s1, s2 := Side(o, rules, p1).value, Side(o, rules, p2).value;
    } else {
      s1, s2 := Sym(""), Sym("");
    }
  }

  /** The simplified expression of one predicate, when no stage raises. */
  function Side(o: Oracles, rules: Rules, p: string): Option<Expr>
  {
    if Front(p).Ok? && Lower(rules, Front(p).value).Ok? then o.simplify(Lower(rules, Front(p).value).value) else None
  }

  /** A predicate compared with itself is equivalent to itself, unless a stage raises. */
  lemma {:induction false} CompareSelf(o: Oracles, rules: Rules, p: string)
    ensures Compare(o, rules, p, p).Ok? ==> Compare(o, rules, p, p).value == Equivalent
  {
    if Compare(o, rules, p, p).Ok? {
      ImpliesReflexive(o, rules, o.simplify(Lower(rules, Front(p).value).value).value);
    }
  }

  /** Identical simplified sides always give "equivalent". */
  lemma {:induction false} IdenticalSidesEquivalent(o: Oracles, rules: Rules, p1: string, p2: string, n1: Syntax.Node, n2: Syntax.Node, x1: Expr, x2: Expr)
    requires Front(p1) == Ok(n1) && Front(p2) == Ok(n2)
    requires Lower(rules, n1) == Ok(x1) && Lower(rules, n2) == Ok(x2)
    requires o.simplify(x1).Some? && o.simplify(x1) == o.simplify(x2)
    ensures Compare(o, rules, p1, p2) == Ok(Equivalent)
  {
    ImpliesReflexive(o, rules, o.simplify(x1).value);
  }

  /** Once every stage gets through, the verdict is the one the two implications between the simplified sides select. */
  lemma {:induction false} CompareOfSides(o: Oracles, rules: Rules, n1: Syntax.Node, n2: Syntax.Node,
                                          x1: Expr, x2: Expr, s1: Expr, s2: Expr, forward: bool, backward: bool)
    requires Lower(rules, n1) == Ok(x1) && Lower(rules, n2) == Ok(x2)
    requires o.simplify(x1) == Some(s1) && o.simplify(x2) == Some(s2)
    requires Implies(o, rules, s1, s2) == Ok(forward) && Implies(o, rules, s2, s1) == Ok(backward)
    ensures CompareTrees(o, rules, n1, n2) == Ok(SelectVerdict(forward, backward))
  {
  }

  // ---------------------------------------------------------------------------
  // The first two rules

  /** Every expression implies itself. */
  lemma {:induction false} ImpliesReflexive(o: Oracles, rules: Rules, e: Expr)
    ensures Implies(o, rules, e, e) == Ok(true)
  {
  }

  /**
   * When the zero-difference test does not succeed (it answers false or it
   * raises), the structural rules decide.
   */
  lemma {:induction false} ZeroDifferenceFallsThrough(o: Oracles, rules: Rules, e1: Expr, e2: Expr)
    requires e1 != e2 && (o.zeroDifference(e1, e2) == Some(false) || o.zeroDifference(e1, e2) == None)
    ensures Implies(o, rules, e1, e2) == Dispatch(o, rules, e1, e2)
  {
  }

  // ---------------------------------------------------------------------------
  // Lists of operands

  /** The pairwise check holds iff every pair holds; it is false iff a pair is false and all pairs before it hold. */
  lemma {:induction false} AllPairsMeaning(o: Oracles, rules: Rules, xs: seq<Expr>, ys: seq<Expr>)
    requires |xs| == |ys|
    ensures AllPairs(o, rules, xs, ys) == Ok(true) <==> forall i | 0 <= i < |xs| :: Implies(o, rules, xs[i], ys[i]) == Ok(true)
    ensures AllPairs(o, rules, xs, ys) == Ok(false) <==>
      exists i | 0 <= i < |xs| :: Implies(o, rules, xs[i], ys[i]) == Ok(false) &&
        forall j | 0 <= j < i :: Implies(o, rules, xs[j], ys[j]) == Ok(true)
  {
    AllPairsTrue(o, rules, xs, ys);
    if AllPairs(o, rules, xs, ys) == Ok(false) {
      var i := AllPairsFalseAt(o, rules, xs, ys);
      assert Implies(o, rules, xs[i], ys[i]) == Ok(false);
    }
    forall i | 0 <= i < |xs| && Implies(o, rules, xs[i], ys[i]) == Ok(false) &&
        (forall j | 0 <= j < i :: Implies(o, rules, xs[j], ys[j]) == Ok(true))
      ensures AllPairs(o, rules, xs, ys) == Ok(false)
    {
      AllPairsFalseFrom(o, rules, xs, ys, i);
    }
  }

  /** Pair `i` is false and every pair before it holds. */
  predicate FirstFalsePair(o: Oracles, rules: Rules, xs: seq<Expr>, ys: seq<Expr>, i: nat)
    requires |xs| == |ys|
  {
    i < |xs| && Implies(o, rules, xs[i], ys[i]) == Ok(false) &&
    forall j | 0 <= j < i :: Implies(o, rules, xs[j], ys[j]) == Ok(true)
  }

  lemma {:induction false} AllPairsTrue(o: Oracles, rules: Rules, xs: seq<Expr>, ys: seq<Expr>)
    requires |xs| == |ys|
    ensures AllPairs(o, rules, xs, ys) == Ok(true) <==> forall i | 0 <= i < |xs| :: Implies(o, rules, xs[i], ys[i]) == Ok(true)
    decreases |xs|
  {
    if xs != [] {
      AllPairsTrue(o, rules, xs[1..], ys[1..]);
      AllPairsStep(o, rules, xs, ys);
      assert forall i | 1 <= i < |xs| :: xs[i] == xs[1..][i - 1] && ys[i] == ys[1..][i - 1];
    }
  }

  lemma AllPairsStep(o: Oracles, rules: Rules, xs: seq<Expr>, ys: seq<Expr>)
    requires |xs| == |ys| && xs != []
    ensures AllPairs(o, rules, xs, ys) == Ok(true) <==>
      Implies(o, rules, xs[0], ys[0]) == Ok(true) && AllPairs(o, rules, xs[1..], ys[1..]) == Ok(true)
  {
  }

  /** A false pairwise check has a first false pair. */
  lemma {:induction false} AllPairsFalseAt(o: Oracles, rules: Rules, xs: seq<Expr>, ys: seq<Expr>) returns (i: nat)
    requires |xs| == |ys| && AllPairs(o, rules, xs, ys) == Ok(false)
    ensures FirstFalsePair(o, rules, xs, ys, i)
    decreases |xs|
  {
    if Implies(o, rules, xs[0], ys[0]) == Ok(false) {
      i := 0;
    } else {
      var k := AllPairsFalseAt(o, rules, xs[1..], ys[1..]);
      i := k + 1;
      assert Implies(o, rules, xs[i], ys[i]) == Ok(false) by {
        assert xs[i] == xs[1..][k] && ys[i] == ys[1..][k];
      }
      forall j | 0 <= j < i ensures Implies(o, rules, xs[j], ys[j]) == Ok(true) {
        if j > 0 {
          assert xs[j] == xs[1..][j - 1] && ys[j] == ys[1..][j - 1];
        }
      }
    }
  }

  /** A first false pair makes the pairwise check false. */
  lemma {:induction false} AllPairsFalseFrom(o: Oracles, rules: Rules, xs: seq<Expr>, ys: seq<Expr>, i: nat)
    requires |xs| == |ys|
    ensures FirstFalsePair(o, rules, xs, ys, i) ==> AllPairs(o, rules, xs, ys) == Ok(false)
    decreases i
  {
    if i > 0 && FirstFalsePair(o, rules, xs, ys, i) {
      assert Implies(o, rules, xs[0], ys[0]) == Ok(true);
      forall j | 0 <= j < i - 1 ensures Implies(o, rules, xs[1..][j], ys[1..][j]) == Ok(true) {
        assert xs[1..][j] == xs[j + 1] && ys[1..][j] == ys[j + 1];
      }
      assert xs[1..][i - 1] == xs[i] && ys[1..][i - 1] == ys[i];
      AllPairsFalseFrom(o, rules, xs[1..], ys[1..], i - 1);
    }
  }

  /** The list `[_implies(e1, y) for y in ys]` is computed in full unless one check raises. */
  lemma {:induction false} EachRightMeaning(o: Oracles, rules: Rules, e1: Expr, ys: seq<Expr>)
    ensures EachRight(o, rules, e1, ys).Ok? <==> forall i | 0 <= i < |ys| :: Implies(o, rules, e1, ys[i]).Ok?
    ensures EachRight(o, rules, e1, ys).Ok? ==> (|EachRight(o, rules, e1, ys).value| == |ys| &&
      forall i | 0 <= i < |ys| :: EachRight(o, rules, e1, ys).value[i] == Implies(o, rules, e1, ys[i]).value)
    decreases |ys|
  {
    if ys != [] {
      EachRightMeaning(o, rules, e1, ys[1..]);
      EachRightStep(o, rules, e1, ys);
      assert forall i | 1 <= i < |ys| :: ys[i] == ys[1..][i - 1];
    }
  }

  lemma EachRightStep(o: Oracles, rules: Rules, e1: Expr, ys: seq<Expr>)
    requires ys != []
    ensures EachRight(o, rules, e1, ys).Ok? <==> Implies(o, rules, e1, ys[0]).Ok? && EachRight(o, rules, e1, ys[1..]).Ok?
    ensures EachRight(o, rules, e1, ys).Ok? ==>
      EachRight(o, rules, e1, ys).value == [Implies(o, rules, e1, ys[0]).value] + EachRight(o, rules, e1, ys[1..]).value
  {
  }

  /** The list `[_implies(x, e2) for x in xs]` is computed in full unless one check raises. */
  lemma {:induction false} EachLeftMeaning(o: Oracles, rules: Rules, xs: seq<Expr>, e2: Expr)
    ensures EachLeft(o, rules, xs, e2).Ok? <==> forall i | 0 <= i < |xs| :: Implies(o, rules, xs[i], e2).Ok?
    ensures EachLeft(o, rules, xs, e2).Ok? ==> (|EachLeft(o, rules, xs, e2).value| == |xs| &&
      forall i | 0 <= i < |xs| :: EachLeft(o, rules, xs, e2).value[i] == Implies(o, rules, xs[i], e2).value)
    decreases |xs|
  {
    if xs != [] {
      EachLeftMeaning(o, rules, xs[1..], e2);
      EachLeftStep(o, rules, xs, e2);
      assert forall i | 1 <= i < |xs| :: xs[i] == xs[1..][i - 1];
    }
  }

  lemma EachLeftStep(o: Oracles, rules: Rules, xs: seq<Expr>, e2: Expr)
    requires xs != []
    ensures EachLeft(o, rules, xs, e2).Ok? <==> Implies(o, rules, xs[0], e2).Ok? && EachLeft(o, rules, xs[1..], e2).Ok?
    ensures EachLeft(o, rules, xs, e2).Ok? ==>
      EachLeft(o, rules, xs, e2).value == [Implies(o, rules, xs[0], e2).value] + EachLeft(o, rules, xs[1..], e2).value
  {
  }

  // ---------------------------------------------------------------------------
  // The structural rules

  /**
   * Two `And`s of equal length are compared operand by operand, in the order
   * given, before any one-sided rule.
   */
  lemma {:induction false} PairwiseAnd(o: Oracles, rules: Rules, xs: seq<Expr>, ys: seq<Expr>)
    requires |xs| == |ys| && xs != ys && o.zeroDifference(And(xs), And(ys)) != Some(true)
    ensures Implies(o, rules, And(xs), And(ys)) == AllPairs(o, rules, xs, ys)
    ensures Implies(o, rules, And(xs), And(ys)) == Ok(true) <==> forall i | 0 <= i < |xs| :: Implies(o, rules, xs[i], ys[i]) == Ok(true)
  {
    AllPairsMeaning(o, rules, xs, ys);
  }

  /** Two `Or`s of equal length are compared operand by operand, in the order given. */
  lemma {:induction false} PairwiseOr(o: Oracles, rules: Rules, xs: seq<Expr>, ys: seq<Expr>)
    requires |xs| == |ys| && xs != ys && o.zeroDifference(Or(xs), Or(ys)) != Some(true)
    ensures Implies(o, rules, Or(xs), Or(ys)) == AllPairs(o, rules, xs, ys)
    ensures Implies(o, rules, Or(xs), Or(ys)) == Ok(true) <==> forall i | 0 <= i < |xs| :: Implies(o, rules, xs[i], ys[i]) == Ok(true)
  {
    AllPairsMeaning(o, rules, xs, ys);
  }

  /** No permutation is tried: `a && b` does not imply `b && a` unless the zero-difference test says so. */
  lemma {:induction false} OperandOrderMatters(o: Oracles, rules: Rules)
    requires o.zeroDifference(And([Sym("a"), Sym("b")]), And([Sym("b"), Sym("a")])) != Some(true)
    requires o.zeroDifference(Sym("a"), Sym("b")) != Some(true)
    ensures Implies(o, rules, And([Sym("a"), Sym("b")]), And([Sym("b"), Sym("a")])) == Ok(false)
  {
    var xs, ys := [Sym("a"), Sym("b")], [Sym("b"), Sym("a")];
    SymbolRule(o, rules, "a", "b");
    assert AllPairs(o, rules, xs, ys) == Ok(false);
    PairwiseAnd(o, rules, xs, ys);
  }

  /** Right `And` (no earlier rule firing): every operand must be implied, and all are checked. */
  lemma {:induction false} RightAnd(o: Oracles, rules: Rules, e1: Expr, ys: seq<Expr>)
    requires e1 != And(ys) && o.zeroDifference(e1, And(ys)) != Some(true)
    requires !(e1.And? && |e1.args| == |ys|)
    ensures Implies(o, rules, e1, And(ys)).Err? <==> exists i | 0 <= i < |ys| :: Implies(o, rules, e1, ys[i]).Err?
    ensures Implies(o, rules, e1, And(ys)) == Ok(true) <==> forall i | 0 <= i < |ys| :: Implies(o, rules, e1, ys[i]) == Ok(true)
  {
    EachRightMeaning(o, rules, e1, ys);
    assert Implies(o, rules, e1, And(ys)) == AllOf(EachRight(o, rules, e1, ys));
  }

  /** Left `And` (no earlier rule firing): one implying operand suffices, but every operand is checked. */
  lemma {:induction false} LeftAnd(o: Oracles, rules: Rules, xs: seq<Expr>, e2: Expr)
    requires And(xs) != e2 && o.zeroDifference(And(xs), e2) != Some(true)
    requires !e2.And?
    ensures Implies(o, rules, And(xs), e2).Err? <==> exists i | 0 <= i < |xs| :: Implies(o, rules, xs[i], e2).Err?
    ensures Implies(o, rules, And(xs), e2) == Ok(true) <==>
      (forall i | 0 <= i < |xs| :: Implies(o, rules, xs[i], e2).Ok?) && exists i | 0 <= i < |xs| :: Implies(o, rules, xs[i], e2) == Ok(true)
  {
    EachLeftMeaning(o, rules, xs, e2);
    assert Implies(o, rules, And(xs), e2) == AnyOf(EachLeft(o, rules, xs, e2));
  }

  /** Right `Or` (no earlier rule firing): one implied operand suffices, but every operand is checked. */
  lemma {:induction false} RightOr(o: Oracles, rules: Rules, e1: Expr, ys: seq<Expr>)
    requires e1 != Or(ys) && o.zeroDifference(e1, Or(ys)) != Some(true)
    requires !e1.And? && !(e1.Or? && |e1.args| == |ys|) && NotOrIdiom(e1, Or(ys)).None?
    ensures Implies(o, rules, e1, Or(ys)).Err? <==> exists i | 0 <= i < |ys| :: Implies(o, rules, e1, ys[i]).Err?
    ensures Implies(o, rules, e1, Or(ys)) == Ok(true) <==>
      (forall i | 0 <= i < |ys| :: Implies(o, rules, e1, ys[i]).Ok?) && exists i | 0 <= i < |ys| :: Implies(o, rules, e1, ys[i]) == Ok(true)
  {
    EachRightMeaning(o, rules, e1, ys);
    assert Implies(o, rules, e1, Or(ys)) == AnyOf(EachRight(o, rules, e1, ys));
  }

  /** Left `Or` (no earlier rule firing): every operand must imply, and all are checked. */
  lemma {:induction false} LeftOr(o: Oracles, rules: Rules, xs: seq<Expr>, e2: Expr)
    requires Or(xs) != e2 && o.zeroDifference(Or(xs), e2) != Some(true)
    requires !e2.And? && !e2.Or? && NotOrIdiom(Or(xs), e2).None?
    ensures Implies(o, rules, Or(xs), e2).Err? <==> exists i | 0 <= i < |xs| :: Implies(o, rules, xs[i], e2).Err?
    ensures Implies(o, rules, Or(xs), e2) == Ok(true) <==> forall i | 0 <= i < |xs| :: Implies(o, rules, xs[i], e2) == Ok(true)
  {
    EachLeftMeaning(o, rules, xs, e2);
    assert Implies(o, rules, Or(xs), e2) == AllOf(EachLeft(o, rules, xs, e2));
  }

  /**
   * Two function applications: true iff the heads and the argument counts
   * agree and every argument implies its partner (or the first two rules
   * already hold).
   */
  lemma {:induction false} FunctionRule(o: Oracles, rules: Rules, f: string, xs: seq<Expr>, g: string, ys: seq<Expr>)
    requires Func(f, xs) != Func(g, ys) && o.zeroDifference(Func(f, xs), Func(g, ys)) != Some(true)
    ensures Implies(o, rules, Func(f, xs), Func(g, ys)) == Ok(true) <==>
      f == g && |xs| == |ys| && forall i | 0 <= i < |xs| :: Implies(o, rules, xs[i], ys[i]) == Ok(true)
    ensures f != g || |xs| != |ys| ==> Implies(o, rules, Func(f, xs), Func(g, ys)) == Ok(false)
  {
    if f == g && |xs| == |ys| {
      AllPairsMeaning(o, rules, xs, ys);
    }
  }

  /** Two bare symbols: true iff they are the same symbol or the zero-difference test says so. */
  lemma {:induction false} SymbolRule(o: Oracles, rules: Rules, a: string, b: string)
    ensures Implies(o, rules, Sym(a), Sym(b)) == Ok(a == b || o.zeroDifference(Sym(a), Sym(b)) == Some(true))
  {
  }

  // ---------------------------------------------------------------------------
  // Failing closed

  /** Expressions with no connective, comparison or name structure: numbers, constants and arithmetic. */
  predicate Arithmetic(e: Expr)
  {
    e.Num? || e.Dec? || e.BoolConst? || e.Add? || e.Mul? || e.Pow?
  }

  /**
   * No rule matches an arithmetic left side unless the right side is an
   * `And` or an `Or`: only identity and a zero difference can make it true.
   */
  lemma {:induction false} NoRuleGivesFalse(o: Oracles, rules: Rules, e1: Expr, e2: Expr)
    requires Arithmetic(e1) && !e2.And? && !e2.Or?
    ensures Implies(o, rules, e1, e2) == Ok(e1 == e2 || o.zeroDifference(e1, e2) == Some(true))
  {
  }

  /** Two comparisons over atoms of the same kind go to satisfiability; when that raises, the answer is false. */
  lemma {:induction false} SatisfiabilityRaisesGivesFalse(o: Oracles, rules: Rules, e1: Expr, e2: Expr)
    requires e1.Rel? && e2.Rel? && (e1.op == Eq) == (e2.op == Eq)
    requires IsAtom(e1.lhs) && IsAtom(e1.rhs) && IsAtom(e2.lhs) && IsAtom(e2.rhs)
    requires e1 != e2 && o.zeroDifference(e1, e2) != Some(true) && o.unsatisfiable(e1, e2).None?
    ensures Implies(o, rules, e1, e2) == Ok(false)
  {
  }

  /** An equality against another comparison goes to z3, and a translation error escapes `_implies`. */
  lemma {:induction false} TranslationErrorEscapes(o: Oracles, rules: Rules, e1: Expr, e2: Expr)
    requires e1.Rel? && e2.Rel? && (e1.op == Eq) != (e2.op == Eq)
    requires e1 != e2 && o.zeroDifference(e1, e2) != Some(true)
    ensures ToZ3(e1).Err? ==> Implies(o, rules, e1, e2) == Err(ToZ3(e1).error)
    ensures ToZ3(e1).Ok? && ToZ3(e2).Err? ==> Implies(o, rules, e1, e2) == Err(ToZ3(e2).error)
    ensures ToZ3(e1).Ok? && ToZ3(e2).Ok? ==>
      Implies(o, rules, e1, e2) == Ok(o.z3Check(Conj([ToZ3(e1).value, Negate(ToZ3(e2).value)])) != Sat)
  {
  }

  /** `x == 1` against `x > 0` raises: `sympy_to_z3` has no case for a number. */
  lemma {:induction false} EqualityAgainstBoundRaises(o: Oracles, rules: Rules)
    requires o.zeroDifference(Rel(Eq, Sym("x"), Num(1)), Rel(Gt, Sym("x"), Num(0))) != Some(true)
    ensures Implies(o, rules, Rel(Eq, Sym("x"), Num(1)), Rel(Gt, Sym("x"), Num(0))) == Err(Unsupported(Num(1)))
  {
    TranslationErrorEscapes(o, rules, Rel(Eq, Sym("x"), Num(1)), Rel(Gt, Sym("x"), Num(0)));
  }

  // ---------------------------------------------------------------------------
  // Lowering

  /** A run of digits holds no `.`. */
  lemma {:induction false} DigitsHaveNoDot(v: string)
    requires AllChars(v, IsDigit)
    ensures !Occurs(".", v)
  {
    forall i: nat | At(v, i, ".") ensures false {
      AtFirst(v, i, ".");
    }
  }

  /** The decimal text of a natural number lowers to that integer. */
  lemma {:induction false} LowerInteger(rules: Rules, n: nat)
    ensures Lower(rules, Syntax.Leaf(NatToString(n))) == Ok(Num(n))
  {
    DigitsHaveNoDot(NatToString(n));
  }

  /** A leaf that is neither a float nor an integer lowers to a symbol with no `.` left in its name. */
  lemma {:induction false} LowerSymbolLeaf(rules: Rules, v: string)
    requires !FloatText(v) && !(|v| > 0 && AllChars(v, IsDigit))
    ensures Lower(rules, Syntax.Leaf(v)) == Ok(Sym(ReplaceAll(v, ".", "_")))
    ensures !Occurs(".", ReplaceAll(v, ".", "_"))
  {
    ReplaceAllRemoves(v, ".", "_");
  }

  /**
   * A dotted name such as `msg.sender`, two names joined by a `.`, lowers to
   * the symbol with the `.` replaced by `_` (`msg_sender`).
   */
  lemma {:induction false} LowerDottedName(rules: Rules, a: string, b: string)
    requires a != [] && !IsDigit(a[0]) && a[0] != '+' && a[0] != '-'
    requires !Occurs(".", a) && !Occurs(".", b)
    ensures Lower(rules, Syntax.Leaf(a + "." + b)) == Ok(Sym(a + "_" + b))
  {
    var v := a + "." + b;
    assert v[0] == a[0];
    assert v[0] != '.' by {
      assert !At(a, 0, ".");
      assert a[0..1] == [a[0]];
    }
    assert !FloatText(v) by {
      assert RunEnd(v, 0, IsDigit) == 0;
    }
    assert !AllChars(v, IsDigit);
    ReplaceAllConcat(a + ".", b, ".", "_");
    ReplaceAllConcat(a, ".", ".", "_");
    ReplaceAllAbsent(a, ".", "_");
    ReplaceAllAbsent(b, ".", "_");
    assert ReplaceAll(".", ".", "_") == "_" by {
      assert "."[..1] == "." && "."[1..] == [];
    }
    assert Occurs(".", v) by {
      assert At(v, |a|, ".");
    }
  }

  /** Lowering a list of children lowers its first one and then the rest. */
  lemma {:induction false} LowerAllCons(rules: Rules, b: Syntax.Node, bs: seq<Syntax.Node>, y: Expr, ys: seq<Expr>)
    requires Lower(rules, b) == Ok(y) && LowerAll(rules, bs) == Ok(ys)
    ensures LowerAll(rules, [b] + bs) == Ok([y] + ys)
  {
    assert ([b] + bs)[1..] == bs;
    assert ([b] + bs)[0] == b;
  }

  /** Lowering two children. */
  lemma {:induction false} LowerPair(rules: Rules, a: Syntax.Node, b: Syntax.Node, x: Expr, y: Expr)
    requires Lower(rules, a) == Ok(x) && Lower(rules, b) == Ok(y)
    ensures LowerAll(rules, [a, b]) == Ok([x, y])
  {
    var none: seq<Syntax.Node> := [];
    assert LowerAll(rules, none) == Ok([]);
    LowerAllCons(rules, b, none, y, []);
    assert [b] + none == [b] && [y] + [] == [y];
    LowerAllCons(rules, a, [b], x, [y]);
    assert [a] + [b] == [a, b] && [x] + [y] == [x, y];
  }

  /** `a && b`, `a || b` and the comparisons lower to the sympy class of their operator over the two lowered operands. */
  lemma {:induction false} LowerBinaryConnective(rules: Rules, v: string, a: Syntax.Node, b: Syntax.Node, x: Expr, y: Expr)
    requires IsConnective(v) && v != "!"
    requires Lower(rules, a) == Ok(x) && Lower(rules, b) == Ok(y)
    ensures v == "&&" ==> Lower(rules, Syntax.Node(v, [a, b])) == Ok(And([x, y]))
    ensures v == "||" ==> Lower(rules, Syntax.Node(v, [a, b])) == Ok(Or([x, y]))
    ensures v != "&&" && v != "||" ==> Lower(rules, Syntax.Node(v, [a, b])) == Ok(Rel(RelOpOf(v), x, y))
  {
    LowerPair(rules, a, b, x, y);
  }

  /** `a - b` lowers to `a + (-1)*b`, whose value is the difference. */
  lemma {:induction false} LowerSubtraction(rules: Rules, a: Syntax.Node, b: Syntax.Node, x: Expr, y: Expr)
    requires Lower(rules, a) == Ok(x) && Lower(rules, b) == Ok(y)
    ensures Lower(rules, Syntax.Node("-", [a, b])) == Ok(Add([x, Mul([Num(-1), y])]))
    ensures forall env: string -> int | Value(env, x).Some? && Value(env, y).Some? ::
      Value(env, Lower(rules, Syntax.Node("-", [a, b])).value) == Some(Value(env, x).value - Value(env, y).value)
  {
    LowerPair(rules, a, b, x, y);
    forall env: string -> int | Value(env, x).Some? && Value(env, y).Some?
      ensures Value(env, Add([x, Mul([Num(-1), y])])) == Some(Value(env, x).value - Value(env, y).value)
    {
      MinusMeaning(env, [x, y]);
    }
  }

  /** `a / b` lowers to `b^-1 * a`. */
  lemma {:induction false} LowerDivision(rules: Rules, a: Syntax.Node, b: Syntax.Node, x: Expr, y: Expr)
    requires Lower(rules, a) == Ok(x) && Lower(rules, b) == Ok(y)
    ensures Lower(rules, Syntax.Node("/", [a, b])) == Ok(Mul([Pow(y, Num(-1)), x]))
  {
    LowerPair(rules, a, b, x, y);
  }

  /** A value holding `()` lowers to an application of the function named by the value without its `()`s. */
  lemma {:induction false} LowerCall(rules: Rules, v: string, cs: seq<Syntax.Node>, xs: seq<Expr>)
    requires Occurs("()", v) && cs != [] && LowerAll(rules, cs) == Ok(xs)
    ensures Lower(rules, Syntax.Node(v, cs)) == Ok(Func(ReplaceAll(v, "()", ""), xs))
  {
    assert !IsConnective(v) && v != "/" && v != "+" && v != "-" && v != "*" by {
      var i: nat :| i <= |v| && At(v, i, "()");
      AtFirst(v, i, "()");
      assert '(' in v;
    }
  }

  /**
   * Any other internal node, an index `used[]` for one, lowers to a symbol of
   * its value: the children are lowered (and can raise) but then dropped.
   */
  lemma {:induction false} LowerCollapses(rules: Rules, v: string, cs: seq<Syntax.Node>)
    requires !IsConnective(v) && v != "/" && v != "+" && v != "-" && v != "*" && !Occurs("()", v)
    requires cs != [] && LowerAll(rules, cs).Ok?
    ensures Lower(rules, Syntax.Node(v, cs)) == Ok(Sym(ReplaceAll(v, ".", "_")))
  {
  }

  // ---------------------------------------------------------------------------
  // Finding: the lowering of unary minus

  /** The sum of the operands of a two-operand sum. */
  lemma {:induction false} SumPair(env: string -> int, x: Expr, y: Expr)
    requires Value(env, x).Some? && Value(env, y).Some?
    ensures Sum(env, [x, y]) == Some(Value(env, x).value + Value(env, y).value)
  {
    assert [x, y][1..] == [y] && [y][1..] == [];
    assert [x, y][0] == x && [y][0] == y;
    assert Sum(env, [y]) == Some(Value(env, y).value + 0);
  }

  /** `-1` times an operand. */
  lemma {:induction false} NegationValue(env: string -> int, x: Expr)
    requires Value(env, x).Some?
    ensures Value(env, Mul([Num(-1), x])) == Some(-Value(env, x).value)
  {
    var xs := [Num(-1), x];
    assert xs[1..] == [x] && [x][1..] == [];
    assert xs[0] == Num(-1) && [x][0] == x;
    assert Product(env, [x]) == Some(Value(env, x).value * 1);
    assert Product(env, xs) == Some(-1 * Value(env, x).value);
  }

  /** The `-` the lowering uses means negation of one operand and the difference of two. */
  lemma {:induction false} MinusMeaning(env: string -> int, args: seq<Expr>)
    requires 1 <= |args| <= 2 && forall i | 0 <= i < |args| :: Value(env, args[i]).Some?
    ensures Minus(args).Ok?
    ensures |args| == 1 ==> Value(env, Minus(args).value) == Some(-Value(env, args[0]).value)
    ensures |args| == 2 ==> Value(env, Minus(args).value) == Some(Value(env, args[0]).value - Value(env, args[1]).value)
  {
    NegationValue(env, args[|args| - 1]);
    if |args| == 2 {
      SumPair(env, args[0], Mul([Num(-1), args[1]]));
    }
  }

  /**
   * As written, `-1` cannot be compared: the parser builds `-` over the single
   * leaf `1`, and the `-` branch reads a second operand that is not there.
   * The corrected lowering gives `(-1)*1`.
   */
  lemma {:induction false} UnaryMinusAsWritten(ts: seq<Syntax.Token>)
    requires ts == [Syntax.Token("-", Syntax.Minus), Syntax.Token("1", Syntax.Integer)]
    ensures PrediParser.ParseTokens(ts) == Ok(Syntax.Parsed(Syntax.Node("-", [Syntax.Leaf("1")]), 2))
    ensures Lower(AsWritten, Syntax.Node("-", [Syntax.Leaf("1")])) == Err(MissingOperand("-"))
    ensures Lower(Corrected, Syntax.Node("-", [Syntax.Leaf("1")])) == Ok(Mul([Num(-1), Num(1)]))
  {
    PrediParserProperties.UnaryMinus(ts);
    OneLowered(AsWritten);
    OneLowered(Corrected);
  }

  /**
   * The corrected lowering accepts every tree the program's lowering accepts,
   * and builds the same expression from it: the correction only adds the
   * unary minus.
   */
  lemma {:induction false} CorrectedAgrees(n: Syntax.Node)
    requires Lower(AsWritten, n).Ok?
    ensures Lower(Corrected, n) == Lower(AsWritten, n)
    decreases n, 1
  {
    if n.children != [] {
      CorrectedAgreesAll(n.children);
    }
  }

  lemma {:induction false} CorrectedAgreesAll(ns: seq<Syntax.Node>)
    requires LowerAll(AsWritten, ns).Ok?
    ensures LowerAll(Corrected, ns) == LowerAll(AsWritten, ns)
    decreases ns, 0
  {
    if ns != [] {
      CorrectedAgrees(ns[0]);
      CorrectedAgreesAll(ns[1..]);
    }
  }

  /** The single operand `1` lowers to the integer 1. */
  lemma OneLowered(rules: Rules)
    ensures LowerAll(rules, [Syntax.Leaf("1")]) == Ok([Num(1)])
  {
    LowerInteger(rules, 1);
    assert NatToString(1) == "1";
    var none: seq<Syntax.Node> := [];
    assert LowerAll(rules, none) == Ok([]);
    LowerAllCons(rules, Syntax.Leaf("1"), none, Num(1), []);
    assert [Syntax.Leaf("1")] + none == [Syntax.Leaf("1")] && [Num(1)] + [] == [Num(1)];
  }

  /** `-1 ` is tokenized and parsed to the unary `-` over the leaf `1`. */
  lemma MinusOneFront(s: string)
    requires s == "-1 "
    ensures Front(s) == Ok(Syntax.Node("-", [Syntax.Leaf("1")]))
  {
    TokenizerExamples.MinusOne(s);
    UnaryMinusAsWritten([Syntax.Token("-", Syntax.Minus), Syntax.Token("1", Syntax.Integer)]);
  }

  /**
   * So, as written, `compare` raises IndexError on `-1 `, whatever the
   * oracles answer; with the corrected rules the predicate is equivalent to
   * itself, once sympy simplifies it.
   */
  lemma {:induction false} UnaryMinusCompared(o: Oracles, s: string)
    requires s == "-1 "
    ensures Compare(o, AsWritten, s, s) == Err(Lowering(MissingOperand("-")))
    ensures o.simplify(Mul([Num(-1), Num(1)])).Some? ==> Compare(o, Corrected, s, s) == Ok(Equivalent)
  {
    MinusOneFront(s);
    UnaryMinusAsWritten([Syntax.Token("-", Syntax.Minus), Syntax.Token("1", Syntax.Integer)]);
    var x := o.simplify(Mul([Num(-1), Num(1)]));
    if x.Some? {
      ImpliesReflexive(o, Corrected, x.value);
    }
  }

  // ---------------------------------------------------------------------------
  // What the one-sided rules mean

  /** A conjunction is true exactly where every operand is true. */
  lemma {:induction false} TruthAllTrue(env: string -> bool, es: seq<Expr>)
    ensures TruthAll(env, es) == Some(true) <==> forall i | 0 <= i < |es| :: Truth(env, es[i]) == Some(true)
    decreases |es|
  {
    if es != [] {
      TruthAllTrue(env, es[1..]);
      assert forall i | 1 <= i < |es| :: es[i] == es[1..][i - 1];
    }
  }

  /** A disjunction is true exactly where every operand has a truth value and one of them is true. */
  lemma {:induction false} TruthAnyTrue(env: string -> bool, es: seq<Expr>)
    ensures TruthAny(env, es) == Some(true) <==>
      (forall i | 0 <= i < |es| :: Truth(env, es[i]).Some?) && exists i | 0 <= i < |es| :: Truth(env, es[i]) == Some(true)
    decreases |es|
  {
    if es != [] {
      TruthAnyTrue(env, es[1..]);
      TruthAnyDefined(env, es[1..]);
      assert forall i | 1 <= i < |es| :: es[i] == es[1..][i - 1];
      if TruthAny(env, es) == Some(true) && Truth(env, es[0]) != Some(true) {
        var i :| 0 <= i < |es| - 1 && Truth(env, es[1..][i]) == Some(true);
        assert Truth(env, es[i + 1]) == Some(true);
      }
    }
  }

  /** A disjunction has a truth value exactly where all its operands have one. */
  lemma {:induction false} TruthAnyDefined(env: string -> bool, es: seq<Expr>)
    ensures TruthAny(env, es).Some? <==> forall i | 0 <= i < |es| :: Truth(env, es[i]).Some?
    decreases |es|
  {
    if es != [] {
      TruthAnyDefined(env, es[1..]);
      assert forall i | 1 <= i < |es| :: es[i] == es[1..][i - 1];
    }
  }

  /** Right `And`: an expression entails a conjunction exactly when it entails every operand. */
  lemma {:induction false} RightAndMeaning(e1: Expr, ys: seq<Expr>)
    ensures Entails(e1, And(ys)) <==> forall i | 0 <= i < |ys| :: Entails(e1, ys[i])
  {
    if Entails(e1, And(ys)) {
      forall i | 0 <= i < |ys| ensures Entails(e1, ys[i]) {
        forall env: string -> bool | Truth(env, e1) == Some(true) ensures Truth(env, ys[i]) == Some(true) {
          TruthAllTrue(env, ys);
          assert Truth(env, And(ys)) == Some(true);
        }
      }
    }
    if forall i | 0 <= i < |ys| :: Entails(e1, ys[i]) {
      forall env: string -> bool | Truth(env, e1) == Some(true) ensures Truth(env, And(ys)) == Some(true) {
        TruthAllTrue(env, ys);
        forall i | 0 <= i < |ys| ensures Truth(env, ys[i]) == Some(true) {
          assert Entails(e1, ys[i]);
        }
      }
    }
  }

  /**
   * Left `And`: one operand that entails `e2` makes the whole conjunction
   * entail it. The rule is sound; it is not complete, since a conjunction can
   * entail what none of its operands entails alone.
   */
  lemma {:induction false} LeftAndSound(xs: seq<Expr>, e2: Expr, i: nat)
    requires i < |xs| && Entails(xs[i], e2)
    ensures Entails(And(xs), e2)
  {
    forall env: string -> bool | Truth(env, And(xs)) == Some(true) ensures Truth(env, e2) == Some(true) {
      TruthAllTrue(env, xs);
      assert Truth(env, xs[i]) == Some(true);
    }
  }

  /** Right `Or`: entailing one of several boolean operands entails their disjunction. */
  lemma {:induction false} RightOrSound(e1: Expr, ys: seq<Expr>, i: nat)
    requires i < |ys| && Entails(e1, ys[i])
    requires forall j | 0 <= j < |ys| :: Boolean(ys[j])
    ensures Entails(e1, Or(ys))
  {
    forall env: string -> bool | Truth(env, e1) == Some(true) ensures Truth(env, Or(ys)) == Some(true) {
      TruthAnyTrue(env, ys);
      assert Truth(env, ys[i]) == Some(true);
    }
  }

  /** Left `Or`: a disjunction of boolean operands entails `e2` exactly when every operand does. */
  lemma {:induction false} LeftOrMeaning(xs: seq<Expr>, e2: Expr)
    requires forall j | 0 <= j < |xs| :: Boolean(xs[j])
    ensures Entails(Or(xs), e2) <==> forall i | 0 <= i < |xs| :: Entails(xs[i], e2)
  {
    if Entails(Or(xs), e2) {
      forall i | 0 <= i < |xs| ensures Entails(xs[i], e2) {
        forall env: string -> bool | Truth(env, xs[i]) == Some(true) ensures Truth(env, e2) == Some(true) {
          TruthAnyTrue(env, xs);
          assert forall j | 0 <= j < |xs| :: Truth(env, xs[j]).Some?;
          assert Truth(env, Or(xs)) == Some(true);
        }
      }
    }
    if forall i | 0 <= i < |xs| :: Entails(xs[i], e2) {
      forall env: string -> bool | Truth(env, Or(xs)) == Some(true) ensures Truth(env, e2) == Some(true) {
        TruthAnyTrue(env, xs);
        var i :| 0 <= i < |xs| && Truth(env, xs[i]) == Some(true);
        assert Entails(xs[i], e2);
      }
    }
  }

  // ---------------------------------------------------------------------------
  // Finding: the direction of the negation and truth rules

  /** `x == false` (either way round) is true exactly where `x` is false. */
  lemma {:induction false} FalseEqualityMeansFalse(eq: Expr, x: Expr)
    requires IsEquality(eq) && ((IsFalse(eq.rhs) && x == eq.lhs) || (IsFalse(eq.lhs) && x == eq.rhs))
    ensures forall env: string -> bool :: Truth(env, eq) == Some(true) <==> Truth(env, x) == Some(false)
  {
  }

  /** `x == true` (either way round) is true exactly where `x` is true. */
  lemma {:induction false} TrueEqualityMeansTrue(eq: Expr, x: Expr)
    requires IsEquality(eq) && ((IsTrue(eq.rhs) && x == eq.lhs) || (IsTrue(eq.lhs) && x == eq.rhs))
    ensures forall env: string -> bool :: Truth(env, eq) == Some(true) <==> Truth(env, x) == Some(true)
  {
  }

  /** Between two boolean expressions, entailment is entailment of the negations the other way round. */
  lemma {:induction false} Contrapositive(x: Expr, y: Expr)
    requires Boolean(x) && Boolean(y)
    ensures Entails(x, y) <==> Entails(Not(y), Not(x))
  {
    if Entails(x, y) {
      forall env: string -> bool | Truth(env, Not(y)) == Some(true) ensures Truth(env, Not(x)) == Some(true) {
        assert Truth(env, x).Some?;
      }
    }
    if Entails(Not(y), Not(x)) {
      forall env: string -> bool | Truth(env, x) == Some(true) ensures Truth(env, y) == Some(true) {
        assert Truth(env, y).Some?;
        assert Truth(env, Not(x)) == Some(false);
      }
    }
  }

  /**
   * The corrected negation and truth rules ask an equivalent question: for
   * boolean operands, the sub-question holds exactly when the implication
   * it replaces holds.
   */
  lemma {:induction false} NegationIdiomSound(e1: Expr, e2: Expr)
    requires NegationIdiom(e1, e2).Some?
    requires Boolean(NegationIdiom(e1, e2).value.0) && Boolean(NegationIdiom(e1, e2).value.1)
    ensures Entails(NegationIdiom(e1, e2).value.0, NegationIdiom(e1, e2).value.1) <==> Entails(e1, e2)
  {
    var q := NegationIdiom(e1, e2).value;
    if e1.Not? && IsEquality(e2) && (IsFalse(e2.rhs) || IsFalse(e2.lhs)) {
      FalseEqualityMeansFalse(e2, q.0);
      Contrapositive(q.0, q.1);
    } else if e2.Not? && IsEquality(e1) && (IsFalse(e1.rhs) || IsFalse(e1.lhs)) {
      FalseEqualityMeansFalse(e1, q.1);
      Contrapositive(q.0, q.1);
    } else if e1.Sym? && IsEquality(e2) && (IsTrue(e2.rhs) || IsTrue(e2.lhs)) {
      TrueEqualityMeansTrue(e2, q.1);
    } else {
      TrueEqualityMeansTrue(e1, q.0);
    }
  }

  /** A symbol implies every disjunction it is the first operand of, both in meaning and by the rules. */
  lemma {:induction false} SymbolImpliesDisjunction(o: Oracles, rules: Rules, a: string, c: string)
    ensures Implies(o, rules, Sym(a), Or([Sym(a), Sym(c)])) == Ok(true)
    ensures Entails(Sym(a), Or([Sym(a), Sym(c)]))
  {
    var ys := [Sym(a), Sym(c)];
    if o.zeroDifference(Sym(a), Or(ys)) != Some(true) {
      SymbolRule(o, rules, a, c);
      assert Implies(o, rules, Sym(a), ys[0]) == Ok(true);
      RightOr(o, rules, Sym(a), ys);
    }
    assert ys[1..] == [Sym(c)] && ys[1..][1..] == [];
    assert ys[0] == Sym(a) && ys[1..][0] == Sym(c);
    forall env: string -> bool | Truth(env, Sym(a)) == Some(true) ensures Truth(env, Or(ys)) == Some(true) {
      assert TruthAny(env, ys[1..][1..]) == Some(false);
      assert Truth(env, Sym(c)).Some?;
      assert TruthAny(env, ys[1..]).Some?;
    }
  }

  /** A name made of letters lowers to the symbol of that name. */
  lemma {:induction false} NameLowered(rules: Rules, v: string)
    requires v != [] && AllChars(v, IsLetter)
    ensures Lower(rules, Syntax.Leaf(v)) == Ok(Sym(v))
  {
    assert !IsDigit(v[0]);
    assert !Occurs(".", v) by {
      forall i: nat | i <= |v| && At(v, i, ".") ensures false {
        AtFirst(v, i, ".");
      }
    }
    assert !FloatText(v) by {
      assert RunEnd(v, 0, IsDigit) == 0;
    }
    LowerSymbolLeaf(rules, v);
    ReplaceAllAbsent(v, ".", "_");
  }

  /** `!a` lowers to `Not(a)` under either rules. */
  lemma NotLowered(rules: Rules)
    ensures Lower(rules, Syntax.Node("!", [Syntax.Leaf("a")])) == Ok(Not(Sym("a")))
  {
    NameLowered(rules, "a");
    var none: seq<Syntax.Node> := [];
    assert LowerAll(rules, none) == Ok([]);
    LowerAllCons(rules, Syntax.Leaf("a"), none, Sym("a"), []);
    assert [Syntax.Leaf("a")] + none == [Syntax.Leaf("a")] && [Sym("a")] + [] == [Sym("a")];
  }

  /** `(s || c) == k` lowers to the equality of the disjunction with the symbol `k`. */
  lemma DisjunctionEqualityLowered(rules: Rules, s: string, c: string, k: string)
    requires s != [] && AllChars(s, IsLetter) && c != [] && AllChars(c, IsLetter) && k != [] && AllChars(k, IsLetter)
    ensures Lower(rules, Syntax.Node("==", [Syntax.Node("||", [Syntax.Leaf(s), Syntax.Leaf(c)]), Syntax.Leaf(k)]))
      == Ok(Rel(Eq, Or([Sym(s), Sym(c)]), Sym(k)))
  {
    NameLowered(rules, s);
    NameLowered(rules, c);
    NameLowered(rules, k);
    LowerBinaryConnective(rules, "||", Syntax.Leaf(s), Syntax.Leaf(c), Sym(s), Sym(c));
    LowerBinaryConnective(rules, "==", Syntax.Node("||", [Syntax.Leaf(s), Syntax.Leaf(c)]), Syntax.Leaf(k), Or([Sym(s), Sym(c)]), Sym(k));
  }

  /**
   * A two-symbol disjunction does not imply its first operand: the left-`Or`
   * rule asks `s => s` and `c => s`, and the second is false.
   */
  lemma {:induction false} DisjunctionNotFirst(o: Oracles, rules: Rules, s: string, c: string)
    requires s != c && s != "true" && c != "false"
    requires o.zeroDifference(Or([Sym(s), Sym(c)]), Sym(s)) != Some(true)
    requires o.zeroDifference(Sym(c), Sym(s)) != Some(true)
    ensures Implies(o, rules, Or([Sym(s), Sym(c)]), Sym(s)) == Ok(false)
    ensures !Entails(Or([Sym(s), Sym(c)]), Sym(s))
  {
    var xs := [Sym(s), Sym(c)];
    ImpliesReflexive(o, rules, Sym(s));
    SymbolRule(o, rules, c, s);
    assert Implies(o, rules, xs[0], Sym(s)) == Ok(true);
    assert Implies(o, rules, xs[1], Sym(s)) == Ok(false);
    LeftOr(o, rules, xs, Sym(s));
    OnlySecondTrue(s, c);
  }

  /**
   * As written, `!a` against `(a || c) == false` asks whether `a` implies
   * `a || c`, so the rules answer true; yet with `c` true and `a` false the
   * left side holds and the right side does not. The corrected rule asks
   * whether `a || c` implies `a`, and answers false.
   */
  lemma {:induction false} NotAgainstFalseAsWritten(o: Oracles)
    ensures NegationIdiomAsWritten(Not(Sym("a")), Rel(Eq, Or([Sym("a"), Sym("c")]), Sym("false")))
      == Some((Sym("a"), Or([Sym("a"), Sym("c")])))
    ensures Implies(o, AsWritten, Not(Sym("a")), Rel(Eq, Or([Sym("a"), Sym("c")]), Sym("false"))) == Ok(true)
    ensures !Entails(Not(Sym("a")), Rel(Eq, Or([Sym("a"), Sym("c")]), Sym("false")))
  {
    NotAgainstFalseIdiom();
    SymbolImpliesDisjunction(o, AsWritten, "a", "c");
    NotAgainstFalseCounter();
  }

  lemma NotAgainstFalseIdiom()
    ensures NegationIdiomAsWritten(Not(Sym("a")), Rel(Eq, Or([Sym("a"), Sym("c")]), Sym("false")))
      == Some((Sym("a"), Or([Sym("a"), Sym("c")])))
  {
  }

  lemma NotAgainstFalseCounter()
    ensures !Entails(Not(Sym("a")), Rel(Eq, Or([Sym("a"), Sym("c")]), Sym("false")))
  {
    OnlySecondTrue("a", "c");
    var env := (n: string) => n == "c";
    assert Truth(env, Not(Sym("a"))) == Some(true);
    assert Truth(env, Rel(Eq, Or([Sym("a"), Sym("c")]), Sym("false"))) == Some(false);
  }

  /** The corrected rule answers `!a => ((a || c) == false)` false, unless the zero-difference test says otherwise. */
  lemma {:induction false} NotAgainstFalseCorrected(o: Oracles)
    requires o.zeroDifference(Not(Sym("a")), Rel(Eq, Or([Sym("a"), Sym("c")]), Sym("false"))) != Some(true)
    requires o.zeroDifference(Or([Sym("a"), Sym("c")]), Sym("a")) != Some(true)
    requires o.zeroDifference(Sym("c"), Sym("a")) != Some(true)
    ensures Implies(o, Corrected, Not(Sym("a")), Rel(Eq, Or([Sym("a"), Sym("c")]), Sym("false"))) == Ok(false)
  {
    var e1, e2 := Not(Sym("a")), Rel(Eq, Or([Sym("a"), Sym("c")]), Sym("false"));
    assert Idiom(Corrected, e1, e2) == Some((Or([Sym("a"), Sym("c")]), Sym("a")));
    assert Implies(o, Corrected, e1, e2) == Implies(o, Corrected, Or([Sym("a"), Sym("c")]), Sym("a"));
    DisjunctionNotFirst(o, Corrected, "a", "c");
  }

  /** Both rules answer `((a || c) == false) => !a` true, and rightly so. */
  lemma {:induction false} FalseAgainstNot(o: Oracles, rules: Rules)
    ensures Implies(o, rules, Rel(Eq, Or([Sym("a"), Sym("c")]), Sym("false")), Not(Sym("a"))) == Ok(true)
    ensures Entails(Rel(Eq, Or([Sym("a"), Sym("c")]), Sym("false")), Not(Sym("a")))
  {
    SymbolImpliesDisjunction(o, rules, "a", "c");
    BooleanDisjunction("a", "c");
    NegationIdiomSound(Rel(Eq, Or([Sym("a"), Sym("c")]), Sym("false")), Not(Sym("a")));
  }

  /** A symbol and a disjunction of two symbols are in the boolean fragment. */
  lemma {:induction false} BooleanDisjunction(s: string, c: string)
    ensures Boolean(Sym(s)) && Boolean(Or([Sym(s), Sym(c)]))
  {
    var ys := [Sym(s), Sym(c)];
    assert ys[1..] == [Sym(c)] && ys[1..][1..] == [];
    forall env: string -> bool ensures Truth(env, Or(ys)).Some? {
      assert TruthAny(env, ys[1..][1..]) == Some(false);
      assert Truth(env, Sym(c)).Some? && Truth(env, Sym(s)).Some?;
      assert TruthAny(env, ys[1..]).Some?;
    }
  }

  /** The verdicts on the parse trees of the two predicates, as written and corrected. */
  lemma {:induction false} NotAgainstFalseTrees(o: Oracles)
    requires o.simplify(Not(Sym("a"))) == Some(Not(Sym("a")))
    requires o.simplify(Rel(Eq, Or([Sym("a"), Sym("c")]), Sym("false"))) == Some(Rel(Eq, Or([Sym("a"), Sym("c")]), Sym("false")))
    requires o.zeroDifference(Not(Sym("a")), Rel(Eq, Or([Sym("a"), Sym("c")]), Sym("false"))) != Some(true)
    requires o.zeroDifference(Or([Sym("a"), Sym("c")]), Sym("a")) != Some(true)
    requires o.zeroDifference(Sym("c"), Sym("a")) != Some(true)
    ensures CompareTrees(o, AsWritten, Syntax.Node("!", [Syntax.Leaf("a")]),
      Syntax.Node("==", [Syntax.Node("||", [Syntax.Leaf("a"), Syntax.Leaf("c")]), Syntax.Leaf("false")])) == Ok(Equivalent)
    ensures CompareTrees(o, Corrected, Syntax.Node("!", [Syntax.Leaf("a")]),
      Syntax.Node("==", [Syntax.Node("||", [Syntax.Leaf("a"), Syntax.Leaf("c")]), Syntax.Leaf("false")])) == Ok(SecondStronger)
  {
    var n1, n2 := Syntax.Node("!", [Syntax.Leaf("a")]), Syntax.Node("==", [Syntax.Node("||", [Syntax.Leaf("a"), Syntax.Leaf("c")]), Syntax.Leaf("false")]);
    var x1, x2 := Not(Sym("a")), Rel(Eq, Or([Sym("a"), Sym("c")]), Sym("false"));
    NotLowered(AsWritten);
    NotLowered(Corrected);
    DisjunctionEqualityLowered(AsWritten, "a", "c", "false");
    DisjunctionEqualityLowered(Corrected, "a", "c", "false");
    NotAgainstFalseAsWritten(o);
    NotAgainstFalseCorrected(o);
    FalseAgainstNot(o, AsWritten);
    FalseAgainstNot(o, Corrected);
    CompareOfSides(o, AsWritten, n1, n2, x1, x2, x1, x2, true, true);
    CompareOfSides(o, Corrected, n1, n2, x1, x2, x1, x2, false, true);
  }

  /**
   * So, comparing `!a` with `(a || c) == false`, the program answers
   * "equivalent" while the second is in fact strictly stronger, which is what
   * the corrected rules answer (with sympy leaving both sides alone and the
   * zero-difference test not firing).
   */
  lemma {:induction false} NotAgainstFalseCompared(o: Oracles, p1: string, p2: string)
    requires Front(p1) == Ok(Syntax.Node("!", [Syntax.Leaf("a")]))
    requires Front(p2) == Ok(Syntax.Node("==", [Syntax.Node("||", [Syntax.Leaf("a"), Syntax.Leaf("c")]), Syntax.Leaf("false")]))
    requires o.simplify(Not(Sym("a"))) == Some(Not(Sym("a")))
    requires o.simplify(Rel(Eq, Or([Sym("a"), Sym("c")]), Sym("false"))) == Some(Rel(Eq, Or([Sym("a"), Sym("c")]), Sym("false")))
    requires o.zeroDifference(Not(Sym("a")), Rel(Eq, Or([Sym("a"), Sym("c")]), Sym("false"))) != Some(true)
    requires o.zeroDifference(Or([Sym("a"), Sym("c")]), Sym("a")) != Some(true)
    requires o.zeroDifference(Sym("c"), Sym("a")) != Some(true)
    ensures Compare(o, AsWritten, p1, p2) == Ok(Equivalent)
    ensures Compare(o, Corrected, p1, p2) == Ok(SecondStronger)
    ensures Entails(Rel(Eq, Or([Sym("a"), Sym("c")]), Sym("false")), Not(Sym("a")))
    ensures !Entails(Not(Sym("a")), Rel(Eq, Or([Sym("a"), Sym("c")]), Sym("false")))
  {
    NotAgainstFalseTrees(o);
    NotAgainstFalseCounter();
    FalseAgainstNot(o, AsWritten);
  }

  /** With only `c` true, `s || c` is true while `s` is false. */
  lemma {:induction false} OnlySecondTrue(s: string, c: string)
    requires s != c && s != "true" && c != "false"
    ensures Truth((n: string) => n == c, Or([Sym(s), Sym(c)])) == Some(true)
    ensures Truth((n: string) => n == c, Sym(s)) == Some(false)
  {
    var env := (n: string) => n == c;
    assert Truth(env, Sym(s)) == Some(false);
    assert Truth(env, Sym(c)) == Some(true);
    var ys := [Sym(s), Sym(c)];
    assert ys[1..] == [Sym(c)] && ys[1..][1..] == [];
    assert TruthAny(env, ys[1..]) == Some(true);
    assert TruthAny(env, ys) == Some(true);
  }

  /**
   * As written, `(s || c) == true` against `s` asks whether `s` implies
   * `s || c`, which the rules answer true; yet with `c` true and `s` false the
   * left side holds and the right side does not. The corrected rule asks
   * whether `s || c` implies `s`, and answers false.
   */
  lemma {:induction false} TrueAgainstSymbolAsWritten(o: Oracles)
    ensures NegationIdiomAsWritten(Rel(Eq, Or([Sym("s"), Sym("c")]), Sym("true")), Sym("s"))
      == Some((Sym("s"), Or([Sym("s"), Sym("c")])))
    ensures Implies(o, AsWritten, Rel(Eq, Or([Sym("s"), Sym("c")]), Sym("true")), Sym("s")) == Ok(true)
    ensures !Entails(Rel(Eq, Or([Sym("s"), Sym("c")]), Sym("true")), Sym("s"))
  {
    TrueAgainstSymbolIdiom();
    SymbolImpliesDisjunction(o, AsWritten, "s", "c");
    TrueAgainstSymbolCounter();
  }

  lemma TrueAgainstSymbolIdiom()
    ensures NegationIdiomAsWritten(Rel(Eq, Or([Sym("s"), Sym("c")]), Sym("true")), Sym("s"))
      == Some((Sym("s"), Or([Sym("s"), Sym("c")])))
  {
  }

  lemma TrueAgainstSymbolCounter()
    ensures !Entails(Rel(Eq, Or([Sym("s"), Sym("c")]), Sym("true")), Sym("s"))
  {
    OnlySecondTrue("s", "c");
    var env := (n: string) => n == "c";
    assert Truth(env, Rel(Eq, Or([Sym("s"), Sym("c")]), Sym("true"))) == Some(true);
  }

  /** The corrected rule answers `((s || c) == true) => s` false, unless the zero-difference test says otherwise. */
  lemma {:induction false} TrueAgainstSymbolCorrected(o: Oracles)
    requires o.zeroDifference(Rel(Eq, Or([Sym("s"), Sym("c")]), Sym("true")), Sym("s")) != Some(true)
    requires o.zeroDifference(Or([Sym("s"), Sym("c")]), Sym("s")) != Some(true)
    requires o.zeroDifference(Sym("c"), Sym("s")) != Some(true)
    ensures Implies(o, Corrected, Rel(Eq, Or([Sym("s"), Sym("c")]), Sym("true")), Sym("s")) == Ok(false)
  {
    var e1, e2 := Rel(Eq, Or([Sym("s"), Sym("c")]), Sym("true")), Sym("s");
    assert Idiom(Corrected, e1, e2) == Some((Or([Sym("s"), Sym("c")]), Sym("s")));
    assert Implies(o, Corrected, e1, e2) == Implies(o, Corrected, Or([Sym("s"), Sym("c")]), Sym("s"));
    DisjunctionNotFirst(o, Corrected, "s", "c");
  }

  /** Both rules answer `s => ((s || c) == true)` true, and rightly so. */
  lemma {:induction false} SymbolAgainstTrue(o: Oracles, rules: Rules)
    ensures Implies(o, rules, Sym("s"), Rel(Eq, Or([Sym("s"), Sym("c")]), Sym("true"))) == Ok(true)
    ensures Entails(Sym("s"), Rel(Eq, Or([Sym("s"), Sym("c")]), Sym("true")))
  {
    SymbolImpliesDisjunction(o, rules, "s", "c");
    BooleanDisjunction("s", "c");
    NegationIdiomSound(Sym("s"), Rel(Eq, Or([Sym("s"), Sym("c")]), Sym("true")));
  }

  /** The verdicts on the parse trees of the two predicates, as written and corrected. */
  lemma {:induction false} TrueAgainstSymbolTrees(o: Oracles)
    requires o.simplify(Rel(Eq, Or([Sym("s"), Sym("c")]), Sym("true"))) == Some(Rel(Eq, Or([Sym("s"), Sym("c")]), Sym("true")))
    requires o.simplify(Sym("s")) == Some(Sym("s"))
    requires o.zeroDifference(Rel(Eq, Or([Sym("s"), Sym("c")]), Sym("true")), Sym("s")) != Some(true)
    requires o.zeroDifference(Or([Sym("s"), Sym("c")]), Sym("s")) != Some(true)
    requires o.zeroDifference(Sym("c"), Sym("s")) != Some(true)
    ensures CompareTrees(o, AsWritten,
      Syntax.Node("==", [Syntax.Node("||", [Syntax.Leaf("s"), Syntax.Leaf("c")]), Syntax.Leaf("true")]), Syntax.Leaf("s")) == Ok(Equivalent)
    ensures CompareTrees(o, Corrected,
      Syntax.Node("==", [Syntax.Node("||", [Syntax.Leaf("s"), Syntax.Leaf("c")]), Syntax.Leaf("true")]), Syntax.Leaf("s")) == Ok(SecondStronger)
  {
    var n1, n2 := Syntax.Node("==", [Syntax.Node("||", [Syntax.Leaf("s"), Syntax.Leaf("c")]), Syntax.Leaf("true")]), Syntax.Leaf("s");
    var x1, x2 := Rel(Eq, Or([Sym("s"), Sym("c")]), Sym("true")), Sym("s");
    NameLowered(AsWritten, "s");
    NameLowered(Corrected, "s");
    DisjunctionEqualityLowered(AsWritten, "s", "c", "true");
    DisjunctionEqualityLowered(Corrected, "s", "c", "true");
    TrueAgainstSymbolAsWritten(o);
    TrueAgainstSymbolCorrected(o);
    SymbolAgainstTrue(o, AsWritten);
    SymbolAgainstTrue(o, Corrected);
    CompareOfSides(o, AsWritten, n1, n2, x1, x2, x1, x2, true, true);
    CompareOfSides(o, Corrected, n1, n2, x1, x2, x1, x2, false, true);
  }

  /**
   * So, comparing `(s || c) == true` with `s`, the program answers
   * "equivalent" while the second is in fact strictly stronger, which is what
   * the corrected rules answer (with sympy leaving both sides alone and the
   * zero-difference test not firing).
   */
  lemma {:induction false} TrueAgainstSymbolCompared(o: Oracles, p1: string, p2: string)
    requires Front(p1) == Ok(Syntax.Node("==", [Syntax.Node("||", [Syntax.Leaf("s"), Syntax.Leaf("c")]), Syntax.Leaf("true")]))
    requires Front(p2) == Ok(Syntax.Leaf("s"))
    requires o.simplify(Rel(Eq, Or([Sym("s"), Sym("c")]), Sym("true"))) == Some(Rel(Eq, Or([Sym("s"), Sym("c")]), Sym("true")))
    requires o.simplify(Sym("s")) == Some(Sym("s"))
    requires o.zeroDifference(Rel(Eq, Or([Sym("s"), Sym("c")]), Sym("true")), Sym("s")) != Some(true)
    requires o.zeroDifference(Or([Sym("s"), Sym("c")]), Sym("s")) != Some(true)
    requires o.zeroDifference(Sym("c"), Sym("s")) != Some(true)
    ensures Compare(o, AsWritten, p1, p2) == Ok(Equivalent)
    ensures Compare(o, Corrected, p1, p2) == Ok(SecondStronger)
    ensures Entails(Sym("s"), Rel(Eq, Or([Sym("s"), Sym("c")]), Sym("true")))
    ensures !Entails(Rel(Eq, Or([Sym("s"), Sym("c")]), Sym("true")), Sym("s"))
  {
    TrueAgainstSymbolTrees(o);
    TrueAgainstSymbolCounter();
    SymbolAgainstTrue(o, AsWritten);
  }

}
