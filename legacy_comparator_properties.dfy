/** What the structural comparator promises: its tree equality, its containment test, its lowering and its verdict order. */
module LegacyComparatorProperties {
  import opened Wrappers
  import opened Strings
  import opened Symbolic
  import opened Verdicts
  import opened LegacyComparator
  import Syntax

  // ---------------------------------------------------------------------------
  // `_ast_equal` and `_contains`

  /** `_ast_equal` is exactly equality of trees. */
  lemma {:induction false} AstEqualIsEquality(a: Node, b: Node)
    ensures AstEqual(a, b) <==> a == b
    decreases a
  {
    forall i | 0 <= i < |a.children| && i < |b.children|
      ensures AstEqual(a.children[i], b.children[i]) <==> a.children[i] == b.children[i]
    {
      AstEqualIsEquality(a.children[i], b.children[i]);
    }
    if AstEqual(a, b) {
      assert a.children == b.children;
    }
  }

  /** Hence `_ast_equal` is reflexive, symmetric and transitive. */
  lemma {:induction false} AstEqualEquivalence(a: Node, b: Node, c: Node)
    ensures AstEqual(a, a)
    ensures AstEqual(a, b) ==> AstEqual(b, a)
    ensures AstEqual(a, b) && AstEqual(b, c) ==> AstEqual(a, c)
  {
    AstEqualIsEquality(a, a);
    AstEqualIsEquality(a, b);
    AstEqualIsEquality(b, a);
    AstEqualIsEquality(b, c);
    AstEqualIsEquality(a, c);
  }

  /** Every tree contains itself. */
  lemma {:induction false} ContainsSelf(a: Node)
    ensures Contains(a, a)
    decreases a
  {
    forall i | 0 <= i < |a.children| ensures Contains(a.children[i], a.children[i]) {
      ContainsSelf(a.children[i]);
    }
  }

  /** A tree contains each of its subtrees. */
  lemma {:induction false} ContainsSubtree(s: Node, h: Node)
    requires Subtree(s, h)
    ensures Contains(h, s)
    decreases h
  {
    if s == h {
      ContainsSelf(h);
    } else {
      var i :| 0 <= i < |h.children| && Subtree(s, h.children[i]);
      ContainsSubtree(s, h.children[i]);
    }
  }

  /**
   * Below a matching root, children are matched by containment rather than
   * by equality: `(!a) && b` contains `a && b`, which is not one of its
   * subtrees.
   */
  lemma {:induction false} ContainsBeyondSubtrees()
    ensures Contains(Syntax.Node("&&", [Syntax.Node("!", [Syntax.Leaf("a")]), Syntax.Leaf("b")]),
                     Syntax.Node("&&", [Syntax.Leaf("a"), Syntax.Leaf("b")]))
    ensures !Subtree(Syntax.Node("&&", [Syntax.Leaf("a"), Syntax.Leaf("b")]),
                     Syntax.Node("&&", [Syntax.Node("!", [Syntax.Leaf("a")]), Syntax.Leaf("b")]))
  {
    var a, b := Syntax.Leaf("a"), Syntax.Leaf("b");
    var notA := Syntax.Node("!", [a]);
    var h := Syntax.Node("&&", [notA, b]);
    var n := Syntax.Node("&&", [a, b]);
    ContainsSelf(a);
    ContainsSelf(b);
    assert notA.children[0] == a;
    assert Contains(notA, a);
    assert h.children[0] == notA && n.children[0] == a;
    assert h.children[1] == b && n.children[1] == b;
    assert Contains(h, n);
    assert !Subtree(n, a) && !Subtree(n, b);
    assert !Subtree(n, notA) by {
      assert notA.children == [a];
    }
    assert h.children == [notA, b];
  }

  // ---------------------------------------------------------------------------
  // Lowering

  /**
   * A node whose value is not a connective or comparison lowers, once its
   * children lower, to the symbol its value would be as a leaf: the
   * children are dropped.
   */
  lemma {:induction false} NonConnectiveCollapses(v: string, cs: seq<Node>)
    requires !IsConnective(v) && LowerAll(cs).Ok?
    ensures Lower(Syntax.Node(v, cs)) == Lower(Syntax.Leaf(v))
  {
  }

  /** Numbers are not numbers to this lowering: the leaf `1` is the symbol named `1`. */
  lemma {:induction false} NumbersAreSymbols()
    ensures Lower(Syntax.Leaf("1")) == Ok(Sym("1"))
  {
    ReplaceAllNoLead("1", ".", "_");
  }

  // ---------------------------------------------------------------------------
  // `compare`

  /** A predicate that gets through the front end is equivalent to itself. */
  lemma {:induction false} CompareSelf(o: LegacyOracles, p: string)
    requires Front(o, p).Ok?
    ensures Compare(o, p, p) == Ok(Equivalent)
  {
    AstEqualIsEquality(Front(o, p).value, Front(o, p).value);
  }

  /** "Equivalent" means that both simplified trees are the same tree. */
  lemma {:induction false} EquivalentMeansEqualTrees(o: LegacyOracles, p1: string, p2: string)
    ensures Compare(o, p1, p2) == Ok(Equivalent) <==>
      Front(o, p1).Ok? && Front(o, p2).Ok? && Front(o, p1).value == Front(o, p2).value
  {
    if Front(o, p1).Ok? && Front(o, p2).Ok? {
      AstEqualIsEquality(Front(o, p1).value, Front(o, p2).value);
    }
  }

  /**
   * Two different trees that imply each other are reported as "first
   * stronger", in either order: the verdict does not follow the order of the
   * arguments.
   */
  lemma {:induction false} MutualImplicationFirstWins(o: LegacyOracles, s1: Node, s2: Node)
    requires s1 != s2 && IsStronger(o, s1, s2) == Ok(true) && IsStronger(o, s2, s1) == Ok(true)
    ensures Decide(o, s1, s2) == Ok(FirstStronger) && Decide(o, s2, s1) == Ok(FirstStronger)
  {
    AstEqualIsEquality(s1, s2);
    AstEqualIsEquality(s2, s1);
  }

  /** Outside that case, exchanging the trees exchanges the two "stronger" verdicts. */
  lemma {:induction false} DecideSwap(o: LegacyOracles, s1: Node, s2: Node)
    requires IsStronger(o, s1, s2).Ok? && IsStronger(o, s2, s1).Ok?
    requires !(IsStronger(o, s1, s2).value && IsStronger(o, s2, s1).value)
    ensures Decide(o, s1, s2).Ok? && Decide(o, s2, s1).Ok?
    ensures Decide(o, s2, s1).value == Swap(Decide(o, s1, s2).value)
  {
    AstEqualIsEquality(s1, s2);
    AstEqualIsEquality(s2, s1);
  }
}
