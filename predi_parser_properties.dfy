/**
 * How the current parser shapes trees: single operands come back as leaves,
 * one level's operators nest to the left, a tighter level binds first, and
 * the repository's own test predicates parse to the trees its tests expect.
 */
module PrediParserProperties {
  import opened Wrappers
  import opened Syntax
  import opened PrediParser

  /** An operator of level `k` stops every tighter level. */
  lemma OperatorStops(ts: seq<Token>, k: nat, i: nat)
    requires k < Levels && i < |ts| && ts[i].tag in Operators(k)
    ensures Stops(ts, k + 1, i) && !IsPostfix(ts[i].tag)
  {
    forall j | k + 1 <= j < Levels
      ensures ts[i].tag !in Operators(j)
    {
      OperatorsDisjoint(ts[i].tag, k, j);
    }
  }

  /** Operands and closing brackets stop every level and start no postfix. */
  lemma NeutralStops(ts: seq<Token>, i: nat)
    requires i < |ts| && (IsOperand(ts[i].tag) || ts[i].tag == RParen || ts[i].tag == RBracket)
    ensures Stops(ts, 0, i) && !IsPostfix(ts[i].tag)
  {
  }

  /** An operand followed by no postfix is a factor that is a leaf of its lexeme. */
  lemma FactorAtom(ts: seq<Token>, pos: nat)
    requires pos < |ts| && IsOperand(ts[pos].tag)
    requires pos + 1 == |ts| || !IsPostfix(ts[pos + 1].tag)
    ensures ParseFactor(ts, pos) == Ok(Parsed(Leaf(ts[pos].lexeme), pos + 1))
  {
    assert ParsePostfix(ts, Leaf(ts[pos].lexeme), pos + 1) == Ok(Parsed(Leaf(ts[pos].lexeme), pos + 1));
  }

  /** The operand of level `k` at such a token is that leaf, when no tighter operator follows it. */
  lemma {:induction false} OperandAtom(ts: seq<Token>, k: nat, pos: nat)
    requires k < Levels && pos < |ts| && IsOperand(ts[pos].tag)
    requires pos + 1 == |ts| || !IsPostfix(ts[pos + 1].tag)
    requires Stops(ts, k + 1, pos + 1)
    ensures ParseOperand(ts, k, pos) == Ok(Parsed(Leaf(ts[pos].lexeme), pos + 1))
    decreases Levels - k, 0
  {
    if k + 1 < Levels {
      LevelAtom(ts, k + 1, pos);
    } else {
      FactorAtom(ts, pos);
    }
  }

  /** ... and so is the whole of level `k`, when no operator of level `k` or tighter follows it. */
  lemma {:induction false} LevelAtom(ts: seq<Token>, k: nat, pos: nat)
    requires k < Levels && pos < |ts| && IsOperand(ts[pos].tag)
    requires pos + 1 == |ts| || !IsPostfix(ts[pos + 1].tag)
    requires Stops(ts, k, pos + 1)
    ensures ParseLevel(ts, k, pos) == Ok(Parsed(Leaf(ts[pos].lexeme), pos + 1))
    decreases Levels - k, 1
  {
    OperandAtom(ts, k, pos);
  }

  /**
   * `x op y` with `op` of level `k` is the node `op` over the two leaves, at
   * level `k` and at every looser level `l`, when nothing binding at level
   * `l` follows.
   */
  lemma {:induction false} BinaryAt(ts: seq<Token>, l: nat, k: nat, pos: nat)
    requires l <= k < Levels && pos + 3 <= |ts|
    requires IsOperand(ts[pos].tag) && ts[pos + 1].tag in Operators(k) && IsOperand(ts[pos + 2].tag)
    requires pos + 3 == |ts| || !IsPostfix(ts[pos + 3].tag)
    requires Stops(ts, l, pos + 3)
    ensures ParseLevel(ts, l, pos)
         == Ok(Parsed(Node(ts[pos + 1].lexeme, [Leaf(ts[pos].lexeme), Leaf(ts[pos + 2].lexeme)]), pos + 3))
    decreases k - l
  {
    var n := Node(ts[pos + 1].lexeme, [Leaf(ts[pos].lexeme), Leaf(ts[pos + 2].lexeme)]);
    if l < k {
      BinaryAt(ts, l + 1, k, pos);
      OperandIsLevel(ts, l, pos);
      LevelStart(ts, l, pos, Parsed(n, pos + 3));
      LoopDone(ts, l, n, pos + 3);
    } else {
      OperatorStops(ts, k, pos + 1);
      OperandAtom(ts, k, pos);
      LevelStart(ts, k, pos, Parsed(Leaf(ts[pos].lexeme), pos + 1));
      OperandAtom(ts, k, pos + 2);
      LoopStep(ts, k, Leaf(ts[pos].lexeme), pos + 1, Parsed(Leaf(ts[pos + 2].lexeme), pos + 3));
      LoopDone(ts, k, n, pos + 3);
    }
  }

  /**
   * Operators of one level associate to the left: `x op1 y op2 z` is
   * `(x op1 y) op2 z`. With `&&` and `||` this is why the two share a level.
   */
  lemma LeftNested(ts: seq<Token>, k: nat)
    requires k < Levels && |ts| == 5
    requires IsOperand(ts[0].tag) && IsOperand(ts[2].tag) && IsOperand(ts[4].tag)
    requires ts[1].tag in Operators(k) && ts[3].tag in Operators(k)
    ensures ParseLevel(ts, k, 0) == Ok(Parsed(
      Node(ts[3].lexeme, [Node(ts[1].lexeme, [Leaf(ts[0].lexeme), Leaf(ts[2].lexeme)]), Leaf(ts[4].lexeme)]), 5))
  {
    var a, b, c := Leaf(ts[0].lexeme), Leaf(ts[2].lexeme), Leaf(ts[4].lexeme);
    var inner := Node(ts[1].lexeme, [a, b]);
    OperatorStops(ts, k, 1);
    OperatorStops(ts, k, 3);
    OperandAtom(ts, k, 0);
    OperandAtom(ts, k, 2);
    OperandAtom(ts, k, 4);
    LevelStart(ts, k, 0, Parsed(a, 1));
    LoopStep(ts, k, a, 1, Parsed(b, 3));
    LoopStep(ts, k, inner, 3, Parsed(c, 5));
    LoopDone(ts, k, Node(ts[3].lexeme, [inner, c]), 5);
  }

  /** A tighter level binds first: `x op1 y op2 z` with `op2` tighter than `op1` is `x op1 (y op2 z)`. */
  lemma Precedence(ts: seq<Token>, j: nat, k: nat)
    requires j < k < Levels && |ts| == 5
    requires IsOperand(ts[0].tag) && IsOperand(ts[2].tag) && IsOperand(ts[4].tag)
    requires ts[1].tag in Operators(j) && ts[3].tag in Operators(k)
    ensures ParseLevel(ts, j, 0) == Ok(Parsed(
      Node(ts[1].lexeme, [Leaf(ts[0].lexeme), Node(ts[3].lexeme, [Leaf(ts[2].lexeme), Leaf(ts[4].lexeme)])]), 5))
  {
    var inner := Node(ts[3].lexeme, [Leaf(ts[2].lexeme), Leaf(ts[4].lexeme)]);
    OperatorStops(ts, j, 1);
    OperandAtom(ts, j, 0);
    LevelStart(ts, j, 0, Parsed(Leaf(ts[0].lexeme), 1));
    BinaryAt(ts, j + 1, k, 2);
    OperandIsLevel(ts, j, 2);
    LoopStep(ts, j, Leaf(ts[0].lexeme), 1, Parsed(inner, 5));
    LoopDone(ts, j, Node(ts[1].lexeme, [Leaf(ts[0].lexeme), inner]), 5);
  }

  /** A level starts with its operand, then runs its loop. */
  lemma LevelStart(ts: seq<Token>, k: nat, pos: nat, p: Parsed)
    requires k < Levels && pos <= |ts| && ParseOperand(ts, k, pos) == Ok(p)
    ensures p.end <= |ts| && Stops(ts, k + 1, p.end)
    ensures ParseLevel(ts, k, pos) == ParseLoop(ts, k, p.node, p.end)
  {
  }

  /** Below the last level, the operand of a level is the next level. */
  lemma OperandIsLevel(ts: seq<Token>, k: nat, pos: nat)
    requires k + 1 < Levels && pos <= |ts|
    ensures ParseOperand(ts, k, pos) == ParseLevel(ts, k + 1, pos)
  {
  }

  /**
   * One turn of the loop of level `k` at an operator of that level, whose
   * right operand comes back as `p`.
   */
  lemma LoopStep(ts: seq<Token>, k: nat, node: Node, pos: nat, p: Parsed)
    requires k < Levels && pos < |ts| && ts[pos].tag in Operators(k) && Stops(ts, k + 1, pos)
    requires ParseOperand(ts, k, pos + 1) == Ok(p)
    ensures p.end <= |ts| && Stops(ts, k + 1, p.end)
    ensures ParseLoop(ts, k, node, pos) == ParseLoop(ts, k, Node(ts[pos].lexeme, [node, p.node]), p.end)
  {
  }

  /** Where level `k` stops, its loop returns what it has built. */
  lemma LoopDone(ts: seq<Token>, k: nat, node: Node, pos: nat)
    requires k < Levels && pos <= |ts| && Stops(ts, k, pos)
    ensures Stops(ts, k + 1, pos)
    ensures ParseLoop(ts, k, node, pos) == Ok(Parsed(node, pos))
  {
  }

  /**
   * `w eq x && y rel z`: a connective over an equality and a relational
   * comparison, each grouped before the connective applies.
   */
  lemma ComparisonsJoined(ts: seq<Token>)
    requires |ts| == 7
    requires IsOperand(ts[0].tag) && IsOperand(ts[2].tag) && IsOperand(ts[4].tag) && IsOperand(ts[6].tag)
    requires ts[1].tag in Operators(1) && ts[3].tag in Operators(0) && ts[5].tag in Operators(2)
    ensures ParseTokens(ts) == Ok(Parsed(
      Node(ts[3].lexeme, [Node(ts[1].lexeme, [Leaf(ts[0].lexeme), Leaf(ts[2].lexeme)]),
                          Node(ts[5].lexeme, [Leaf(ts[4].lexeme), Leaf(ts[6].lexeme)])]), 7))
  {
    var left := Node(ts[1].lexeme, [Leaf(ts[0].lexeme), Leaf(ts[2].lexeme)]);
    var right := Node(ts[5].lexeme, [Leaf(ts[4].lexeme), Leaf(ts[6].lexeme)]);
    OperatorStops(ts, 0, 3);
    BinaryAt(ts, 1, 1, 0);
    BinaryAt(ts, 1, 2, 4);
    assert ParseOperand(ts, 0, 0) == Ok(Parsed(left, 3));
    assert ParseOperand(ts, 0, 4) == Ok(Parsed(right, 7));
    assert ParseLoop(ts, 0, left, 3) == ParseLoop(ts, 0, Node(ts[3].lexeme, [left, right]), 7);
  }

  // ---------------------------------------------------------------------------
  // The repository's test predicates

  /** `msg.sender != msg.origin && a >= b` is `&&` over the `!=` and the `>=` comparisons. */
  lemma ComplexPredicate(ts: seq<Token>)
    requires ts == [Token("msg.sender", MsgSender), Token("!=", NotEqual), Token("msg.origin", MsgOrigin),
                    Token("&&", And), Token("a", Identifier), Token(">=", GreaterEqual), Token("b", Identifier)]
    ensures ParseTokens(ts) == Ok(Parsed(
      Node("&&", [Node("!=", [Leaf("msg.sender"), Leaf("msg.origin")]), Node(">=", [Leaf("a"), Leaf("b")])]), 7))
  {
    ComparisonsJoined(ts);
  }

  /** `!msg.sender` is `!` over the leaf. */
  lemma NotOperator(ts: seq<Token>)
    requires ts == [Token("!", Not), Token("msg.sender", MsgSender)]
    ensures ParseTokens(ts) == Ok(Parsed(Node("!", [Leaf("msg.sender")]), 2))
  {
    FactorAtom(ts, 1);
    assert ParseFactor(ts, 0) == Ok(Parsed(Node("!", [Leaf("msg.sender")]), 2));
    WholeFactorIsLevel(ts, 0, 0, Parsed(Node("!", [Leaf("msg.sender")]), 2));
  }

  /** `-1` is the unary `-` over the leaf `1`: a node with a single child. */
  lemma UnaryMinus(ts: seq<Token>)
    requires ts == [Token("-", Minus), Token("1", Integer)]
    ensures ParseTokens(ts) == Ok(Parsed(Node("-", [Leaf("1")]), 2))
  {
    FactorAtom(ts, 1);
    assert ParseFactor(ts, 0) == Ok(Parsed(Node("-", [Leaf("1")]), 2));
    WholeFactorIsLevel(ts, 0, 0, Parsed(Node("-", [Leaf("1")]), 2));
  }

  /** A factor that runs to the end of the tokens is the whole of every level. */
  lemma {:induction false} WholeFactorIsLevel(ts: seq<Token>, k: nat, pos: nat, p: Parsed)
    requires k < Levels && pos < |ts| && ParseFactor(ts, pos) == Ok(p) && p.end == |ts|
    ensures ParseLevel(ts, k, pos) == Ok(p)
    decreases Levels - k
  {
    if k + 1 < Levels {
      WholeFactorIsLevel(ts, k + 1, pos, p);
      OperandIsLevel(ts, k, pos);
    } else {
      assert ParseOperand(ts, k, pos) == ParseFactor(ts, pos);
    }
    LevelStart(ts, k, pos, p);
    LoopDone(ts, k, p.node, p.end);
  }

  /** Tokens after the first complete expression are not read: `a b` parses as `a`. */
  lemma TrailingTokensIgnored(ts: seq<Token>)
    requires ts == [Token("a", Identifier), Token("b", Identifier)]
    ensures ParseTokens(ts) == Ok(Parsed(Leaf("a"), 1))
  {
    LevelAtom(ts, 0, 0);
  }

  /** The comma between call arguments is optional: `a b)` is read as the two arguments `a` and `b`. */
  lemma ArgumentsWithoutComma(ts: seq<Token>)
    requires |ts| == 5 && IsOperand(ts[2].tag) && IsOperand(ts[3].tag) && ts[4].tag == RParen
    ensures ParseArguments(ts, 2, []) == Ok(([Leaf(ts[2].lexeme), Leaf(ts[3].lexeme)], 4))
  {
    var a, b := Leaf(ts[2].lexeme), Leaf(ts[3].lexeme);
    NeutralStops(ts, 3);
    NeutralStops(ts, 4);
    LevelAtom(ts, 0, 2);
    LevelAtom(ts, 0, 3);
    assert ParseArguments(ts, 3, [a]) == ParseArguments(ts, 4, [a, b]) by {
      assert [a] + [b] == [a, b];
    }
    assert ParseArguments(ts, 2, []) == ParseArguments(ts, 3, [a]) by {
      assert [] + [a] == [a];
    }
  }

  /** So `f(a b)` is the call `f()` over `a` and `b`. */
  lemma CallWithoutComma(ts: seq<Token>, node: Node)
    requires |ts| == 5 && ts[1].tag == LParen && IsOperand(ts[2].tag) && IsOperand(ts[3].tag) && ts[4].tag == RParen
    ensures ParsePostfix(ts, node, 1) == Ok(Parsed(Node(node.value + "()", [Leaf(ts[2].lexeme), Leaf(ts[3].lexeme)]), 5))
  {
    ArgumentsWithoutComma(ts);
    assert PostfixStep(ts, node, 1) == Ok(Parsed(Node(node.value + "()", [Leaf(ts[2].lexeme), Leaf(ts[3].lexeme)]), 5));
  }
}
