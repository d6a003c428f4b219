/**
 * The older parser of the first pipeline. Its precedence ladder is the same
 * as the current parser's; its `factor` differs: a number followed by an
 * identifier is one leaf `"N unit"`, there is no postfix and no literal
 * other than numbers, and `factor` and `consume` read `tokens[position]`
 * without checking the bound, so running out of input raises an index error.
 */
module LegacyParser {
  import opened Wrappers
  import opened Syntax

  type Outcome = Result<Parsed, ParseError>

  /** Tags `factor` turns into a leaf. */
  predicate IsOperand(t: Tag)
  {
    t == Identifier || t == MsgSender || t == MsgOrigin || t == Integer || t == Float
  }

  /** Tags `factor` treats as a prefix operator. */
  predicate IsPrefix(t: Tag)
  {
    t == Plus || t == Minus || t == Not
  }

  // ---------------------------------------------------------------------------
  // Specification

  /** `consume`: reads the token at `pos` unguarded, then checks its tag. */
  function ConsumeAt(ts: seq<Token>, pos: nat, expected: Tag): (r: Result<Token, ParseError>)
    ensures r.Ok? <==> pos < |ts| && ts[pos].tag == expected
    ensures r.Ok? ==> r.value == ts[pos]
    ensures pos >= |ts| ==> r == Err(IndexOutOfRange(pos))
  {
    if pos >= |ts| then Err(IndexOutOfRange(pos))
    else if ts[pos].tag != expected then Err(Mismatch(expected, ts[pos].tag, pos))
    else Ok(ts[pos])
  }

  /** `parse`: an expression from the first token on; later tokens are left unread. */
  function ParseTokens(ts: seq<Token>): (r: Outcome)
    ensures r.Ok? ==> 0 < r.value.end <= |ts| && Stops(ts, 0, r.value.end)
    ensures ts == [] ==> r == Err(IndexOutOfRange(0))
  {
    ParseLevel(ts, 0, 0)
  }

  /** Binary level `k`: an operand of the next tighter level, then its (operator, operand) pairs. */
  function ParseLevel(ts: seq<Token>, k: nat, pos: nat): (r: Outcome)
    requires k < Levels && pos <= |ts|
    ensures r.Ok? ==> pos < r.value.end <= |ts| && Stops(ts, k, r.value.end)
    ensures pos == |ts| ==> r == Err(IndexOutOfRange(pos))
    decreases |ts| - pos, 14 - 2 * k
  {
    match ParseOperand(ts, k, pos)
    case Err(e) => Err(e)
    case Ok(p) => ParseLoop(ts, k, p.node, p.end)
  }

  /** An operand of level `k`: the next tighter level, or a factor below the last one. */
  function ParseOperand(ts: seq<Token>, k: nat, pos: nat): (r: Outcome)
    requires k < Levels && pos <= |ts|
    ensures r.Ok? ==> pos < r.value.end <= |ts| && Stops(ts, k + 1, r.value.end)
    ensures pos == |ts| ==> r == Err(IndexOutOfRange(pos))
    decreases |ts| - pos, 13 - 2 * k
  {
    if k + 1 < Levels then ParseLevel(ts, k + 1, pos) else ParseFactor(ts, pos)
  }

  /** The `while` loop of level `k`, from the tree `node` built so far, at `pos`. */
  function ParseLoop(ts: seq<Token>, k: nat, node: Node, pos: nat): (r: Outcome)
    requires k < Levels && pos <= |ts| && Stops(ts, k + 1, pos)
    ensures r.Ok? ==> pos <= r.value.end <= |ts| && Stops(ts, k, r.value.end)
    ensures r.Ok? && r.value.end == pos ==> r.value.node == node
    ensures r.Ok? && r.value.end > pos ==>
      && |r.value.node.children| == 2
      && exists i | pos <= i < r.value.end :: ts[i].tag in Operators(k) && ts[i].lexeme == r.value.node.value
    decreases |ts| - pos, 0
  {
    if pos < |ts| && ts[pos].tag in Operators(k) then
      match ParseOperand(ts, k, pos + 1)
      case Err(e) => Err(e)
      case Ok(p) =>
        var r := ParseLoop(ts, k, Node(ts[pos].lexeme, [node, p.node]), p.end);
        assert r.Ok? && r.value.end > pos ==> ts[pos].tag in Operators(k) && ts[pos].lexeme == ts[pos].lexeme;
        r
    else
      Ok(Parsed(node, pos))
  }

  /** `factor`: a parenthesised expression, a leaf (with its unit), or a prefix operator. */
  function ParseFactor(ts: seq<Token>, pos: nat): (r: Outcome)
    requires pos <= |ts|
    ensures r.Ok? ==> pos < r.value.end <= |ts|
    ensures pos == |ts| ==> r == Err(IndexOutOfRange(pos))
    ensures r.Ok? ==> ts[pos].tag == LParen || IsOperand(ts[pos].tag) || IsPrefix(ts[pos].tag)
    decreases |ts| - pos, 3
  {
    if pos >= |ts| then Err(IndexOutOfRange(pos))
    else
      var t := ts[pos];
      if t.tag == LParen then
        match ParseLevel(ts, 0, pos + 1)
        case Err(e) => Err(e)
        case Ok(p) =>
          match ConsumeAt(ts, p.end, RParen)
          case Err(e) => Err(e)
          case Ok(_) => Ok(Parsed(p.node, p.end + 1))
      else if IsOperand(t.tag) then
        if t.tag == Integer && pos + 1 < |ts| && ts[pos + 1].tag == Identifier then
          Ok(Parsed(Leaf(t.lexeme + " " + ts[pos + 1].lexeme), pos + 2))
        else
          Ok(Parsed(Leaf(t.lexeme), pos + 1))
      else if IsPrefix(t.tag) then
        match ParseFactor(ts, pos + 1)
        case Err(e) => Err(e)
        case Ok(p) => Ok(Parsed(Node(t.lexeme, [p.node]), p.end))
      else
        Err(UnexpectedToken(t.tag, pos))
  }

  // ---------------------------------------------------------------------------
  // Properties

  /** A number directly followed by an identifier is one childless leaf `"N unit"`, two tokens long. */
  lemma NumberWithUnit(ts: seq<Token>, pos: nat)
    requires pos + 1 < |ts| && ts[pos].tag == Integer && ts[pos + 1].tag == Identifier
    ensures ParseFactor(ts, pos) == Ok(Parsed(Leaf(ts[pos].lexeme + " " + ts[pos + 1].lexeme), pos + 2))
  {
  }

  /** Any other operand is a leaf of its own lexeme, one token long. */
  lemma PlainOperand(ts: seq<Token>, pos: nat)
    requires pos < |ts| && IsOperand(ts[pos].tag)
    requires ts[pos].tag != Integer || pos + 1 == |ts| || ts[pos + 1].tag != Identifier
    ensures ParseFactor(ts, pos) == Ok(Parsed(Leaf(ts[pos].lexeme), pos + 1))
  {
  }

  /** `+`, `-` and `!` build a node valued by their lexeme with exactly one child. */
  lemma PrefixOperator(ts: seq<Token>, pos: nat)
    requires pos < |ts| && IsPrefix(ts[pos].tag) && ParseFactor(ts, pos).Ok?
    ensures var n := ParseFactor(ts, pos).value.node;
      n.value == ts[pos].lexeme && |n.children| == 1
  {
  }

  /** A parenthesised factor needs its `)`: it ends just after one, or fails naming the token found instead. */
  lemma Grouped(ts: seq<Token>, pos: nat)
    requires pos < |ts| && ts[pos].tag == LParen && ParseLevel(ts, 0, pos + 1).Ok?
    ensures var p := ParseLevel(ts, 0, pos + 1).value;
      && (p.end < |ts| && ts[p.end].tag == RParen ==> ParseFactor(ts, pos) == Ok(Parsed(p.node, p.end + 1)))
      && (p.end < |ts| && ts[p.end].tag != RParen ==> ParseFactor(ts, pos) == Err(Mismatch(RParen, ts[p.end].tag, p.end)))
      && (p.end == |ts| ==> ParseFactor(ts, pos) == Err(IndexOutOfRange(p.end)))
  {
  }

  /** A token that starts no factor (a boolean, a literal, an operator) is rejected where a factor is due. */
  lemma UnexpectedFactor(ts: seq<Token>, pos: nat)
    requires pos < |ts| && ts[pos].tag != LParen && !IsOperand(ts[pos].tag) && !IsPrefix(ts[pos].tag)
    ensures ParseFactor(ts, pos) == Err(UnexpectedToken(ts[pos].tag, pos))
  {
  }

  /** A factor's operand leaves every level, when nothing binding follows it. */
  lemma {:induction false} OperandAtom(ts: seq<Token>, k: nat, pos: nat)
    requires k < Levels && pos < |ts| && IsOperand(ts[pos].tag)
    requires ts[pos].tag != Integer || pos + 1 == |ts| || ts[pos + 1].tag != Identifier
    requires Stops(ts, k + 1, pos + 1)
    ensures ParseOperand(ts, k, pos) == Ok(Parsed(Leaf(ts[pos].lexeme), pos + 1))
    decreases Levels - k
  {
    if k + 1 < Levels {
      OperandAtom(ts, k + 1, pos);
      assert ParseLoop(ts, k + 1, Leaf(ts[pos].lexeme), pos + 1) == Ok(Parsed(Leaf(ts[pos].lexeme), pos + 1));
    } else {
      PlainOperand(ts, pos);
    }
  }

  /** An operator of level `k` is no operator of a tighter level. */
  lemma OperatorStops(ts: seq<Token>, k: nat, i: nat)
    requires k < Levels && i < |ts| && ts[i].tag in Operators(k)
    ensures Stops(ts, k + 1, i) && ts[i].tag != Identifier
  {
    forall j | k + 1 <= j < Levels
      ensures ts[i].tag !in Operators(j)
    {
      OperatorsDisjoint(ts[i].tag, k, j);
    }
  }

  /** Each level nests to the left: `x op1 y op2 z` is `(x op1 y) op2 z`. */
  lemma LeftNested(ts: seq<Token>, k: nat)
    requires k < Levels && |ts| == 5
    requires IsOperand(ts[0].tag) && IsOperand(ts[2].tag) && IsOperand(ts[4].tag)
    requires ts[1].tag in Operators(k) && ts[3].tag in Operators(k)
    ensures ParseLevel(ts, k, 0) == Ok(Parsed(
      Node(ts[3].lexeme, [Node(ts[1].lexeme, [Leaf(ts[0].lexeme), Leaf(ts[2].lexeme)]), Leaf(ts[4].lexeme)]), 5))
  {
    var inner := Node(ts[1].lexeme, [Leaf(ts[0].lexeme), Leaf(ts[2].lexeme)]);
    OperatorStops(ts, k, 1);
    OperatorStops(ts, k, 3);
    OperandAtom(ts, k, 0);
    OperandAtom(ts, k, 2);
    OperandAtom(ts, k, 4);
    assert ParseLoop(ts, k, Leaf(ts[0].lexeme), 1) == ParseLoop(ts, k, inner, 3);
    assert ParseLoop(ts, k, inner, 3) == ParseLoop(ts, k, Node(ts[3].lexeme, [inner, Leaf(ts[4].lexeme)]), 5);
  }

  /** An operator with nothing after it runs off the end of the token list: an index error, not a tree. */
  lemma DanglingOperator(ts: seq<Token>, k: nat)
    requires k < Levels && |ts| == 2 && IsOperand(ts[0].tag) && ts[1].tag in Operators(k)
    ensures ParseLevel(ts, k, 0) == Err(IndexOutOfRange(2))
  {
    OperatorStops(ts, k, 1);
    OperandAtom(ts, k, 0);
    assert ParseOperand(ts, k, 2) == Err(IndexOutOfRange(2));
  }

  // ---------------------------------------------------------------------------
  // The parser

  class Parser {
    const tokens: seq<Token>
    var position: nat

    constructor (tokens: seq<Token>)
      ensures this.tokens == tokens && position == 0
    {
      this.tokens := tokens;
      position := 0;
    }

    /** Parses from the first token whatever the cursor was; trailing tokens are not checked. */
    method Parse() returns (r: Result<Node, ParseError>)
      modifies this
      ensures position <= |tokens|
      ensures Yields(r, position, ParseTokens(tokens))
    {
      position := 0;
      r := Level(0);
    }

    /** Takes the token at the cursor if it has the expected tag; the cursor moves only then. */
    method Consume(expected: Tag) returns (r: Result<Token, ParseError>)
      requires position <= |tokens|
      modifies this
      ensures r == ConsumeAt(tokens, old(position), expected)
      ensures position == if r.Ok? then old(position) + 1 else old(position)
    {
      if position >= |tokens| {
        return Err(IndexOutOfRange(position));
      }
      var token := tokens[position];
      if token.tag != expected {
        return Err(Mismatch(expected, token.tag, position));
      }
      position := position + 1;
      return Ok(token);
    }

    /** Binary level `k` (`expression`, `logical_term`, `equality`, `relational` or `term`). */
    method Level(k: nat) returns (r: Result<Node, ParseError>)
      requires k < Levels && position <= |tokens|
      modifies this
      ensures position <= |tokens|
      ensures Yields(r, position, ParseLevel(tokens, k, old(position)))
      decreases |tokens| - position, 14 - 2 * k
    {
      var first := Operand(k);
      if first.Err? {
        return first;
      }
      var node := first.value;
      while position < |tokens| && tokens[position].tag in Operators(k)
        invariant old(position) < position <= |tokens| && Stops(tokens, k + 1, position)
        invariant ParseLevel(tokens, k, old(position)) == ParseLoop(tokens, k, node, position)
        decreases |tokens| - position
      {
        var operator := tokens[position];
        position := position + 1;
        var right := Operand(k);
        if right.Err? {
          return right;
        }
        node := Node(operator.lexeme, [node, right.value]);
      }
      return Ok(node);
    }

    method Operand(k: nat) returns (r: Result<Node, ParseError>)
      requires k < Levels && position <= |tokens|
      modifies this
      ensures position <= |tokens|
      ensures Yields(r, position, ParseOperand(tokens, k, old(position)))
      decreases |tokens| - position, 13 - 2 * k
    {
      if k + 1 < Levels {
        r := Level(k + 1);
      } else {
        r := Factor();
      }
    }

    /** `factor` moves the cursor by one token, or by two for a number with its unit. */
    method Factor() returns (r: Result<Node, ParseError>)
      requires position <= |tokens|
      modifies this
      ensures position <= |tokens|
      ensures Yields(r, position, ParseFactor(tokens, old(position)))
      decreases |tokens| - position, 3
    {
      if position >= |tokens| {
        return Err(IndexOutOfRange(position));
      }
      var token := tokens[position];
      if token.tag == LParen {
        position := position + 1;
        var node := Level(0);
        if node.Err? {
          return node;
        }
        ghost var inner := ParseLevel(tokens, 0, old(position) + 1);
        assert inner.Ok? && position == inner.value.end;
        var closing := Consume(RParen);
        if closing.Err? {
          return Err(closing.error);
        }
        assert ParseFactor(tokens, old(position)) == Ok(Parsed(inner.value.node, inner.value.end + 1));
        return node;
      } else if IsOperand(token.tag) {
        if token.tag == Integer && position + 1 < |tokens| && tokens[position + 1].tag == Identifier {
          var unit := tokens[position + 1];
          position := position + 2;
          return Ok(Leaf(token.lexeme + " " + unit.lexeme));
        } else {
          position := position + 1;
          return Ok(Leaf(token.lexeme));
        }
      } else if IsPrefix(token.tag) {
        position := position + 1;
        var operand := Factor();
        if operand.Err? {
          return operand;
        }
        assert ParseFactor(tokens, old(position)) == Ok(Parsed(Node(token.lexeme, [operand.value]), position));
        return Ok(Node(token.lexeme, [operand.value]));
      }
      return Err(UnexpectedToken(token.tag, position));
    }
  }
}
