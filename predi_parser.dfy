/**
 * The recursive-descent parser of the current pipeline. A `Parser` holds the
 * token list and a cursor `position`; every parsing method advances the
 * cursor past what it reads and returns a tree, or fails with the error the
 * source raises.
 *
 * Each method is specified by a function of the tokens and the starting
 * position (`ParseLevel`, `ParseFactor`, ...). The functions are mutually
 * recursive; they terminate because every call either moves to a later
 * position or, at the same position, to a later stage of the descent
 * (arguments, `expression`, ..., `term`, `factor`).
 */
module PrediParser {
  import opened Wrappers
  import opened Syntax

  type Outcome = Result<Parsed, ParseError>

  /** Tags `factor` turns into a leaf and then hands to `postfix`. */
  predicate IsOperand(t: Tag)
  {
    t == Identifier || t == MsgSender || t == MsgOrigin || t == Integer || t == Float || t == Scientific
  }

  /** Tags `factor` turns into a leaf with no postfix. */
  predicate IsLiteral(t: Tag)
  {
    t == True || t == False || t == AddressLiteral || t == BytesLiteral
  }

  /** Tags that start a postfix: member access, indexing, a call. */
  predicate IsPostfix(t: Tag)
  {
    t == Dot || t == LBracket || t == LParen
  }

  /** The last step of a postfix chain: a member leaf `v.m`, an index `v[]` with one child, or a call `v()`. */
  predicate PostfixShape(n: Node)
  {
    || (n.children == [] && '.' in n.value)
    || (|n.children| == 1 && |n.value| >= 2 && n.value[|n.value| - 2..] == "[]")
    || (|n.value| >= 2 && n.value[|n.value| - 2..] == "()")
  }

  // ---------------------------------------------------------------------------
  // Specification

  /** `consume`: the token at `pos`, if there is one and it has the expected tag. */
  function ConsumeAt(ts: seq<Token>, pos: nat, expected: Tag): (r: Result<Token, ParseError>)
    ensures r.Ok? <==> pos < |ts| && ts[pos].tag == expected
    ensures r.Ok? ==> r.value == ts[pos]
    ensures pos >= |ts| ==> r == Err(EndOfInputExpecting(expected))
  {
    if pos >= |ts| then Err(EndOfInputExpecting(expected))
    else if ts[pos].tag != expected then Err(Mismatch(expected, ts[pos].tag, pos))
    else Ok(ts[pos])
  }

  /** `parse`: an expression from the first token on; later tokens are left unread. */
  function ParseTokens(ts: seq<Token>): (r: Outcome)
    ensures r.Ok? ==> 0 < r.value.end <= |ts| && Stops(ts, 0, r.value.end)
    ensures ts == [] ==> r == Err(EndOfInput)
  {
    ParseLevel(ts, 0, 0)
  }

  /**
   * Binary level `k`: an operand of the next tighter level, then as many
   * (operator, operand) pairs of level `k` as follow.
   */
  function ParseLevel(ts: seq<Token>, k: nat, pos: nat): (r: Outcome)
    requires k < Levels && pos <= |ts|
    ensures r.Ok? ==> pos < r.value.end <= |ts| && Stops(ts, k, r.value.end)
    ensures pos == |ts| ==> r == Err(EndOfInput)
    decreases |ts| - pos, 14 - 2 * k
  {
    match ParseOperand(ts, k, pos)
    case Err(e) => Err(e)
    case Ok(p) => ParseLoop(ts, k, p.node, p.end)
  }

  /** An operand of level `k`: the next tighter level, or a factor below the last one. */
  function ParseOperand(ts: seq<Token>, k: nat, pos: nat): (r: Outcome)
    requires k < Levels && pos <= |ts|
    ensures r.Ok? ==> pos < r.value.end <= |ts| && Stops(ts, k + 1, r.value.end)
    ensures pos == |ts| ==> r == Err(EndOfInput)
    decreases |ts| - pos, 13 - 2 * k
  {
    if k + 1 < Levels then ParseLevel(ts, k + 1, pos) else ParseFactor(ts, pos)
  }

  /** The `while` loop of level `k`, from the tree `node` built so far, at `pos`. */
  function ParseLoop(ts: seq<Token>, k: nat, node: Node, pos: nat): (r: Outcome)
    requires k < Levels && pos <= |ts| && Stops(ts, k + 1, pos)
    ensures r.Ok? ==> pos <= r.value.end <= |ts| && Stops(ts, k, r.value.end)
    ensures r.Ok? && r.value.end == pos ==> r.value.node == node
    ensures r.Ok? && r.value.end > pos ==>
      && |r.value.node.children| == 2
      && exists i | pos <= i < r.value.end :: ts[i].tag in Operators(k) && ts[i].lexeme == r.value.node.value
    decreases |ts| - pos, 0
  {
    if pos < |ts| && ts[pos].tag in Operators(k) then
      match ParseOperand(ts, k, pos + 1)
      case Err(e) => Err(e)
      case Ok(p) =>
        var r := ParseLoop(ts, k, Node(ts[pos].lexeme, [node, p.node]), p.end);
        assert r.Ok? && r.value.end > pos ==> ts[pos].tag in Operators(k) && ts[pos].lexeme == ts[pos].lexeme;
        r
    else
      Ok(Parsed(node, pos))
  }

  /** `factor`: a literal, a parenthesised expression, an operand with postfixes, or a prefix operator. */
  function ParseFactor(ts: seq<Token>, pos: nat): (r: Outcome)
    requires pos <= |ts|
    ensures r.Ok? ==> pos < r.value.end <= |ts|
    ensures pos == |ts| ==> r == Err(EndOfInput)
    ensures r.Ok? ==> IsLiteral(ts[pos].tag) || ts[pos].tag == LParen || IsOperand(ts[pos].tag)
                      || ts[pos].tag == Not || ts[pos].tag == Plus || ts[pos].tag == Minus
    decreases |ts| - pos, 3
  {
    if pos >= |ts| then Err(EndOfInput)
    else
      var t := ts[pos];
      if IsLiteral(t.tag) then Ok(Parsed(Leaf(t.lexeme), pos + 1))
      else if t.tag == LParen then ParseGrouped(ts, pos)
      else if IsOperand(t.tag) then
        ParsePostfix(ts, Leaf(t.lexeme), pos + 1)
      else if t.tag == Not then
        match ParseFactor(ts, pos + 1)
        case Err(e) => Err(e)
        case Ok(p) => Ok(Parsed(Node("!", [p.node]), p.end))
      else if t.tag == Plus || t.tag == Minus then
        match ParseFactor(ts, pos + 1)
        case Err(e) => Err(e)
        case Ok(p) => Ok(Parsed(Node(t.lexeme, [p.node]), p.end))
      else
        Err(UnexpectedToken(t.tag, pos))
  }

  /** The parenthesised branch of `factor`, on the `(` at `pos`: an expression, then its `)`. */
  function ParseGrouped(ts: seq<Token>, pos: nat): (r: Outcome)
    requires pos < |ts|
    ensures r.Ok? ==> pos + 1 < r.value.end <= |ts| && ts[r.value.end - 1].tag == RParen
    decreases |ts| - pos, 2
  {
    match ParseLevel(ts, 0, pos + 1)
    case Err(e) => Err(e)
    case Ok(p) =>
      match ConsumeAt(ts, p.end, RParen)
      case Err(e) => Err(e)
      case Ok(_) => Ok(Parsed(p.node, p.end + 1))
  }

  /** `true`, `false`, address and bytes literals are childless leaves with no postfix. */
  lemma FactorLiteral(ts: seq<Token>, pos: nat)
    requires pos < |ts| && IsLiteral(ts[pos].tag)
    ensures ParseFactor(ts, pos) == Ok(Parsed(Leaf(ts[pos].lexeme), pos + 1))
  {
  }

  /** A parenthesised factor ends just after its `)`. */
  lemma FactorGrouped(ts: seq<Token>, pos: nat)
    requires pos < |ts| && ts[pos].tag == LParen && ParseFactor(ts, pos).Ok?
    ensures var p := ParseLevel(ts, 0, pos + 1);
      && p.Ok? && p.value.end < |ts| && ts[p.value.end].tag == RParen
      && ParseFactor(ts, pos) == Ok(Parsed(p.value.node, p.value.end + 1))
  {
    FactorIsGrouped(ts, pos);
    var p := ParseLevel(ts, 0, pos + 1);
    assert p.Ok? && ConsumeAt(ts, p.value.end, RParen).Ok?;
  }

  lemma FactorIsGrouped(ts: seq<Token>, pos: nat)
    requires pos < |ts| && ts[pos].tag == LParen
    ensures ParseFactor(ts, pos) == ParseGrouped(ts, pos)
  {
    assert !IsLiteral(ts[pos].tag);
  }

  /** `!` builds a node `!` with one child; unary `+` and `-` a node valued by their lexeme with one child. */
  lemma FactorPrefix(ts: seq<Token>, pos: nat)
    requires pos < |ts| && (ts[pos].tag == Not || ts[pos].tag == Plus || ts[pos].tag == Minus)
    requires ParseFactor(ts, pos).Ok?
    ensures var n := ParseFactor(ts, pos).value.node;
      && |n.children| == 1
      && n.value == (if ts[pos].tag == Not then "!" else ts[pos].lexeme)
  {
  }

  /** An operand is a leaf of its lexeme, or the last step of the postfix chain that follows it. */
  lemma FactorOperand(ts: seq<Token>, pos: nat)
    requires pos < |ts| && IsOperand(ts[pos].tag) && ParseFactor(ts, pos).Ok?
    ensures var p := ParseFactor(ts, pos).value;
      && (p.end == pos + 1 ==> p.node == Leaf(ts[pos].lexeme))
      && (p.end > pos + 1 ==> PostfixShape(p.node))
  {
  }

  /** `postfix`: member accesses, indexes and calls applied to `node`, left to right. */
  function ParsePostfix(ts: seq<Token>, node: Node, pos: nat): (r: Outcome)
    requires pos <= |ts|
    ensures r.Ok? ==> pos <= r.value.end <= |ts|
    ensures r.Ok? ==> r.value.end == |ts| || !IsPostfix(ts[r.value.end].tag)
    ensures r.Ok? && r.value.end == pos ==> r.value.node == node
    ensures r.Ok? && r.value.end > pos ==> PostfixShape(r.value.node)
    decreases |ts| - pos, 2
  {
    if pos < |ts| && IsPostfix(ts[pos].tag) then
      match PostfixStep(ts, node, pos)
      case Err(e) => Err(e)
      case Ok(p) => ParsePostfix(ts, p.node, p.end)
    else
      Ok(Parsed(node, pos))
  }

  /** One pass of the `postfix` loop, on the `.`, `[` or `(` at `pos`. */
  function PostfixStep(ts: seq<Token>, node: Node, pos: nat): (r: Outcome)
    requires pos < |ts| && IsPostfix(ts[pos].tag)
    ensures r.Ok? ==> pos < r.value.end <= |ts| && PostfixShape(r.value.node)
    decreases |ts| - pos, 1
  {
    if ts[pos].tag == Dot then
      match ConsumeAt(ts, pos + 1, Identifier)
      case Err(e) => Err(e)
      case Ok(member) =>
        assert (node.value + "." + member.lexeme)[|node.value|] == '.';
        Ok(Parsed(Leaf(node.value + "." + member.lexeme), pos + 2))
    else if ts[pos].tag == LBracket then ParseIndex(ts, node, pos)
    else ParseCall(ts, node, pos)
  }

  /** The `[` branch of the `postfix` loop: an index expression, then its `]`. */
  function ParseIndex(ts: seq<Token>, node: Node, pos: nat): (r: Outcome)
    requires pos < |ts|
    ensures r.Ok? ==> pos + 1 < r.value.end <= |ts| && ts[r.value.end - 1].tag == RBracket
    ensures r.Ok? ==> PostfixShape(r.value.node)
    decreases |ts| - pos, 0
  {
    match ParseLevel(ts, 0, pos + 1)
    case Err(e) => Err(e)
    case Ok(p) =>
      match ConsumeAt(ts, p.end, RBracket)
      case Err(e) => Err(e)
      case Ok(_) => Ok(Parsed(Node(node.value + "[]", [p.node]), p.end + 1))
  }

  /** The `(` branch of the `postfix` loop: the arguments, then their `)`. */
  function ParseCall(ts: seq<Token>, node: Node, pos: nat): (r: Outcome)
    requires pos < |ts|
    ensures r.Ok? ==> pos + 1 < r.value.end <= |ts| && ts[r.value.end - 1].tag == RParen
    ensures r.Ok? ==> PostfixShape(r.value.node)
    decreases |ts| - pos, 0
  {
    match ParseArguments(ts, pos + 1, [])
    case Err(e) => Err(e)
    case Ok((args, end)) =>
      match ConsumeAt(ts, end, RParen)
      case Err(e) => Err(e)
      case Ok(_) => Ok(Parsed(Node(node.value + "()", args), end + 1))
  }

  /** `.` must be followed by an identifier, and gives the childless leaf `v.m`. */
  lemma PostfixMember(ts: seq<Token>, node: Node, pos: nat)
    requires pos < |ts| && ts[pos].tag == Dot
    ensures var r := PostfixStep(ts, node, pos);
      && (r.Ok? <==> pos + 1 < |ts| && ts[pos + 1].tag == Identifier)
      && (r.Ok? ==> r.value == Parsed(Leaf(node.value + "." + ts[pos + 1].lexeme), pos + 2))
  {
    var c := ConsumeAt(ts, pos + 1, Identifier);
    assert PostfixStep(ts, node, pos) == if c.Ok? then Ok(Parsed(Leaf(node.value + "." + c.value.lexeme), pos + 2)) else Err(c.error);
  }

  /** A step on `[` is the index branch. */
  lemma StepIsIndex(ts: seq<Token>, node: Node, pos: nat)
    requires pos < |ts| && ts[pos].tag == LBracket
    ensures PostfixStep(ts, node, pos) == ParseIndex(ts, node, pos)
  {
  }

  /** `[` gives `v[]` with the index expression as its only child; the `]` is required. */
  lemma PostfixIndex(ts: seq<Token>, node: Node, pos: nat)
    requires pos < |ts| && ParseIndex(ts, node, pos).Ok?
    ensures ParseLevel(ts, 0, pos + 1).Ok?
    ensures ParseIndex(ts, node, pos).value.node == Node(node.value + "[]", [ParseLevel(ts, 0, pos + 1).value.node])
  {
    var a := ParseLevel(ts, 0, pos + 1);
    assert a.Ok? && ConsumeAt(ts, a.value.end, RBracket).Ok?;
  }

  /** A step on `(` is the call branch. */
  lemma StepIsCall(ts: seq<Token>, node: Node, pos: nat)
    requires pos < |ts| && ts[pos].tag == LParen
    ensures PostfixStep(ts, node, pos) == ParseCall(ts, node, pos)
  {
  }

  /** `(` gives `v()` with the argument expressions as its children; the `)` is required. */
  lemma PostfixCall(ts: seq<Token>, node: Node, pos: nat)
    requires pos < |ts| && ParseCall(ts, node, pos).Ok?
    ensures ParseArguments(ts, pos + 1, []).Ok?
    ensures ParseCall(ts, node, pos).value.node == Node(node.value + "()", ParseArguments(ts, pos + 1, []).value.0)
  {
    var a := ParseArguments(ts, pos + 1, []);
    assert a.Ok? && ConsumeAt(ts, a.value.1, RParen).Ok?;
  }

  /**
   * The argument loop of a call: expressions up to the first `)` or the end,
   * each optionally followed by a `,` (a missing comma is not an error).
   */
  function ParseArguments(ts: seq<Token>, pos: nat, args: seq<Node>): (r: Result<(seq<Node>, nat), ParseError>)
    requires pos <= |ts|
    ensures r.Ok? ==> pos <= r.value.1 <= |ts| && (r.value.1 == |ts| || ts[r.value.1].tag == RParen)
    ensures r.Ok? ==> |args| <= |r.value.0| && r.value.0[..|args|] == args
    decreases |ts| - pos, 15
  {
    if pos < |ts| && ts[pos].tag != RParen then
      match ParseLevel(ts, 0, pos)
      case Err(e) => Err(e)
      case Ok(p) =>
        var next := if p.end < |ts| && ts[p.end].tag == Comma then p.end + 1 else p.end;
        var r := ParseArguments(ts, next, args + [p.node]);
        assert r.Ok? ==> r.value.0[..|args|] == (args + [p.node])[..|args|];
        r
    else
      Ok((args, pos))
  }

  /** A failing argument is the failure of the whole argument loop. */
  lemma ArgumentsFail(ts: seq<Token>, pos: nat, args: seq<Node>)
    requires pos < |ts| && ts[pos].tag != RParen && ParseLevel(ts, 0, pos).Err?
    ensures ParseArguments(ts, pos, args) == Err(ParseLevel(ts, 0, pos).error)
  {
  }

  /** After an argument the loop goes on past it and past the comma that follows it, if any. */
  lemma ArgumentsStep(ts: seq<Token>, pos: nat, args: seq<Node>, p: Parsed, next: nat)
    requires pos < |ts| && ts[pos].tag != RParen && ParseLevel(ts, 0, pos) == Ok(p)
    requires next == if p.end < |ts| && ts[p.end].tag == Comma then p.end + 1 else p.end
    ensures next <= |ts|
    ensures ParseArguments(ts, pos, args) == ParseArguments(ts, next, args + [p.node])
  {
  }

  /** At a `)` or the end of the tokens the loop stops with the arguments it has. */
  lemma ArgumentsDone(ts: seq<Token>, pos: nat, args: seq<Node>)
    requires pos <= |ts| && (pos == |ts| || ts[pos].tag == RParen)
    ensures ParseArguments(ts, pos, args) == Ok((args, pos))
  {
  }

  // ---------------------------------------------------------------------------
  // The parser

  class Parser {
    const tokens: seq<Token>
    var position: nat

    constructor (tokens: seq<Token>)
      ensures this.tokens == tokens && position == 0
    {
      this.tokens := tokens;
      position := 0;
    }

    /** Parses from the first token whatever the cursor was; trailing tokens are not checked. */
    method Parse() returns (r: Result<Node, ParseError>)
      modifies this
      ensures position <= |tokens|
      ensures Yields(r, position, ParseTokens(tokens))
    {
      position := 0;
      r := Level(0);
    }

    /** Takes the token at the cursor if it has the expected tag; the cursor moves only then. */
    method Consume(expected: Tag) returns (r: Result<Token, ParseError>)
      requires position <= |tokens|
      modifies this
      ensures r == ConsumeAt(tokens, old(position), expected)
      ensures position == if r.Ok? then old(position) + 1 else old(position)
    {
      if position >= |tokens| {
        return Err(EndOfInputExpecting(expected));
      }
      var token := tokens[position];
      if token.tag != expected {
        return Err(Mismatch(expected, token.tag, position));
      }
      position := position + 1;
      return Ok(token);
    }

    /** Binary level `k` (`expression`, `logical_term`, `equality`, `relational` or `term`). */
    method Level(k: nat) returns (r: Result<Node, ParseError>)
      requires k < Levels && position <= |tokens|
      modifies this
      ensures position <= |tokens|
      ensures Yields(r, position, ParseLevel(tokens, k, old(position)))
      decreases |tokens| - position, 14 - 2 * k
    {
      var first := Operand(k);
      if first.Err? {
        return first;
      }
      var node := first.value;
      while position < |tokens| && tokens[position].tag in Operators(k)
        invariant old(position) < position <= |tokens| && Stops(tokens, k + 1, position)
        invariant ParseLevel(tokens, k, old(position)) == ParseLoop(tokens, k, node, position)
        decreases |tokens| - position
      {
        var operator := tokens[position];
        position := position + 1;
        var right := Operand(k);
        if right.Err? {
          return right;
        }
        node := Node(operator.lexeme, [node, right.value]);
      }
      return Ok(node);
    }

    method Operand(k: nat) returns (r: Result<Node, ParseError>)
      requires k < Levels && position <= |tokens|
      modifies this
      ensures position <= |tokens|
      ensures Yields(r, position, ParseOperand(tokens, k, old(position)))
      decreases |tokens| - position, 13 - 2 * k
    {
      if k + 1 < Levels {
        r := Level(k + 1);
      } else {
        r := Factor();
      }
    }

    method Factor() returns (r: Result<Node, ParseError>)
      requires position <= |tokens|
      modifies this
      ensures position <= |tokens|
      ensures Yields(r, position, ParseFactor(tokens, old(position)))
      decreases |tokens| - position, 3
    {
      if position >= |tokens| {
        return Err(EndOfInput);
      }
      var token := tokens[position];
      if IsLiteral(token.tag) {
        position := position + 1;
        return Ok(Leaf(token.lexeme));
      }
      if token.tag == LParen {
        position := position + 1;
        var node := Level(0);
        if node.Err? {
          return node;
        }
        var closing := Consume(RParen);
        if closing.Err? {
          return Err(closing.error);
        }
        return node;
      } else if IsOperand(token.tag) {
        position := position + 1;
        r := Postfix(Leaf(token.lexeme));
      } else if token.tag == Not {
        position := position + 1;
        var operand := Factor();
        if operand.Err? {
          return operand;
        }
        return Ok(Node("!", [operand.value]));
      } else if token.tag == Plus || token.tag == Minus {
        position := position + 1;
        var operand := Factor();
        if operand.Err? {
          return operand;
        }
        return Ok(Node(token.lexeme, [operand.value]));
      } else {
        return Err(UnexpectedToken(token.tag, position));
      }
    }

    method Postfix(start: Node) returns (r: Result<Node, ParseError>)
      requires position <= |tokens|
      modifies this
      ensures position <= |tokens|
      ensures Yields(r, position, ParsePostfix(tokens, start, old(position)))
      decreases |tokens| - position, 1
    {
      var node := start;
      while position < |tokens| && IsPostfix(tokens[position].tag)
        invariant old(position) <= position <= |tokens|
        invariant ParsePostfix(tokens, start, old(position)) == ParsePostfix(tokens, node, position)
        decreases |tokens| - position
      {
        var next := Step(node);
        if next.Err? {
          return next;
        }
        node := next.value;
      }
      return Ok(node);
    }

    /** The body of the `postfix` loop. */
    method Step(node: Node) returns (r: Result<Node, ParseError>)
      requires position < |tokens| && IsPostfix(tokens[position].tag)
      modifies this
      ensures position <= |tokens|
      ensures Yields(r, position, PostfixStep(tokens, node, old(position)))
      decreases |tokens| - position, 0
    {
      var token := tokens[position];
      position := position + 1;
      if token.tag == Dot {
        var member := Consume(Identifier);
        if member.Err? {
          return Err(member.error);
        }
        return Ok(Leaf(node.value + "." + member.value.lexeme));
      } else if token.tag == LBracket {
        var index := Level(0);
        if index.Err? {
          return index;
        }
        var closing := Consume(RBracket);
        if closing.Err? {
          return Err(closing.error);
        }
        return Ok(Node(node.value + "[]", [index.value]));
      } else {
        var args := Arguments();
        if args.Err? {
          return Err(args.error);
        }
        var closing := Consume(RParen);
        if closing.Err? {
          return Err(closing.error);
        }
        return Ok(Node(node.value + "()", args.value));
      }
    }

    /** The argument loop of a call, from the cursor up to (not including) the closing `)`. */
    method Arguments() returns (r: Result<seq<Node>, ParseError>)
      requires position <= |tokens|
      modifies this
      ensures position <= |tokens|
      ensures match ParseArguments(tokens, old(position), [])
              case Ok((args, end)) => r == Ok(args) && position == end
              case Err(e) => r == Err(e)
      decreases |tokens| - position, 15
    {
      var args: seq<Node> := [];
      while position < |tokens| && tokens[position].tag != RParen
        invariant old(position) <= position <= |tokens|
        invariant ParseArguments(tokens, old(position), []) == ParseArguments(tokens, position, args)
        decreases |tokens| - position
      {
        var start := position;
        var arg := Level(0);
        if arg.Err? {
          ArgumentsFail(tokens, start, args);
          return Err(arg.error);
        }
        var end := position;
        if position < |tokens| && tokens[position].tag == Comma {
          position := position + 1;
        }
        ArgumentsStep(tokens, start, args, Parsed(arg.value, end), position);
        args := args + [arg.value];
      }
      ArgumentsDone(tokens, position, args);
      return Ok(args);
    }
  }
}
