/**
 * The values the front end passes between its stages: tagged tokens and the
 * abstract syntax tree. Both parsers of the repository define the same
 * `ASTNode` (a value string and an ordered list of owned children).
 */
module Syntax {
  import opened Wrappers

  /** The token tags of the lexer's pattern table, in the table's order. */
  datatype Tag =
    | MsgSender | MsgOrigin | Require
    | Equal | NotEqual | GreaterEqual | LessEqual | Greater | Less
    | And | Or | Not | BitwiseAnd | Question | Colon
    | LParen | RParen | Plus | Minus | Multiply | Divide | Modulus
    | Dot | Comma | Assign | LBracket | RBracket
    | StringLiteral | Float | Integer | True | False
    | AddressLiteral | BytesLiteral | TimeUnit | Identifier | Scientific

  /** A (lexeme, tag) pair. */
  datatype Token = Token(lexeme: string, tag: Tag)

  /** An AST node: an operator symbol or leaf text, and its children in order. */
  datatype Node = Node(value: string, children: seq<Node>)

  function Leaf(value: string): Node
  {
    Node(value, [])
  }

  // ---------------------------------------------------------------------------
  // The precedence ladder both parsers share

  /** The binary levels, loosest first: `expression`, `logical_term`, `equality`, `relational`, `term`. */
  const Levels: nat := 5

  /** The operator tags each binary level loops over. */
  function Operators(k: nat): set<Tag>
    requires k < Levels
  {
    match k
    case 0 => {And, Or}
    case 1 => {Equal, NotEqual}
    case 2 => {Greater, Less, GreaterEqual, LessEqual}
    case 3 => {Plus, Minus}
    case _ => {Multiply, Divide, Modulus}
  }

  /** The operator sets of the levels do not overlap. */
  lemma OperatorsDisjoint(t: Tag, j: nat, k: nat)
    requires j < Levels && k < Levels && j != k && t in Operators(j)
    ensures t !in Operators(k)
  {
  }

  /** What a parser raises; each error carries the position the source reports. */
  datatype ParseError =
    | EndOfInput                            // `factor` ran off the end
    | EndOfInputExpecting(expected: Tag)    // `consume` ran off the end
    | Mismatch(expected: Tag, found: Tag, position: nat)
    | UnexpectedToken(found: Tag, position: nat)
    | IndexOutOfRange(position: nat)        // an unguarded `tokens[position]`

  /** A subtree and the position just after the tokens it was built from. */
  datatype Parsed = Parsed(node: Node, end: nat)

  /** Parsing at level `k` stopped at `e`: no operator of level `k` or a tighter one is there. */
  predicate Stops(ts: seq<Token>, k: nat, e: nat)
    requires k <= Levels && e <= |ts|
  {
    e == |ts| || forall j | k <= j < Levels :: ts[e].tag !in Operators(j)
  }

  /** A method's result and final position agree with the outcome its specification computes. */
  predicate Yields(r: Result<Node, ParseError>, position: nat, s: Result<Parsed, ParseError>)
  {
    match s
    case Ok(p) => r == Ok(p.node) && position == p.end
    case Err(e) => r == Err(e)
  }
}
