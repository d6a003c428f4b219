/**
 * The structural comparator of the first pipeline (src/comparator.py): both
 * predicates are tokenized, parsed by the older parser and simplified as
 * trees; equal trees are equivalent, and otherwise sympy is asked whether
 * one implies the other, first forwards and then backwards.
 *
 * The tree simplifier and the truth of `sp.simplify(sp.Implies(a, b))` are
 * not part of the model: they are the two fields of a `LegacyOracles` value,
 * and an oracle that raises answers `None`.
 */
module LegacyComparator {
  import opened Wrappers
  import opened Strings
  import opened Symbolic
  import opened Verdicts
  import Syntax
  import Tokenizer
  import LegacyParser

  type Node = Syntax.Node

  // ---------------------------------------------------------------------------
  // `_ast_equal` and `_contains`

  /** `_ast_equal`: equal values, equal child counts and pairwise equal children. */
  predicate AstEqual(a: Node, b: Node)
  {
    a.value == b.value && |a.children| == |b.children| &&
    forall i | 0 <= i < |a.children| :: AstEqual(a.children[i], b.children[i])
  }

  /**
   * `_contains(h, n)`: `h` matches `n` at its root (same value, same number of
   * children, each child of `h` containing the matching child of `n`), or some
   * child of `h` contains `n`.
   */
  predicate Contains(h: Node, n: Node)
  {
    (h.value == n.value && |h.children| == |n.children| &&
     forall i | 0 <= i < |h.children| :: Contains(h.children[i], n.children[i]))
    || exists i | 0 <= i < |h.children| :: Contains(h.children[i], n)
  }

  /** `s` is `h` or a subtree of one of its children. */
  predicate Subtree(s: Node, h: Node)
  {
    s == h || exists i | 0 <= i < |h.children| :: Subtree(s, h.children[i])
  }

  // ---------------------------------------------------------------------------
  // Lowering: `_to_sympy_expr`

  /**
   * The expressions the lowering can build: symbols without a `.` in their
   * name under the connectives and comparisons, and nothing numeric.
   */
  predicate Logical(e: Expr)
  {
    match e
    case Sym(name) => !Occurs(".", name)
    case And(args) => forall i | 0 <= i < |args| :: Logical(args[i])
    case Or(args) => forall i | 0 <= i < |args| :: Logical(args[i])
    case Not(a) => Logical(a)
    case Rel(_, l, r) => Logical(l) && Logical(r)
    case _ => false
  }

  /** `sp.Symbol(v.replace('.', '_'))`. */
  function SymbolOf(v: string): (e: Expr)
    ensures e.Sym? && Logical(e)
  {
    ReplaceAllRemoves(v, ".", "_");
    Sym(ReplaceAll(v, ".", "_"))
  }

  /**
   * `_to_sympy_expr`: a leaf is a symbol of its text; an internal node lowers
   * all its children first, then builds its connective or comparison, or, for
   * any other value, collapses to a symbol of that value. Only a `!` or a
   * comparison with the wrong number of operands raises.
   */
  function Lower(n: Node): (r: Result<Expr, LowerError>)
    ensures r.Ok? ==> Logical(r.value)
    ensures r.Err? ==> r.error.WrongArity?
    decreases n, 1
  {
    if n.children == [] then Ok(SymbolOf(n.value))
    else
      match LowerAll(n.children)
      case Err(e) => Err(e)
      case Ok(args) =>
        if IsConnective(n.value) then Connective(n.value, args) else Ok(SymbolOf(n.value))
  }

  function LowerAll(ns: seq<Node>): (r: Result<seq<Expr>, LowerError>)
    ensures r.Ok? ==> |r.value| == |ns| && forall i | 0 <= i < |ns| :: Logical(r.value[i])
    ensures r.Err? ==> r.error.WrongArity?
    decreases ns, 0
  {
    if ns == [] then Ok([])
    else
      match Lower(ns[0])
      case Err(e) => Err(e)
      case Ok(x) =>
        match LowerAll(ns[1..])
        case Err(e) => Err(e)
        case Ok(xs) => Ok([x] + xs)
  }

  // ---------------------------------------------------------------------------
  // `compare`

  datatype LegacyOracles = LegacyOracles(
    simplify: Node -> Option<Node>,               // `Simplifier.simplify`
    implication: (Expr, Expr) -> Option<bool>)    // the truth of `sp.simplify(sp.Implies(a, b))`

  datatype LegacyError =
    | Lexing(lexError: Tokenizer.LexError)
    | Parsing(parseError: Syntax.ParseError)
    | Simplifying
    | Lowering(lowerError: LowerError)
    | Deciding       // building or taking the truth of the implication raised

  /** Tokenize, parse and simplify one predicate. */
  function Front(o: LegacyOracles, p: string): (r: Result<Node, LegacyError>)
    ensures r.Err? ==> r.error.Lexing? || r.error.Parsing? || r.error.Simplifying?
    ensures r.Ok? ==> Tokenizer.Lex(p, 0).Ok?
  {
    match Tokenizer.Lex(p, 0)
    case Err(e) => Err(Lexing(e))
    case Ok(ts) =>
      match LegacyParser.ParseTokens(ts)
      case Err(e) => Err(Parsing(e))
      case Ok(parsed) =>
        match o.simplify(parsed.node)
        case None => Err(Simplifying)
        case Some(s) => Ok(s)
  }

  /** `_is_stronger(a, b)`: lower both trees, then ask whether `a` implies `b`. */
  function IsStronger(o: LegacyOracles, a: Node, b: Node): (r: Result<bool, LegacyError>)
    ensures r.Err? ==> r.error.Deciding? || (r.error.Lowering? && r.error.lowerError.WrongArity?)
    ensures r.Err? && r.error.Lowering? <==> Lower(a).Err? || Lower(b).Err?
  {
    match Lower(a)
    case Err(e) => Err(Lowering(e))
    case Ok(x) =>
      match Lower(b)
      case Err(e) => Err(Lowering(e))
      case Ok(y) =>
        match o.implication(x, y)
        case None => Err(Deciding)
        case Some(holds) => Ok(holds)
  }

  /**
   * The if-chain of `compare` on the two simplified trees: equality first,
   * then the forward implication, and the backward one only when the forward
   * one fails.
   */
  function Decide(o: LegacyOracles, s1: Node, s2: Node): (r: Result<Verdict, LegacyError>)
    ensures r == Ok(Equivalent) <==> AstEqual(s1, s2)
    ensures r == Ok(FirstStronger) <==> !AstEqual(s1, s2) && IsStronger(o, s1, s2) == Ok(true)
    ensures r == Ok(SecondStronger) <==>
      !AstEqual(s1, s2) && IsStronger(o, s1, s2) == Ok(false) && IsStronger(o, s2, s1) == Ok(true)
    ensures r == Ok(Unrelated) <==>
      !AstEqual(s1, s2) && IsStronger(o, s1, s2) == Ok(false) && IsStronger(o, s2, s1) == Ok(false)
    ensures r.Err? ==> r.error.Deciding? || r.error.Lowering?
  {
    if AstEqual(s1, s2) then Ok(Equivalent)
    else
      match IsStronger(o, s1, s2)
      case Err(e) => Err(e)
      case Ok(forward) =>
        if forward then Ok(FirstStronger)
        else
          match IsStronger(o, s2, s1)
          case Err(e) => Err(e)
          case Ok(backward) => Ok(if backward then SecondStronger else Unrelated)
  }

  /** `compare`: the first predicate is fully prepared before the second, then `Decide` runs. */
  function Compare(o: LegacyOracles, p1: string, p2: string): (r: Result<Verdict, LegacyError>)
    ensures r.Ok? ==> Front(o, p1).Ok? && Front(o, p2).Ok?
    ensures r.Err? && (r.error.Lexing? || r.error.Parsing? || r.error.Simplifying?) <==> Front(o, p1).Err? || Front(o, p2).Err?
  {
    match Front(o, p1)
    case Err(e) => Err(e)
    case Ok(s1) =>
      match Front(o, p2)
      case Err(e) => Err(e)
      case Ok(s2) => Decide(o, s1, s2)
  }
}
