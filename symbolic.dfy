/**
 * The symbolic expressions both comparators hand to sympy: a closed model of
 * the expression trees their lowerings build. Sympy's own construction-time
 * evaluation (flattening, constant folding) is not part of these trees; it is
 * folded into the simplification step, which the model takes as a parameter.
 *
 * The module also gives the trees two meanings used to state what the
 * implication rules promise: a truth value under an assignment of the
 * boolean symbols, and an integer value under an assignment of the numeric
 * ones.
 */
module Symbolic {
  import opened Wrappers

  datatype RelOp = Eq | Ne | Gt | Ge | Lt | Le

  datatype Expr =
    | Sym(name: string)                       // sp.Symbol
    | Num(value: int)                         // sp.Integer
    | Dec(text: string)                       // sp.Float, kept as its decimal text
    | BoolConst(truth: bool)                  // sp.true, sp.false
    | And(args: seq<Expr>)
    | Or(args: seq<Expr>)
    | Not(arg: Expr)
    | Rel(op: RelOp, lhs: Expr, rhs: Expr)    // Eq, Ne, Gt, Ge, Lt, Le
    | Add(args: seq<Expr>)
    | Mul(args: seq<Expr>)
    | Pow(base: Expr, exponent: Expr)
    | Func(name: string, args: seq<Expr>)     // an application of an undefined function

  /** The number of nodes of an expression: the measure the implication rules decrease. */
  function Size(e: Expr): (n: nat)
    ensures n >= 1
  {
    match e
    case And(args) => 1 + SizeAll(args)
    case Or(args) => 1 + SizeAll(args)
    case Not(a) => 1 + Size(a)
    case Rel(_, l, r) => 1 + Size(l) + Size(r)
    case Add(args) => 1 + SizeAll(args)
    case Mul(args) => 1 + SizeAll(args)
    case Pow(b, x) => 1 + Size(b) + Size(x)
    case Func(_, args) => 1 + SizeAll(args)
    case _ => 1
  }

  function SizeAll(es: seq<Expr>): nat
  {
    if es == [] then 0 else Size(es[0]) + SizeAll(es[1..])
  }

  /** Every operand of a list is smaller than the list. */
  lemma {:induction false} SizeAllElement(es: seq<Expr>, i: nat)
    requires i < |es|
    ensures Size(es[i]) <= SizeAll(es)
    decreases i
  {
    if i > 0 {
      SizeAllElement(es[1..], i - 1);
    }
  }

  /** A two-operand list weighs its two operands. */
  lemma SizeAllPair(es: seq<Expr>)
    requires |es| == 2
    ensures SizeAll(es) == Size(es[0]) + Size(es[1])
  {
    assert SizeAll(es) == Size(es[0]) + SizeAll(es[1..]);
    assert es[1..][0] == es[1] && es[1..][1..] == [];
    assert SizeAll(es[1..]) == Size(es[1]) + SizeAll([]);
  }

  // ---------------------------------------------------------------------------
  // `_sympy_operator`: the connectives and comparisons both lowerings know

  /** The AST values that `_sympy_operator` maps to a sympy class. */
  predicate IsConnective(v: string)
  {
    v == "&&" || v == "||" || v == "!" || v == "==" || v == "!=" || v == ">" || v == "<" || v == ">=" || v == "<="
  }

  /** The comparison class of a comparison operator. */
  function RelOpOf(v: string): RelOp
  {
    if v == "==" then Eq
    else if v == "!=" then Ne
    else if v == ">" then Gt
    else if v == "<" then Lt
    else if v == ">=" then Ge
    else Le
  }

  /** What building a sympy node from lowered operands can raise. */
  datatype LowerError =
    | MissingOperand(op: string)   // IndexError: `args[1]` of a node with one child
    | WrongArity(op: string)       // TypeError: `Not` or a comparison with the wrong operand count

  /**
   * `getattr(sp, self._sympy_operator(v))(*args)`: `&&` and `||` take any number
   * of operands, `!` exactly one, a comparison exactly two.
   */
  function Connective(v: string, args: seq<Expr>): (r: Result<Expr, LowerError>)
    requires IsConnective(v)
    ensures v == "&&" ==> r == Ok(And(args))
    ensures v == "||" ==> r == Ok(Or(args))
    ensures v == "!" ==> (r.Ok? <==> |args| == 1) && (r.Ok? ==> r.value == Not(args[0]))
    ensures v != "&&" && v != "||" && v != "!" ==>
      (r.Ok? <==> |args| == 2) && (r.Ok? ==> r.value.Rel? && r.value.lhs == args[0] && r.value.rhs == args[1])
    ensures r.Err? ==> r.error == WrongArity(v)
  {
    if v == "&&" then Ok(And(args))
    else if v == "||" then Ok(Or(args))
    else if v == "!" then (if |args| == 1 then Ok(Not(args[0])) else Err(WrongArity(v)))
    else if |args| != 2 then Err(WrongArity(v))
    else Ok(Rel(RelOpOf(v), args[0], args[1]))
  }

  // ---------------------------------------------------------------------------
  // Truth: the meaning of the boolean fragment

  /**
   * The truth value of `e` when every symbol other than `true` and `false`
   * takes its value from `env`; the symbols `true` and `false` (what the
   * lowering makes of the literals) are the constants. Equality and
   * inequality compare truth values. `None` outside the boolean fragment.
   */
  function Truth(env: string -> bool, e: Expr): Option<bool>
  {
    match e
    case BoolConst(b) => Some(b)
    case Sym(n) => Some(if n == "true" then true else if n == "false" then false else env(n))
    case Not(a) => (match Truth(env, a) case Some(b) => Some(!b) case None => None)
    case And(args) => TruthAll(env, args)
    case Or(args) => TruthAny(env, args)
    case Rel(op, l, r) =>
      if op != Eq && op != Ne then None
      else (match (Truth(env, l), Truth(env, r))
        case (Some(a), Some(b)) => Some(if op == Eq then a == b else a != b)
        case _ => None)
    case _ => None
  }

  function TruthAll(env: string -> bool, es: seq<Expr>): Option<bool>
  {
    if es == [] then Some(true)
    else match (Truth(env, es[0]), TruthAll(env, es[1..]))
      case (Some(a), Some(b)) => Some(a && b)
      case _ => None
  }

  function TruthAny(env: string -> bool, es: seq<Expr>): Option<bool>
  {
    if es == [] then Some(false)
    else match (Truth(env, es[0]), TruthAny(env, es[1..]))
      case (Some(a), Some(b)) => Some(a || b)
      case _ => None
  }

  /** `e` has a truth value under every assignment. */
  ghost predicate Boolean(e: Expr)
  {
    forall env: string -> bool :: Truth(env, e).Some?
  }

  /** Every assignment that makes `e1` true makes `e2` true: the implication the comparator decides. */
  ghost predicate Entails(e1: Expr, e2: Expr)
  {
    forall env: string -> bool :: Truth(env, e1) == Some(true) ==> Truth(env, e2) == Some(true)
  }

  // ---------------------------------------------------------------------------
  // Value: the meaning of the integer fragment

  /** The integer value of `e` when every symbol takes its value from `env`; `None` outside sums and products of integers. */
  function Value(env: string -> int, e: Expr): Option<int>
  {
    match e
    case Num(n) => Some(n)
    case Sym(n) => Some(env(n))
    case Add(args) => Sum(env, args)
    case Mul(args) => Product(env, args)
    case _ => None
  }

  function Sum(env: string -> int, es: seq<Expr>): Option<int>
  {
    if es == [] then Some(0)
    else match (Value(env, es[0]), Sum(env, es[1..]))
      case (Some(a), Some(b)) => Some(a + b)
      case _ => None
  }

  function Product(env: string -> int, es: seq<Expr>): Option<int>
  {
    if es == [] then Some(1)
    else match (Value(env, es[0]), Product(env, es[1..]))
      case (Some(a), Some(b)) => Some(a * b)
      case _ => None
  }
}
