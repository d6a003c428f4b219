/**
 * The implication engine of src/predi/comparator.py: each predicate is
 * tokenized, parsed, lowered to a symbolic expression and simplified; then a
 * prioritised list of structural rules decides whether one expression implies
 * the other, in both directions, and the pair of answers selects one of four
 * verdicts.
 *
 * Sympy's `simplify`, the zero-difference test, sympy's `satisfiable` and the
 * z3 solver are decision procedures the model does not contain: they are the
 * fields of an `Oracles` value every operation takes, and an oracle that
 * raises answers `None`.
 *
 * Two branches of the program are wrong (see the `AsWritten` functions); a
 * `Rules` value selects whether the engine runs them as written, which is
 * what the program does, or corrected.
 */
module PrediComparator {
  import opened Wrappers
  import opened Strings
  import opened Syntax
  import opened Symbolic
  import opened Verdicts
  import Tokenizer
  import PrediParser

  // ---------------------------------------------------------------------------
  // Lowering: `_to_sympy_expr`

  /**
   * The texts with a `.` that Python's `float` accepts, as far as a leaf can
   * hold them: an optional sign, digits around one `.` (at least one digit),
   * and an optional exponent.
   */
  predicate FloatText(t: string)
  {
    var a := if |t| > 0 && (t[0] == '+' || t[0] == '-') then 1 else 0;
    var d := RunEnd(t, a, IsDigit);
    d < |t| && t[d] == '.' &&
    (var f := RunEnd(t, d + 1, IsDigit);
     (a < d || d + 1 < f) && (f == |t| || ExponentText(t, f)))
  }

  /** `e` or `E`, an optional sign, then nothing but (at least one) digits. */
  predicate ExponentText(t: string, i: nat)
    requires i < |t|
  {
    (t[i] == 'e' || t[i] == 'E') &&
    (var j := if i + 1 < |t| && (t[i + 1] == '+' || t[i + 1] == '-') then i + 2 else i + 1;
     j < |t| && RunEnd(t, j, IsDigit) == |t|)
  }

  /**
   * A leaf: a float if it holds a `.` and `float` accepts it, an integer if it
   * holds none and `int` accepts it, and otherwise a symbol named by the text
   * with every `.` replaced by `_`.
   */
  function LeafExpr(v: string): (e: Expr)
    ensures e.Sym? || e.Num? || e.Dec?
    ensures e.Sym? ==> e.name == ReplaceAll(v, ".", "_")
  {
    if Occurs(".", v) then (if FloatText(v) then Dec(v) else Sym(ReplaceAll(v, ".", "_")))
    else if |v| > 0 && AllChars(v, IsDigit) then Num(DecimalValue(v))
    else Sym(ReplaceAll(v, ".", "_"))
  }

  /**
   * Which version of the `-` branch and of the negation and truth rules runs:
   * the program's own (`AsWritten`), or the corrected one (`Corrected`) that
   * negates a single operand and asks each negation question the right way
   * round. Everything else is the same under both.
   */
  datatype Rules = AsWritten | Corrected

  /**
   * The operand counts a node's value accepts: `&&` and `||` any, `!` one, a
   * comparison two, `/` at least two, `-` at least two as written and at
   * least one corrected; every other value any.
   */
  predicate ArityOk(rules: Rules, v: string, k: nat)
  {
    if v == "&&" || v == "||" then true
    else if v == "!" then k == 1
    else if IsConnective(v) then k == 2
    else if v == "/" then k >= 2
    else if v == "-" then (if rules.AsWritten? then k >= 2 else k >= 1)
    else true
  }

  /** Every internal node of the tree has an operand count its value accepts. */
  predicate Lowerable(rules: Rules, n: Node)
  {
    n.children == [] ||
    (ArityOk(rules, n.value, |n.children|) && forall i | 0 <= i < |n.children| :: Lowerable(rules, n.children[i]))
  }

  /** `_to_sympy_expr`: the children are lowered first, left to right, then the node itself. */
  function Lower(rules: Rules, n: Node): (r: Result<Expr, LowerError>)
    ensures r.Ok? <==> Lowerable(rules, n)
    decreases n, 1
  {
    if n.children == [] then Ok(LeafExpr(n.value))
    else
      match LowerAll(rules, n.children)
      case Err(e) => Err(e)
      case Ok(args) => Combine(rules, n.value, args)
  }

  function LowerAll(rules: Rules, ns: seq<Node>): (r: Result<seq<Expr>, LowerError>)
    ensures r.Ok? ==> |r.value| == |ns|
    ensures r.Ok? <==> forall i | 0 <= i < |ns| :: Lowerable(rules, ns[i])
    decreases ns, 0
  {
    if ns == [] then Ok([])
    else
      match Lower(rules, ns[0])
      case Err(e) => Err(e)
      case Ok(x) =>
        match LowerAll(rules, ns[1..])
        case Err(e) => Err(e)
        case Ok(xs) => Ok([x] + xs)
  }

  /**
   * An internal node from its lowered operands: connectives and comparisons,
   * then `/`, `+`, `-`, `*`, then calls (a value holding `()`); any other
   * value becomes a symbol and its operands are dropped.
   */
  function Combine(rules: Rules, v: string, args: seq<Expr>): (r: Result<Expr, LowerError>)
    ensures r.Ok? <==> ArityOk(rules, v, |args|)
    ensures r.Err? ==> r.error == MissingOperand(v) || r.error == WrongArity(v)
  {
    if IsConnective(v) then Connective(v, args)
    else if v == "/" then
      (if |args| < 2 then Err(MissingOperand(v)) else Ok(Mul([Pow(args[1], Num(-1)), args[0]])))
    else if v == "+" then Ok(Add(args))
    else if v == "-" then (if rules.AsWritten? then MinusAsWritten(args) else Minus(args))
    else if v == "*" then Ok(Mul(args))
    else if Occurs("()", v) then Ok(Func(ReplaceAll(v, "()", ""), args))
    else Ok(Sym(ReplaceAll(v, ".", "_")))
  }

  /**
   * The `-` branch as written: `a - b` becomes `a + (-1)*b`, and a node with
   * a single operand (the parser's unary minus) reads a second operand that
   * is not there.
   */
  function MinusAsWritten(args: seq<Expr>): (r: Result<Expr, LowerError>)
    ensures r.Ok? <==> |args| >= 2
    ensures r.Err? ==> r.error == MissingOperand("-")
  {
    if |args| < 2 then Err(MissingOperand("-"))
    else Ok(Add([args[0], Mul([Num(-1), args[1]])]))
  }

  /** The corrected `-` branch: a single operand is negated, two are subtracted as written. */
  function Minus(args: seq<Expr>): (r: Result<Expr, LowerError>)
    ensures r.Ok? <==> |args| >= 1
    ensures |args| >= 2 ==> r == MinusAsWritten(args)
  {
    if |args| == 1 then Ok(Mul([Num(-1), args[0]]))
    else if |args| == 0 then Err(MissingOperand("-"))
    else MinusAsWritten(args)
  }

  // ---------------------------------------------------------------------------
  // `sympy_to_z3`

  /** z3 terms: a real constant per symbol, and the boolean combinations over them. */
  datatype Z3Term =
    | Real(name: string)
    | Cmp(op: RelOp, lhs: Z3Term, rhs: Z3Term)
    | Conj(args: seq<Z3Term>)
    | Disj(args: seq<Z3Term>)
    | Negate(arg: Z3Term)

  /** What the translation raises: a `ValueError` for an unsupported node, or z3's refusal of mismatched sorts. */
  datatype Z3Error = Unsupported(expr: Expr) | SortMismatch

  /** Only a symbol translates to a real; everything else translates to a boolean. */
  predicate IsBoolTerm(t: Z3Term)
  {
    !t.Real?
  }

  /** The nodes `sympy_to_z3` has a case for, all the way down. */
  predicate Translatable(e: Expr)
  {
    match e
    case Sym(_) => true
    case Rel(op, l, r) => op != Ne && Translatable(l) && Translatable(r)
    case And(args) => forall i | 0 <= i < |args| :: Translatable(args[i])
    case Or(args) => forall i | 0 <= i < |args| :: Translatable(args[i])
    case Not(a) => Translatable(a)
    case _ => false
  }

  /**
   * `sympy_to_z3`: symbols become reals, `==` compares two terms of one sort,
   * the order comparisons compare two reals, and the connectives take
   * booleans. Anything else raises, `!=` and numbers included.
   */
  function ToZ3(e: Expr): (r: Result<Z3Term, Z3Error>)
    ensures r.Ok? ==> Translatable(e)
    ensures r.Ok? ==> (IsBoolTerm(r.value) <==> !e.Sym?)
    ensures !(e.Sym? || (e.Rel? && e.op != Ne) || e.And? || e.Or? || e.Not?) ==> r == Err(Unsupported(e))
  {
    match e
    case Sym(n) => Ok(Real(n))
    case Rel(op, l, rhs) =>
      if op == Ne then Err(Unsupported(e))
      else (match ToZ3(l)
        case Err(err) => Err(err)
        case Ok(a) =>
          match ToZ3(rhs)
          case Err(err) => Err(err)
          case Ok(b) =>
            if op == Eq && IsBoolTerm(a) == IsBoolTerm(b) then Ok(Cmp(op, a, b))
            else if op != Eq && !IsBoolTerm(a) && !IsBoolTerm(b) then Ok(Cmp(op, a, b))
            else Err(SortMismatch))
    case And(args) =>
      (match ToZ3All(args)
        case Err(err) => Err(err)
        case Ok(ts) => if forall i | 0 <= i < |ts| :: IsBoolTerm(ts[i]) then Ok(Conj(ts)) else Err(SortMismatch))
    case Or(args) =>
      (match ToZ3All(args)
        case Err(err) => Err(err)
        case Ok(ts) => if forall i | 0 <= i < |ts| :: IsBoolTerm(ts[i]) then Ok(Disj(ts)) else Err(SortMismatch))
    case Not(a) =>
      (match ToZ3(a)
        case Err(err) => Err(err)
        case Ok(t) => if IsBoolTerm(t) then Ok(Negate(t)) else Err(SortMismatch))
    case _ => Err(Unsupported(e))
  }

  function ToZ3All(es: seq<Expr>): (r: Result<seq<Z3Term>, Z3Error>)
    ensures r.Ok? ==> |r.value| == |es| && forall i | 0 <= i < |es| :: Translatable(es[i])
  {
    if es == [] then Ok([])
    else
      match ToZ3(es[0])
      case Err(err) => Err(err)
      case Ok(t) =>
        match ToZ3All(es[1..])
        case Err(err) => Err(err)
        case Ok(ts) =>
          assert forall i | 1 <= i < |es| :: es[i] == es[1..][i - 1];
          Ok([t] + ts)
  }

  // ---------------------------------------------------------------------------
  // The oracles

  datatype Z3Answer = Sat | Unsat | Unknown

  datatype Oracles = Oracles(
    simplify: Expr -> Option<Expr>,                // sp.simplify, with sympy's construction-time evaluation
    zeroDifference: (Expr, Expr) -> Option<bool>,  // sp.simplify(e1 - e2) == 0
    unsatisfiable: (Expr, Expr) -> Option<bool>,   // not satisfiable(And(e1, Not(e2)), use_lra_theory=True)
    z3Check: Z3Term -> Z3Answer)                   // Solver().check() of the added term

  // ---------------------------------------------------------------------------
  // `_implies`

  /** The forms the rules recognise as `false` and as `true`: the constant or the symbol of that name. */
  predicate IsFalse(e: Expr) { e == BoolConst(false) || e == Sym("false") }

  predicate IsTrue(e: Expr) { e == BoolConst(true) || e == Sym("true") }

  predicate IsEquality(e: Expr) { e.Rel? && e.op == Eq }

  /**
   * The negation and truth rules as written: the question each one reduces
   * `e1 => e2` to. `!p` against `q == false` asks `p => q`, and `q == true`
   * against a symbol `s` asks `s => q`.
   */
  function NegationIdiomAsWritten(e1: Expr, e2: Expr): (r: Option<(Expr, Expr)>)
    ensures r.Some? ==> Size(r.value.0) + Size(r.value.1) < Size(e1) + Size(e2)
  {
    if e1.Not? && IsEquality(e2) && IsFalse(e2.rhs) then Some((e1.arg, e2.lhs))
    else if e1.Not? && IsEquality(e2) && IsFalse(e2.lhs) then Some((e1.arg, e2.rhs))
    else if e2.Not? && IsEquality(e1) && IsFalse(e1.rhs) then Some((e2.arg, e1.lhs))
    else if e2.Not? && IsEquality(e1) && IsFalse(e1.lhs) then Some((e2.arg, e1.rhs))
    else if e1.Sym? && IsEquality(e2) && IsTrue(e2.rhs) then Some((e1, e2.lhs))
    else if e1.Sym? && IsEquality(e2) && IsTrue(e2.lhs) then Some((e1, e2.rhs))
    else if e2.Sym? && IsEquality(e1) && IsTrue(e1.rhs) then Some((e2, e1.lhs))
    else if e2.Sym? && IsEquality(e1) && IsTrue(e1.lhs) then Some((e2, e1.rhs))
    else None
  }

  /**
   * The corrected negation and truth rules: the same rules in the same
   * order, with the sub-question of the first two and of the last two turned
   * the right way round (`!p => (q == false)` holds iff `q => p`, and
   * `(q == true) => s` iff `q => s`).
   */
  function NegationIdiom(e1: Expr, e2: Expr): (r: Option<(Expr, Expr)>)
    ensures r.Some? ==> Size(r.value.0) + Size(r.value.1) < Size(e1) + Size(e2)
    ensures r.Some? <==> NegationIdiomAsWritten(e1, e2).Some?
  {
    if e1.Not? && IsEquality(e2) && IsFalse(e2.rhs) then Some((e2.lhs, e1.arg))
    else if e1.Not? && IsEquality(e2) && IsFalse(e2.lhs) then Some((e2.rhs, e1.arg))
    else if e2.Not? && IsEquality(e1) && IsFalse(e1.rhs) then Some((e2.arg, e1.lhs))
    else if e2.Not? && IsEquality(e1) && IsFalse(e1.lhs) then Some((e2.arg, e1.rhs))
    else if e1.Sym? && IsEquality(e2) && IsTrue(e2.rhs) then Some((e1, e2.lhs))
    else if e1.Sym? && IsEquality(e2) && IsTrue(e2.lhs) then Some((e1, e2.rhs))
    else if e2.Sym? && IsEquality(e1) && IsTrue(e1.rhs) then Some((e1.lhs, e2))
    else if e2.Sym? && IsEquality(e1) && IsTrue(e1.lhs) then Some((e1.rhs, e2))
    else None
  }

  /** An `== false` comparison written with the constant `false` on the right. */
  predicate FalseOnRight(e: Expr) { IsEquality(e) && e.rhs == BoolConst(false) }

  /**
   * A two-operand `Or` with an `x == false` operand (the first such one):
   * `(x, other)`, both smaller than the disjunction.
   */
  function FalseDisjunct(e: Expr): (r: Option<(Expr, Expr)>)
    ensures r.Some? ==> Size(r.value.0) + Size(r.value.1) < Size(e)
    ensures r.Some? ==> !NoComparison(e)
  {
    if e.Or? && |e.args| == 2 && (FalseOnRight(e.args[0]) || FalseOnRight(e.args[1])) then
      SizeAllPair(e.args);
      if FalseOnRight(e.args[0]) then Some((e.args[0].lhs, e.args[1]))
      else Some((e.args[1].lhs, e.args[0]))
    else None
  }

  /**
   * The rules for `!p` against a two-operand `Or` with an `x == false`
   * operand, and the mirror case: `(p, x, other)` when the answer is
   * `p => x` and then `other => true`.
   */
  function NotOrIdiom(e1: Expr, e2: Expr): (r: Option<(Expr, Expr, Expr)>)
    ensures r.Some? ==> Size(r.value.0) + Size(r.value.1) < Size(e1) + Size(e2)
    ensures r.Some? ==> Size(r.value.2) + Size(BoolConst(true)) < Size(e1) + Size(e2)
    ensures r.Some? ==> !NoComparison(e1) || !NoComparison(e2)
  {
    if e1.Not? && FalseDisjunct(e2).Some? then
      var (x, other) := FalseDisjunct(e2).value;
      Some((e1.arg, x, other))
    else if e2.Not? && FalseDisjunct(e1).Some? then
      var (x, other) := FalseDisjunct(e1).value;
      Some((e2.arg, x, other))
    else None
  }

  /** The operands the numeric satisfiability rule accepts: floats, integers and symbols. */
  predicate IsAtom(e: Expr) { e.Dec? || e.Num? || e.Sym? }

  /** An expression with no comparison anywhere in it: the z3 rule can never be reached inside it. */
  predicate NoComparison(e: Expr)
  {
    match e
    case Rel(_, _, _) => false
    case And(args) => forall i | 0 <= i < |args| :: NoComparison(args[i])
    case Or(args) => forall i | 0 <= i < |args| :: NoComparison(args[i])
    case Not(a) => NoComparison(a)
    case Add(args) => forall i | 0 <= i < |args| :: NoComparison(args[i])
    case Mul(args) => forall i | 0 <= i < |args| :: NoComparison(args[i])
    case Pow(b, x) => NoComparison(b) && NoComparison(x)
    case Func(_, args) => forall i | 0 <= i < |args| :: NoComparison(args[i])
    case _ => true
  }

  predicate NoComparisons(es: seq<Expr>)
  {
    forall i | 0 <= i < |es| :: NoComparison(es[i])
  }

  /** The question a negation or truth rule reduces `e1 => e2` to, under the chosen rules. */
  function Idiom(rules: Rules, e1: Expr, e2: Expr): (r: Option<(Expr, Expr)>)
    ensures r.Some? ==> Size(r.value.0) + Size(r.value.1) < Size(e1) + Size(e2)
    ensures r.Some? <==> NegationIdiomAsWritten(e1, e2).Some?
  {
    if rules.AsWritten? then NegationIdiomAsWritten(e1, e2) else NegationIdiom(e1, e2)
  }

  /**
   * `_implies(e1, e2)`: identical expressions, then a zero difference, then
   * the structural rules. An error is a translation error of the z3 rule,
   * which nothing catches.
   */
  function Implies(o: Oracles, rules: Rules, e1: Expr, e2: Expr): (r: Result<bool, Z3Error>)
    ensures NoComparison(e1) && NoComparison(e2) ==> r.Ok?
    decreases Size(e1) + Size(e2), 1
  {
    if e1 == e2 then Ok(true)
    else if o.zeroDifference(e1, e2) == Some(true) then Ok(true)
    else Dispatch(o, rules, e1, e2)
  }

  /** The structural rules of `_implies`, in their order; none firing gives false. */
  function Dispatch(o: Oracles, rules: Rules, e1: Expr, e2: Expr): (r: Result<bool, Z3Error>)
    ensures NoComparison(e1) && NoComparison(e2) ==> r.Ok?
    decreases Size(e1) + Size(e2), 0
  {
    if Idiom(rules, e1, e2).Some? then
      var q := Idiom(rules, e1, e2).value;
      Implies(o, rules, q.0, q.1)
    else if NotOrIdiom(e1, e2).Some? then
      var q := NotOrIdiom(e1, e2).value;
      match Implies(o, rules, q.0, q.1)
      case Err(err) => Err(err)
      case Ok(b) => if b then Implies(o, rules, q.2, BoolConst(true)) else Ok(false)
    else if e1.And? && e2.And? && |e1.args| == |e2.args| then AllPairs(o, rules, e1.args, e2.args)
    else if e1.Or? && e2.Or? && |e1.args| == |e2.args| then AllPairs(o, rules, e1.args, e2.args)
    else if e2.And? then AllOf(EachRight(o, rules, e1, e2.args))
    else if e1.And? then AnyOf(EachLeft(o, rules, e1.args, e2))
    else if e2.Or? then AnyOf(EachRight(o, rules, e1, e2.args))
    else if e1.Or? then AllOf(EachLeft(o, rules, e1.args, e2))
    else if e1.Func? && e2.Func? then
      if e1.name == e2.name && |e1.args| == |e2.args| then AllPairs(o, rules, e1.args, e2.args) else Ok(false)
    else if e1.Sym? && e2.Sym? then Ok(e1 == e2)
    else if e1.Rel? && e2.Rel? then
      if (e1.op == Eq) != (e2.op == Eq) then
        match ToZ3(e1)
        case Err(err) => Err(err)
        case Ok(t1) =>
          match ToZ3(e2)
          case Err(err) => Err(err)
          case Ok(t2) => Ok(o.z3Check(Conj([t1, Negate(t2)])) != Sat)
      else if IsAtom(e1.lhs) && IsAtom(e1.rhs) && IsAtom(e2.lhs) && IsAtom(e2.rhs) then
        Ok(o.unsatisfiable(e1, e2) == Some(true))
      else Ok(false)
    else Ok(false)
  }

  /** `all(_implies(x, y) for x, y in zip(xs, ys))`: stops at the first pair that fails. */
  function AllPairs(o: Oracles, rules: Rules, xs: seq<Expr>, ys: seq<Expr>): (r: Result<bool, Z3Error>)
    requires |xs| == |ys|
    ensures NoComparisons(xs) && NoComparisons(ys) ==> r.Ok?
    decreases SizeAll(xs) + SizeAll(ys), 2
  {
    if xs == [] then Ok(true)
    else
      match Implies(o, rules, xs[0], ys[0])
      case Err(err) => Err(err)
      case Ok(b) => if b then AllPairs(o, rules, xs[1..], ys[1..]) else Ok(false)
  }

  /** `[_implies(e1, y) for y in ys]`: every answer is computed before any is used. */
  function EachRight(o: Oracles, rules: Rules, e1: Expr, ys: seq<Expr>): (r: Result<seq<bool>, Z3Error>)
    ensures r.Ok? ==> |r.value| == |ys|
    ensures NoComparison(e1) && NoComparisons(ys) ==> r.Ok?
    decreases Size(e1) + SizeAll(ys), 2
  {
    if ys == [] then Ok([])
    else
      match Implies(o, rules, e1, ys[0])
      case Err(err) => Err(err)
      case Ok(b) =>
        match EachRight(o, rules, e1, ys[1..])
        case Err(err) => Err(err)
        case Ok(bs) => Ok([b] + bs)
  }

  /** `[_implies(x, e2) for x in xs]`. */
  function EachLeft(o: Oracles, rules: Rules, xs: seq<Expr>, e2: Expr): (r: Result<seq<bool>, Z3Error>)
    ensures r.Ok? ==> |r.value| == |xs|
    ensures NoComparisons(xs) && NoComparison(e2) ==> r.Ok?
    decreases SizeAll(xs) + Size(e2), 2
  {
    if xs == [] then Ok([])
    else
      match Implies(o, rules, xs[0], e2)
      case Err(err) => Err(err)
      case Ok(b) =>
        match EachLeft(o, rules, xs[1..], e2)
        case Err(err) => Err(err)
        case Ok(bs) => Ok([b] + bs)
  }

  /** `all(results)` of a computed list. */
  function AllOf(r: Result<seq<bool>, Z3Error>): Result<bool, Z3Error>
  {
    match r
    case Err(err) => Err(err)
    case Ok(bs) => Ok(forall i | 0 <= i < |bs| :: bs[i])
  }

  /** `any(results)` of a computed list. */
  function AnyOf(r: Result<seq<bool>, Z3Error>): Result<bool, Z3Error>
  {
    match r
    case Err(err) => Err(err)
    case Ok(bs) => Ok(exists i | 0 <= i < |bs| :: bs[i])
  }

  // ---------------------------------------------------------------------------
  // `compare`

  /** The verdict chosen by the two implication answers. */
  function SelectVerdict(forward: bool, backward: bool): (v: Verdict)
    ensures v == Equivalent <==> forward && backward
    ensures v == FirstStronger <==> forward && !backward
    ensures v == SecondStronger <==> !forward && backward
    ensures v == Unrelated <==> !forward && !backward
  {
    if forward && !backward then FirstStronger
    else if backward && !forward then SecondStronger
    else if forward && backward then Equivalent
    else Unrelated
  }


  /** What `compare` raises, by the stage that raises it. */
  datatype CompareError =
    | Lexing(lexError: Tokenizer.LexError)
    | Parsing(parseError: ParseError)
    | Lowering(lowerError: LowerError)
    | Simplifying
    | Translating(z3Error: Z3Error)

  /** Tokenize and parse one predicate. */
  function Front(p: string): (r: Result<Node, CompareError>)
    ensures r.Err? ==> r.error.Lexing? || r.error.Parsing?
    ensures r.Ok? ==> Tokenizer.Lex(p, 0).Ok?
  {
    match Tokenizer.Lex(p, 0)
    case Err(e) => Err(Lexing(e))
    case Ok(ts) =>
      match PrediParser.ParseTokens(ts)
      case Err(e) => Err(Parsing(e))
      case Ok(parsed) => Ok(parsed.node)
  }

  /**
   * `compare`: both predicates are tokenized and parsed, then lowered, then
   * simplified, then the two implications are checked, in that order; the
   * first stage that raises ends the comparison.
   */
  function Compare(o: Oracles, rules: Rules, p1: string, p2: string): (r: Result<Verdict, CompareError>)
    ensures r.Ok? ==> Front(p1).Ok? && Front(p2).Ok?
    ensures r.Err? && (r.error.Lexing? || r.error.Parsing?) <==> Front(p1).Err? || Front(p2).Err?
  {
    match Front(p1)
    case Err(e) => Err(e)
    case Ok(n1) =>
      match Front(p2)
      case Err(e) => Err(e)
      case Ok(n2) => CompareTrees(o, rules, n1, n2)
  }

  /** The stages of `compare` after parsing, on the two parse trees. */
  function CompareTrees(o: Oracles, rules: Rules, n1: Node, n2: Node): (r: Result<Verdict, CompareError>)
    ensures r.Err? ==> !r.error.Lexing? && !r.error.Parsing?
    ensures r.Err? && r.error.Lowering? <==> !Lowerable(rules, n1) || !Lowerable(rules, n2)
  {
    match Lower(rules, n1)
    case Err(e) => Err(Lowering(e))
    case Ok(x1) =>
      match Lower(rules, n2)
      case Err(e) => Err(Lowering(e))
      case Ok(x2) =>
        match o.simplify(x1)
        case None => Err(Simplifying)
        case Some(s1) =>
          match o.simplify(x2)
          case None => Err(Simplifying)
          case Some(s2) =>
            match Implies(o, rules, s1, s2)
            case Err(e) => Err(Translating(e))
            case Ok(forward) =>
              match Implies(o, rules, s2, s1)
              case Err(e) => Err(Translating(e))
              case Ok(backward) => Ok(SelectVerdict(forward, backward))
  }
}
