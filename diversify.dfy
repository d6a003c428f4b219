/**
 * The predicate diversifier (src/predi/diversify_predicates.py): five string
 * rewrites of a predicate, one of them picked at random. The random choices
 * are parameters here: the index of the strategy, and the index of the
 * template for the two strategies that pick one of four.
 */
module Diversify {
  import opened Strings

  // ---------------------------------------------------------------------------
  // `change_logical_operators`

  /**
   * Every `&&` becomes `||` when there is one; otherwise every `||` becomes
   * `&&`. The length is kept, and the connective replaced is gone.
   */
  function ChangeLogicalOperators(p: string): (r: string)
    ensures |r| == |p|
    ensures Occurs("&&", p) ==> !Occurs("&&", r) && Occurs("||", r)
    ensures !Occurs("&&", p) && Occurs("||", p) ==> !Occurs("||", r) && Occurs("&&", r)
    ensures !Occurs("&&", p) && !Occurs("||", p) ==> r == p
  {
    if Occurs("&&", p) then
      ReplaceAllLength(p, "&&", "||");
      ReplaceAllRemoves(p, "&&", "||");
      ReplaceAllLeavesReplacement(p, "&&", "||");
      ReplaceAll(p, "&&", "||")
    else if Occurs("||", p) then
      ReplaceAllLength(p, "||", "&&");
      ReplaceAllRemoves(p, "||", "&&");
      ReplaceAllLeavesReplacement(p, "||", "&&");
      ReplaceAll(p, "||", "&&")
    else p
  }

  // ---------------------------------------------------------------------------
  // `negate_condition`

  /** The six comparison operators, in the order `negate_condition` looks for them. */
  predicate IsComparison(op: string)
  {
    op == "==" || op == "!=" || op == "<=" || op == ">=" || op == "<" || op == ">"
  }

  /** What a comparison operator means between two integers. */
  predicate Compares(op: string, a: int, b: int)
    requires IsComparison(op)
  {
    if op == "==" then a == b
    else if op == "!=" then a != b
    else if op == "<=" then a <= b
    else if op == ">=" then a >= b
    else if op == "<" then a < b
    else a > b
  }

  /** The operator each comparison is replaced by: its negation. */
  function Complement(op: string): (c: string)
    requires IsComparison(op)
    ensures IsComparison(c)
    ensures forall a: int, b: int :: Compares(c, a, b) == !Compares(op, a, b)
  {
    if op == "==" then "!="
    else if op == "!=" then "=="
    else if op == "<=" then ">"
    else if op == ">=" then "<"
    else if op == "<" then ">="
    else "<="
  }

  /**
   * Every occurrence of the first comparison operator present, in the order
   * `==`, `!=`, `<=`, `>=`, `<`, `>`, is replaced by its complement; with
   * none present the predicate is wrapped in `!( )`.
   */
  function NegateCondition(p: string): (r: string)
  {
    if Occurs("==", p) then ReplaceAll(p, "==", Complement("=="))
    else if Occurs("!=", p) then ReplaceAll(p, "!=", Complement("!="))
    else if Occurs("<=", p) then ReplaceAll(p, "<=", Complement("<="))
    else if Occurs(">=", p) then ReplaceAll(p, ">=", Complement(">="))
    else if Occurs("<", p) then ReplaceAll(p, "<", Complement("<"))
    else if Occurs(">", p) then ReplaceAll(p, ">", Complement(">"))
    else "!(" + p + ")"
  }

  // ---------------------------------------------------------------------------
  // `add_complexity` and `random_modification`

  /** The four conjuncts and disjuncts `add_complexity` can append. */
  function ComplexitySuffix(k: nat): string
    requires k < 4
  {
    match k
    case 0 => " || (a < b)"
    case 1 => " && (a > b)"
    case 2 => " || (msg.value > 0)"
    case _ => " && (msg.value == 0)"
  }

  /** The four conjuncts and disjuncts `random_modification` can append. */
  function ModificationSuffix(k: nat): string
    requires k < 4
  {
    match k
    case 0 => " && (true)"
    case 1 => " || (false)"
    case 2 => " && (msg.sender != address(0))"
    case _ => " || (block.number > 0)"
  }

  /** The parenthesised predicate followed by one of the suffixes. */
  function Template(p: string, suffix: string): (r: string)
    ensures |r| == |p| + 2 + |suffix|
    ensures r[..|p| + 2] == "(" + p + ")" && r[|p| + 2..] == suffix
  {
    "(" + p + ")" + suffix
  }

  /** `add_complexity`: template `k` of four. */
  function AddComplexity(p: string, k: nat): (r: string)
    requires k < 4
    ensures |r| > |p| + 2 && r[..|p| + 2] == "(" + p + ")"
  {
    Template(p, ComplexitySuffix(k))
  }

  /** `random_modification`: template `k` of four. */
  function RandomModification(p: string, k: nat): (r: string)
    requires k < 4
    ensures |r| > |p| + 2 && r[..|p| + 2] == "(" + p + ")"
  {
    Template(p, ModificationSuffix(k))
  }

  // ---------------------------------------------------------------------------
  // `simplify_condition`

  /**
   * When a connective occurs: the text before the first `&&`, stripped, then
   * the text of that before the first `||`, stripped. Otherwise the predicate
   * itself.
   */
  function SimplifyCondition(p: string): (r: string)
  {
    if Occurs("&&", p) || Occurs("||", p) then Strip(SplitFirst(Strip(SplitFirst(p, "&&")), "||"))
    else p
  }

  // ---------------------------------------------------------------------------
  // `advanced_diversify_predicate`

  /**
   * `advanced_diversify_predicate`: strategy `s` of the list
   * `[change_logical_operators, negate_condition, add_complexity,
   * simplify_condition, random_modification]` applied to the predicate; `k`
   * is the template the two template strategies pick, ignored by the others.
   */
  function AdvancedDiversify(p: string, s: nat, k: nat): (r: string)
    requires s < 5 && k < 4
    ensures || r == ChangeLogicalOperators(p)
            || r == NegateCondition(p)
            || r == SimplifyCondition(p)
            || (exists j | 0 <= j < 4 :: r == AddComplexity(p, j) || r == RandomModification(p, j))
  {
    match s
    case 0 => ChangeLogicalOperators(p)
    case 1 => NegateCondition(p)
    case 2 => AddComplexity(p, k)
    case 3 => SimplifyCondition(p)
    case _ => RandomModification(p, k)
  }
}
