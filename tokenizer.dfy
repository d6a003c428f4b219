/**
 * The lexer of `src/tokenizer.py`: a priority-ordered table of patterns tried
 * at the current position, the first match winning; time-unit and
 * scientific literals folded into integer tokens (a scientific literal through
 * a double, as `int(float(...))` does); whitespace dropped.
 *
 * Each regular expression of the table is hand-coded as a matcher with the
 * semantics of Python's `re.match(text, pos)` (greedy, with backtracking);
 * `\b` looks at the character before `pos` as well.
 */
module Tokenizer {
  import opened Wrappers
  import opened Strings
  import opened Syntax
  import opened Binary64

  /** The shapes of the table's regular expressions. */
  datatype Pattern =
    | Keyword(word: string, tag: PlainTag)  // \b word \b, for a word that starts and ends with a word character
    | Literal(text: string, tag: PlainTag)  // the text itself
    | StringPattern          // "[^"]*"
    | FloatPattern           // \b\d+\.\d+\b
    | IntegerPattern         // \b\d+\b
    | AddressPattern         // 0x[0-9a-fA-F]{40}
    | BytesPattern           // 0x[0-9a-fA-F]+
    | TimeUnitPattern        // \b\d+\s*(seconds|minutes|hours|days|weeks)\b
    | IdentifierPattern      // [a-zA-Z_]\w*
    | ScientificPattern      // \d+e\d+
    | WhitespacePattern      // \s+

  /** The tags a keyword or a literal row carries: the two folded tags are kept for their own rows. */
  type PlainTag = t: Tag | !t.TimeUnit? && !t.Scientific? witness MsgSender

  /** The tag a row emits (`None`: whitespace, which emits nothing). */
  function TagOf(p: Pattern): Option<Tag>
  {
    match p
    case Keyword(_, tag) => Some(tag)
    case Literal(_, tag) => Some(tag)
    case StringPattern => Some(StringLiteral)
    case FloatPattern => Some(Float)
    case IntegerPattern => Some(Integer)
    case AddressPattern => Some(AddressLiteral)
    case BytesPattern => Some(BytesLiteral)
    case TimeUnitPattern => Some(TimeUnit)
    case IdentifierPattern => Some(Identifier)
    case ScientificPattern => Some(Scientific)
    case WhitespacePattern => None
  }

  /** The number of rows of the pattern table. */
  const Rows := 38

  /** The pattern table, row by row in priority order. */
  function Row(k: nat): Pattern
    requires k < Rows
  {
    match k
    case 0 => Keyword("msg.sender", MsgSender)
    case 1 => Keyword("msg.origin", MsgOrigin)
    case 2 => Keyword("require", Require)
    case 3 => Literal("==", Equal)
    case 4 => Literal("!=", NotEqual)
    case 5 => Literal(">=", GreaterEqual)
    case 6 => Literal("<=", LessEqual)
    case 7 => Literal(">", Greater)
    case 8 => Literal("<", Less)
    case 9 => Literal("&&", And)
    case 10 => Literal("||", Or)
    case 11 => Literal("!", Not)
    case 12 => Literal("&", BitwiseAnd)
    case 13 => Literal("?", Question)
    case 14 => Literal(":", Colon)
    case 15 => Literal("(", LParen)
    case 16 => Literal(")", RParen)
    case 17 => Literal("+", Plus)
    case 18 => Literal("-", Minus)
    case 19 => Literal("*", Multiply)
    case 20 => Literal("/", Divide)
    case 21 => Literal("%", Modulus)
    case 22 => Literal(".", Dot)
    case 23 => Literal(",", Comma)
    case 24 => Literal("=", Assign)
    case 25 => Literal("[", LBracket)
    case 26 => Literal("]", RBracket)
    case 27 => StringPattern
    case 28 => FloatPattern
    case 29 => IntegerPattern
    case 30 => Keyword("true", True)
    case 31 => Keyword("false", False)
    case 32 => AddressPattern
    case 33 => BytesPattern
    case 34 => TimeUnitPattern
    case 35 => IdentifierPattern
    case 36 => ScientificPattern
    case _ => WhitespacePattern
  }

  /** The time units and their lengths in seconds, in the alternation's order. */
  const Units: seq<(string, nat)> := [
    ("seconds", 1), ("minutes", 60), ("hours", 3600), ("days", 86400), ("weeks", 604800)
  ]

  /**
   * Why tokenizing stops: a character no row matches (the source's ValueError),
   * or a scientific literal whose double is infinite, which `int` refuses (the
   * OverflowError `int(float(value))` raises).
   */
  datatype LexError =
    | UnexpectedCharacter(character: char, position: nat)
    | InfiniteLiteral(lexeme: string, position: nat)

  // ---------------------------------------------------------------------------
  // The matchers

  predicate WordAt(s: string, i: int)
  {
    0 <= i < |s| && IsWordChar(s[i])
  }

  /** `\b` at index `i`: exactly one of the characters around `i` is a word character. */
  predicate Boundary(s: string, i: nat)
  {
    WordAt(s, i - 1) != WordAt(s, i)
  }

  /** The characters a match of `p` can start with. */
  predicate CanStart(p: Pattern, c: char)
  {
    match p
    case Keyword(w, _) => |w| > 0 && c == w[0]
    case Literal(t, _) => |t| > 0 && c == t[0]
    case StringPattern => c == '"'
    case FloatPattern => IsDigit(c)
    case IntegerPattern => IsDigit(c)
    case AddressPattern => c == '0'
    case BytesPattern => c == '0'
    case TimeUnitPattern => IsDigit(c)
    case IdentifierPattern => IsLetter(c) || c == '_'
    case ScientificPattern => IsDigit(c)
    case WhitespacePattern => IsSpace(c)
  }

  /** The unit of the alternation that is found at `i`, trying the units in order. */
  function UnitAt(s: string, i: nat, k: nat): (r: Option<nat>)
    requires k <= |Units|
    ensures r.Some? ==> k <= r.value < |Units| && At(s, i, Units[r.value].0)
    decreases |Units| - k
  {
    if k == |Units| then None
    else if At(s, i, Units[k].0) && Boundary(s, i + |Units[k].0|) then Some(k)
    else UnitAt(s, i, k + 1)
  }

  /** A time-unit match at `pos`: the end of its digits, the unit's row in `Units`, and its end. */
  function TimeUnitParts(s: string, pos: nat): (r: Option<(nat, nat, nat)>)
    requires pos < |s|
    ensures r.Some? ==> pos < r.value.0 <= r.value.2 <= |s| && r.value.1 < |Units|
    ensures r.Some? ==> AllChars(s[pos..r.value.0], IsDigit) && r.value.0 < r.value.2
  {
    var d := RunEnd(s, pos, IsDigit);
    if !Boundary(s, pos) || d == pos then None
    else
      var w := RunEnd(s, d, IsSpace);
      match UnitAt(s, w, 0)
      case None => None
      case Some(u) => Some((d, u, w + |Units[u].0|))
  }

  /** A scientific literal at `pos`: the index of its `e` and its end. */
  function ScientificParts(s: string, pos: nat): (r: Option<(nat, nat)>)
    requires pos < |s|
    ensures r.Some? ==> pos < r.value.0 < r.value.1 <= |s|
    ensures r.Some? ==> AllChars(s[pos..r.value.0], IsDigit) && AllChars(s[r.value.0 + 1..r.value.1], IsDigit)
  {
    var d := RunEnd(s, pos, IsDigit);
    if d == pos || d == |s| || s[d] != 'e' then None
    else
      var e := RunEnd(s, d + 1, IsDigit);
      if e == d + 1 then None else Some((d, e))
  }

  /** `\bword\b`. */
  function MatchKeyword(w: string, s: string, pos: nat): (r: Option<nat>)
    requires pos < |s|
    ensures r.Some? ==> |w| > 0 && s[pos] == w[0] && r.value == pos + |w| <= |s|
  {
    if |w| > 0 && Boundary(s, pos) && At(s, pos, w) && Boundary(s, pos + |w|)
    then Some(pos + |w|) else None
  }

  /** A fixed text. */
  function MatchLiteral(t: string, s: string, pos: nat): (r: Option<nat>)
    requires pos < |s|
    ensures r.Some? ==> |t| > 0 && s[pos] == t[0] && r.value == pos + |t| <= |s|
  {
    if |t| > 0 && At(s, pos, t) then Some(pos + |t|) else None
  }

  /** `"[^"]*"`. */
  function MatchString(s: string, pos: nat): (r: Option<nat>)
    requires pos < |s|
    ensures r.Some? ==> s[pos] == '"' && pos < r.value <= |s|
  {
    var e := RunEnd(s, pos + 1, c => c != '"');
    if s[pos] == '"' && e < |s| then Some(e + 1) else None
  }

  /** `\b\d+\.\d+\b`: only the longest digit runs can be followed by `.` and by a boundary. */
  function MatchFloat(s: string, pos: nat): (r: Option<nat>)
    requires pos < |s|
    ensures r.Some? ==> IsDigit(s[pos]) && pos < r.value <= |s|
  {
    var d := RunEnd(s, pos, IsDigit);
    if !Boundary(s, pos) || d == pos || d == |s| || s[d] != '.' then None
    else
      var e := RunEnd(s, d + 1, IsDigit);
      if e == d + 1 || !Boundary(s, e) then None else Some(e)
  }

  /** `\b\d+\b`. */
  function MatchInteger(s: string, pos: nat): (r: Option<nat>)
    requires pos < |s|
    ensures r.Some? ==> IsDigit(s[pos]) && r.value == RunEnd(s, pos, IsDigit)
  {
    var d := RunEnd(s, pos, IsDigit);
    if Boundary(s, pos) && d > pos && Boundary(s, d) then Some(d) else None
  }

  /** `0x[0-9a-fA-F]{40}`. */
  function MatchAddress(s: string, pos: nat): (r: Option<nat>)
    requires pos < |s|
    ensures r.Some? ==> s[pos] == '0' && r.value == pos + 42 <= |s|
  {
    if At(s, pos, "0x") && pos + 42 <= |s| && AllChars(s[pos + 2..pos + 42], IsHexDigit)
    then Some(pos + 42) else None
  }

  /** `0x[0-9a-fA-F]+`. */
  function MatchBytes(s: string, pos: nat): (r: Option<nat>)
    requires pos < |s|
    ensures r.Some? ==> s[pos] == '0' && pos + 2 < r.value <= |s|
  {
    if At(s, pos, "0x") then
      var e := RunEnd(s, pos + 2, IsHexDigit);
      if e > pos + 2 then Some(e) else None
    else None
  }

  /** `\b\d+\s*(seconds|minutes|hours|days|weeks)\b`. */
  function MatchTimeUnit(s: string, pos: nat): (r: Option<nat>)
    requires pos < |s|
    ensures r.Some? ==> IsDigit(s[pos]) && TimeUnitParts(s, pos).Some? && r.value == TimeUnitParts(s, pos).value.2
    ensures r.Some? ==> pos < r.value <= |s|
  {
    match TimeUnitParts(s, pos)
    case None => None
    case Some(parts) => assert IsDigit(s[pos..parts.0][0]); Some(parts.2)
  }

  /** `[a-zA-Z_]\w*`. */
  function MatchIdentifier(s: string, pos: nat): (r: Option<nat>)
    requires pos < |s|
    ensures r.Some? ==> (IsLetter(s[pos]) || s[pos] == '_') && r.value == RunEnd(s, pos + 1, IsWordChar)
  {
    if IsLetter(s[pos]) || s[pos] == '_' then Some(RunEnd(s, pos + 1, IsWordChar)) else None
  }

  /** `\d+e\d+`. */
  function MatchScientific(s: string, pos: nat): (r: Option<nat>)
    requires pos < |s|
    ensures r.Some? ==> IsDigit(s[pos]) && ScientificParts(s, pos).Some? && r.value == ScientificParts(s, pos).value.1
    ensures r.Some? ==> pos < r.value <= |s|
  {
    match ScientificParts(s, pos)
    case None => None
    case Some(parts) => assert IsDigit(s[pos..parts.0][0]); Some(parts.1)
  }

  /** `\s+`. */
  function MatchWhitespace(s: string, pos: nat): (r: Option<nat>)
    requires pos < |s|
    ensures r.Some? ==> IsSpace(s[pos]) && r.value == RunEnd(s, pos, IsSpace)
  {
    if IsSpace(s[pos]) then Some(RunEnd(s, pos, IsSpace)) else None
  }

  /** `re.match(p, s, pos)`: the end of the match, if there is one. */
  function MatchPattern(p: Pattern, s: string, pos: nat): (r: Option<nat>)
    requires pos < |s|
    ensures r.Some? ==> pos < r.value <= |s| && CanStart(p, s[pos])
  {
    match p
    case Keyword(w, _) => MatchKeyword(w, s, pos)
    case Literal(t, _) => MatchLiteral(t, s, pos)
    case StringPattern => MatchString(s, pos)
    case FloatPattern => MatchFloat(s, pos)
    case IntegerPattern => MatchInteger(s, pos)
    case AddressPattern => MatchAddress(s, pos)
    case BytesPattern => MatchBytes(s, pos)
    case TimeUnitPattern => MatchTimeUnit(s, pos)
    case IdentifierPattern => MatchIdentifier(s, pos)
    case ScientificPattern => MatchScientific(s, pos)
    case WhitespacePattern => MatchWhitespace(s, pos)
  }

  /** The pattern of the first table row, from row `k` on, that matches at `pos`, with the match's end. */
  function FirstMatch(s: string, pos: nat, k: nat): (r: Option<(Pattern, nat)>)
    requires pos < |s| && k <= Rows
    ensures r.Some? ==> MatchPattern(r.value.0, s, pos) == Some(r.value.1)
    decreases Rows - k
  {
    if k == Rows then None
    else
      match MatchPattern(Row(k), s, pos)
      case Some(e) => Some((Row(k), e))
      case None => FirstMatch(s, pos, k + 1)
  }

  function Pow10(n: nat): nat
  {
    if n == 0 then 1 else 10 * Pow10(n - 1)
  }

  /** The number of seconds a time-unit match stands for: the number times the unit's length. */
  function Seconds(s: string, pos: nat, parts: (nat, nat, nat)): nat
    requires pos < parts.0 <= |s| && parts.1 < |Units| && AllChars(s[pos..parts.0], IsDigit)
  {
    DecimalValue(s[pos..parts.0]) * Units[parts.1].1
  }

  /** The exact value of a scientific literal `M e X`: M times ten to the X. */
  function ScientificValue(s: string, pos: nat, parts: (nat, nat)): nat
    requires pos < parts.0 < parts.1 <= |s|
    requires AllChars(s[pos..parts.0], IsDigit) && AllChars(s[parts.0 + 1..parts.1], IsDigit)
  {
    DecimalValue(s[pos..parts.0]) * Pow10(DecimalValue(s[parts.0 + 1..parts.1]))
  }

  /**
   * Whether the match of `p` from `pos` can be turned into tokens: every match
   * can, except a scientific literal whose value rounds to an infinite double.
   */
  predicate Folds(p: Pattern, s: string, pos: nat, end: nat)
    requires pos < end <= |s|
    requires MatchPattern(p, s, pos) == Some(end)
  {
    p.ScientificPattern? ==> NearestDouble(ScientificValue(s, pos, ScientificParts(s, pos).value)).Some?
  }

  /**
   * The token a match of `p` from `pos` to `end` emits: none for whitespace,
   * an INTEGER holding the number of seconds for a time unit, an INTEGER holding
   * the value's nearest double for a scientific literal, and the matched text
   * with the row's tag otherwise. (The source tests the tag; TIME_UNIT and
   * SCIENTIFIC are the tags of exactly those two rows.)
   */
  function Emit(p: Pattern, s: string, pos: nat, end: nat): (ts: seq<Token>)
    requires pos < end <= |s|
    requires MatchPattern(p, s, pos) == Some(end)
    requires Folds(p, s, pos, end)
    ensures |ts| <= 1
    ensures forall i | 0 <= i < |ts| :: ts[i].tag != TimeUnit && ts[i].tag != Scientific
    ensures forall i | 0 <= i < |ts| :: |ts[i].lexeme| > 0
    ensures ts == [] <==> p.WhitespacePattern?
  {
    match p
    case WhitespacePattern => []
    case TimeUnitPattern =>
      [Token(NatToString(Seconds(s, pos, TimeUnitParts(s, pos).value)), Integer)]
    case ScientificPattern =>
      [Token(NatToString(NearestDouble(ScientificValue(s, pos, ScientificParts(s, pos).value)).value), Integer)]
    case _ => [Token(s[pos..end], TagOf(p).value)]
  }

  /** What tokenizing `s` from `pos` to its end yields. */
  function Lex(s: string, pos: nat): (r: Result<seq<Token>, LexError>)
    requires pos <= |s|
    ensures r.Ok? ==> forall i | 0 <= i < |r.value| :: r.value[i].tag != TimeUnit && r.value[i].tag != Scientific
    ensures r.Ok? ==> forall i | 0 <= i < |r.value| :: |r.value[i].lexeme| > 0
    ensures r.Err? ==> pos <= r.error.position < |s|
    ensures r.Err? && r.error.UnexpectedCharacter? ==>
              r.error.character == s[r.error.position] && FirstMatch(s, r.error.position, 0).None?
    ensures r.Err? && r.error.InfiniteLiteral? ==>
              var m := FirstMatch(s, r.error.position, 0);
              m.Some? && m.value.0.ScientificPattern? && !Folds(m.value.0, s, r.error.position, m.value.1)
              && r.error.lexeme == s[r.error.position..m.value.1]
    decreases |s| - pos
  {
    if pos == |s| then Ok([])
    else
      match FirstMatch(s, pos, 0)
      case None => Err(UnexpectedCharacter(s[pos], pos))
      case Some((p, end)) =>
        if !Folds(p, s, pos, end) then Err(InfiniteLiteral(s[pos..end], pos))
        else match Lex(s, end)
        case Err(e) => Err(e)
        case Ok(rest) => Ok(Emit(p, s, pos, end) + rest)
  }

  /** `ts` followed by the tokens of `r`, or the error of `r`. */
  function Prefixed(ts: seq<Token>, r: Result<seq<Token>, LexError>): Result<seq<Token>, LexError>
  {
    match r
    case Ok(rest) => Ok(ts + rest)
    case Err(e) => Err(e)
  }

  lemma PrefixedAppend(a: seq<Token>, b: seq<Token>, r: Result<seq<Token>, LexError>)
    ensures Prefixed(a, Prefixed(b, r)) == Prefixed(a + b, r)
  {
    if r.Ok? {
      assert a + (b + r.value) == (a + b) + r.value;
    }
  }

  lemma PrefixedEmpty(ts: seq<Token>, r: Result<seq<Token>, LexError>)
    ensures Prefixed([], r) == r
    ensures Prefixed(ts, Ok([])) == Ok(ts)
  {
    if r.Ok? {
      assert [] + r.value == r.value;
    }
    assert ts + [] == ts;
  }

  lemma LexAtEnd(s: string)
    ensures Lex(s, |s|) == Ok([])
  {
  }

  /** One step of the scan: the first matching row's tokens, then the rest. */
  lemma LexStep(s: string, pos: nat, p: Pattern, end: nat)
    requires pos < |s| && FirstMatch(s, pos, 0) == Some((p, end))
    ensures pos < end <= |s|
    ensures Folds(p, s, pos, end) ==> Lex(s, pos) == Prefixed(Emit(p, s, pos, end), Lex(s, end))
    ensures !Folds(p, s, pos, end) ==> Lex(s, pos) == Err(InfiniteLiteral(s[pos..end], pos))
  {
  }

  /**
   * `Tokenizer.tokenize`: scan left to right; at each position try the table
   * in order and take the first match; a character no pattern matches raises,
   * and so does a scientific literal too large for a double.
   */
  method Tokenize(text: string) returns (r: Result<seq<Token>, LexError>)
    ensures r == Lex(text, 0)
  {
    var tokens: seq<Token> := [];
    var position := 0;
    var length := |text|;
    PrefixedEmpty(tokens, Lex(text, 0));
    while position < length
      invariant position <= length
      invariant Lex(text, 0) == Prefixed(tokens, Lex(text, position))
      decreases length - position
    {
      var matched := false;
      var k := 0;
      while k < Rows
        invariant k <= Rows
        invariant FirstMatch(text, position, 0) == FirstMatch(text, position, k)
      {
        var m := MatchPattern(Row(k), text, position);
        if m.Some? {
          LexStep(text, position, Row(k), m.value);
          if !Folds(Row(k), text, position, m.value) {
            return Err(InfiniteLiteral(text[position..m.value], position));
          }
          var emitted := Emit(Row(k), text, position, m.value);
          PrefixedAppend(tokens, emitted, Lex(text, m.value));
          tokens := tokens + emitted;
          position := m.value;
          matched := true;
          break;
        }
        k := k + 1;
      }
      if !matched {
        return Err(UnexpectedCharacter(text[position], position));
      }
    }
    LexAtEnd(text);
    PrefixedEmpty(tokens, Lex(text, 0));
    return Ok(tokens);
  }
}
