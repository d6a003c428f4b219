/**
 * What the order of the lexer's pattern table implies: which row wins at a
 * position, for the operators, keywords, words and numbers of the predicate
 * language, and the tokens a few complete predicates yield.
 *
 * Each property is proved in two halves that are kept apart: the rows before
 * the winning row `k` fail (`FirstMatch(s, pos, 0) == FirstMatch(s, pos, k)`),
 * and row `k` matches (`FirstMatch(s, pos, k) == Some(...)`).
 */
module TokenizerProperties {
  import opened Wrappers
  import opened Strings
  import opened Syntax
  import opened Tokenizer
  import opened Binary64

  // ---------------------------------------------------------------------------
  // Scanning the table

  /** Rows that do not match are passed over. */
  lemma {:induction false} FirstMatchSkip(s: string, pos: nat, j: nat, k: nat)
    requires pos < |s| && j <= k <= Rows
    requires forall i | j <= i < k :: MatchPattern(Row(i), s, pos).None?
    ensures FirstMatch(s, pos, j) == FirstMatch(s, pos, k)
    decreases k - j
  {
    if j < k {
      assert MatchPattern(Row(j), s, pos).None?;
      FirstMatchSkip(s, pos, j + 1, k);
    }
  }

  /** A row that does not match hands the scan to the next row. */
  lemma FirstMatchPass(s: string, pos: nat, j: nat)
    requires pos < |s| && j < Rows && MatchPattern(Row(j), s, pos).None?
    ensures FirstMatch(s, pos, j) == FirstMatch(s, pos, j + 1)
  {
  }

  /** Once row `k` is reached, a match of its pattern is the first match. */
  lemma RowMatchesFirst(s: string, pos: nat, k: nat, p: Pattern, end: nat)
    requires pos < |s| && k < Rows && Row(k) == p && MatchPattern(p, s, pos) == Some(end)
    ensures FirstMatch(s, pos, k) == Some((p, end))
  {
  }

  /** One step of the scan, with the tokens the first matching row emits given. */
  lemma LexStepTokens(s: string, pos: nat, p: Pattern, end: nat, ts: seq<Token>)
    requires pos < |s|
    requires FirstMatch(s, pos, 0) == Some((p, end))
    requires pos < end <= |s| && !p.ScientificPattern?
    requires Emit(p, s, pos, end) == ts
    ensures Lex(s, pos) == Prefixed(ts, Lex(s, end))
  {
    LexStep(s, pos, p, end);
  }

  /** A character no row can start with stops the scan with an error, wherever it occurs. */
  lemma UnmatchedCharacterRaises(s: string, pos: nat)
    requires pos < |s| && forall i | 0 <= i < Rows :: !CanStart(Row(i), s[pos])
    ensures Lex(s, pos) == Err(UnexpectedCharacter(s[pos], pos))
  {
    FirstMatchSkip(s, pos, 0, Rows);
  }

  /** The rows whose pattern is a fixed text: the keywords and the operators. */
  predicate TextRow(i: nat)
  {
    i < 27 || i == 30 || i == 31
  }

  /** The first character of a fixed-text row. */
  function Lead(i: nat): char
    requires TextRow(i)
  {
    match i
    case 0 => 'm'
    case 1 => 'm'
    case 2 => 'r'
    case 3 => '='
    case 4 => '!'
    case 5 => '>'
    case 6 => '<'
    case 7 => '>'
    case 8 => '<'
    case 9 => '&'
    case 10 => '|'
    case 11 => '!'
    case 12 => '&'
    case 13 => '?'
    case 14 => ':'
    case 15 => '('
    case 16 => ')'
    case 17 => '+'
    case 18 => '-'
    case 19 => '*'
    case 20 => '/'
    case 21 => '%'
    case 22 => '.'
    case 23 => ','
    case 24 => '='
    case 25 => '['
    case 26 => ']'
    case 30 => 't'
    case _ => 'f'
  }

  /** A fixed-text row can start only with its first character. */
  lemma LeadOfRow(i: nat, c: char)
    requires TextRow(i)
    ensures CanStart(Row(i), c) <==> c == Lead(i)
  {
  }

  // ---------------------------------------------------------------------------
  // Whitespace and the unreachable fallback

  /** The rows before the last start with no whitespace character. */
  lemma OnlyLastRowStartsWithSpace(c: char, i: nat)
    requires IsSpace(c) && i < Rows - 1
    ensures !CanStart(Row(i), c)
  {
    if TextRow(i) {
      LeadOfRow(i, c);
    }
  }

  lemma WhitespaceRowReached(s: string, pos: nat)
    requires pos < |s| && IsSpace(s[pos])
    ensures FirstMatch(s, pos, 0) == FirstMatch(s, pos, 37)
  {
    forall i | 0 <= i < 37
      ensures MatchPattern(Row(i), s, pos).None?
    {
      OnlyLastRowStartsWithSpace(s[pos], i);
    }
    FirstMatchSkip(s, pos, 0, 37);
  }

  lemma WhitespaceRowMatches(s: string, pos: nat)
    requires pos < |s| && IsSpace(s[pos])
    ensures pos < RunEnd(s, pos, IsSpace)
    ensures MatchPattern(WhitespacePattern, s, pos) == Some(RunEnd(s, pos, IsSpace))
    ensures Emit(WhitespacePattern, s, pos, RunEnd(s, pos, IsSpace)) == []
    ensures FirstMatch(s, pos, 37) == Some((WhitespacePattern, RunEnd(s, pos, IsSpace)))
  {
    RowMatchesFirst(s, pos, 37, WhitespacePattern, RunEnd(s, pos, IsSpace));
  }

  lemma WhitespaceFirst(s: string, pos: nat)
    requires pos < |s| && IsSpace(s[pos])
    ensures pos < RunEnd(s, pos, IsSpace)
    ensures MatchPattern(WhitespacePattern, s, pos) == Some(RunEnd(s, pos, IsSpace))
    ensures Emit(WhitespacePattern, s, pos, RunEnd(s, pos, IsSpace)) == []
    ensures FirstMatch(s, pos, 0) == Some((WhitespacePattern, RunEnd(s, pos, IsSpace)))
  {
    WhitespaceRowReached(s, pos);
    WhitespaceRowMatches(s, pos);
  }

  /** A whitespace run produces no token: tokenizing resumes after it. */
  lemma WhitespaceEmitsNothing(s: string, pos: nat)
    requires pos < |s| && IsSpace(s[pos])
    ensures Lex(s, pos) == Lex(s, RunEnd(s, pos, IsSpace))
  {
    var end := RunEnd(s, pos, IsSpace);
    WhitespaceFirst(s, pos);
    LexStepTokens(s, pos, WhitespacePattern, end, []);
    PrefixedEmpty([], Lex(s, end));
  }

  /** The rows before row `k` start with characters other than `c`. */
  lemma NoEarlierRowStartsWith(c: char, k: nat, i: nat)
    requires (c == '(' && k == 15) || (c == ')' && k == 16) || (c == ',' && k == 23)
    requires i < k
    ensures !CanStart(Row(i), c)
  {
    if TextRow(i) {
      LeadOfRow(i, c);
    }
  }

  lemma DelimiterRowReached(s: string, pos: nat, k: nat)
    requires pos < |s|
    requires (s[pos] == '(' && k == 15) || (s[pos] == ')' && k == 16) || (s[pos] == ',' && k == 23)
    ensures FirstMatch(s, pos, 0) == FirstMatch(s, pos, k)
  {
    forall i | 0 <= i < k
      ensures MatchPattern(Row(i), s, pos).None?
    {
      NoEarlierRowStartsWith(s[pos], k, i);
    }
    FirstMatchSkip(s, pos, 0, k);
  }

  /** A one-character literal row matches that character and emits it with its tag. */
  lemma SingleRowMatches(s: string, pos: nat, k: nat, t: string, tag: PlainTag)
    requires pos < |s| && k < Rows && Row(k) == Literal(t, tag) && |t| == 1 && s[pos] == t[0]
    ensures MatchPattern(Literal(t, tag), s, pos) == Some(pos + 1)
    ensures Emit(Literal(t, tag), s, pos, pos + 1) == [Token(t, tag)]
    ensures FirstMatch(s, pos, k) == Some((Literal(t, tag), pos + 1))
  {
    assert s[pos..pos + 1] == t;
    RowMatchesFirst(s, pos, k, Literal(t, tag), pos + 1);
  }

  /**
   * The fallback after the table loop, which emits LPAREN, RPAREN or COMMA for
   * a lone `(`, `)` or `,`, is unreachable: the rows of those three always match.
   */
  lemma DelimitersAlwaysMatch(s: string, pos: nat)
    requires pos < |s| && (s[pos] == '(' || s[pos] == ')' || s[pos] == ',')
    ensures FirstMatch(s, pos, 0).Some?
  {
    if s[pos] == '(' {
      SingleRowMatches(s, pos, 15, "(", LParen);
      DelimiterRowReached(s, pos, 15);
    } else if s[pos] == ')' {
      SingleRowMatches(s, pos, 16, ")", RParen);
      DelimiterRowReached(s, pos, 16);
    } else {
      SingleRowMatches(s, pos, 23, ",", Comma);
      DelimiterRowReached(s, pos, 23);
    }
  }

  // ---------------------------------------------------------------------------
  // Keywords

  /** A keyword row matches its word between two word boundaries and emits it with its tag. */
  lemma KeywordRowMatches(s: string, pos: nat, k: nat, w: string, tag: PlainTag)
    requires k < Rows && Row(k) == Keyword(w, tag) && |w| > 0
    requires Boundary(s, pos) && At(s, pos, w) && Boundary(s, pos + |w|)
    ensures pos < |s| && s[pos] == w[0]
    ensures MatchPattern(Keyword(w, tag), s, pos) == Some(pos + |w|)
    ensures Emit(Keyword(w, tag), s, pos, pos + |w|) == [Token(w, tag)]
    ensures FirstMatch(s, pos, k) == Some((Keyword(w, tag), pos + |w|))
  {
    assert s[pos..pos + |w|][0] == s[pos];
    RowMatchesFirst(s, pos, k, Keyword(w, tag), pos + |w|);
  }

  /** `msg.sender` is one MSG_SENDER token, not an identifier, a dot and an identifier. */
  lemma MsgSenderIsOneToken(s: string, pos: nat)
    requires Boundary(s, pos) && At(s, pos, "msg.sender") && Boundary(s, pos + 10)
    ensures Lex(s, pos) == Prefixed([Token("msg.sender", MsgSender)], Lex(s, pos + 10))
  {
    KeywordRowMatches(s, pos, 0, "msg.sender", MsgSender);
    LexStepTokens(s, pos, Keyword("msg.sender", MsgSender), pos + 10, [Token("msg.sender", MsgSender)]);
  }

  lemma OriginRowReached(s: string, pos: nat)
    requires pos < |s| && At(s, pos, "msg.origin")
    ensures FirstMatch(s, pos, 0) == FirstMatch(s, pos, 1)
  {
    assert s[pos..pos + 10][4] == 'o';
    assert !At(s, pos, "msg.sender") by {
      assert "msg.sender"[4] == 's';
    }
    FirstMatchSkip(s, pos, 0, 1);
  }

  lemma OriginFirst(s: string, pos: nat)
    requires Boundary(s, pos) && At(s, pos, "msg.origin") && Boundary(s, pos + 10)
    ensures pos + 10 <= |s|
    ensures MatchPattern(Keyword("msg.origin", MsgOrigin), s, pos) == Some(pos + 10)
    ensures Emit(Keyword("msg.origin", MsgOrigin), s, pos, pos + 10) == [Token("msg.origin", MsgOrigin)]
    ensures FirstMatch(s, pos, 0) == Some((Keyword("msg.origin", MsgOrigin), pos + 10))
  {
    KeywordRowMatches(s, pos, 1, "msg.origin", MsgOrigin);
    OriginRowReached(s, pos);
  }

  /** `msg.origin` is one MSG_ORIGIN token. */
  lemma MsgOriginIsOneToken(s: string, pos: nat)
    requires Boundary(s, pos) && At(s, pos, "msg.origin") && Boundary(s, pos + 10)
    ensures Lex(s, pos) == Prefixed([Token("msg.origin", MsgOrigin)], Lex(s, pos + 10))
  {
    OriginFirst(s, pos);
    LexStepTokens(s, pos, Keyword("msg.origin", MsgOrigin), pos + 10, [Token("msg.origin", MsgOrigin)]);
  }

  /** No row before the `true` row starts with `t`, none before the `false` row with `f`. */
  lemma BooleanRowsFirstForTheirLetter(c: char, k: nat, i: nat)
    requires (c == 't' && k == 30) || (c == 'f' && k == 31)
    requires i < k
    ensures !CanStart(Row(i), c)
  {
    if TextRow(i) {
      LeadOfRow(i, c);
    }
  }

  lemma BooleanRowReached(s: string, pos: nat, k: nat)
    requires pos < |s|
    requires (s[pos] == 't' && k == 30) || (s[pos] == 'f' && k == 31)
    ensures FirstMatch(s, pos, 0) == FirstMatch(s, pos, k)
  {
    forall i | 0 <= i < k
      ensures MatchPattern(Row(i), s, pos).None?
    {
      BooleanRowsFirstForTheirLetter(s[pos], k, i);
    }
    FirstMatchSkip(s, pos, 0, k);
  }

  lemma BooleanWordFirst(s: string, pos: nat, k: nat, word: string, tag: PlainTag)
    requires (k == 30 && word == "true" && tag == True) || (k == 31 && word == "false" && tag == False)
    requires Boundary(s, pos) && At(s, pos, word) && Boundary(s, pos + |word|)
    ensures pos < pos + |word| <= |s|
    ensures MatchPattern(Keyword(word, tag), s, pos) == Some(pos + |word|)
    ensures Emit(Keyword(word, tag), s, pos, pos + |word|) == [Token(word, tag)]
    ensures FirstMatch(s, pos, 0) == Some((Keyword(word, tag), pos + |word|))
  {
    assert s[pos..pos + |word|][0] == s[pos];
    assert Row(k) == Keyword(word, tag);
    KeywordRowMatches(s, pos, k, word, tag);
    BooleanRowReached(s, pos, k);
  }

  /** `true` and `false` are boolean tokens, not identifiers. */
  lemma BooleanLiteralWins(s: string, pos: nat, word: string, tag: PlainTag)
    requires (word == "true" && tag == True) || (word == "false" && tag == False)
    requires Boundary(s, pos) && At(s, pos, word) && Boundary(s, pos + |word|)
    ensures Lex(s, pos) == Prefixed([Token(word, tag)], Lex(s, pos + |word|))
  {
    if word == "true" {
      TrueToken(s, pos);
    } else {
      FalseToken(s, pos);
    }
  }

  lemma TrueToken(s: string, pos: nat)
    requires Boundary(s, pos) && At(s, pos, "true") && Boundary(s, pos + 4)
    ensures Lex(s, pos) == Prefixed([Token("true", True)], Lex(s, pos + 4))
  {
    BooleanWordFirst(s, pos, 30, "true", True);
    LexStepTokens(s, pos, Keyword("true", True), pos + 4, [Token("true", True)]);
  }

  lemma FalseToken(s: string, pos: nat)
    requires Boundary(s, pos) && At(s, pos, "false") && Boundary(s, pos + 5)
    ensures Lex(s, pos) == Prefixed([Token("false", False)], Lex(s, pos + 5))
  {
    BooleanWordFirst(s, pos, 31, "false", False);
    LexStepTokens(s, pos, Keyword("false", False), pos + 5, [Token("false", False)]);
  }

  // ---------------------------------------------------------------------------
  // Operators

  /** Where a two-character text occurs, a text that differs from it in its first one or two characters does not. */
  lemma DifferentTextNotAt(s: string, pos: nat, t: string, u: string)
    requires At(s, pos, t) && |t| == 2 && 0 < |u| <= 2
    requires u[0] != t[0] || (|u| == 2 && u[1] != t[1])
    ensures !At(s, pos, u)
  {
    assert s[pos..pos + 2][0] == t[0] && s[pos..pos + 2][1] == t[1];
    if pos + |u| <= |s| {
      if u[0] != t[0] {
        assert s[pos..pos + |u|][0] != u[0];
      } else {
        assert s[pos..pos + |u|][1] != u[1];
      }
    }
  }

  /** The rows of `==`, `!=`, `>=`, `<=`, `&&` and `||`. */
  predicate PairRow(k: nat)
  {
    3 <= k <= 10 && k != 7 && k != 8
  }

  lemma PairRowIsPair(k: nat)
    requires PairRow(k)
    ensures Row(k).Literal? && |Row(k).text| == 2
  {
  }

  /** Each two-character operator differs from every earlier operator row in its first or second character. */
  lemma EarlierOperatorRowDiffers(k: nat, i: nat)
    requires PairRow(k) && 3 <= i < k
    ensures Row(i).Literal? && 0 < |Row(i).text| <= 2
    ensures Row(i).text[0] != Row(k).text[0] || (|Row(i).text| == 2 && Row(i).text[1] != Row(k).text[1])
  {
  }

  lemma PairRowReached(s: string, pos: nat, k: nat)
    requires PairRow(k) && At(s, pos, Row(k).text)
    ensures pos < |s| && FirstMatch(s, pos, 0) == FirstMatch(s, pos, k)
  {
    PairRowIsPair(k);
    assert s[pos..pos + 2][0] == s[pos];
    forall i | 0 <= i < k
      ensures MatchPattern(Row(i), s, pos).None?
    {
      PairRowSkips(s, pos, k, i);
    }
    FirstMatchSkip(s, pos, 0, k);
  }

  /** No row before a two-character operator's row matches where that operator occurs. */
  lemma PairRowSkips(s: string, pos: nat, k: nat, i: nat)
    requires PairRow(k) && At(s, pos, Row(k).text) && i < k
    ensures MatchPattern(Row(i), s, pos).None?
  {
    PairRowIsPair(k);
    var t := Row(k).text;
    assert s[pos..pos + 2][0] == s[pos] == t[0];
    if i >= 3 {
      EarlierOperatorRowDiffers(k, i);
      DifferentTextNotAt(s, pos, t, Row(i).text);
    } else {
      LeadOfRow(i, s[pos]);
      LeadOfRow(k, s[pos]);
    }
  }

  lemma PairRowMatches(s: string, pos: nat, k: nat, t: string, tag: PlainTag)
    requires PairRow(k) && Row(k) == Literal(t, tag) && At(s, pos, t)
    ensures |t| == 2 && pos + 2 <= |s|
    ensures MatchPattern(Literal(t, tag), s, pos) == Some(pos + 2)
    ensures Emit(Literal(t, tag), s, pos, pos + 2) == [Token(t, tag)]
    ensures FirstMatch(s, pos, k) == Some((Literal(t, tag), pos + 2))
  {
    PairRowIsPair(k);
    RowMatchesFirst(s, pos, k, Literal(t, tag), pos + 2);
  }

  lemma PairFirst(s: string, pos: nat, k: nat, t: string, tag: PlainTag)
    requires PairRow(k) && Row(k) == Literal(t, tag) && At(s, pos, t)
    ensures |t| == 2 && pos + 2 <= |s|
    ensures MatchPattern(Literal(t, tag), s, pos) == Some(pos + 2)
    ensures Emit(Literal(t, tag), s, pos, pos + 2) == [Token(t, tag)]
    ensures FirstMatch(s, pos, 0) == Some((Literal(t, tag), pos + 2))
  {
    PairRowMatches(s, pos, k, t, tag);
    PairRowReached(s, pos, k);
  }

  /**
   * `==`, `!=`, `>=`, `<=`, `&&` and `||` are single tokens: each two-character
   * operator's row comes before the rows of `>`, `<`, `!`, `&` and `=`.
   */
  lemma TwoCharOperatorWins(s: string, pos: nat, k: nat, t: string, tag: PlainTag)
    requires PairRow(k) && Row(k) == Literal(t, tag) && At(s, pos, t)
    ensures |t| == 2
    ensures Lex(s, pos) == Prefixed([Token(t, tag)], Lex(s, pos + 2))
  {
    PairFirst(s, pos, k, t, tag);
    LexStepTokens(s, pos, Literal(t, tag), pos + 2, [Token(t, tag)]);
  }

  /** Rows `?` to `,`, `[` and `]`: one-character operators no earlier row can start with. */
  predicate UnambiguousRow(k: nat)
  {
    13 <= k <= 23 || k == 25 || k == 26
  }

  lemma UnambiguousRowFirst(k: nat, i: nat)
    requires UnambiguousRow(k) && i < k
    ensures Row(k).Literal? && |Row(k).text| == 1
    ensures !CanStart(Row(i), Row(k).text[0])
  {
    UnambiguousRowShape(k);
    UnambiguousLeadFirst(k, i);
    LeadOfRow(i, Lead(k));
  }

  lemma UnambiguousRowShape(k: nat)
    requires UnambiguousRow(k)
    ensures Row(k).Literal? && Row(k).text == [Lead(k)]
  {
  }

  lemma UnambiguousLeadFirst(k: nat, i: nat)
    requires UnambiguousRow(k) && i < k
    ensures TextRow(i) && Lead(i) != Lead(k)
  {
  }

  lemma UnambiguousRowReached(s: string, pos: nat, k: nat, t: string, tag: PlainTag)
    requires UnambiguousRow(k) && Row(k) == Literal(t, tag)
    requires pos < |s| && [s[pos]] == t
    ensures FirstMatch(s, pos, 0) == FirstMatch(s, pos, k)
  {
    assert s[pos] == t[0];
    forall i | 0 <= i < k
      ensures MatchPattern(Row(i), s, pos).None?
    {
      UnambiguousRowFirst(k, i);
    }
    FirstMatchSkip(s, pos, 0, k);
  }

  lemma UnambiguousFirst(s: string, pos: nat, k: nat, t: string, tag: PlainTag)
    requires UnambiguousRow(k) && Row(k) == Literal(t, tag)
    requires pos < |s| && [s[pos]] == t
    ensures MatchPattern(Literal(t, tag), s, pos) == Some(pos + 1)
    ensures Emit(Literal(t, tag), s, pos, pos + 1) == [Token(t, tag)]
    ensures FirstMatch(s, pos, 0) == Some((Literal(t, tag), pos + 1))
  {
    UnambiguousRowFirst(k, 0);
    SingleRowMatches(s, pos, k, t, tag);
    UnambiguousRowReached(s, pos, k, t, tag);
  }

  /** `?`, `:`, parentheses, arithmetic operators, `.`, `,` and brackets are one token each. */
  lemma SingleCharOperator(s: string, pos: nat, k: nat, t: string, tag: PlainTag)
    requires UnambiguousRow(k) && Row(k) == Literal(t, tag)
    requires pos < |s| && [s[pos]] == t
    ensures Lex(s, pos) == Prefixed([Token(t, tag)], Lex(s, pos + 1))
  {
    UnambiguousFirst(s, pos, k, t, tag);
    LexStepTokens(s, pos, Literal(t, tag), pos + 1, [Token(t, tag)]);
  }

  // ---------------------------------------------------------------------------
  // Identifiers

  /**
   * None of the keyword rows (`msg.sender`, `msg.origin`, `require`, `true`,
   * `false`) matches at `pos`.
   */
  predicate NoKeywordAt(s: string, pos: nat)
    requires pos < |s|
  {
    MatchKeyword("msg.sender", s, pos).None? && MatchKeyword("msg.origin", s, pos).None?
    && MatchKeyword("require", s, pos).None? && MatchKeyword("true", s, pos).None?
    && MatchKeyword("false", s, pos).None?
  }

  /** A word whose first letter no keyword starts with meets no keyword. */
  lemma NoKeywordByLead(s: string, pos: nat)
    requires pos < |s| && s[pos] != 'm' && s[pos] != 'r' && s[pos] != 't' && s[pos] != 'f'
    ensures NoKeywordAt(s, pos)
  {
  }

  /** Apart from the keyword rows, no row before the identifier row starts with a letter or `_`. */
  lemma IdentifierRowFirst(c: char, i: nat)
    requires IsLetter(c) || c == '_'
    requires i < 35 && i != 0 && i != 1 && i != 2 && i != 30 && i != 31
    ensures !CanStart(Row(i), c)
  {
    if TextRow(i) {
      LeadOfRow(i, c);
    }
  }

  /** At a letter or `_` where no keyword matches, no row before the identifier row matches. */
  lemma KeywordRowSilent(s: string, pos: nat, i: nat)
    requires pos < |s| && (IsLetter(s[pos]) || s[pos] == '_')
    requires NoKeywordAt(s, pos) && i < 35
    ensures MatchPattern(Row(i), s, pos).None?
  {
    if i == 0 {
      assert Row(i) == Keyword("msg.sender", MsgSender);
    } else if i == 1 {
      assert Row(i) == Keyword("msg.origin", MsgOrigin);
    } else if i == 2 {
      assert Row(i) == Keyword("require", Require);
    } else if i == 30 {
      assert Row(i) == Keyword("true", True);
    } else if i == 31 {
      assert Row(i) == Keyword("false", False);
    } else {
      IdentifierRowFirst(s[pos], i);
    }
  }

  lemma IdentifierRowReached(s: string, pos: nat)
    requires pos < |s| && (IsLetter(s[pos]) || s[pos] == '_')
    requires NoKeywordAt(s, pos)
    ensures FirstMatch(s, pos, 0) == FirstMatch(s, pos, 35)
  {
    forall i | 0 <= i < 35
      ensures MatchPattern(Row(i), s, pos).None?
    {
      KeywordRowSilent(s, pos, i);
    }
    FirstMatchSkip(s, pos, 0, 35);
  }

  lemma IdentifierRowMatches(s: string, pos: nat)
    requires pos < |s| && (IsLetter(s[pos]) || s[pos] == '_')
    ensures pos < RunEnd(s, pos + 1, IsWordChar)
    ensures MatchPattern(IdentifierPattern, s, pos) == Some(RunEnd(s, pos + 1, IsWordChar))
    ensures Emit(IdentifierPattern, s, pos, RunEnd(s, pos + 1, IsWordChar))
         == [Token(s[pos..RunEnd(s, pos + 1, IsWordChar)], Identifier)]
    ensures FirstMatch(s, pos, 35) == Some((IdentifierPattern, RunEnd(s, pos + 1, IsWordChar)))
  {
    RowMatchesFirst(s, pos, 35, IdentifierPattern, RunEnd(s, pos + 1, IsWordChar));
  }

  lemma IdentifierFirst(s: string, pos: nat)
    requires pos < |s| && (IsLetter(s[pos]) || s[pos] == '_')
    requires NoKeywordAt(s, pos)
    ensures pos < RunEnd(s, pos + 1, IsWordChar)
    ensures MatchPattern(IdentifierPattern, s, pos) == Some(RunEnd(s, pos + 1, IsWordChar))
    ensures Emit(IdentifierPattern, s, pos, RunEnd(s, pos + 1, IsWordChar))
         == [Token(s[pos..RunEnd(s, pos + 1, IsWordChar)], Identifier)]
    ensures FirstMatch(s, pos, 0) == Some((IdentifierPattern, RunEnd(s, pos + 1, IsWordChar)))
  {
    IdentifierRowMatches(s, pos);
    IdentifierRowReached(s, pos);
  }

  /**
   * A word that no keyword row can match is one IDENTIFIER token spanning the
   * longest run of word characters.
   */
  lemma IdentifierToken(s: string, pos: nat)
    requires pos < |s| && (IsLetter(s[pos]) || s[pos] == '_')
    requires NoKeywordAt(s, pos)
    ensures pos < RunEnd(s, pos + 1, IsWordChar)
    ensures Lex(s, pos)
         == Prefixed([Token(s[pos..RunEnd(s, pos + 1, IsWordChar)], Identifier)], Lex(s, RunEnd(s, pos + 1, IsWordChar)))
  {
    var end := RunEnd(s, pos + 1, IsWordChar);
    IdentifierFirst(s, pos);
    LexStepTokens(s, pos, IdentifierPattern, end, [Token(s[pos..end], Identifier)]);
  }

  // ---------------------------------------------------------------------------
  // Numbers and time units

  /** No row before the float row starts with a digit. */
  lemma DigitRowFirst(c: char, i: nat)
    requires IsDigit(c) && i < 28
    ensures !CanStart(Row(i), c)
  {
    if TextRow(i) {
      LeadOfRow(i, c);
    }
  }

  lemma DigitRowsSkipped(s: string, pos: nat)
    requires pos < |s| && IsDigit(s[pos])
    ensures FirstMatch(s, pos, 0) == FirstMatch(s, pos, 28)
  {
    forall i | 0 <= i < 28
      ensures MatchPattern(Row(i), s, pos).None?
    {
      DigitRowFirst(s[pos], i);
    }
    FirstMatchSkip(s, pos, 0, 28);
  }

  /** Every unit is a word of lower-case letters other than `x`, and no two start alike. */
  lemma UnitsAreWords(u: nat, v: nat)
    requires u < |Units| && v < |Units|
    ensures |Units[u].0| > 0 && IsLetter(Units[u].0[0]) && Units[u].0[0] != 'x'
    ensures u != v ==> Units[u].0[0] != Units[v].0[0]
  {
  }

  /** Where a text occurs, a text with another first character does not. */
  lemma DifferentFirstNotAt(s: string, i: nat, t: string, u: string)
    requires At(s, i, t) && |t| > 0 && |u| > 0 && u[0] != t[0]
    ensures !At(s, i, u)
  {
    assert s[i..i + |t|][0] == s[i];
    if i + |u| <= |s| {
      assert s[i..i + |u|][0] == s[i];
    }
  }

  /** The units are tried in order; the first letter decides which one can be found. */
  lemma {:induction false} UnitFoundFrom(s: string, i: nat, k: nat, u: nat)
    requires k <= u < |Units| && At(s, i, Units[u].0) && Boundary(s, i + |Units[u].0|)
    ensures UnitAt(s, i, k) == Some(u)
    decreases u - k
  {
    if k < u {
      UnitsAreWords(k, u);
      DifferentFirstNotAt(s, i, Units[u].0, Units[k].0);
      UnitFoundFrom(s, i, k + 1, u);
    }
  }

  /** The digits at `pos` are followed by the unit `u`, with nothing between them. */
  predicate UnitAfterDigits(s: string, pos: nat, u: nat)
  {
    pos < |s| && u < |Units| && At(s, RunEnd(s, pos, IsDigit), Units[u].0)
  }

  lemma UnitAfterDigitsStartsWithLetter(s: string, pos: nat, u: nat)
    requires UnitAfterDigits(s, pos, u)
    ensures RunEnd(s, pos, IsDigit) < |s|
    ensures IsLetter(s[RunEnd(s, pos, IsDigit)]) && s[RunEnd(s, pos, IsDigit)] != 'x'
  {
    var d := RunEnd(s, pos, IsDigit);
    UnitsAreWords(u, u);
    assert s[d..d + |Units[u].0|][0] == s[d];
  }

  lemma FloatRowFails(s: string, pos: nat)
    requires pos < |s| && MatchFloat(s, pos).None?
    ensures MatchPattern(Row(28), s, pos).None?
  {
  }

  lemma IntegerRowFails(s: string, pos: nat)
    requires pos < |s| && MatchInteger(s, pos).None?
    ensures MatchPattern(Row(29), s, pos).None?
  {
  }

  lemma BooleanRowsFail(s: string, pos: nat)
    requires pos < |s| && IsDigit(s[pos])
    ensures MatchPattern(Row(30), s, pos).None? && MatchPattern(Row(31), s, pos).None?
  {
    LeadOfRow(30, s[pos]);
    LeadOfRow(31, s[pos]);
  }

  lemma HexRowsFail(s: string, pos: nat)
    requires pos < |s| && MatchAddress(s, pos).None? && MatchBytes(s, pos).None?
    ensures MatchPattern(Row(32), s, pos).None? && MatchPattern(Row(33), s, pos).None?
  {
  }

  lemma FloatFailsBeforeUnit(s: string, pos: nat)
    requires pos < |s| && RunEnd(s, pos, IsDigit) < |s| && IsLetter(s[RunEnd(s, pos, IsDigit)])
    ensures MatchFloat(s, pos).None?
  {
  }

  lemma IntegerFailsBeforeUnit(s: string, pos: nat)
    requires pos < |s| && IsDigit(s[pos])
    requires RunEnd(s, pos, IsDigit) < |s| && IsLetter(s[RunEnd(s, pos, IsDigit)])
    ensures MatchInteger(s, pos).None?
  {
    var d := RunEnd(s, pos, IsDigit);
    assert WordAt(s, d - 1) && WordAt(s, d);
  }

  lemma HexFailsBeforeUnit(s: string, pos: nat)
    requires pos < |s| && IsDigit(s[pos])
    requires RunEnd(s, pos, IsDigit) < |s| && s[RunEnd(s, pos, IsDigit)] != 'x'
    ensures MatchAddress(s, pos).None? && MatchBytes(s, pos).None?
  {
    if pos + 1 < |s| {
      assert s[pos + 1] != 'x';
      assert s[pos..pos + 2][1] == s[pos + 1];
    }
  }

  /** The rows from FLOAT to BYTES_LITERAL fail on digits followed by a unit. */
  lemma NumberRowsSkipped(s: string, pos: nat, u: nat)
    requires UnitAfterDigits(s, pos, u) && IsDigit(s[pos])
    ensures FirstMatch(s, pos, 28) == FirstMatch(s, pos, 34)
  {
    UnitAfterDigitsStartsWithLetter(s, pos, u);
    FloatFailsBeforeUnit(s, pos);
    FloatRowFails(s, pos);
    FirstMatchPass(s, pos, 28);
    IntegerFailsBeforeUnit(s, pos);
    IntegerRowFails(s, pos);
    FirstMatchPass(s, pos, 29);
    BooleanRowsFail(s, pos);
    FirstMatchPass(s, pos, 30);
    FirstMatchPass(s, pos, 31);
    HexFailsBeforeUnit(s, pos);
    HexRowsFail(s, pos);
    FirstMatchPass(s, pos, 32);
    FirstMatchPass(s, pos, 33);
  }

  /** A time-unit literal: its digits end where the unit starts, and it ends after the unit. */
  lemma TimeUnitPartsFound(s: string, pos: nat, u: nat)
    requires UnitAfterDigits(s, pos, u) && IsDigit(s[pos]) && Boundary(s, pos)
    requires Boundary(s, RunEnd(s, pos, IsDigit) + |Units[u].0|)
    ensures TimeUnitParts(s, pos) == Some((RunEnd(s, pos, IsDigit), u, RunEnd(s, pos, IsDigit) + |Units[u].0|))
  {
    var d := RunEnd(s, pos, IsDigit);
    UnitAfterDigitsStartsWithLetter(s, pos, u);
    assert RunEnd(s, d, IsSpace) == d;
    UnitFoundFrom(s, d, 0, u);
    TimeUnitPartsOf(s, pos, d, u);
  }

  lemma TimeUnitPartsOf(s: string, pos: nat, d: nat, u: nat)
    requires pos < d <= |s| && d == RunEnd(s, pos, IsDigit) && Boundary(s, pos)
    requires RunEnd(s, d, IsSpace) == d && UnitAt(s, d, 0) == Some(u)
    ensures TimeUnitParts(s, pos) == Some((d, u, d + |Units[u].0|))
  {
  }

  lemma TimeUnitRowMatches(s: string, pos: nat, u: nat)
    requires UnitAfterDigits(s, pos, u) && IsDigit(s[pos]) && Boundary(s, pos)
    requires Boundary(s, RunEnd(s, pos, IsDigit) + |Units[u].0|)
    ensures FirstMatch(s, pos, 34) == Some((TimeUnitPattern, RunEnd(s, pos, IsDigit) + |Units[u].0|))
  {
    TimeUnitPartsFound(s, pos, u);
    var parts := TimeUnitParts(s, pos).value;
    TimeUnitPartsMatch(s, pos, parts);
    RowMatchesFirst(s, pos, 34, TimeUnitPattern, parts.2);
  }

  lemma TimeUnitPartsMatch(s: string, pos: nat, parts: (nat, nat, nat))
    requires pos < |s| && TimeUnitParts(s, pos) == Some(parts)
    ensures MatchPattern(TimeUnitPattern, s, pos) == Some(parts.2)
  {
  }

  lemma TimeUnitRowReached(s: string, pos: nat, u: nat)
    requires UnitAfterDigits(s, pos, u) && IsDigit(s[pos])
    ensures FirstMatch(s, pos, 0) == FirstMatch(s, pos, 34)
  {
    DigitRowsSkipped(s, pos);
    NumberRowsSkipped(s, pos, u);
  }

  /**
   * At a number written against its unit (`7days`), the first row to match is
   * TIME_UNIT, over the digits and the unit together.
   */
  lemma TimeUnitRowWins(s: string, pos: nat, u: nat)
    requires UnitAfterDigits(s, pos, u) && IsDigit(s[pos]) && Boundary(s, pos)
    requires Boundary(s, RunEnd(s, pos, IsDigit) + |Units[u].0|)
    ensures RunEnd(s, pos, IsDigit) + |Units[u].0| <= |s|
    ensures FirstMatch(s, pos, 0) == Some((TimeUnitPattern, RunEnd(s, pos, IsDigit) + |Units[u].0|))
  {
    TimeUnitRowMatches(s, pos, u);
    TimeUnitRowReached(s, pos, u);
  }

  /**
   * What the TIME_UNIT row emits for a match: one INTEGER token holding the
   * number of seconds, the number times 1, 60, 3600, 86400 or 604800.
   */
  lemma TimeUnitEmitsSeconds(s: string, pos: nat, parts: (nat, nat, nat), seconds: nat)
    requires pos < |s| && TimeUnitParts(s, pos) == Some(parts)
    requires seconds == DecimalValue(s[pos..parts.0]) * Units[parts.1].1
    ensures MatchPattern(TimeUnitPattern, s, pos) == Some(parts.2)
    ensures Emit(TimeUnitPattern, s, pos, parts.2) == [Token(NatToString(seconds), Integer)]
  {
  }

  lemma IntegerRowMatches(s: string, pos: nat)
    requires pos < |s| && Boundary(s, pos) && IsDigit(s[pos])
    requires RunEnd(s, pos, IsDigit) < |s| && IsSpace(s[RunEnd(s, pos, IsDigit)])
    ensures pos < RunEnd(s, pos, IsDigit)
    ensures MatchPattern(IntegerPattern, s, pos) == Some(RunEnd(s, pos, IsDigit))
    ensures Emit(IntegerPattern, s, pos, RunEnd(s, pos, IsDigit)) == [Token(s[pos..RunEnd(s, pos, IsDigit)], Integer)]
    ensures FirstMatch(s, pos, 28) == Some((IntegerPattern, RunEnd(s, pos, IsDigit)))
  {
    var d := RunEnd(s, pos, IsDigit);
    assert Boundary(s, d);
    assert Row(28) == FloatPattern && MatchFloat(s, pos).None?;
    RowMatchesFirst(s, pos, 29, IntegerPattern, d);
  }

  lemma IntegerFirst(s: string, pos: nat)
    requires pos < |s| && Boundary(s, pos) && IsDigit(s[pos])
    requires RunEnd(s, pos, IsDigit) < |s| && IsSpace(s[RunEnd(s, pos, IsDigit)])
    ensures pos < RunEnd(s, pos, IsDigit)
    ensures MatchPattern(IntegerPattern, s, pos) == Some(RunEnd(s, pos, IsDigit))
    ensures Emit(IntegerPattern, s, pos, RunEnd(s, pos, IsDigit)) == [Token(s[pos..RunEnd(s, pos, IsDigit)], Integer)]
    ensures FirstMatch(s, pos, 0) == Some((IntegerPattern, RunEnd(s, pos, IsDigit)))
  {
    IntegerRowMatches(s, pos);
    DigitRowsSkipped(s, pos);
  }

  /** A number separated from its unit by whitespace (`7 days`) is not folded: INTEGER matches first. */
  lemma SpacedNumberNotFolded(s: string, pos: nat)
    requires pos < |s| && Boundary(s, pos) && IsDigit(s[pos])
    requires RunEnd(s, pos, IsDigit) < |s| && IsSpace(s[RunEnd(s, pos, IsDigit)])
    ensures Lex(s, pos) == Prefixed([Token(s[pos..RunEnd(s, pos, IsDigit)], Integer)], Lex(s, RunEnd(s, pos, IsDigit)))
  {
    var d := RunEnd(s, pos, IsDigit);
    IntegerFirst(s, pos);
    LexStepTokens(s, pos, IntegerPattern, d, [Token(s[pos..d], Integer)]);
  }

  // ---------------------------------------------------------------------------
  // Scientific literals

  /** No unit starts with `e`, so none is found at an `e`. */
  lemma {:induction false} NoUnitAtE(s: string, i: nat, k: nat)
    requires i < |s| && s[i] == 'e' && k <= |Units|
    ensures UnitAt(s, i, k).None?
    decreases |Units| - k
  {
    if k < |Units| {
      UnitsAreWords(k, k);
      assert At(s, i, [s[i]]);
      DifferentFirstNotAt(s, i, [s[i]], Units[k].0);
      NoUnitAtE(s, i, k + 1);
    }
  }

  /** Digits followed by `e` are no time unit. */
  lemma TimeUnitFailsBeforeE(s: string, pos: nat)
    requires pos < |s| && RunEnd(s, pos, IsDigit) < |s| && s[RunEnd(s, pos, IsDigit)] == 'e'
    ensures MatchPattern(Row(34), s, pos).None?
  {
    var d := RunEnd(s, pos, IsDigit);
    assert RunEnd(s, d, IsSpace) == d;
    NoUnitAtE(s, d, 0);
    assert TimeUnitParts(s, pos).None?;
    assert Row(34) == TimeUnitPattern;
  }

  /** Digits followed by `e`: the rows from FLOAT to BYTES all fail. */
  lemma ExponentNumberRowsSkipped(s: string, pos: nat)
    requires pos < |s| && IsDigit(s[pos])
    requires RunEnd(s, pos, IsDigit) < |s| && s[RunEnd(s, pos, IsDigit)] == 'e'
    ensures FirstMatch(s, pos, 28) == FirstMatch(s, pos, 34)
  {
    assert IsLetter(s[RunEnd(s, pos, IsDigit)]);
    FloatFailsBeforeUnit(s, pos);
    FloatRowFails(s, pos);
    FirstMatchPass(s, pos, 28);
    IntegerFailsBeforeUnit(s, pos);
    IntegerRowFails(s, pos);
    FirstMatchPass(s, pos, 29);
    BooleanRowsFail(s, pos);
    FirstMatchPass(s, pos, 30);
    FirstMatchPass(s, pos, 31);
    HexFailsBeforeUnit(s, pos);
    HexRowsFail(s, pos);
    FirstMatchPass(s, pos, 32);
    FirstMatchPass(s, pos, 33);
  }

  /** Digits followed by `e`: the TIME_UNIT and IDENTIFIER rows fail too. */
  lemma ExponentRowsSkipped(s: string, pos: nat)
    requires pos < |s| && IsDigit(s[pos])
    requires RunEnd(s, pos, IsDigit) < |s| && s[RunEnd(s, pos, IsDigit)] == 'e'
    ensures FirstMatch(s, pos, 28) == FirstMatch(s, pos, 36)
  {
    ExponentNumberRowsSkipped(s, pos);
    TimeUnitFailsBeforeE(s, pos);
    FirstMatchPass(s, pos, 34);
    IdentifierRowFailsAtDigit(s, pos);
    FirstMatchPass(s, pos, 35);
  }

  lemma IdentifierRowFailsAtDigit(s: string, pos: nat)
    requires pos < |s| && IsDigit(s[pos])
    ensures MatchPattern(Row(35), s, pos).None?
  {
    assert Row(35) == IdentifierPattern;
  }

  /** At a scientific literal, every row before SCIENTIFIC fails, and SCIENTIFIC matches the whole literal. */
  lemma ScientificRowWins(s: string, pos: nat)
    requires pos < |s| && ScientificParts(s, pos).Some?
    ensures FirstMatch(s, pos, 0) == Some((ScientificPattern, ScientificParts(s, pos).value.1))
  {
    ScientificPartsShape(s, pos);
    DigitRowsSkipped(s, pos);
    ExponentRowsSkipped(s, pos);
    ScientificRowMatches(s, pos);
  }

  lemma ScientificRowMatches(s: string, pos: nat)
    requires pos < |s| && ScientificParts(s, pos).Some?
    ensures FirstMatch(s, pos, 36) == Some((ScientificPattern, ScientificParts(s, pos).value.1))
  {
    assert Row(36) == ScientificPattern;
    assert MatchPattern(ScientificPattern, s, pos) == MatchScientific(s, pos);
  }

  /** A scientific literal starts with a digit, and its mantissa digits run up to the `e`. */
  lemma ScientificPartsShape(s: string, pos: nat)
    requires pos < |s|
    ensures ScientificParts(s, pos).Some? ==>
      IsDigit(s[pos]) && RunEnd(s, pos, IsDigit) < |s| && s[RunEnd(s, pos, IsDigit)] == 'e'
  {
    if ScientificParts(s, pos).Some? {
      var d := ScientificParts(s, pos).value.0;
      assert s[pos..d][0] == s[pos];
    }
  }

  /**
   * A scientific literal `M e X` is folded through a double: one INTEGER token
   * holding the decimal digits of the double nearest to M times ten to the X,
   * or, where that double is infinite, the error that stops the scan.
   */
  lemma ScientificStep(s: string, pos: nat)
    requires pos < |s| && ScientificParts(s, pos).Some?
    ensures var parts := ScientificParts(s, pos).value;
            var rounded := NearestDouble(ScientificValue(s, pos, parts));
            Lex(s, pos)
            == if rounded.Some? then Prefixed([Token(NatToString(rounded.value), Integer)], Lex(s, parts.1))
               else Err(InfiniteLiteral(s[pos..parts.1], pos))
  {
    ScientificRowWins(s, pos);
    LexStep(s, pos, ScientificPattern, ScientificParts(s, pos).value.1);
    ScientificEmit(s, pos);
  }

  /** The SCIENTIFIC row folds exactly when the nearest double is finite, and then emits its digits. */
  lemma ScientificEmit(s: string, pos: nat)
    requires pos < |s| && ScientificParts(s, pos).Some?
    ensures var parts := ScientificParts(s, pos).value;
            var rounded := NearestDouble(ScientificValue(s, pos, parts));
            MatchPattern(ScientificPattern, s, pos) == Some(parts.1)
            && (Folds(ScientificPattern, s, pos, parts.1) <==> rounded.Some?)
            && (rounded.Some? ==>
                  Emit(ScientificPattern, s, pos, parts.1) == [Token(NatToString(rounded.value), Integer)])
  {
  }

  /** A scientific literal whose value is below 2^53 keeps its exact value. */
  lemma ScientificExact(s: string, pos: nat)
    requires pos < |s| && ScientificParts(s, pos).Some?
    requires ScientificValue(s, pos, ScientificParts(s, pos).value) < Pow2(Precision)
    ensures var parts := ScientificParts(s, pos).value;
            Lex(s, pos)
            == Prefixed([Token(NatToString(ScientificValue(s, pos, parts)), Integer)], Lex(s, parts.1))
  {
    var value := ScientificValue(s, pos, ScientificParts(s, pos).value);
    ScientificStep(s, pos);
    ExactBelowPrecision(value);
    assert NearestDouble(value) == Some(value);
  }

  /**
   * A scientific literal stops the scan exactly when its value is at least the
   * midpoint between the largest double and 2^1024, where `float` gives infinity.
   */
  lemma ScientificInfinite(s: string, pos: nat)
    requires pos < |s| && ScientificParts(s, pos).Some?
    ensures var parts := ScientificParts(s, pos).value;
            Lex(s, pos) == Err(InfiniteLiteral(s[pos..parts.1], pos))
            <==> ScientificValue(s, pos, parts) >= Pow2(Emax) - Pow2(Emax - Precision - 1)
  {
    var parts := ScientificParts(s, pos).value;
    var rounded := NearestDouble(ScientificValue(s, pos, parts));
    ScientificStep(s, pos);
    InfiniteIff(ScientificValue(s, pos, parts));
    if rounded.Some? {
      PrefixedError([Token(NatToString(rounded.value), Integer)], Lex(s, parts.1));
    }
  }

  /** An error after a prefix is the error of the rest. */
  lemma PrefixedError(ts: seq<Token>, r: Result<seq<Token>, LexError>)
    ensures Prefixed(ts, r).Err? <==> r.Err?
    ensures r.Err? ==> Prefixed(ts, r).error == r.error
  {
  }
}
