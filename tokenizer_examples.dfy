/**
 * Whole inputs tokenized end to end: each example chains the per-row lemmas,
 * one token at a time, down to the end of the input.
 */
module TokenizerExamples {
  import opened Wrappers
  import opened Strings
  import opened Syntax
  import opened Tokenizer
  import opened TokenizerProperties
  import opened Binary64

  type LexResult = Result<seq<Token>, LexError>

  lemma SevenDaysInSeconds()
    ensures NatToString(7 * 86400) == "604800"
  {
    assert NatToString(6) == "6";
    assert NatToString(60) == "60";
    assert NatToString(604) == "604";
    assert NatToString(6048) == "6048";
    assert NatToString(60480) == "60480";
  }

  /** The TIME_UNIT row takes all of `7days` and emits the seconds it stands for. */
  lemma SevenDaysStep(s: string)
    requires s == "7days"
    ensures Lex(s, 0) == Prefixed([Token("604800", Integer)], Lex(s, 5))
  {
    assert RunEnd(s, 0, IsDigit) == 1;
    assert At(s, 1, Units[3].0);
    assert DecimalValue(s[0..1]) == 7;
    TimeUnitRowWins(s, 0, 3);
    TimeUnitPartsFound(s, 0, 3);
    TimeUnitEmitsSeconds(s, 0, (1, 3, 5), 7 * 86400);
    SevenDaysInSeconds();
    LexStepTokens(s, 0, TimeUnitPattern, 5, [Token("604800", Integer)]);
  }

  /** `7days` folds to one INTEGER token holding 7 * 86400 seconds. */
  lemma SevenDaysFolds(s: string)
    requires s == "7days"
    ensures Lex(s, 0) == Ok([Token("604800", Integer)])
  {
    SevenDaysStep(s);
    LexAtEnd(s);
    PrefixedEmpty([Token("604800", Integer)], Lex(s, 5));
  }

  /** Five scan steps, each yielding one token, then the end of the input. */
  lemma PrefixedFive(r0: LexResult, r1: LexResult, r2: LexResult, r3: LexResult, r4: LexResult, r5: LexResult,
                     a: Token, b: Token, c: Token, d: Token, e: Token)
    requires r0 == Prefixed([a], r1) && r1 == Prefixed([b], r2) && r2 == Prefixed([c], r3)
    requires r3 == Prefixed([d], r4) && r4 == Prefixed([e], r5) && r5 == Ok([])
    ensures r0 == Ok([a, b, c, d, e])
  {
    assert r4 == Ok([e]) by { assert [e] + [] == [e]; }
    assert r3 == Ok([d, e]) by { assert [d] + [e] == [d, e]; }
    assert r2 == Ok([c, d, e]) by { assert [c] + [d, e] == [c, d, e]; }
    assert r1 == Ok([b, c, d, e]) by { assert [b] + [c, d, e] == [b, c, d, e]; }
    assert [a] + [b, c, d, e] == [a, b, c, d, e];
  }

  lemma WordC(s: string)
    requires s == "c/a==b"
    ensures Lex(s, 0) == Prefixed([Token("c", Identifier)], Lex(s, 1))
  {
    assert RunEnd(s, 1, IsWordChar) == 1;
    assert s[0..1] == "c";
    NoKeywordByLead(s, 0);
    IdentifierToken(s, 0);
  }

  lemma SlashOperator(s: string)
    requires s == "c/a==b"
    ensures Lex(s, 1) == Prefixed([Token("/", Divide)], Lex(s, 2))
  {
    SingleCharOperator(s, 1, 20, "/", Divide);
  }

  lemma WordA(s: string)
    requires s == "c/a==b"
    ensures Lex(s, 2) == Prefixed([Token("a", Identifier)], Lex(s, 3))
  {
    assert RunEnd(s, 3, IsWordChar) == 3;
    assert s[2..3] == "a";
    NoKeywordByLead(s, 2);
    IdentifierToken(s, 2);
  }

  lemma EqualOperator(s: string)
    requires s == "c/a==b"
    ensures Lex(s, 3) == Prefixed([Token("==", Equal)], Lex(s, 5))
  {
    assert s[3..5] == "==";
    TwoCharOperatorWins(s, 3, 3, "==", Equal);
  }

  lemma WordB(s: string)
    requires s == "c/a==b"
    ensures Lex(s, 5) == Prefixed([Token("b", Identifier)], Lex(s, 6))
  {
    assert RunEnd(s, 6, IsWordChar) == 6;
    assert s[5..6] == "b";
    NoKeywordByLead(s, 5);
    IdentifierToken(s, 5);
  }

  /** `c/a==b`: IDENTIFIER, DIVIDE, IDENTIFIER, EQUAL, IDENTIFIER, lexemes unchanged. */
  lemma DivisionThenEquality(s: string)
    requires s == "c/a==b"
    ensures Lex(s, 0) == Ok([Token("c", Identifier), Token("/", Divide), Token("a", Identifier),
                             Token("==", Equal), Token("b", Identifier)])
  {
    WordC(s);
    SlashOperator(s);
    WordA(s);
    EqualOperator(s);
    WordB(s);
    LexAtEnd(s);
    PrefixedFive(Lex(s, 0), Lex(s, 1), Lex(s, 2), Lex(s, 3), Lex(s, 5), Lex(s, 6), Token("c", Identifier), Token("/", Divide), Token("a", Identifier),
                 Token("==", Equal), Token("b", Identifier));
  }

  /** Two scan steps, each yielding one token, then the end of the input. */
  lemma PrefixedTwo(r0: LexResult, r1: LexResult, r2: LexResult, a: Token, b: Token)
    requires r0 == Prefixed([a], r1) && r1 == Prefixed([b], r2) && r2 == Ok([])
    ensures r0 == Ok([a, b])
  {
    assert r1 == Ok([b]) by { assert [b] + [] == [b]; }
    assert [a] + [b] == [a, b];
  }

  /** Three scan steps, each yielding one token, then the end of the input. */
  lemma PrefixedThree(r0: LexResult, r1: LexResult, r2: LexResult, r3: LexResult, a: Token, b: Token, c: Token)
    requires r0 == Prefixed([a], r1) && r1 == Prefixed([b], r2) && r2 == Prefixed([c], r3) && r3 == Ok([])
    ensures r0 == Ok([a, b, c])
  {
    PrefixedTwo(r1, r2, r3, b, c);
    assert [a] + [b, c] == [a, b, c];
  }

  lemma SevenThenSpace(s: string)
    requires s == "7 days"
    ensures Lex(s, 0) == Prefixed([Token("7", Integer)], Lex(s, 1))
  {
    assert RunEnd(s, 0, IsDigit) == 1;
    assert s[0..1] == "7";
    SpacedNumberNotFolded(s, 0);
  }

  lemma SpaceBeforeDays(s: string)
    requires s == "7 days"
    ensures Lex(s, 1) == Lex(s, 2)
  {
    assert RunEnd(s, 1, IsSpace) == 2;
    WhitespaceEmitsNothing(s, 1);
  }

  lemma DaysIsAWord(s: string)
    requires s == "7 days"
    ensures Lex(s, 2) == Prefixed([Token("days", Identifier)], Lex(s, 6))
  {
    assert RunEnd(s, 3, IsWordChar) == 6;
    assert s[2..6] == "days";
    NoKeywordByLead(s, 2);
    IdentifierToken(s, 2);
  }

  /** `7 days`, with a space, is NOT folded: an INTEGER then an IDENTIFIER. */
  lemma SpacedUnitNotFolded(s: string)
    requires s == "7 days"
    ensures Lex(s, 0) == Ok([Token("7", Integer), Token("days", Identifier)])
  {
    SevenThenSpace(s);
    SpaceBeforeDays(s);
    DaysIsAWord(s);
    LexAtEnd(s);
    PrefixedTwo(Lex(s, 0), Lex(s, 2), Lex(s, 6), Token("7", Integer), Token("days", Identifier));
  }

  /** A leading `-` is one MINUS token. */
  lemma {:induction false} MinusSign(s: string)
    requires |s| > 1 && s[0] == '-'
    ensures Lex(s, 0) == Prefixed([Token("-", Minus)], Lex(s, 1))
  {
    SingleCharOperator(s, 0, 18, "-", Minus);
  }

  lemma OneThenSpace(s: string)
    requires s == "-1 "
    ensures Lex(s, 1) == Prefixed([Token("1", Integer)], Lex(s, 2))
  {
    assert RunEnd(s, 1, IsDigit) == 2;
    assert s[1..2] == "1";
    assert Boundary(s, 1);
    SpacedNumberNotFolded(s, 1);
  }

  lemma TrailingSpace(s: string)
    requires s == "-1 "
    ensures Lex(s, 2) == Ok([])
  {
    assert RunEnd(s, 2, IsSpace) == 3;
    WhitespaceEmitsNothing(s, 2);
    LexAtEnd(s);
  }

  /** `-1 `: the sign is its own MINUS token, followed by the INTEGER `1`. */
  lemma MinusOne(s: string)
    requires s == "-1 "
    ensures Lex(s, 0) == Ok([Token("-", Minus), Token("1", Integer)])
  {
    MinusSign(s);
    OneThenSpace(s);
    TrailingSpace(s);
    PrefixedTwo(Lex(s, 0), Lex(s, 1), Lex(s, 2), Token("-", Minus), Token("1", Integer));
  }

  lemma SenderFirst(s: string)
    requires s == "msg.sender == msg.origin"
    ensures Lex(s, 0) == Prefixed([Token("msg.sender", MsgSender)], Lex(s, 11))
  {
    SenderWord(s);
    SpaceAfterSender(s);
  }

  lemma SenderWord(s: string)
    requires s == "msg.sender == msg.origin"
    ensures Lex(s, 0) == Prefixed([Token("msg.sender", MsgSender)], Lex(s, 10))
  {
    assert s[0..10] == "msg.sender";
    MsgSenderIsOneToken(s, 0);
  }

  lemma SpaceAfterSender(s: string)
    requires s == "msg.sender == msg.origin"
    ensures Lex(s, 10) == Lex(s, 11)
  {
    assert RunEnd(s, 10, IsSpace) == 11;
    WhitespaceEmitsNothing(s, 10);
  }

  lemma EqualsSecond(s: string)
    requires s == "msg.sender == msg.origin"
    ensures Lex(s, 11) == Prefixed([Token("==", Equal)], Lex(s, 14))
  {
    EqualsOperator(s);
    SpaceAfterEquals(s);
  }

  lemma EqualsOperator(s: string)
    requires s == "msg.sender == msg.origin"
    ensures Lex(s, 11) == Prefixed([Token("==", Equal)], Lex(s, 13))
  {
    assert s[11..13] == "==";
    TwoCharOperatorWins(s, 11, 3, "==", Equal);
  }

  lemma SpaceAfterEquals(s: string)
    requires s == "msg.sender == msg.origin"
    ensures Lex(s, 13) == Lex(s, 14)
  {
    assert RunEnd(s, 13, IsSpace) == 14;
    WhitespaceEmitsNothing(s, 13);
  }

  lemma OriginLast(s: string)
    requires s == "msg.sender == msg.origin"
    ensures Lex(s, 14) == Prefixed([Token("msg.origin", MsgOrigin)], Lex(s, 24))
  {
    assert At(s, 14, "msg.origin");
    MsgOriginIsOneToken(s, 14);
  }

  /** `msg.sender == msg.origin` is three tokens: MSG_SENDER, EQUAL, MSG_ORIGIN. */
  lemma SenderEqualsOrigin(s: string)
    requires s == "msg.sender == msg.origin"
    ensures Lex(s, 0) == Ok([Token("msg.sender", MsgSender), Token("==", Equal), Token("msg.origin", MsgOrigin)])
  {
    SenderFirst(s);
    EqualsSecond(s);
    OriginLast(s);
    LexAtEnd(s);
    PrefixedThree(Lex(s, 0), Lex(s, 11), Lex(s, 14), Lex(s, 24),
                  Token("msg.sender", MsgSender), Token("==", Equal), Token("msg.origin", MsgOrigin));
  }

  lemma HashStartsNoRow(i: nat)
    requires i < Rows
    ensures !CanStart(Row(i), '#')
  {
    if TextRow(i) {
      LeadOfRow(i, '#');
    }
  }

  lemma WordXThenSpace(s: string)
    requires s == "x # y"
    ensures Lex(s, 0) == Prefixed([Token("x", Identifier)], Lex(s, 2))
  {
    WordX(s);
    SpaceAfterX(s);
  }

  lemma WordX(s: string)
    requires s == "x # y"
    ensures Lex(s, 0) == Prefixed([Token("x", Identifier)], Lex(s, 1))
  {
    assert RunEnd(s, 1, IsWordChar) == 1;
    assert s[0..1] == "x";
    NoKeywordByLead(s, 0);
    IdentifierToken(s, 0);
  }

  lemma SpaceAfterX(s: string)
    requires s == "x # y"
    ensures Lex(s, 1) == Lex(s, 2)
  {
    assert RunEnd(s, 1, IsSpace) == 2;
    WhitespaceEmitsNothing(s, 1);
  }

  lemma HashUnmatched(s: string)
    requires s == "x # y"
    ensures Lex(s, 2) == Err(UnexpectedCharacter('#', 2))
  {
    assert s[2] == '#';
    forall i | 0 <= i < Rows
      ensures !CanStart(Row(i), '#')
    {
      HashStartsNoRow(i);
    }
    UnmatchedCharacterRaises(s, 2);
  }

  /** `x # y`: `#` starts no pattern, so the scan raises at position 2 and returns no tokens. */
  lemma HashRaises(s: string)
    requires s == "x # y"
    ensures Lex(s, 0) == Err(UnexpectedCharacter('#', 2))
  {
    WordXThenSpace(s);
    HashUnmatched(s);
  }

  /** No keyword matches at the start of `trueValue`: `true` is not followed by a boundary. */
  lemma TrueValueNoKeyword(s: string)
    requires s == "trueValue"
    ensures NoKeywordAt(s, 0)
  {
    assert !Boundary(s, 4) by {
      assert IsWordChar(s[3]) && IsWordChar(s[4]);
    }
  }

  lemma TrueValueWord(s: string)
    requires s == "trueValue"
    ensures Lex(s, 0) == Prefixed([Token("trueValue", Identifier)], Lex(s, 9))
  {
    TrueValueNoKeyword(s);
    assert RunEnd(s, 1, IsWordChar) == 9;
    assert s[0..9] == "trueValue";
    IdentifierToken(s, 0);
  }

  /**
   * `trueValue` starts like the keyword `true` but has no word boundary after
   * it, so the whole word is one IDENTIFIER.
   */
  lemma TrueValueIsIdentifier(s: string)
    requires s == "trueValue"
    ensures Lex(s, 0) == Ok([Token("trueValue", Identifier)])
  {
    TrueValueWord(s);
    LexAtEnd(s);
    assert [Token("trueValue", Identifier)] + [] == [Token("trueValue", Identifier)];
  }

  /** The powers of two around ten to the 23, by repeated squaring. */
  lemma PowersOfTwoNearTenToTheTwentyThree()
    ensures Pow2(24) == 16777216
    ensures Pow2(76) == 75557863725914323419136
    ensures Pow2(77) == 151115727451828646838272
  {
    assert Pow2(1) == 2;
    Pow2Add(1, 1);
    assert Pow2(2) == 4;
    Pow2Add(2, 2);
    assert Pow2(4) == 16;
    Pow2Add(4, 4);
    assert Pow2(8) == 256;
    Pow2Add(8, 8);
    assert Pow2(16) == 65536;
    Pow2Add(16, 8);
    assert Pow2(24) == 16777216;
    Pow2Add(16, 16);
    assert Pow2(32) == 4294967296;
    Pow2Add(32, 32);
    assert Pow2(64) == 18446744073709551616;
    Pow2Add(64, 8);
    assert Pow2(72) == 4722366482869645213696;
    Pow2Add(72, 4);
    assert Pow2(76) == 75557863725914323419136;
    Pow2Add(76, 1);
    assert Pow2(77) == 151115727451828646838272;
  }

  /**
   * Ten to the 23 lies halfway between two doubles 2^24 apart; the tie goes to
   * the even significand, which is the lower one.
   */
  lemma TenToTheTwentyThreeRounds()
    ensures NearestDouble(100000000000000000000000) == Some(99999999999999991611392)
  {
    var v := 100000000000000000000000;
    PowersOfTwoNearTenToTheTwentyThree();
    UlpInBinade(v, 77);
    DivisionExact(v, 16777216, 5960464477539062);
    assert RoundToMultiple(v, 16777216) == 99999999999999991611392;
    Pow2Monotone(77, Emax);
  }

  lemma {:induction false} Pow10Add(a: nat, b: nat)
    ensures Pow10(a + b) == Pow10(a) * Pow10(b)
  {
    if b > 0 {
      Pow10Add(a, b - 1);
      calc {
        Pow10(a + b);
        10 * Pow10(a + b - 1);
        10 * (Pow10(a) * Pow10(b - 1));
        Pow10(a) * (10 * Pow10(b - 1));
        Pow10(a) * Pow10(b);
      }
    }
  }

  lemma TenToTheTwentyThreeParts(s: string)
    requires s == "1e23"
    ensures ScientificParts(s, 0) == Some((1, 4))
    ensures ScientificValue(s, 0, (1, 4)) == 100000000000000000000000
  {
    assert RunEnd(s, 0, IsDigit) == 1;
    assert RunEnd(s, 2, IsDigit) == 4;
    assert s[0..1] == "1" && s[2..4] == "23";
    assert DecimalValue("1") == 1;
    assert DecimalValue("23") == 23 by {
      assert "23"[..1] == "2";
      assert DecimalValue("2") == 2;
    }
    assert Pow10(1) == 10;
    Pow10Add(1, 1);
    assert Pow10(2) == 100;
    Pow10Add(2, 2);
    assert Pow10(4) == 10000;
    Pow10Add(4, 4);
    assert Pow10(8) == 100000000;
    Pow10Add(8, 8);
    assert Pow10(16) == 10000000000000000;
    Pow10Add(16, 4);
    assert Pow10(20) == 100000000000000000000;
    Pow10Add(20, 2);
    assert Pow10(22) == 10000000000000000000000;
    Pow10Add(22, 1);
    assert Pow10(23) == 100000000000000000000000;
  }

  /** `1e23` is folded through the double nearest to it, which is just below ten to the 23. */
  lemma TenToTheTwentyThree(s: string)
    requires s == "1e23"
    ensures Lex(s, 0) == Ok([Token(NatToString(99999999999999991611392), Integer)])
  {
    TenToTheTwentyThreeParts(s);
    TenToTheTwentyThreeRounds();
    ScientificStep(s, 0);
    LexAtEnd(s);
    assert [Token(NatToString(99999999999999991611392), Integer)] + []
        == [Token(NatToString(99999999999999991611392), Integer)];
  }

  /** Eight to the k is at most ten to the k. */
  lemma {:induction false} EightToTheBelowTenTo(k: nat)
    ensures Pow2(3 * k) <= Pow10(k)
  {
    if k > 0 {
      EightToTheBelowTenTo(k - 1);
      assert Pow2(3) == 8;
      Pow2Add(3 * (k - 1), 3);
      assert Pow2(3 * k) == 8 * Pow2(3 * (k - 1));
    }
  }

  lemma FourHundredPastLargest()
    ensures Pow10(400) >= Pow2(Emax) - Pow2(Emax - Precision - 1)
  {
    EightToTheBelowTenTo(400);
    Pow2Monotone(Emax, 1200);
  }

  lemma FourHundredParts(s: string)
    requires s == "1e400"
    ensures ScientificParts(s, 0) == Some((1, 5))
    ensures ScientificValue(s, 0, (1, 5)) == Pow10(400)
  {
    assert RunEnd(s, 0, IsDigit) == 1;
    assert RunEnd(s, 2, IsDigit) == 5;
    assert s[0..1] == "1" && s[2..5] == "400";
    assert DecimalValue("1") == 1;
    assert DecimalValue("400") == 400 by {
      assert "400"[..2] == "40" && "40"[..1] == "4";
      assert DecimalValue("4") == 4;
    }
  }

  /** `1e400` is past the largest double: `float` gives infinity and the scan stops. */
  lemma FourHundredOverflows(s: string)
    requires s == "1e400"
    ensures Lex(s, 0) == Err(InfiniteLiteral("1e400", 0))
  {
    FourHundredParts(s);
    FourHundredPastLargest();
    ScientificInfinite(s, 0);
    assert s[0..5] == "1e400";
  }
}
