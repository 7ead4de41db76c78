/** The outcomes the repository's unit tests expect (src/tokenize.rs:180-324),
    and a few more inputs that pin down the edge cases of the model.  Each input
    is a parameter fixed by the precondition, so that the proofs unfold the
    scanners one step at a time. */
module TokenizeTests {
  import opened Tokenize
  import opened TokenizeLemmas

  /** A successful step followed by the rest of the tokens. */
  lemma LexCons(chars: seq<char>, i: nat, t: Token, n: nat, rest: seq<Token>)
    requires i < |chars| && ScanToken(chars, i) == Ok((t, n))
    requires Lex(chars, n + 1) == Ok(rest)
    ensures Lex(chars, i) == Ok([t] + rest)
  {
    assert Lex(chars, i) == Prepend([t], Lex(chars, n + 1));
  }

  /** The last token just before the end of input. */
  lemma LexLast(chars: seq<char>, i: nat, t: Token)
    requires i < |chars| && ScanToken(chars, i) == Ok((t, |chars| - 1))
    ensures Lex(chars, i) == Ok([t])
  {
    LexCons(chars, i, t, |chars| - 1, []);
    assert [t] + [] == [t];
  }

  /** `"true,"` (src/tokenize.rs:180-188). */
  lemma TrueComma(s: string)
    requires s == "true,"
    ensures Lex(s, 0) == Ok([True, Comma])
  {
    ScanPunctuation(s, 4);
    LexLast(s, 4, Comma);
    ScanKeyword(s, 0, "true", True);
    assert s[0..4] == "true" by {
      assert s == "true" + ",";
    }
    LexCons(s, 0, True, 3, [Comma]);
    assert [True] + [Comma] == [True, Comma];
  }

  /** `","` (src/tokenize.rs:190-198). */
  lemma JustComma(s: string)
    requires s == ","
    ensures Lex(s, 0) == Ok([Comma])
  {
    ScanPunctuation(s, 0);
    LexLast(s, 0, Comma);
  }

  /** `"null"`, `"true"` and `"false"` (src/tokenize.rs:200-228). */
  lemma JustKeyword(s: string, token: Token)
    requires (s, token) in {("null", Null), ("true", True), ("false", False)}
    ensures Lex(s, 0) == Ok([token])
  {
    ScanKeyword(s, 0, s, token);
    assert s[0..|s|] == s;
    LexLast(s, 0, token);
  }

  /** `"[]{},:"` (src/tokenize.rs:230-246). */
  lemma AllPunctuation(s: string)
    requires s == "[]{},:"
    ensures Lex(s, 0) == Ok([LeftBracket, RightBracket, LeftBrace, RightBrace, Comma, Colon])
  {
    LexPunctuation(s, 0);
    var v := Lex(s, 0).value;
    assert s[0] == '[' && s[1] == ']' && s[2] == '{' && s[3] == '}' && s[4] == ',' && s[5] == ':';
    assert v[0] == LeftBracket && v[1] == RightBracket && v[2] == LeftBrace;
    assert v[3] == RightBrace && v[4] == Comma && v[5] == Colon;
    assert v == [LeftBracket, RightBracket, LeftBrace, RightBrace, Comma, Colon];
  }

  /** `"100"` (src/tokenize.rs:248-257): the number ends the input, so the cursor
      goes one past its end. */
  lemma Integer(s: string)
    requires s == "100"
    ensures ScanToken(s, 0) == Ok((Number("100"), |s|))
    ensures Lex(s, 0) == Ok([Number("100")])
  {
    NumberEndIs(s, 0, 3);
    ScanDigit(s, 0);
    assert s[0..3] == s;
    LexCons(s, 0, Number("100"), 3, []);
    assert [Number("100")] + [] == [Number("100")];
  }

  /** `"1.23"` (src/tokenize.rs:259-268). */
  lemma Float(s: string)
    requires s == "1.23"
    ensures Lex(s, 0) == Ok([Number("1.23")])
  {
    NumberEndIs(s, 0, 4);
    ScanDigit(s, 0);
    assert s[0..4] == s;
    LexCons(s, 0, Number("1.23"), 4, []);
    assert [Number("1.23")] + [] == [Number("1.23")];
  }

  /** `"\"ken\""` (src/tokenize.rs:270-278). */
  lemma SimpleString(s: string)
    requires s == "\"ken\""
    ensures Lex(s, 0) == Ok([String("ken")])
  {
    PlainString(s, 0, 4);
    assert s[1..4] == "ken" by {
      assert s == "\"" + "ken" + "\"";
    }
    LexLast(s, 0, String("ken"));
  }

  /** `"\"ken"` (src/tokenize.rs:280-288). */
  lemma UnterminatedString(s: string)
    requires s == "\"ken"
    ensures Lex(s, 0) == Err(UnclosedQuotes)
  {
    CloseQuoteSkips(s, 0, 1, 4);
    assert SkipWhitespace(s, 0) == 0;
    LexScanError(s, 0);
  }

  /** The quote after the backslash is escaped; the last one closes the string. */
  lemma EscapedQuoteCloses(s: string)
    requires s == "\"the \\\" is OK\""
    ensures CloseQuote(s, 0, 1) == Some(13)
  {
    CloseQuoteSkips(s, 0, 1, 6);
    QuoteAfterRun(s, 0, 5, 6);
    CloseQuoteSkips(s, 0, 7, 13);
    QuoteAfterRun(s, 0, 13, 13);
  }

  /** `"the \" is OK"` with its quotes (src/tokenize.rs:290-298): the backslash
      stays in the value. */
  lemma EscapedQuote(s: string)
    requires s == "\"the \\\" is OK\""
    ensures Lex(s, 0) == Ok([String("the \\\" is OK")])
  {
    EscapedQuoteCloses(s);
    var content := "the \\\" is OK";
    assert s[1..13] == content by {
      assert s == ['"'] + content + ['"'];
      assert s[1..] == content + ['"'];
      assert (content + ['"'])[..12] == content;
    }
    ScanTokenQuote(s, 0);
    LexLast(s, 0, String(content));
  }

  /** `" "` (src/tokenize.rs:300-308): whitespace alone is an error. */
  lemma WhiteSpace(s: string)
    requires s == " "
    ensures Lex(s, 0) == Err(UnexpectedEof)
  {
    LexWhitespaceOnly(s, 0);
  }

  /** The two strings of `{"key": "value"}`. */
  lemma MoreComplexStrings(s: string)
    requires s == "{\"key\": \"value\"}"
    ensures ScanToken(s, 1) == Ok((String("key"), 5))
    ensures ScanToken(s, 7) == Ok((String("value"), 14))
  {
    PlainString(s, 1, 5);
    assert s[2..5] == "key" by {
      assert s == "{\"" + "key" + "\": \"value\"}";
    }
    assert SkipWhitespace(s, 7) == 8;
    PlainString(s, 8, 14);
    assert s[9..14] == "value" by {
      assert s == "{\"key\": \"" + "value" + "\"}";
    }
  }

  /** `{"key": "value"}` (src/tokenize.rs:310-324). */
  lemma MoreComplex(s: string)
    requires s == "{\"key\": \"value\"}"
    ensures Lex(s, 0) == Ok([LeftBrace, String("key"), Colon, String("value"), RightBrace])
  {
    MoreComplexStrings(s);
    assert s[0] == '{' && s[6] == ':' && s[15] == '}';
    ScanPunctuation(s, 0);
    ScanPunctuation(s, 6);
    ScanPunctuation(s, 15);
    LexLast(s, 15, RightBrace);
    var rest := [RightBrace];
    LexCons(s, 7, String("value"), 14, rest);
    rest := [String("value")] + rest;
    LexCons(s, 6, Colon, 6, rest);
    rest := [Colon] + rest;
    LexCons(s, 1, String("key"), 5, rest);
    rest := [String("key")] + rest;
    LexCons(s, 0, LeftBrace, 0, rest);
    assert [LeftBrace] + rest == [LeftBrace, String("key"), Colon, String("value"), RightBrace];
  }

  // ---------------------------------------------------------------------------
  // Edge cases beyond the repository's tests

  /** A character no token starts with. */
  lemma Unrecognized(s: string)
    requires s == "@"
    ensures Lex(s, 0) == Err(CharNotRecognized('@'))
  {
    assert SkipWhitespace(s, 0) == 0;
    LexScanError(s, 0);
  }

  /** A leading `-` starts no token: negative numbers are not recognized. */
  lemma LeadingMinus(s: string)
    requires s == "-1"
    ensures Lex(s, 0) == Err(CharNotRecognized('-'))
  {
    ScanUnrecognized(s, 0);
    LexScanError(s, 0);
  }

  /** The character right after a number is skipped unread: `1,` is one token. */
  lemma NumberSwallowsNext(s: string)
    requires s == "1,"
    ensures Lex(s, 0) == Ok([Number("1")])
  {
    NumberEndIs(s, 0, 1);
    ScanDigit(s, 0);
    assert s[0..1] == "1";
    LexCons(s, 0, Number("1"), 1, []);
    assert [Number("1")] + [] == [Number("1")];
  }

  /** The same skip drops a closing bracket: `[1]` has no RightBracket token. */
  lemma NumberSwallowsBracket(s: string)
    requires s == "[1]"
    ensures Lex(s, 0) == Ok([LeftBracket, Number("1")])
  {
    NumberEndIs(s, 1, 2);
    ScanDigit(s, 1);
    assert s[1..2] == "1";
    LexCons(s, 1, Number("1"), 2, []);
    assert [Number("1")] + [] == [Number("1")];
    assert s[0] == '[';
    ScanPunctuation(s, 0);
    LexCons(s, 0, LeftBracket, 0, [Number("1")]);
    assert [LeftBracket] + [Number("1")] == [LeftBracket, Number("1")];
  }

  /** A `-` after the first digit is taken in, and the float parse then fails. */
  lemma MinusInsideNumber(s: string)
    requires s == "1-2"
    ensures Lex(s, 0) == Err(ParseNumberError(Invalid))
  {
    NumberEndIs(s, 0, 3);
    ScanDigit(s, 0);
    assert s[0..3] == s;
    LexScanError(s, 0);
  }

  /** A keyword cut short by the end of input. */
  lemma TruncatedKeyword(s: string)
    requires s == "nul"
    ensures Lex(s, 0) == Err(UnfinishedLiteralValue)
  {
    ScanKeyword(s, 0, "null", Null);
    LexScanError(s, 0);
  }

  /** Whitespace after the last token is an error. */
  lemma TrailingWhitespace(s: string)
    requires s == "[ "
    ensures Lex(s, 0) == Err(UnexpectedEof)
  {
    assert s[0] == '[';
    ScanPunctuation(s, 0);
    LexWhitespaceOnly(s, 1);
    LexStep(s, 0);
  }

  /** A backslash before the last quote escapes it, leaving the string open. */
  lemma EscapedLastQuote(s: string)
    requires s == "\"a\\\""
    ensures Lex(s, 0) == Err(UnclosedQuotes)
  {
    CloseQuoteSkips(s, 0, 1, 3);
    QuoteAfterRun(s, 0, 2, 3);
    assert SkipWhitespace(s, 0) == 0;
    LexScanError(s, 0);
  }
}
