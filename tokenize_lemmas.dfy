/** Properties of the lexer model in module Tokenize: what each scanner
    promises about the cursor and the text it takes, how the dispatch loop
    composes them, and the behaviour on the inputs of the repository's tests. */
module TokenizeLemmas {
  import opened Tokenize

  // ---------------------------------------------------------------------------
  // Whitespace and punctuation

  /** A step from `i` fails with UnexpectedEof exactly when only whitespace is left. */
  lemma ScanTokenEof(chars: seq<char>, i: nat)
    requires i < |chars|
    ensures ScanToken(chars, i) == Err(UnexpectedEof) <==>
      forall j :: i <= j < |chars| ==> IsWhitespace(chars[j])
  {
    var k := SkipWhitespace(chars, i);
    if k < |chars| {
      assert !IsWhitespace(chars[k]);
    }
  }

  /** Trailing whitespace is an error, not a clean end of input. */
  lemma LexWhitespaceOnly(chars: seq<char>, i: nat)
    requires i < |chars|
    requires forall j :: i <= j < |chars| ==> IsWhitespace(chars[j])
    ensures Lex(chars, i) == Err(UnexpectedEof)
  {
    ScanTokenEof(chars, i);
  }

  /** The dispatch table has exactly six single-character tokens. */
  lemma PunctuationTable(c: char)
    ensures Punctuation(c).Some? <==> c in "[]{},:"
  {
  }

  /** Each of `[ ] { } , :` is its own token, the cursor left on it. */
  lemma ScanPunctuation(chars: seq<char>, i: nat)
    requires i < |chars| && Punctuation(chars[i]).Some?
    ensures ScanToken(chars, i) == Ok((Punctuation(chars[i]).value, i))
  {
  }

  /** Input made only of punctuation yields one token per character, in order. */
  lemma {:induction false} LexPunctuation(chars: seq<char>, i: nat)
    requires i <= |chars|
    requires forall j :: i <= j < |chars| ==> Punctuation(chars[j]).Some?
    ensures Lex(chars, i).Ok?
    ensures |Lex(chars, i).value| == |chars| - i
    ensures forall j :: i <= j < |chars| ==> Lex(chars, i).value[j - i] == Punctuation(chars[j]).value
    decreases |chars| - i
  {
    if i < |chars| {
      ScanPunctuation(chars, i);
      LexPunctuation(chars, i + 1);
    }
  }

  // ---------------------------------------------------------------------------
  // Keywords

  /** A keyword start dispatches to the matcher for that keyword. */
  lemma ScanKeyword(chars: seq<char>, i: nat, lit: string, token: Token)
    requires i < |chars|
    requires (lit, token) in {("null", Null), ("true", True), ("false", False)}
    requires chars[i] == lit[0]
    ensures LiteralMatches(chars, i, lit) ==> ScanToken(chars, i) == Ok((token, i + |lit| - 1))
    ensures !LiteralMatches(chars, i, lit) ==> ScanToken(chars, i) == Err(UnfinishedLiteralValue)
  {
  }

  // ---------------------------------------------------------------------------
  // Numbers

  /** Where the number scanner stops, read off the characters: it takes a run of
      digits, `.` and `-` in which nothing but digits follows a `.`, and stops
      before the first character that is none of these. */
  lemma NumberEndIs(chars: seq<char>, i: nat, e: nat)
    requires i <= e <= |chars|
    requires forall k :: i <= k < e ==> IsNumberChar(chars[k])
    requires forall j, k :: i <= j < k < e && chars[j] == '.' ==> chars[k] != '.' && chars[k] != '-'
    requires e == |chars| || !IsNumberChar(chars[e])
    ensures NumberEnd(chars, i, false) == e
  {
    NumberEndLongest(chars, i);
    var end := NumberEnd(chars, i, false);
    var t := chars[i..e];
    assert forall k :: 0 <= k < |t| ==> t[k] == chars[i + k];
    assert NumberText(t);
    forall k | i <= k < end ensures IsNumberChar(chars[k]) {
      assert chars[i..end][k - i] == chars[k];
    }
  }

  /** Once a digit has been seen, a rest `s[k..]` with at most one `.` (none if
      one was seen already) completes the mantissa exactly when it is made of
      digits and `.`. */
  lemma {:induction false} DecimalChars(s: string, k: nat, seenDot: bool)
    requires k <= |s|
    requires forall i, j :: k <= i < j < |s| && s[i] == '.' ==> s[j] != '.'
    requires seenDot ==> forall i :: k <= i < |s| ==> s[i] != '.'
    ensures DecimalFrom(s, k, seenDot, true) <==> forall i :: k <= i < |s| ==> IsDigit(s[i]) || s[i] == '.'
    decreases |s| - k
  {
    if k < |s| {
      DecimalChars(s, k + 1, seenDot || s[k] == '.');
    }
  }

  /** Number text that starts with a digit is accepted by the float parser
      exactly when no `-` was taken in. */
  lemma NumberTextValid(t: string)
    requires NumberText(t) && 0 < |t| && IsDigit(t[0])
    ensures ValidFloatText(t) <==> '-' !in t
  {
    DecimalChars(t, 1, false);
  }

  /** A digit goes to the number scanner. */
  lemma ScanTokenDigit(chars: seq<char>, i: nat)
    requires i < |chars| && IsDigit(chars[i])
    ensures ScanToken(chars, i) == ScanNumber(chars, i)
  {
    assert SkipWhitespace(chars, i) == i;
    assert Punctuation(chars[i]).None?;
  }

  /** A digit starts a number: the longest number text from there, which holds
      at least that digit, becomes a Number token unless it holds a `-`, and the
      cursor is left on the character that ended it. */
  lemma ScanDigit(chars: seq<char>, i: nat)
    requires i < |chars| && IsDigit(chars[i])
    ensures i < NumberEnd(chars, i, false)
    ensures var e := NumberEnd(chars, i, false);
      '-' in chars[i..e] ==> ScanToken(chars, i) == Err(ParseNumberError(Invalid))
    ensures var e := NumberEnd(chars, i, false);
      '-' !in chars[i..e] ==> ScanToken(chars, i) == Ok((Number(chars[i..e]), e))
  {
    ScanTokenDigit(chars, i);
    NumberEndLongest(chars, i);
    NumberTextValid(chars[i..NumberEnd(chars, i, false)]);
  }

  /** The float parser never sees empty text: a number starts at a digit, so
      `ParseNumberError(Empty)` cannot occur. */
  lemma NoEmptyNumber(chars: seq<char>, i: nat)
    requires i < |chars|
    ensures ScanToken(chars, i) != Err(ParseNumberError(Empty))
  {
    var k := SkipWhitespace(chars, i);
    if k < |chars| && IsDigit(chars[k]) {
      ScanDigit(chars, k);
    }
  }

  // ---------------------------------------------------------------------------
  // Strings

  /** A quote goes to the string scanner. */
  lemma ScanTokenQuote(chars: seq<char>, i: nat)
    requires i < |chars| && chars[i] == '"'
    ensures ScanToken(chars, i) == ScanString(chars, i)
  {
    assert SkipWhitespace(chars, i) == i;
  }

  /** A quote opens a string that ends at the first unescaped quote; the content
      is everything in between, verbatim. */
  lemma ScanQuote(chars: seq<char>, i: nat)
    requires i < |chars| && chars[i] == '"'
    ensures ScanToken(chars, i).Ok? <==> exists q :: ClosingQuote(chars, i, q)
    ensures ScanToken(chars, i).Ok? ==>
      var q := ScanToken(chars, i).value.1;
      ScanToken(chars, i).value.0 == String(chars[i + 1..q]) && ClosingQuote(chars, i, q) &&
      forall j :: i < j < q ==> !ClosingQuote(chars, i, j)
    ensures ScanToken(chars, i).Err? ==> ScanToken(chars, i).error == UnclosedQuotes
  {
    ScanTokenQuote(chars, i);
  }

  /** Only a `"` can close a string: the search for the closing quote passes
      over every other character. */
  lemma {:induction false} CloseQuoteSkips(chars: seq<char>, open: nat, j: nat, m: nat)
    requires open < j <= m <= |chars|
    requires forall k :: j <= k < m ==> chars[k] != '"'
    ensures CloseQuote(chars, open, j) == CloseQuote(chars, open, m)
    decreases m - j
  {
    if j < m {
      CloseQuoteSkips(chars, open, j + 1, m);
    }
  }

  /** A string with no quote inside, whose last character is not a backslash,
      ends at the next quote. */
  lemma PlainString(chars: seq<char>, i: nat, q: nat)
    requires i < q < |chars| && chars[i] == '"' && chars[q] == '"'
    requires forall k :: i < k < q ==> chars[k] != '"'
    requires q == i + 1 || chars[q - 1] != '\\'
    ensures ScanToken(chars, i) == Ok((String(chars[i + 1..q]), q))
  {
    CloseQuoteSkips(chars, i, i + 1, q);
    assert BackslashRun(chars, i + 1, q) == 0;
    ScanTokenQuote(chars, i);
  }

  /** BackslashRun counts the whole run: when `chars[m..j]` are backslashes and
      the character before `m` is not (or `m` is the bound), the run is `j - m`. */
  lemma {:induction false} RunLength(chars: seq<char>, lo: nat, m: nat, j: nat)
    requires lo <= m <= j <= |chars|
    requires forall k :: m <= k < j ==> chars[k] == '\\'
    requires m == lo || chars[m - 1] != '\\'
    ensures BackslashRun(chars, lo, j) == j - m
    decreases j
  {
    if m < j {
      RunLength(chars, lo, m, j - 1);
    }
  }

  /** A quote after a run of `j - m` backslashes closes the string exactly when
      the run is even. */
  lemma QuoteAfterRun(chars: seq<char>, open: nat, m: nat, j: nat)
    requires open < m <= j < |chars| && chars[j] == '"'
    requires forall k :: m <= k < j ==> chars[k] == '\\'
    requires m == open + 1 || chars[m - 1] != '\\'
    ensures ClosingQuote(chars, open, j) <==> (j - m) % 2 == 0
  {
    RunLength(chars, open + 1, m, j);
  }

  // ---------------------------------------------------------------------------
  // Anything else

  /** A character that starts no token is reported as it is, the cursor left on it. */
  lemma ScanUnrecognized(chars: seq<char>, i: nat)
    requires i < |chars| && !IsWhitespace(chars[i]) && Punctuation(chars[i]).None?
    requires chars[i] != 'n' && chars[i] != 't' && chars[i] != 'f'
    requires chars[i] != '"' && !IsDigit(chars[i])
    ensures ScanToken(chars, i) == Err(CharNotRecognized(chars[i]))
  {
  }

  // ---------------------------------------------------------------------------
  // The dispatch loop

  /** Every step moves the cursor forward, so there are at most as many tokens
      as characters. */
  lemma {:induction false} LexTokenBound(chars: seq<char>, i: nat)
    requires i <= |chars| + 1
    ensures Lex(chars, i).Ok? && i <= |chars| ==> |Lex(chars, i).value| <= |chars| - i
    decreases |chars| + 1 - i
  {
    if i < |chars| {
      LexStep(chars, i);
      var s := ScanToken(chars, i);
      if s.Ok? {
        LexTokenBound(chars, s.value.1 + 1);
      }
    }
  }

  /** The tokens are produced left to right: the first is the one at the cursor. */
  lemma LexFirst(chars: seq<char>, i: nat)
    requires i < |chars|
    requires Lex(chars, i).Ok?
    ensures ScanToken(chars, i).Ok?
    ensures |Lex(chars, i).value| > 0 && Lex(chars, i).value[0] == ScanToken(chars, i).value.0
    ensures Lex(chars, i).value[1..] == Lex(chars, ScanToken(chars, i).value.1 + 1).value
  {
    LexStep(chars, i);
  }

  /** A failure is always the error of one scanner step, returned unchanged. */
  lemma {:induction false} LexErrorIsScanError(chars: seq<char>, i: nat)
    requires i <= |chars| + 1
    requires Lex(chars, i).Err?
    ensures exists j :: i <= j < |chars| && ScanToken(chars, j) == Err(Lex(chars, i).error)
    decreases |chars| + 1 - i
  {
    LexStep(chars, i);
    var s := ScanToken(chars, i);
    if s.Ok? {
      LexErrorIsScanError(chars, s.value.1 + 1);
      var j :| s.value.1 + 1 <= j < |chars| && ScanToken(chars, j) == Err(Lex(chars, s.value.1 + 1).error);
      assert i <= j;
    } else {
      assert ScanToken(chars, i) == Err(Lex(chars, i).error);
    }
  }

  /** A step that fails aborts the scan with that error. */
  lemma LexScanError(chars: seq<char>, i: nat)
    requires i < |chars| && ScanToken(chars, i).Err?
    ensures Lex(chars, i) == Err(ScanToken(chars, i).error)
  {
    LexStep(chars, i);
  }
}
