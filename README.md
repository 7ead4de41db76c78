# A verified model of the JSON lexer

This project models the lexer of a small Rust JSON library (`src/tokenize.rs`).
The lexer turns a sequence of characters into a list of tokens, or into the first
`TokenizeError` it meets. It is written in Dafny:

- `tokenize.dfy` (module `Tokenize`) holds the two enums, one method per Rust
  function, and a pure specification function next to each method.
  - Each Rust function becomes a method with the same loop: `TokenizeLiteral`,
    `TokenizeFloat`, `TokenizeString`, `MakeToken` (with its dispatch
    `DispatchToken`) and `Tokenize`.
  - Rust threads one cursor through every scanner as `&mut usize`. Here it is
    passed in as `index` and handed back as `next`.
  - Each method is proved against a specification function:
    - `SkipWhitespace`, `LiteralMatches`, `NumberEnd` and `CloseQuote` for the scanners;
    - `ScanToken` for one step of the dispatch loop;
    - `Lex` for the whole token list.
- `tokenize_lemmas.dfy` (module `TokenizeLemmas`) proves the properties of the
  scanners and of the dispatch loop, stated against those functions:
  - whitespace-only input gives `UnexpectedEof`;
  - punctuation gives one token per character;
  - keyword matching;
  - the number scanner takes the longest number-text prefix, and when that text parses;
  - quote escaping by backslash runs;
  - error propagation, token order and the token-count bound.
- `tokenize_tests.dfy` (module `TokenizeTests`) proves the outcome of every unit
  test in `src/tokenize.rs`, plus some edge cases.

Behaviours of the code that the model keeps, as written:

- **Cursor past the end.** After a number that ends the input, the outer loop's
  `index += 1` moves the cursor to `len + 1`. `Lex` and the loop of `Tokenize`
  allow a cursor up to `|chars| + 1`.
- **Skipped character.** The character that ends a number is never tokenized,
  because the number scanner leaves the cursor on it and the outer loop steps
  past it. So `1,` gives only `Number("1")`, and `[1]` gives no `RightBracket`
  (`TokenizeTests.NumberSwallowsNext`, `TokenizeTests.NumberSwallowsBracket`).
- **Trailing whitespace fails.** Whitespace after the last token is an error,
  `UnexpectedEof` (`TokenizeTests.TrailingWhitespace`).
- **Minus signs.** Strict JSON allows only a leading `-`. Here a leading `-`
  never reaches the number scanner, which is entered only on a digit
  (src/tokenize.rs:43), so every negative number fails: `-1` gives
  `CharNotRecognized('-')` (`TokenizeTests.LeadingMinus`). Inside a number the
  scanner takes any number of `-` before the first `.`
  (src/tokenize.rs:101-104), so `1-2` and `1--2` are both collected whole, and
  the parse then fails with `ParseNumberError`.

`Number` carries the scanned text rather than an `f64`. `ValidFloatText` states
which of those texts Rust's `str::parse::<f64>` accepts.

The test lemmas take their input as a parameter fixed by a precondition
(`requires s == "true,"`). They state the same outcome as the Rust tests.

## Model

| member | source | states |
|---|---|---|
| Tokenize.Token | src/tokenize.rs:145-168 | the eleven token kinds: six punctuation marks, the three keywords, `Number` (holding its scanned text) and `String` (holding its verbatim content) |
| Tokenize.TokenizeError | src/tokenize.rs:136-142 | the five ways lexing fails; `ParseNumberError` keeps only the kind of the float parser's error |
| Tokenize.FloatErrorKind | src/tokenize.rs:138 | the kind carried by Rust's `ParseFloatError`: `Empty` for empty text, `Invalid` for any other rejected text |
| Tokenize.IsDigit | src/tokenize.rs:43 | ASCII decimal digits `0` to `9`, as `is_ascii_digit` accepts (also the scan loop's digit arm at line 95) |
| Tokenize.IsWhitespace | src/tokenize.rs:24 | ASCII whitespace: space, tab, line feed, form feed, carriage return |
| Tokenize.Punctuation | src/tokenize.rs:31-37 | the dispatch table's single-character tokens: `[ ] { } , :` map to their tokens, every other character to `None` |
| Tokenize.SkipWhitespace | src/tokenize.rs:24-30 | the first position at or after `i` that is not ASCII whitespace: everything skipped is whitespace, and the result is the end of input or a non-whitespace character |
| Tokenize.LiteralMatches | src/tokenize.rs:123-126 | the reference condition for a keyword: the next `\|lit\|` characters exist and spell `lit` exactly |
| Tokenize.TokenizeLiteral | src/tokenize.rs:117-132 | succeeds iff the next `\|lit\|` characters spell `lit`; the cursor then ends on the literal's last character (`index + \|lit\| - 1`). Otherwise the error is `UnfinishedLiteralValue`, and the cursor stops at the first mismatch or at the end of input, after a matching prefix of `lit`. Running out of input is a bounds-checked hardening of the unchecked read at line 124 |
| Tokenize.NumberText | src/tokenize.rs:90-109 | the reference predicate for the text the number loop may collect: only digits, `.` and `-`, and nothing but digits after a `.` |
| Tokenize.NumberEnd | src/tokenize.rs:90-109 | the scan loop's stopping point from `e`, given the `has_decimal` flag: digits always go on, `.` or `-` only while no `.` was taken; the result lies between `e` and the end of input |
| Tokenize.NumberTextSnoc | src/tokenize.rs:93-107 | the scanner's per-character rule on number text: a digit always extends it; `.` or `-` extends it only while it has no `.`; tracks whether a `.` has been taken (the `has_decimal` flag) |
| Tokenize.NumberEndFrom | src/tokenize.rs:90-109 | resuming the scan at `j`, with `chars[i..j]` number text and the right `has_decimal` flag, it stops at an `e` where `chars[i..e]` is number text and one more character is not |
| Tokenize.NumberEndLongest | src/tokenize.rs:90-109 | the number scanner stops at the longest prefix of `chars[i..]` that is number text: that prefix is number text and no longer prefix is |
| Tokenize.ValidFloatText | src/tokenize.rs:111 | the decimal texts Rust's `str::parse::<f64>` accepts: an optional sign, then digits with at most one `.` and at least one digit |
| Tokenize.ParseNumber | src/tokenize.rs:111-114 | a text the parser accepts becomes `Number` of that text; otherwise `ParseNumberError`, of kind `Empty` for no text and `Invalid` for any other |
| Tokenize.TokenizeFloat | src/tokenize.rs:81-115 | leaves the cursor at `NumberEnd`, the end of the longest number-text prefix from `index` (the number text itself, and no longer prefix, stated outright); the result is the float parse of exactly that text |
| Tokenize.ClosingQuote | src/tokenize.rs:68 | the break guard `'"' if !is_escaping`, stated on the characters: position `j` after the opening quote holds a `"` preceded by an even run of backslashes of the content |
| Tokenize.CloseQuote | src/tokenize.rs:58-75 | the first closing quote at or after `j`: it closes the string, and nothing before it does; or `None` when no position up to the end of input does |
| Tokenize.BackslashRun | src/tokenize.rs:66-73 | the length of the backslash run just before `j`: all of those characters are backslashes, and the one before the run is not |
| Tokenize.EscapeFlag | src/tokenize.rs:55-73 | the `is_escaping` flag after pushing `chars[lo..j]`: a backslash toggles it, any other character clears it, and it starts cleared |
| Tokenize.EscapeFlagParity | src/tokenize.rs:55-73 | the `is_escaping` flag (toggled by a backslash, cleared by anything else) is set exactly when the backslash run before the current character has odd length |
| Tokenize.TokenizeString | src/tokenize.rs:52-79 | yields exactly what `ScanString` says: the verbatim content (backslashes kept) up to the first closing quote, with the cursor on that quote; or `UnclosedQuotes` with the cursor at the end of input |
| Tokenize.ScanLiteral | src/tokenize.rs:117-132 | the keyword matcher's outcome: the token with the cursor on the literal's last character when the literal follows in full, else `UnfinishedLiteralValue` |
| Tokenize.ScanNumber | src/tokenize.rs:81-115 | the number scanner's outcome: the parse of the text up to `NumberEnd`, with the cursor at `NumberEnd` |
| Tokenize.ScanString | src/tokenize.rs:52-79 | the string scanner's outcome: the content up to the first closing quote, with the cursor on it, or `UnclosedQuotes` when there is none |
| Tokenize.ScanToken | src/tokenize.rs:21-50 | one dispatch step never moves the cursor backwards and never past the end of input |
| Tokenize.Dispatch | src/tokenize.rs:31-47 | classifying a non-whitespace character keeps the cursor in range and never yields `UnexpectedEof` |
| Tokenize.DispatchToken | src/tokenize.rs:31-47 | the match on the first non-whitespace character yields the token and cursor of `Dispatch`, or its error |
| Tokenize.MakeToken | src/tokenize.rs:21-50 | skipping whitespace and then dispatching yields exactly the token and cursor of `ScanToken`, or its error. `UnexpectedEof` comes when the whitespace runs to the end |
| Tokenize.Lex | src/tokenize.rs:12-18 | the token list from cursor `i`: empty once the cursor reaches the end of input (or one past it); otherwise the first error of a step, or the step's token followed by the list from one past the step's cursor |
| Tokenize.LexResume | src/tokenize.rs:12-16 | one turn of the loop keeps the tokens collected so far followed by the rest of the scan unchanged, or ends it with the step's error |
| Tokenize.Tokenize | src/tokenize.rs:7-19 | the result is `Lex(chars, 0)`: the tokens in scan order or the first error; on success there are at most as many tokens as characters |
| TokenizeLemmas.ScanTokenEof | src/tokenize.rs:24-28 | a step fails with `UnexpectedEof` if and only if everything from the cursor to the end of input is whitespace |
| TokenizeLemmas.LexWhitespaceOnly | src/tokenize.rs:24-28 | whitespace-only input from the cursor on makes the whole scan fail with `UnexpectedEof` |
| TokenizeLemmas.PunctuationTable | src/tokenize.rs:31-37 | exactly the six characters `[ ] { } , :` are single-character tokens |
| TokenizeLemmas.ScanPunctuation | src/tokenize.rs:31-37 | each of `[ ] { } , :` yields its own token with the cursor left on it |
| TokenizeLemmas.LexPunctuation | src/tokenize.rs:31-37 | input made only of punctuation yields one token per character, in order, and nothing else |
| TokenizeLemmas.ScanKeyword | src/tokenize.rs:39-41 | `n`, `t` and `f` go to the keyword matcher: the token with the cursor on the literal's last character if `null`/`true`/`false` follows in full, `UnfinishedLiteralValue` otherwise |
| TokenizeLemmas.NumberEndIs | src/tokenize.rs:90-109 | when `chars[i..e]` is made of digits, `.` and `-`, with only digits after a `.`, and the character at `e` is none of these, the scanner stops exactly at `e` |
| TokenizeLemmas.DecimalChars | src/tokenize.rs:111-114 | once a digit has been seen, a rest with at most one `.` completes a decimal mantissa iff it holds only digits and `.` |
| TokenizeLemmas.NumberTextValid | src/tokenize.rs:111-114 | number text that starts with a digit parses as a float if and only if it holds no `-` |
| TokenizeLemmas.ScanTokenDigit | src/tokenize.rs:43 | a digit goes to the number scanner |
| TokenizeLemmas.ScanDigit | src/tokenize.rs:43 | a number starting at a digit takes at least that digit. It becomes `Number` of the longest number text, with the cursor on the character after it, if that text has no `-`; otherwise it is `ParseNumberError(Invalid)` |
| TokenizeLemmas.NoEmptyNumber | src/tokenize.rs:43 | no step ever fails with `ParseNumberError(Empty)`: the number scanner is entered only on a digit, so the parsed text is never empty |
| TokenizeLemmas.ScanTokenQuote | src/tokenize.rs:45 | a `"` goes to the string scanner |
| TokenizeLemmas.ScanQuote | src/tokenize.rs:52-79 | a string succeeds iff some closing quote exists. The token is then the verbatim content strictly between the opening quote and the first closing quote, with the cursor on that quote; otherwise the error is `UnclosedQuotes` |
| TokenizeLemmas.CloseQuoteSkips | src/tokenize.rs:66-73 | only a `"` can close a string: the search passes over every other character |
| TokenizeLemmas.PlainString | src/tokenize.rs:58-75 | a string with no quote inside, whose last character is not a backslash, ends at the next quote with its content verbatim |
| TokenizeLemmas.RunLength | src/tokenize.rs:66-73 | the backslash run before `j` has exactly the length of the maximal run of backslashes there |
| TokenizeLemmas.QuoteAfterRun | src/tokenize.rs:66-73 | a `"` after a maximal run of backslashes closes the string if and only if the run has even length |
| TokenizeLemmas.ScanUnrecognized | src/tokenize.rs:46 | any non-whitespace character that starts no punctuation, keyword, number or string fails the step with `CharNotRecognized` of that very character |
| TokenizeLemmas.LexTokenBound | src/tokenize.rs:12-16 | each step moves the cursor forward, so a successful scan from `i` has at most `\|chars\| - i` tokens |
| TokenizeLemmas.LexFirst | src/tokenize.rs:12-16 | tokens come out in scan order: the first is the step's token at the cursor, and the rest is the scan from one past that step's cursor |
| TokenizeLemmas.LexErrorIsScanError | src/tokenize.rs:13 | a failed scan's error is, unchanged, the error of one step at some cursor inside the input |
| TokenizeLemmas.LexScanError | src/tokenize.rs:13 | a step that fails aborts the whole scan with that exact error and no tokens |
| TokenizeTests.TrueComma | src/tokenize.rs:180-188 | `true,` gives `[True, Comma]` |
| TokenizeTests.JustComma | src/tokenize.rs:190-198 | `,` gives `[Comma]` |
| TokenizeTests.JustKeyword | src/tokenize.rs:200-228 | `null`, `true` and `false` each give their one token |
| TokenizeTests.AllPunctuation | src/tokenize.rs:230-246 | `[]{},:` gives the six punctuation tokens in order |
| TokenizeTests.Integer | src/tokenize.rs:248-257 | `100` gives `[Number("100")]`; the number's step leaves the cursor at the end of input (`len`), so the loop's `index += 1` takes it to `len + 1` |
| TokenizeTests.Float | src/tokenize.rs:259-268 | `1.23` gives `[Number("1.23")]` |
| TokenizeTests.SimpleString | src/tokenize.rs:270-278 | `"ken"` gives `[String("ken")]` |
| TokenizeTests.UnterminatedString | src/tokenize.rs:280-288 | `"ken` fails with `UnclosedQuotes` |
| TokenizeTests.EscapedQuoteCloses | src/tokenize.rs:290-298 | in `"the \" is OK"` the escaped quote does not close the string; the last quote does |
| TokenizeTests.EscapedQuote | src/tokenize.rs:290-298 | `"the \" is OK"` gives one `String` whose content keeps the backslash and the escaped quote |
| TokenizeTests.WhiteSpace | src/tokenize.rs:300-308 | a single space fails with `UnexpectedEof` |
| TokenizeTests.MoreComplexStrings | src/tokenize.rs:310-324 | the two strings of `{"key": "value"}` end at their closing quotes, the second after skipping a space |
| TokenizeTests.MoreComplex | src/tokenize.rs:310-324 | `{"key": "value"}` gives `LeftBrace, String("key"), Colon, String("value"), RightBrace` |
| TokenizeTests.Unrecognized | src/tokenize.rs:46 | `@` fails with `CharNotRecognized('@')` |
| TokenizeTests.LeadingMinus | src/tokenize.rs:43-46 | `-1` fails with `CharNotRecognized('-')`: only a digit enters the number scanner |
| TokenizeTests.NumberSwallowsNext | src/tokenize.rs:106-108 | `1,` gives only `[Number("1")]`: the comma that ends the number is skipped |
| TokenizeTests.NumberSwallowsBracket | src/tokenize.rs:106-108 | `[1]` gives `[LeftBracket, Number("1")]`: the closing bracket is skipped |
| TokenizeTests.MinusInsideNumber | src/tokenize.rs:101-104 | `1-2` is collected whole and fails with `ParseNumberError(Invalid)` |
| TokenizeTests.TruncatedKeyword | src/tokenize.rs:123-126 | `nul` fails with `UnfinishedLiteralValue` (the hardened end-of-input case) |
| TokenizeTests.TrailingWhitespace | src/tokenize.rs:24-28 | `[ ` fails with `UnexpectedEof` |
| TokenizeTests.EscapedLastQuote | src/tokenize.rs:66-73 | `"a\"` fails with `UnclosedQuotes`, because the last quote is escaped |

## Left out

- The `f64` value of a number (src/tokenize.rs:111-114). `Number` keeps the
  scanned text, and `ParseNumber` decides only whether Rust's parser accepts it.
  The value itself would need floating-point conversion.
- Rust's float grammar is modelled only for decimal notation. `ValidFloatText`
  has no exponent, `inf` or `nan` forms. That is exact for the parser's inputs
  here: the scanner only ever collects digits, `.` and `-`.
- The `ParseFloatError` payload (src/tokenize.rs:138) is reduced to its kind,
  `Empty` or `Invalid`. The scanner's text always starts with a digit, so only
  `Invalid` occurs (`TokenizeLemmas.NoEmptyNumber`).
- UTF-8 decoding by `input.chars().collect()` (src/tokenize.rs:8). The model
  takes the decoded `seq<char>` as its input.
- The unused `has_negative` flag (src/tokenize.rs:87,103) and the unused imports
  (src/tokenize.rs:2,4). They affect no result.
- The test-only constructor `Token::string` (src/tokenize.rs:169-174). The test
  lemmas write `String(...)` directly.
- `src/lib.rs` is not part of this model. It declares only a `Value` enum with
  no logic.
- Tokenize.TokenizeLiteral: a keyword cut short by the end of input
  (`nul`) returns `UnfinishedLiteralValue`; the Rust code panics on an
  out-of-bounds read there instead.
- Tokenize.TokenizeString: its own contract states the result through
  `ScanString`. The closing-quote characterization (first unescaped quote,
  nothing earlier closes) is stated in `CloseQuote`'s contract and in
  `TokenizeLemmas.ScanQuote`, not repeated in the method's ensures.
