/** A model of the JSON lexer in src/tokenize.rs.

    The input is the already decoded character sequence, and the single cursor
    that the source threads through every scanner as `&mut usize` is passed in
    as `index` and handed back as `next`.  Each scanner is a method with the
    loop of the source; next to it sits a specification function (SkipWhitespace,
    LiteralMatches, NumberEnd, CloseQuote, ScanToken, Lex) that the method is
    proved against and that the lemmas of module TokenizeLemmas talk about.
 */
module Tokenize {

  /** The lexical units.  `Number` keeps the scanned text; its f64 value is not modelled. */
  datatype Token =
    | LeftBrace
    | RightBrace
    | LeftBracket
    | RightBracket
    | Comma
    | Colon
    | Null
    | False
    | True
    | Number(text: string)
    | String(value: string)

  /** Why text failed to parse as a float: the two kinds inside Rust's `ParseFloatError`. */
  datatype FloatErrorKind = Empty | Invalid

  datatype TokenizeError =
    | UnfinishedLiteralValue
    | ParseNumberError(kind: FloatErrorKind)
    | UnclosedQuotes
    | UnexpectedEof
    | CharNotRecognized(c: char)

  datatype Result<T> = Ok(value: T) | Err(error: TokenizeError)

  datatype Option<T> = None | Some(value: T)

  // ---------------------------------------------------------------------------
  // Character classes

  /** `char::is_ascii_whitespace`: space, tab, line feed, form feed, carriage return. */
  predicate IsWhitespace(c: char) {
    c == ' ' || c == '\t' || c == '\n' || c == '\U{000C}' || c == '\r'
  }

  /** `char::is_ascii_digit`. */
  predicate IsDigit(c: char) {
    '0' <= c <= '9'
  }

  /** The single-character tokens of the dispatch table. */
  function Punctuation(c: char): Option<Token> {
    match c
    case '[' => Some(LeftBracket)
    case ']' => Some(RightBracket)
    case '{' => Some(LeftBrace)
    case '}' => Some(RightBrace)
    case ',' => Some(Comma)
    case ':' => Some(Colon)
    case _ => None
  }

  // ---------------------------------------------------------------------------
  // Whitespace

  /** The first position at or after `i` that is not whitespace, or the end of input. */
  function SkipWhitespace(chars: seq<char>, i: nat): (k: nat)
    requires i <= |chars|
    ensures i <= k <= |chars|
    ensures forall j :: i <= j < k ==> IsWhitespace(chars[j])
    ensures k == |chars| || !IsWhitespace(chars[k])
    decreases |chars| - i
  {
    if i == |chars| || !IsWhitespace(chars[i]) then i else SkipWhitespace(chars, i + 1)
  }

  // ---------------------------------------------------------------------------
  // Keywords

  /** The next `|lit|` characters from `i` spell `lit`. */
  predicate LiteralMatches(chars: seq<char>, i: nat, lit: string) {
    i + |lit| <= |chars| && chars[i..i + |lit|] == lit
  }

  /** Compares the input with `lit` position by position (src/tokenize.rs:117-132).
      On success the cursor is left on the last character of the literal; on the
      first mismatch, or when the input runs out, the cursor is left there.
      Running out of input is a hardening: the source indexes `chars` without a
      bounds check at that point and panics. */
  method TokenizeLiteral(chars: seq<char>, index: nat, lit: string, token: Token)
    returns (r: Result<Token>, next: nat)
    requires 0 < |lit|
    requires index <= |chars|
    ensures r.Ok? <==> LiteralMatches(chars, index, lit)
    ensures r.Ok? ==> r.value == token && next == index + |lit| - 1
    ensures r.Err? ==> r.error == UnfinishedLiteralValue
    ensures r.Err? ==> index <= next < index + |lit| && next <= |chars|
    ensures r.Err? ==> chars[index..next] == lit[..next - index]
    ensures r.Err? ==> next == |chars| || chars[next] != lit[next - index]
    ensures Outcome(r, next) == ScanLiteral(chars, index, lit, token)
  {
    next := index;
    for k := 0 to |lit|
      invariant next == index + k <= |chars|
      invariant chars[index..next] == lit[..k]
    {
      // hardening of the unchecked `chars[*index]`
      if next == |chars| || lit[k] != chars[next] {
        return Err(UnfinishedLiteralValue), next;
      }
      next := next + 1;
    }
    assert lit[..|lit|] == lit;
    r := Ok(token);
    next := next - 1;
  }

  // ---------------------------------------------------------------------------
  // Numbers

  predicate IsNumberChar(c: char) {
    IsDigit(c) || c == '.' || c == '-'
  }

  /** Text the number scanner can collect: only digits, `.` and `-`, and
      after a `.` nothing but digits. */
  predicate NumberText(s: string) {
    (forall k :: 0 <= k < |s| ==> IsNumberChar(s[k])) &&
    (forall j, k :: 0 <= j < k < |s| && s[j] == '.' ==> s[k] != '.' && s[k] != '-')
  }

  /** Where the number scanner stops when it reaches position `e` and `hasDot`
      says whether it has taken a `.`: digits are always taken, a `.` or a `-`
      only before the first `.`. */
  function NumberEnd(chars: seq<char>, e: nat, hasDot: bool): (end: nat)
    requires e <= |chars|
    ensures e <= end <= |chars|
    decreases |chars| - e
  {
    if e == |chars| then e
    else if IsDigit(chars[e]) then NumberEnd(chars, e + 1, hasDot)
    else if chars[e] == '.' && !hasDot then NumberEnd(chars, e + 1, true)
    else if chars[e] == '-' && !hasDot then NumberEnd(chars, e + 1, hasDot)
    else e
  }

  /** Number text `s` takes in `c` under the scanner's rule, and keeps track of
      whether it holds a `.`. */
  lemma NumberTextSnoc(s: string, c: char, hasDot: bool)
    requires NumberText(s)
    requires hasDot <==> '.' in s
    ensures '.' in s + [c] <==> hasDot || c == '.'
    ensures NumberText(s + [c]) <==> IsDigit(c) || ((c == '.' || c == '-') && !hasDot)
  {
    var t := s + [c];
    assert forall k :: 0 <= k < |s| ==> t[k] == s[k];
    assert t[|s|] == c;
    if IsDigit(c) || ((c == '.' || c == '-') && !hasDot) {
      forall j, k | 0 <= j < k < |t| && t[j] == '.' ensures t[k] != '.' && t[k] != '-' {
        assert s[j] == '.';
      }
    } else if hasDot && IsNumberChar(c) {
      var j :| 0 <= j < |s| && s[j] == '.';
      assert t[j] == '.';
    }
  }

  /** Number text is closed under taking prefixes. */
  lemma NumberTextPrefix(s: string, n: nat)
    requires n <= |s|
    ensures NumberText(s) ==> NumberText(s[..n])
  {
    assert forall k :: 0 <= k < n ==> s[..n][k] == s[k];
  }

  /** From position `j`, with `chars[i..j]` number text and `hasDot` telling
      whether it holds a `.`, the scanner stops at an end `e` where
      `chars[i..e]` is number text and one more character is not. */
  lemma {:induction false} NumberEndFrom(chars: seq<char>, i: nat, j: nat, hasDot: bool)
    requires i <= j <= |chars|
    requires NumberText(chars[i..j])
    requires hasDot <==> '.' in chars[i..j]
    ensures var e := NumberEnd(chars, j, hasDot);
      NumberText(chars[i..e]) && (e == |chars| || !NumberText(chars[i..e + 1]))
    decreases |chars| - j
  {
    if j < |chars| {
      var c := chars[j];
      NumberTextSnoc(chars[i..j], c, hasDot);
      assert chars[i..j + 1] == chars[i..j] + [c];
      if IsDigit(c) || ((c == '.' || c == '-') && !hasDot) {
        NumberEndFrom(chars, i, j + 1, hasDot || c == '.');
      }
    }
  }

  /** The scanner stops at the longest number-text prefix of `chars[i..]`. */
  lemma NumberEndLongest(chars: seq<char>, i: nat)
    requires i <= |chars|
    ensures NumberText(chars[i..NumberEnd(chars, i, false)])
    ensures forall m :: NumberEnd(chars, i, false) < m <= |chars| ==> !NumberText(chars[i..m])
  {
    assert chars[i..i] == [];
    NumberEndFrom(chars, i, i, false);
    var e := NumberEnd(chars, i, false);
    forall m | e < m <= |chars| ensures !NumberText(chars[i..m]) {
      NumberTextPrefix(chars[i..m], e + 1 - i);
      assert chars[i..m][..e + 1 - i] == chars[i..e + 1];
    }
  }

  /** Whether Rust's `str::parse::<f64>` accepts `s` written in plain decimal
      notation: an optional sign, then digits with at most one `.` and at least
      one digit among them. */
  predicate ValidFloatText(s: string) {
    if 0 < |s| && (s[0] == '+' || s[0] == '-') then DecimalFrom(s, 1, false, false)
    else DecimalFrom(s, 0, false, false)
  }

  /** `s[k..]` completes a decimal mantissa, given whether a `.` and a digit
      have been seen before `k`. */
  predicate DecimalFrom(s: string, k: nat, seenDot: bool, seenDigit: bool)
    requires k <= |s|
    decreases |s| - k
  {
    if k == |s| then seenDigit
    else if IsDigit(s[k]) then DecimalFrom(s, k + 1, seenDot, true)
    else s[k] == '.' && !seenDot && DecimalFrom(s, k + 1, true, seenDigit)
  }

  /** `unparsed_num.parse()` and the match on its outcome (src/tokenize.rs:111-114). */
  function ParseNumber(text: string): Result<Token> {
    if ValidFloatText(text) then Ok(Number(text))
    else Err(ParseNumberError(if text == [] then Empty else Invalid))
  }

  /** Collects digits, one `.` and any `-` before it (src/tokenize.rs:81-115).
      The cursor is left on the first character that does not fit, or at the end. */
  method TokenizeFloat(chars: seq<char>, index: nat) returns (r: Result<Token>, next: nat)
    requires index <= |chars|
    ensures next == NumberEnd(chars, index, false)
    ensures NumberText(chars[index..next])
    ensures forall m :: next < m <= |chars| ==> !NumberText(chars[index..m])
    ensures r == ParseNumber(chars[index..next])
    ensures Outcome(r, next) == ScanNumber(chars, index)
  {
    var text: string := "";
    var hasDecimal := false;
    next := index;
    while next < |chars|
      invariant index <= next <= |chars|
      invariant text == chars[index..next]
      invariant NumberEnd(chars, index, false) == NumberEnd(chars, next, hasDecimal)
    {
      var ch := chars[next];
      if IsDigit(ch) {
        assert NumberEnd(chars, next, hasDecimal) == NumberEnd(chars, next + 1, hasDecimal);
        text := text + [ch];
      } else if ch == '.' && !hasDecimal {
        assert NumberEnd(chars, next, false) == NumberEnd(chars, next + 1, true);
        text := text + ['.'];
        hasDecimal := true;
      } else if ch == '-' && !hasDecimal {
        assert NumberEnd(chars, next, false) == NumberEnd(chars, next + 1, false);
        text := text + ['-'];
      } else {
        break;
      }
      assert chars[index..next + 1] == text;
      next := next + 1;
    }
    NumberEndLongest(chars, index);
    r := ParseNumber(text);
  }

  // ---------------------------------------------------------------------------
  // Strings

  /** The length of the run of backslashes that ends just before position `j`,
      looking no further back than `lo`. */
  function BackslashRun(chars: seq<char>, lo: nat, j: nat): (n: nat)
    requires lo <= j <= |chars|
    ensures n <= j - lo
    ensures forall k :: j - n <= k < j ==> chars[k] == '\\'
    ensures j - n <= lo || chars[j - n - 1] != '\\'
    decreases j
  {
    if lo < j && chars[j - 1] == '\\' then 1 + BackslashRun(chars, lo, j - 1) else 0
  }

  /** Position `j` holds the quote that closes the string opened at `open`: a `"`
      after an even number of backslashes of the string's content. */
  predicate ClosingQuote(chars: seq<char>, open: nat, j: nat) {
    open < j < |chars| && chars[j] == '"' && BackslashRun(chars, open + 1, j) % 2 == 0
  }

  /** The first closing quote at or after `j`. */
  function CloseQuote(chars: seq<char>, open: nat, j: nat): (q: Option<nat>)
    requires open < j
    ensures q.Some? ==> j <= q.value && ClosingQuote(chars, open, q.value)
    ensures q.Some? ==> forall m :: j <= m < q.value ==> !ClosingQuote(chars, open, m)
    ensures q.None? ==> forall m :: j <= m < |chars| ==> !ClosingQuote(chars, open, m)
    decreases |chars| - j
  {
    if j >= |chars| then None
    else if ClosingQuote(chars, open, j) then Some(j)
    else CloseQuote(chars, open, j + 1)
  }

  /** The scanner's `is_escaping` flag once it has pushed `chars[lo..j]`: a
      backslash toggles it, any other character clears it. */
  function EscapeFlag(chars: seq<char>, lo: nat, j: nat): bool
    requires lo <= j <= |chars|
    decreases j
  {
    if j == lo then false
    else if chars[j - 1] == '\\' then !EscapeFlag(chars, lo, j - 1)
    else false
  }

  /** The flag is set exactly when the backslash run before `j` is odd. */
  lemma {:induction false} EscapeFlagParity(chars: seq<char>, lo: nat, j: nat)
    requires lo <= j <= |chars|
    ensures EscapeFlag(chars, lo, j) <==> BackslashRun(chars, lo, j) % 2 == 1
    decreases j
  {
    if lo < j && chars[j - 1] == '\\' {
      EscapeFlagParity(chars, lo, j - 1);
    }
  }

  /** Scans from the opening quote at `index` to the first unescaped quote
      (src/tokenize.rs:52-79).  The content is kept verbatim, backslashes
      included, and the cursor is left on the closing quote. */
  method TokenizeString(chars: seq<char>, index: nat) returns (r: Result<Token>, next: nat)
    requires index < |chars|
    ensures r.Err? ==> next == |chars|
    ensures Outcome(r, next) == ScanString(chars, index)
  {
    var content: string := "";
    var isEscaping := false;
    next := index;
    while true
      invariant index <= next < |chars|
      invariant content == chars[index + 1..next + 1]
      invariant isEscaping == EscapeFlag(chars, index + 1, next + 1)
      invariant CloseQuote(chars, index, index + 1) == CloseQuote(chars, index, next + 1)
      decreases |chars| - next
    {
      next := next + 1;
      if next >= |chars| {
        return Err(UnclosedQuotes), next;
      }
      var ch := chars[next];
      EscapeFlagParity(chars, index + 1, next);
      if ch == '"' && !isEscaping {
        assert ClosingQuote(chars, index, next);
        break;
      } else if ch == '\\' {
        isEscaping := !isEscaping;
      } else {
        isEscaping := false;
      }
      assert chars[index + 1..next + 1] == content + [ch];
      content := content + [ch];
    }
    assert CloseQuote(chars, index, next) == Some(next);
    r := Ok(String(content));
  }

  // ---------------------------------------------------------------------------
  // Dispatch

  /** What the keyword matcher yields for `lit`, as a token and a cursor. */
  function ScanLiteral(chars: seq<char>, k: nat, lit: string, token: Token): Result<(Token, nat)>
    requires 0 < |lit|
  {
    if LiteralMatches(chars, k, lit) then Ok((token, k + |lit| - 1)) else Err(UnfinishedLiteralValue)
  }

  /** One step of the dispatch loop from cursor `i`: the token and the cursor the
      scanners leave behind, or the first error. */
  function ScanToken(chars: seq<char>, i: nat): (r: Result<(Token, nat)>)
    requires i < |chars|
    ensures r.Ok? ==> i <= r.value.1 <= |chars|
  {
    var k := SkipWhitespace(chars, i);
    if k == |chars| then Err(UnexpectedEof) else Dispatch(chars, k)
  }

  /** The token that starts with the non-whitespace character at `k`. */
  function Dispatch(chars: seq<char>, k: nat): (r: Result<(Token, nat)>)
    requires k < |chars|
    ensures r.Ok? ==> k <= r.value.1 <= |chars|
    ensures r != Err(UnexpectedEof)
  {
    var c := chars[k];
    if Punctuation(c).Some? then Ok((Punctuation(c).value, k))
    else if c == 'n' then ScanLiteral(chars, k, "null", Null)
    else if c == 't' then ScanLiteral(chars, k, "true", True)
    else if c == 'f' then ScanLiteral(chars, k, "false", False)
    else if IsDigit(c) then ScanNumber(chars, k)
    else if c == '"' then ScanString(chars, k)
    else Err(CharNotRecognized(c))
  }

  /** What the number scanner yields from `k`, as a token and a cursor. */
  function ScanNumber(chars: seq<char>, k: nat): Result<(Token, nat)>
    requires k <= |chars|
  {
    var e := NumberEnd(chars, k, false);
    match ParseNumber(chars[k..e])
    case Ok(t) => Ok((t, e))
    case Err(x) => Err(x)
  }

  /** What the string scanner yields for the quote at `k`, as a token and a cursor. */
  function ScanString(chars: seq<char>, k: nat): Result<(Token, nat)>
    requires k < |chars|
  {
    match CloseQuote(chars, k, k + 1)
    case Some(q) => Ok((String(chars[k + 1..q]), q))
    case None => Err(UnclosedQuotes)
  }

  /** A scanner's token and cursor, in the shape ScanToken gives them. */
  function Outcome(r: Result<Token>, next: nat): Result<(Token, nat)> {
    match r
    case Ok(t) => Ok((t, next))
    case Err(e) => Err(e)
  }

  /** Skips whitespace, then classifies the next character (src/tokenize.rs:21-50). */
  method MakeToken(chars: seq<char>, index: nat) returns (r: Result<Token>, next: nat)
    requires index < |chars|
    ensures r.Ok? ==> index <= next <= |chars|
    ensures Outcome(r, next) == ScanToken(chars, index)
  {
    next := index;
    var c := chars[next];
    while IsWhitespace(c)
      invariant index <= next < |chars|
      invariant c == chars[next]
      invariant SkipWhitespace(chars, index) == SkipWhitespace(chars, next)
      decreases |chars| - next
    {
      next := next + 1;
      if next >= |chars| {
        r := Err(UnexpectedEof);
        return;
      }
      c := chars[next];
    }
    r, next := DispatchToken(chars, next);
  }

  /** The match on the first character that is not whitespace (src/tokenize.rs:31-47). */
  method DispatchToken(chars: seq<char>, k: nat) returns (r: Result<Token>, next: nat)
    requires k < |chars| && !IsWhitespace(chars[k])
    ensures r.Ok? ==> k <= next <= |chars|
    ensures Outcome(r, next) == Dispatch(chars, k)
  {
    var c := chars[k];
    var p := Punctuation(c);
    if p.Some? {
      r, next := Ok(p.value), k;
    } else if c == 'n' {
      r, next := TokenizeLiteral(chars, k, "null", Null);
    } else if c == 't' {
      r, next := TokenizeLiteral(chars, k, "true", True);
    } else if c == 'f' {
      r, next := TokenizeLiteral(chars, k, "false", False);
    } else if IsDigit(c) {
      r, next := TokenizeFloat(chars, k);
    } else if c == '"' {
      r, next := TokenizeString(chars, k);
    } else {
      r, next := Err(CharNotRecognized(c)), k;
    }
  }

  // ---------------------------------------------------------------------------
  // The dispatch loop

  /** The tokens from cursor `i` on: one ScanToken step, then the loop resumes one
      past the cursor it left.  The cursor may reach |chars| + 1 after a number
      that ends the input. */
  function Lex(chars: seq<char>, i: nat): Result<seq<Token>>
    requires i <= |chars| + 1
    decreases |chars| + 1 - i
  {
    if i >= |chars| then Ok([])
    else
      match ScanToken(chars, i)
      case Err(e) => Err(e)
      case Ok((t, n)) => Prepend([t], Lex(chars, n + 1))
  }

  function Prepend(ts: seq<Token>, r: Result<seq<Token>>): Result<seq<Token>> {
    match r
    case Ok(us) => Ok(ts + us)
    case Err(e) => Err(e)
  }

  lemma PrependAppend(ts: seq<Token>, us: seq<Token>, r: Result<seq<Token>>)
    ensures Prepend(ts, Prepend(us, r)) == Prepend(ts + us, r)
  {
    if r.Ok? {
      assert ts + (us + r.value) == (ts + us) + r.value;
    }
  }

  /** Lex from a cursor inside the input is one ScanToken step followed by the rest. */
  lemma LexStep(chars: seq<char>, i: nat)
    requires i < |chars|
    ensures ScanToken(chars, i).Err? ==> Lex(chars, i) == Err(ScanToken(chars, i).error)
    ensures ScanToken(chars, i).Ok? ==>
      Lex(chars, i) == Prepend([ScanToken(chars, i).value.0], Lex(chars, ScanToken(chars, i).value.1 + 1))
  {
  }

  /** One turn of the dispatch loop, for the tokens collected so far and the
      outcome `r`, `n` of the step at `i`. */
  lemma LexResume(chars: seq<char>, i: nat, tokens: seq<Token>, r: Result<Token>, n: nat)
    requires i < |chars| && Outcome(r, n) == ScanToken(chars, i)
    ensures r.Err? ==> Prepend(tokens, Lex(chars, i)) == Err(r.error)
    ensures r.Ok? ==> Prepend(tokens, Lex(chars, i)) == Prepend(tokens + [r.value], Lex(chars, n + 1))
  {
    LexStep(chars, i);
    if r.Ok? {
      PrependAppend(tokens, [r.value], Lex(chars, n + 1));
    }
  }

  /** The whole input as tokens, or the first error (src/tokenize.rs:7-19). */
  method Tokenize(chars: seq<char>) returns (r: Result<seq<Token>>)
    ensures r == Lex(chars, 0)
    ensures r.Ok? ==> |r.value| <= |chars|
  {
    var index: nat := 0;
    var tokens: seq<Token> := [];
    ghost var whole := Lex(chars, 0);
    assert whole.Ok? ==> [] + whole.value == whole.value;
    while index < |chars|
      invariant index <= |chars| + 1
      invariant whole == Prepend(tokens, Lex(chars, index))
      invariant |tokens| <= index && |tokens| <= |chars|
      decreases |chars| + 1 - index
    {
      var t, n := MakeToken(chars, index);
      LexResume(chars, index, tokens, t, n);
      if t.Err? {
        r := Err(t.error);
        return;
      }
      tokens := tokens + [t.value];
      index := n + 1;
    }
    assert tokens + [] == tokens;
    r := Ok(tokens);
    assert r == whole;
  }
}
