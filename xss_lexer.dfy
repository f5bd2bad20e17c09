/** The XSS lexer (XSS/Lexer.cs). The pure functions below say what one call of
    `GetNextToken` returns from a cursor; the class `Lexer` is the C# object, whose methods
    move the cursor step by step and are proved to agree with those functions. */
module XssLexer {
  import opened Wrappers
  import opened Tokens
  import DotNetText
  import XssExtension

  /** Where the lexer stands: the index into the text and the two diagnostic counters. */
  datatype Cursor = Cursor(pos: nat, line: int, col: int)

  /** The exceptions the lexer raises: `Error()` with the offending character, or an index
      past the end of the text in `Peek`. */
  datatype LexError = InvalidInput(found: char) | IndexOutOfRange

  /** A token and the cursor after it. */
  datatype Lexed = Lexed(token: Token, next: Cursor)

  /** `current_char` for a position: the character there, or '\0' past the end. */
  function CharAt(text: string, p: nat): char
  {
    if p < |text| then text[p] else '\0'
  }

  /** `Advance()`, repeated until position `q`. */
  function AdvanceTo(c: Cursor, q: nat): (r: Cursor)
    requires c.pos <= q
    ensures r.pos == q && r.line == c.line && r.col == c.col + (q - c.pos)
  {
    Cursor(q, c.line, c.col + (q - c.pos))
  }

  /** The scanning loops of the lexer, by the characters they run over. */
  datatype Run = WhiteRun | CommentRun | DigitRun | IdentRun | StringRun

  /** Whether a scanning loop continues over a (non-NUL) character. */
  predicate Continues(run: Run, ch: char)
  {
    match run
    case WhiteRun => DotNetText.IsWhiteSpace(ch)
    case CommentRun => ch != '\n'
    case DigitRun => XssExtension.IsNumeric(ch)
    case IdentRun => XssExtension.IsIdent(ch)
    case StringRun => ch != '"'
  }

  /** Where a scanning loop started at `p` stops: the character it stops at is NUL (or the
      end) or ends the run; `RunPasses` says what it passes over. */
  function RunEnd(text: string, p: nat, run: Run): (q: nat)
    requires p <= |text|
    ensures p <= q <= |text|
    ensures CharAt(text, q) == '\0' || !Continues(run, CharAt(text, q))
    decreases |text| - p
  {
    if p < |text| && text[p] != '\0' && Continues(run, text[p]) then RunEnd(text, p + 1, run) else p
  }

  /** Every character a scanning loop passes is non-NUL and continues the run. */
  lemma {:induction false} RunPasses(text: string, p: nat, run: Run)
    requires p <= |text|
    ensures forall k :: p <= k < RunEnd(text, p, run) ==> text[k] != '\0' && Continues(run, text[k])
    decreases |text| - p
  {
    if p < |text| && text[p] != '\0' && Continues(run, text[p]) {
      RunPasses(text, p + 1, run);
    }
  }

  /** The kind an identifier-shaped word names. */
  function KeywordKind(word: string): TokenKind
  {
    match word
    case "true" => BOOL
    case "false" => BOOL
    case "and" => AND
    case "or" => OR
    case "xor" => XOR
    case "not" => NOT
    case "null" => NULL
    case "if" => IF
    case "else" => ELSE
    case "match" => MATCH
    case "while" => WHILE
    case "var" => VAR
    case "fun" => FUN
    case "return" => RETURN
    case "typeof" => TYPEOF
    case "is" => IS
    case "INT" => TYPE
    case "int" => TYPE
    case "FLT" => TYPE
    case "flt" => TYPE
    case "CHR" => TYPE
    case "chr" => TYPE
    case "STR" => TYPE
    case "str" => TYPE
    case "BOOL" => TYPE
    case "bool" => TYPE
    case "NULL" => TYPE
    case _ => IDENT
  }

  /** The words of the keyword table. */
  predicate IsKeyword(word: string)
  {
    word in {"true", "false", "and", "or", "xor", "not", "null", "if", "else", "match", "while",
             "var", "fun", "return", "typeof", "is", "INT", "int", "FLT", "flt", "CHR", "chr",
             "STR", "str", "BOOL", "bool", "NULL"}
  }

  /** The characters that are a token by themselves, checked one after the other. */
  function SingleCharKind(ch: char): Option<TokenKind>
  {
    match ch
    case '+' => Some(PLUS)
    case '-' => Some(MINUS)
    case '*' => Some(MULTIPLY)
    case '/' => Some(DIVIDE)
    case '%' => Some(MODULO)
    case '^' => Some(EXPONENT)
    case '(' => Some(LPAREN)
    case ')' => Some(RPAREN)
    case '{' => Some(LBRACE)
    case '}' => Some(RBRACE)
    case '[' => Some(LBRACKET)
    case ']' => Some(RBRACKET)
    case ',' => Some(COMMA)
    case ';' => Some(SEMICOLON)
    case ':' => Some(COLON)
    case '_' => Some(UNDERSCORE)
    case _ => None
  }

  /** `Interger()` from a digit: a digit run, and a fraction only when the '.' after it is
      followed by a digit. */
  function IntegerF(text: string, c: Cursor): (r: Result<Lexed, LexError>)
    requires c.pos < |text| && XssExtension.IsNumeric(text[c.pos])
    ensures r.Success? ==> c.pos < r.value.next.pos <= |text|
    ensures r.Success? ==> r.value.token.kind in {INTERGER, FLOAT}
  {
    var q := RunEnd(text, c.pos, DigitRun);
    if CharAt(text, q) == '.' then
      if q + 1 >= |text| then Failure(IndexOutOfRange)
      else if XssExtension.IsNumeric(text[q + 1]) then
        var e := RunEnd(text, q + 1, DigitRun);
        Success(Lexed(Token(FLOAT, Some(text[c.pos..e])), AdvanceTo(c, e)))
      else Failure(InvalidInput('.'))
    else Success(Lexed(Token(INTERGER, Some(text[c.pos..q])), AdvanceTo(c, q)))
  }

  /** `Char()` from the opening quote: one character, then the closing quote. */
  function CharF(text: string, c: Cursor): (r: Result<Lexed, LexError>)
    requires c.pos < |text|
    ensures r.Success? ==> c.pos < r.value.next.pos <= |text| && r.value.token.kind == CHAR
  {
    var ch := CharAt(text, c.pos + 1);
    var close := CharAt(text, c.pos + 2);
    if close != '\'' then Failure(InvalidInput(close))
    else Success(Lexed(Token(CHAR, Some([ch])), AdvanceTo(c, c.pos + 3)))
  }

  /** `String()` from the opening quote: everything up to the closing quote, unescaped. */
  function StringF(text: string, c: Cursor): (r: Result<Lexed, LexError>)
    requires c.pos < |text|
    ensures r.Success? ==> c.pos < r.value.next.pos <= |text| && r.value.token.kind == STRING
  {
    var q := RunEnd(text, c.pos + 1, StringRun);
    if CharAt(text, q) != '"' then Failure(InvalidInput(CharAt(text, q)))
    else Success(Lexed(Token(STRING, Some(text[c.pos + 1..q])), AdvanceTo(c, q + 1)))
  }

  /** `Ident()` from an identifier character: the maximal run, looked up in the keyword table. */
  function IdentF(text: string, c: Cursor): (r: Lexed)
    requires c.pos < |text| && text[c.pos] != '\0' && XssExtension.IsIdent(text[c.pos])
    ensures c.pos < r.next.pos <= |text|
  {
    var q := RunEnd(text, c.pos, IdentRun);
    var word := text[c.pos..q];
    Lexed(Token(KeywordKind(word), Some(word)), AdvanceTo(c, q))
  }

  /** One token from a character that is neither NUL, white space, nor the start of a comment,
      and for which `Peek` stays in the text when it is '/' or '!'. */
  function ScanF(text: string, c: Cursor): (r: Result<Lexed, LexError>)
    requires c.pos < |text| && text[c.pos] != '\0'
    requires text[c.pos] in {'/', '!'} ==> c.pos + 1 < |text|
    ensures r.Success? ==> c.pos < r.value.next.pos <= |text|
  {
    var ch := text[c.pos];
    var next := CharAt(text, c.pos + 1);
    if ch == '!' && next == '=' then Success(Lexed(Token(NOTEQUAL, Some("!=")), AdvanceTo(c, c.pos + 2)))
    else if ch == '>' then
      if next == '=' then Success(Lexed(Token(LARGEREQUAL, Some(">=")), AdvanceTo(c, c.pos + 2)))
      else Success(Lexed(Token(LARGER, Some(">")), AdvanceTo(c, c.pos + 1)))
    else if ch == '<' then
      if next == '=' then Success(Lexed(Token(LESSEREQUAL, Some("<=")), AdvanceTo(c, c.pos + 2)))
      else Success(Lexed(Token(LESSER, Some("<")), AdvanceTo(c, c.pos + 1)))
    else if ch == '=' then
      if next == '>' then Success(Lexed(Token(LAMBDA, Some("=>")), AdvanceTo(c, c.pos + 2)))
      else if next == '=' then Success(Lexed(Token(EQUAL, Some("==")), AdvanceTo(c, c.pos + 2)))
      else Success(Lexed(Token(ASSIGN, Some("=")), AdvanceTo(c, c.pos + 1)))
    else if SingleCharKind(ch).Some? then
      Success(Lexed(Token(SingleCharKind(ch).value, Some([ch])), AdvanceTo(c, c.pos + 1)))
    else if ch == '\'' then CharF(text, c)
    else if ch == '"' then StringF(text, c)
    else if XssExtension.IsNumeric(ch) then IntegerF(text, c)
    else if XssExtension.IsIdent(ch) then Success(IdentF(text, c))
    else Failure(InvalidInput(ch))
  }

  /** Whether `GetNextToken()` skips something at `c`: white space, or a `//` comment. */
  predicate Skips(text: string, c: Cursor)
  {
    var ch := CharAt(text, c.pos);
    DotNetText.IsWhiteSpace(ch) || (ch == '/' && c.pos + 1 < |text| && text[c.pos + 1] == '/')
  }

  /** Where one pass of the loop of `GetNextToken()` leaves the cursor after a stretch of white
      space (a '\r' also counts a line) or a comment. */
  function SkipOnce(text: string, c: Cursor): (d: Cursor)
    requires c.pos < |text| && Skips(text, c)
    ensures c.pos < d.pos <= |text|
  {
    var ch := text[c.pos];
    if DotNetText.IsWhiteSpace(ch) then
      var c1 := if ch == '\r' then Cursor(c.pos, c.line + 1, 0) else c;
      AdvanceTo(c1, RunEnd(text, c.pos, WhiteRun))
    else AdvanceTo(c, RunEnd(text, c.pos, CommentRun))
  }

  /** `GetNextToken()`: skip white space and `//` comments, then read one token; at a NUL
      character or the end of the text, EOF with a null lexeme and the cursor left there. */
  function NextTokenF(text: string, c: Cursor): (r: Result<Lexed, LexError>)
    requires c.pos <= |text|
    ensures r.Success? ==> c.pos <= r.value.next.pos <= |text|
    ensures r.Success? && r.value.token.kind != EOF ==> c.pos < r.value.next.pos
    ensures r.Success? && r.value.token.kind == EOF ==>
              r.value.token.lexeme == None && CharAt(text, r.value.next.pos) == '\0'
    decreases |text| - c.pos
  {
    var ch := CharAt(text, c.pos);
    if ch == '\0' then Success(Lexed(Token(EOF, None), c))
    else if Skips(text, c) then NextTokenF(text, SkipOnce(text, c))
    else if ch in {'/', '!'} && c.pos + 1 >= |text| then Failure(IndexOutOfRange)
    else ScanF(text, c)
  }

  /** One element of the token stream the parser reads: a token, or the error that lexing at
      that point raises. */
  datatype Item = Tok(token: Token) | LexFail(error: LexError)

  /** The successive results of `GetNextToken` from a cursor, up to and including the EOF token
      or the first error. */
  function Tokenize(text: string, c: Cursor): (items: seq<Item>)
    requires c.pos <= |text|
    ensures ValidStream(items)
    decreases |text| - c.pos
  {
    match NextTokenF(text, c)
    case Failure(e) => [LexFail(e)]
    case Success(Lexed(tok, n)) =>
      if tok.kind == EOF then [Tok(tok)] else [Tok(tok)] + Tokenize(text, n)
  }

  /** A stream ends with EOF or an error, and has neither anywhere before its last item. */
  predicate ValidStream(items: seq<Item>)
  {
    |items| > 0
    && (items[|items| - 1].LexFail? || items[|items| - 1].token.kind == EOF)
    && forall j :: 0 <= j < |items| - 1 ==> items[j].Tok? && items[j].token.kind != EOF
  }

  /** The tokens of a whole text as `new Lexer(text)` and the parser's `GetNextToken` calls
      see them: the constructor's read of `text[0]` raises on an empty text, before any token
      is read; otherwise lexing starts from the constructor's cursor. */
  function Lex(text: string): (items: seq<Item>)
    ensures ValidStream(items)
    ensures text == [] ==> items == [LexFail(IndexOutOfRange)]
  {
    if text == [] then [LexFail(IndexOutOfRange)] else Tokenize(text, Cursor(0, 0, 0))
  }

  /** Inside the text, `current_char` is the character at the position. */
  lemma CharAtIn(text: string, p: nat)
    ensures p < |text| ==> CharAt(text, p) == text[p]
  {
  }

  /** The marks the lexer looks at before scanning are not white space, and the quotes are
      not single-character tokens. */
  lemma MarksAreNotSpace()
    ensures !DotNetText.IsWhiteSpace('/') && !DotNetText.IsWhiteSpace('!')
    ensures !DotNetText.IsWhiteSpace('"') && !DotNetText.IsWhiteSpace('\'')
    ensures SingleCharKind('"').None? && SingleCharKind('\'').None?
  {
  }

  /** Neither digits, letters, '$', the operator marks nor '_' and ':' are white space; a digit
      is not a single-character token either. */
  lemma ClassesAreNotSpace(ch: char)
    ensures XssExtension.IsNumeric(ch) ==> !DotNetText.IsWhiteSpace(ch) && SingleCharKind(ch).None?
    ensures DotNetText.IsLetter(ch) || ch == '$' ==> !DotNetText.IsWhiteSpace(ch)
    ensures ch in {'_', ':'} ==> !DotNetText.IsWhiteSpace(ch)
    ensures ch in {'!', '>', '<', '='} ==> !DotNetText.IsWhiteSpace(ch)
  {
  }

  /** One white-space step of `GetNextToken`: a '\r' also counts a line. */
  lemma WhiteStep(text: string, c: Cursor)
    requires c.pos < |text| && text[c.pos] != '\0' && DotNetText.IsWhiteSpace(text[c.pos])
    ensures var c1 := if text[c.pos] == '\r' then Cursor(c.pos, c.line + 1, 0) else c;
            NextTokenF(text, c) == NextTokenF(text, AdvanceTo(c1, RunEnd(text, c.pos, WhiteRun)))
  {
    CharAtIn(text, c.pos);
  }

  /** One comment step of `GetNextToken`. */
  lemma CommentStep(text: string, c: Cursor)
    requires c.pos + 1 < |text| && text[c.pos] == '/' && text[c.pos + 1] == '/'
    ensures NextTokenF(text, c) == NextTokenF(text, AdvanceTo(c, RunEnd(text, c.pos, CommentRun)))
  {
    CommentSkips(text, c);
  }

  /** At `//` the loop of `GetNextToken` skips, to the end of the comment. */
  lemma CommentSkips(text: string, c: Cursor)
    requires c.pos + 1 < |text| && text[c.pos] == '/' && text[c.pos + 1] == '/'
    ensures CharAt(text, c.pos) == '/' && Skips(text, c)
    ensures SkipOnce(text, c) == AdvanceTo(c, RunEnd(text, c.pos, CommentRun))
  {
    MarksAreNotSpace();
  }

  /** A '/' or '!' in the last position makes `Peek` fail. */
  lemma PeekStepFails(text: string, c: Cursor)
    requires c.pos < |text| && text[c.pos] in {'/', '!'} && c.pos + 1 >= |text|
    ensures NextTokenF(text, c) == Failure(IndexOutOfRange)
  {
    CharAtIn(text, c.pos);
    MarksAreNotSpace();
  }

  /** The step of `GetNextToken` that reads a token. */
  lemma ScanStep(text: string, c: Cursor)
    requires c.pos < |text| && text[c.pos] != '\0' && !DotNetText.IsWhiteSpace(text[c.pos])
    requires text[c.pos] in {'/', '!'} ==> c.pos + 1 < |text|
    requires !(text[c.pos] == '/' && text[c.pos + 1] == '/')
    ensures NextTokenF(text, c) == ScanF(text, c)
  {
    CharAtIn(text, c.pos);
  }

  /** From a digit, `GetNextToken` reads a number. */
  lemma ScanNumber(text: string, c: Cursor)
    requires c.pos < |text| && XssExtension.IsNumeric(text[c.pos])
    ensures NextTokenF(text, c) == IntegerF(text, c)
  {
    ClassesAreNotSpace(text[c.pos]);
    ScanStep(text, c);
  }

  /** From a double quote, `GetNextToken` reads a string. */
  lemma ScanString(text: string, c: Cursor)
    requires c.pos < |text| && text[c.pos] == '"'
    ensures NextTokenF(text, c) == StringF(text, c)
  {
    MarksAreNotSpace();
    ScanStep(text, c);
  }

  /** The token (or error) a result carries and the position it ends at, without the
      diagnostic counters. */
  function TokenAndEnd(r: Result<Lexed, LexError>): Result<(Token, nat), LexError>
  {
    match r
    case Success(Lexed(t, n)) => Success((t, n.pos))
    case Failure(e) => Failure(e)
  }

  /** Reading one token does not depend on the line and column counters. */
  lemma ScanCountersIrrelevant(text: string, c: Cursor, d: Cursor)
    requires c.pos == d.pos < |text| && text[c.pos] != '\0'
    requires text[c.pos] in {'/', '!'} ==> c.pos + 1 < |text|
    ensures TokenAndEnd(ScanF(text, c)) == TokenAndEnd(ScanF(text, d))
  {
  }

  /** Lexing does not depend on the line and column counters, which serve error messages only. */
  lemma {:induction false} CountersIrrelevant(text: string, c: Cursor, d: Cursor)
    requires c.pos == d.pos <= |text|
    ensures TokenAndEnd(NextTokenF(text, c)) == TokenAndEnd(NextTokenF(text, d))
    decreases |text| - c.pos
  {
    var ch := CharAt(text, c.pos);
    if ch == '\0' {
    } else if DotNetText.IsWhiteSpace(ch) {
      var c1 := if ch == '\r' then Cursor(c.pos, c.line + 1, 0) else c;
      var d1 := if ch == '\r' then Cursor(d.pos, d.line + 1, 0) else d;
      var q := RunEnd(text, c.pos, WhiteRun);
      WhiteStep(text, c);
      WhiteStep(text, d);
      CountersIrrelevant(text, AdvanceTo(c1, q), AdvanceTo(d1, q));
    } else if ch in {'/', '!'} && c.pos + 1 >= |text| {
      PeekStepFails(text, c);
      PeekStepFails(text, d);
    } else if ch == '/' && text[c.pos + 1] == '/' {
      var q := RunEnd(text, c.pos, CommentRun);
      CommentStep(text, c);
      CommentStep(text, d);
      CountersIrrelevant(text, AdvanceTo(c, q), AdvanceTo(d, q));
    } else {
      ScanStep(text, c);
      ScanStep(text, d);
      ScanCountersIrrelevant(text, c, d);
    }
  }

  /** A run started inside another run of the same kind ends where that one does. */
  lemma {:induction false} RunEndFrom(text: string, p: nat, p': nat, run: Run)
    requires p <= |text| && p <= p' <= RunEnd(text, p, run)
    ensures RunEnd(text, p', run) == RunEnd(text, p, run)
    decreases p' - p
  {
    if p < p' {
      RunEndFrom(text, p + 1, p', run);
    }
  }

  /** White space before a token is skipped: lexing from anywhere in a stretch of white space
      gives the token that lexing from its end gives. */
  lemma WhiteSpaceSkipped(text: string, c: Cursor, q: nat)
    requires c.pos <= q <= |text|
    requires forall k :: c.pos <= k < q ==> text[k] != '\0' && DotNetText.IsWhiteSpace(text[k])
    ensures TokenAndEnd(NextTokenF(text, c)) == TokenAndEnd(NextTokenF(text, Cursor(q, 0, 0)))
  {
    if c.pos == q {
      CountersIrrelevant(text, c, Cursor(q, 0, 0));
      return;
    }
    var ch := text[c.pos];
    var c1 := if ch == '\r' then Cursor(c.pos, c.line + 1, 0) else c;
    var e := RunEnd(text, c.pos, WhiteRun);
    assert q <= e;
    RunEndFrom(text, c.pos, q, WhiteRun);
    WhiteStep(text, c);
    CountersIrrelevant(text, AdvanceTo(c1, e), Cursor(e, 0, 0));
    if q < e {
      var dq := if text[q] == '\r' then Cursor(q, 1, 0) else Cursor(q, 0, 0);
      WhiteStep(text, Cursor(q, 0, 0));
      CountersIrrelevant(text, Cursor(e, 0, 0), AdvanceTo(dq, e));
    }
  }

  /** A `//` comment is skipped up to the end of its line: lexing from its start gives the
      token that lexing from the line break (or the end) gives. */
  lemma CommentSkipped(text: string, c: Cursor)
    requires c.pos + 1 < |text| && text[c.pos] == '/' && text[c.pos + 1] == '/'
    ensures var q := RunEnd(text, c.pos, CommentRun);
            (q == |text| || text[q] == '\n' || text[q] == '\0')
            && TokenAndEnd(NextTokenF(text, c)) == TokenAndEnd(NextTokenF(text, Cursor(q, 0, 0)))
  {
    CommentStep(text, c);
    var q := RunEnd(text, c.pos, CommentRun);
    CountersIrrelevant(text, AdvanceTo(c, q), Cursor(q, 0, 0));
  }

  /** At a NUL character or the end of the text the result is EOF with a null lexeme, the
      cursor stays, and lexing again gives EOF again. */
  lemma EofIsStable(text: string, c: Cursor)
    requires c.pos <= |text|
    requires NextTokenF(text, c).Success? && NextTokenF(text, c).value.token.kind == EOF
    ensures var n := NextTokenF(text, c).value.next;
            NextTokenF(text, n) == Success(Lexed(Token(EOF, None), n))
  {
  }

  /** A maximal digit run not followed by '.' is one INTERGER token of exactly that run. */
  lemma IntegerLiteral(text: string, c: Cursor)
    requires c.pos < |text| && XssExtension.IsNumeric(text[c.pos])
    requires CharAt(text, RunEnd(text, c.pos, DigitRun)) != '.'
    ensures var q := RunEnd(text, c.pos, DigitRun);
            NextTokenF(text, c) == Success(Lexed(Token(INTERGER, Some(text[c.pos..q])), AdvanceTo(c, q)))
            && (forall k :: 0 <= k < q - c.pos ==> XssExtension.IsNumeric(text[c.pos..q][k]))
            && (q == |text| || !XssExtension.IsNumeric(text[q]))
  {
    ScanNumber(text, c);
    RunPasses(text, c.pos, DigitRun);
  }

  /** Digits, '.', digits form one FLOAT token of exactly those characters (`FloatParts`
      takes the lexeme apart). */
  lemma FloatLiteral(text: string, c: Cursor)
    requires c.pos < |text| && XssExtension.IsNumeric(text[c.pos])
    requires var q := RunEnd(text, c.pos, DigitRun); q + 1 < |text| && text[q] == '.' && XssExtension.IsNumeric(text[q + 1])
    ensures var q := RunEnd(text, c.pos, DigitRun);
            var e := RunEnd(text, q + 1, DigitRun);
            NextTokenF(text, c) == Success(Lexed(Token(FLOAT, Some(text[c.pos..e])), AdvanceTo(c, e)))
  {
    FloatNumber(text, c);
    ScanNumber(text, c);
  }

  /** The text of such a FLOAT token is its integer part, the '.', and its fraction, and the
      fraction is maximal. */
  lemma FloatParts(text: string, p: nat)
    requires p < |text|
    requires var q := RunEnd(text, p, DigitRun); q + 1 < |text| && text[q] == '.'
    ensures var q := RunEnd(text, p, DigitRun);
            var e := RunEnd(text, q + 1, DigitRun);
            text[p..e] == text[p..q] + "." + text[q + 1..e]
    ensures var e := RunEnd(text, RunEnd(text, p, DigitRun) + 1, DigitRun);
            e == |text| || !XssExtension.IsNumeric(text[e])
  {
    var q := RunEnd(text, p, DigitRun);
    var e := RunEnd(text, q + 1, DigitRun);
    assert [text[q]] == ".";
    SliceAround(text, p, q, e);
  }

  /** `Interger()` reads digits, '.', digits as one FLOAT. */
  lemma FloatNumber(text: string, c: Cursor)
    requires c.pos < |text| && XssExtension.IsNumeric(text[c.pos])
    requires var q := RunEnd(text, c.pos, DigitRun); q + 1 < |text| && text[q] == '.' && XssExtension.IsNumeric(text[q + 1])
    ensures var e := RunEnd(text, RunEnd(text, c.pos, DigitRun) + 1, DigitRun);
            IntegerF(text, c) == Success(Lexed(Token(FLOAT, Some(text[c.pos..e])), AdvanceTo(c, e)))
  {
    assert CharAt(text, RunEnd(text, c.pos, DigitRun)) == '.';
  }

  /** A slice is its part before `j`, the character at `j`, and its part after. */
  lemma SliceAround(s: string, i: nat, j: nat, k: nat)
    requires i <= j < k <= |s|
    ensures s[i..k] == s[i..j] + [s[j]] + s[j + 1..k]
  {
    assert s[i..k] == s[i..j] + s[j..k];
    assert s[j..k] == [s[j]] + s[j + 1..k];
  }

  /** Digits and a '.' not followed by a digit are an error, as is a '.' at the very end. */
  lemma BadFloat(text: string, c: Cursor)
    requires c.pos < |text| && XssExtension.IsNumeric(text[c.pos])
    requires CharAt(text, RunEnd(text, c.pos, DigitRun)) == '.'
    ensures var q := RunEnd(text, c.pos, DigitRun);
            q + 1 == |text| ==> NextTokenF(text, c) == Failure(IndexOutOfRange)
    ensures var q := RunEnd(text, c.pos, DigitRun);
            q + 1 < |text| && !XssExtension.IsNumeric(text[q + 1]) ==> NextTokenF(text, c) == Failure(InvalidInput('.'))
  {
    ScanNumber(text, c);
  }

  /** A STRING lexeme is what lies between the double quotes (`StringHasNoQuote`: the
      first closing quote); without a closing quote the result is an error. */
  lemma StringLiteral(text: string, c: Cursor)
    requires c.pos < |text| && text[c.pos] == '"'
    ensures var q := RunEnd(text, c.pos + 1, StringRun);
            q < |text| && text[q] == '"' ==>
              NextTokenF(text, c) == Success(Lexed(Token(STRING, Some(text[c.pos + 1..q])), AdvanceTo(c, q + 1)))
    ensures var q := RunEnd(text, c.pos + 1, StringRun);
            q == |text| || text[q] != '"' ==> NextTokenF(text, c) == Failure(InvalidInput('\0'))
  {
    ScanString(text, c);
    CharAtIn(text, RunEnd(text, c.pos + 1, StringRun));
  }

  /** No double quote lies inside a STRING lexeme. */
  lemma StringHasNoQuote(text: string, c: Cursor)
    requires c.pos < |text|
    ensures forall k :: c.pos + 1 <= k < RunEnd(text, c.pos + 1, StringRun) ==> text[k] != '"'
  {
    RunPasses(text, c.pos + 1, StringRun);
  }

  /** A CHAR token is exactly one character between single quotes; anything else after the
      character is an error naming what was found there. */
  lemma CharLiteral(text: string, c: Cursor)
    requires c.pos < |text| && text[c.pos] == '\''
    ensures CharAt(text, c.pos + 2) == '\'' ==>
              NextTokenF(text, c) == Success(Lexed(Token(CHAR, Some([CharAt(text, c.pos + 1)])), AdvanceTo(c, c.pos + 3)))
    ensures CharAt(text, c.pos + 2) != '\'' ==> NextTokenF(text, c) == Failure(InvalidInput(CharAt(text, c.pos + 2)))
  {
    MarksAreNotSpace();
    ScanStep(text, c);
  }

  /** The keyword table; every other word is an identifier. */
  lemma KeywordTable(w: string)
    ensures KeywordKind(w) == BOOL <==> w in {"true", "false"}
    ensures KeywordKind(w) == AND <==> w == "and"
    ensures KeywordKind(w) == OR <==> w == "or"
    ensures KeywordKind(w) == XOR <==> w == "xor"
    ensures KeywordKind(w) == NOT <==> w == "not"
    ensures KeywordKind(w) == NULL <==> w == "null"
    ensures KeywordKind(w) == TYPE <==> w in {"INT", "int", "FLT", "flt", "CHR", "chr", "STR", "str", "BOOL", "bool", "NULL"}
    ensures KeywordKind(w) in {IF, ELSE, MATCH, WHILE, VAR, FUN, RETURN, TYPEOF, IS}
            <==> w in {"if", "else", "match", "while", "var", "fun", "return", "typeof", "is"}
    ensures KeywordKind(w) == IDENT <==> !IsKeyword(w)
  {
  }

  /** An identifier character that is not a digit, '_' or ':' starts the maximal identifier
      run, which the keyword table then classifies. */
  lemma IdentifierWord(text: string, c: Cursor)
    requires c.pos < |text| && (DotNetText.IsLetter(text[c.pos]) || text[c.pos] == '$')
    ensures var q := RunEnd(text, c.pos, IdentRun);
            var w := text[c.pos..q];
            NextTokenF(text, c) == Success(Lexed(Token(KeywordKind(w), Some(w)), AdvanceTo(c, q)))
            && (q == |text| || text[q] == '\0' || !XssExtension.IsIdent(text[q]))
  {
    ClassesAreNotSpace(text[c.pos]);
    ScanStep(text, c);
  }

  /** One character of lookahead decides the two-character operators. */
  lemma Operators(text: string, c: Cursor)
    requires c.pos < |text|
    ensures text[c.pos] == '!' && CharAt(text, c.pos + 1) == '=' ==>
              NextTokenF(text, c) == Success(Lexed(Token(NOTEQUAL, Some("!=")), AdvanceTo(c, c.pos + 2)))
    ensures text[c.pos] == '>' && CharAt(text, c.pos + 1) == '=' ==>
              NextTokenF(text, c) == Success(Lexed(Token(LARGEREQUAL, Some(">=")), AdvanceTo(c, c.pos + 2)))
    ensures text[c.pos] == '>' && CharAt(text, c.pos + 1) != '=' ==>
              NextTokenF(text, c) == Success(Lexed(Token(LARGER, Some(">")), AdvanceTo(c, c.pos + 1)))
    ensures text[c.pos] == '<' && CharAt(text, c.pos + 1) == '=' ==>
              NextTokenF(text, c) == Success(Lexed(Token(LESSEREQUAL, Some("<=")), AdvanceTo(c, c.pos + 2)))
    ensures text[c.pos] == '<' && CharAt(text, c.pos + 1) != '=' ==>
              NextTokenF(text, c) == Success(Lexed(Token(LESSER, Some("<")), AdvanceTo(c, c.pos + 1)))
    ensures text[c.pos] == '=' && CharAt(text, c.pos + 1) == '>' ==>
              NextTokenF(text, c) == Success(Lexed(Token(LAMBDA, Some("=>")), AdvanceTo(c, c.pos + 2)))
    ensures text[c.pos] == '=' && CharAt(text, c.pos + 1) == '=' ==>
              NextTokenF(text, c) == Success(Lexed(Token(EQUAL, Some("==")), AdvanceTo(c, c.pos + 2)))
    ensures text[c.pos] == '=' && CharAt(text, c.pos + 1) !in {'>', '='} ==>
              NextTokenF(text, c) == Success(Lexed(Token(ASSIGN, Some("=")), AdvanceTo(c, c.pos + 1)))
  {
    var ch := text[c.pos];
    if ch in {'!', '>', '<', '='} {
      ClassesAreNotSpace(ch);
      if c.pos + 1 < |text| || ch != '!' {
        ScanStep(text, c);
      }
    }
  }

  /** A '!' not followed by '=' is an error, and a '/' or '!' as the last character makes the
      lookahead fail. */
  lemma LookaheadErrors(text: string, c: Cursor)
    requires c.pos < |text|
    ensures text[c.pos] == '!' && c.pos + 1 < |text| && text[c.pos + 1] != '=' ==>
              NextTokenF(text, c) == Failure(InvalidInput('!'))
    ensures text[c.pos] in {'/', '!'} && c.pos + 1 == |text| ==> NextTokenF(text, c) == Failure(IndexOutOfRange)
  {
    if text[c.pos] == '!' && c.pos + 1 < |text| {
      MarksAreNotSpace();
      ScanStep(text, c);
    } else if text[c.pos] in {'/', '!'} && c.pos + 1 == |text| {
      PeekStepFails(text, c);
    }
  }

  /** '_' and ':' are tokens of their own, read before identifiers are tried. */
  lemma UnderscoreAndColon(text: string, c: Cursor)
    requires c.pos < |text| && text[c.pos] in {'_', ':'}
    ensures NextTokenF(text, c) ==
              Success(Lexed(Token(if text[c.pos] == '_' then UNDERSCORE else COLON, Some([text[c.pos]])), AdvanceTo(c, c.pos + 1)))
  {
    ClassesAreNotSpace(text[c.pos]);
    ScanStep(text, c);
  }

  /** The shape of an identifier token. */
  predicate IdentShape(t: Token)
  {
    t.lexeme.Some? && |t.lexeme.value| > 0
    && (DotNetText.IsLetter(t.lexeme.value[0]) || t.lexeme.value[0] == '$')
    && (forall k :: 0 <= k < |t.lexeme.value| ==> XssExtension.IsIdent(t.lexeme.value[k]))
    && !IsKeyword(t.lexeme.value)
  }

  lemma ScanIdentShape(text: string, c: Cursor)
    requires c.pos < |text| && text[c.pos] != '\0'
    requires text[c.pos] in {'/', '!'} ==> c.pos + 1 < |text|
    ensures ScanF(text, c).Success? && ScanF(text, c).value.token.kind == IDENT ==> IdentShape(ScanF(text, c).value.token)
  {
    ScanIdent(text, c);
    if ScanF(text, c).Success? && ScanF(text, c).value.token.kind == IDENT {
      IdentWordShape(text, c);
    }
  }

  /** Only `Ident()` yields IDENT, and only from a letter or '$': the digits, '_' and ':' are
      taken by the earlier branches. */
  lemma ScanIdent(text: string, c: Cursor)
    requires c.pos < |text| && text[c.pos] != '\0'
    requires text[c.pos] in {'/', '!'} ==> c.pos + 1 < |text|
    ensures ScanF(text, c).Success? && ScanF(text, c).value.token.kind == IDENT ==>
              (DotNetText.IsLetter(text[c.pos]) || text[c.pos] == '$') && ScanF(text, c) == Success(IdentF(text, c))
  {
  }

  /** The word `Ident()` reads from a letter or '$' has the shape of an identifier. */
  lemma IdentWordShape(text: string, c: Cursor)
    requires c.pos < |text| && (DotNetText.IsLetter(text[c.pos]) || text[c.pos] == '$')
    ensures IdentF(text, c).token.kind == IDENT ==> IdentShape(IdentF(text, c).token)
  {
    var q := RunEnd(text, c.pos, IdentRun);
    var w := text[c.pos..q];
    RunPasses(text, c.pos, IdentRun);
    KeywordTable(w);
    assert w[0] == text[c.pos];
    assert forall k :: 0 <= k < |w| ==> w[k] == text[c.pos + k];
  }

  /** Every IDENT token starts with a letter or '$', consists of identifier characters and is
      not a word of the keyword table. */
  lemma {:induction false} IdentTokenShape(text: string, c: Cursor)
    requires c.pos <= |text|
    ensures NextTokenF(text, c).Success? && NextTokenF(text, c).value.token.kind == IDENT ==>
              IdentShape(NextTokenF(text, c).value.token)
    decreases |text| - c.pos
  {
    var ch := CharAt(text, c.pos);
    if ch == '\0' {
    } else if DotNetText.IsWhiteSpace(ch) {
      var c1 := if ch == '\r' then Cursor(c.pos, c.line + 1, 0) else c;
      WhiteStep(text, c);
      IdentTokenShape(text, AdvanceTo(c1, RunEnd(text, c.pos, WhiteRun)));
    } else if ch in {'/', '!'} && c.pos + 1 >= |text| {
      PeekStepFails(text, c);
    } else if ch == '/' && text[c.pos + 1] == '/' {
      CommentStep(text, c);
      IdentTokenShape(text, AdvanceTo(c, RunEnd(text, c.pos, CommentRun)));
    } else {
      ScanStep(text, c);
      ScanIdentShape(text, c);
    }
  }

  /** Every IDENT token of a stream has that shape. */
  predicate IdentsShaped(items: seq<Item>)
  {
    forall j :: 0 <= j < |items| && items[j].Tok? && items[j].token.kind == IDENT ==> IdentShape(items[j].token)
  }

  /** Prepending an item keeps the shape when the item has it. */
  lemma ConsShaped(tok: Token, rest: seq<Item>)
    requires tok.kind == IDENT ==> IdentShape(tok)
    requires IdentsShaped(rest)
    ensures IdentsShaped([Tok(tok)] + rest)
  {
    var items := [Tok(tok)] + rest;
    forall j | 0 <= j < |items| && items[j].Tok? && items[j].token.kind == IDENT
      ensures IdentShape(items[j].token)
    {
      if j > 0 {
        assert items[j] == rest[j - 1];
      }
    }
  }

  /** A token other than EOF is followed by the stream from the cursor after it. */
  lemma TokenizeStep(text: string, c: Cursor)
    requires c.pos <= |text|
    ensures NextTokenF(text, c).Success? && NextTokenF(text, c).value.token.kind != EOF ==>
              Tokenize(text, c) == [Tok(NextTokenF(text, c).value.token)] + Tokenize(text, NextTokenF(text, c).value.next)
  {
  }

  /** The same holds for every identifier of a token stream. */
  lemma {:induction false} StreamIdentShape(text: string, c: Cursor)
    requires c.pos <= |text|
    ensures IdentsShaped(Tokenize(text, c))
    decreases |text| - c.pos
  {
    IdentTokenShape(text, c);
    TokenizeStep(text, c);
    var r := NextTokenF(text, c);
    if r.Success? && r.value.token.kind != EOF {
      StreamIdentShape(text, r.value.next);
      ConsShaped(r.value.token, Tokenize(text, r.value.next));
    }
  }

  /** The lexer object. `Valid` relates `current_char` to the position, which the
      constructors establish and every method keeps. */
  class Lexer {
    const text: string
    var pos: nat
    var currentChar: char
    var currentLine: int
    var currentPosInLine: int

    ghost predicate Valid()
      reads this
    {
      currentChar == CharAt(text, pos)
    }

    function State(): Cursor
      reads this
    {
      Cursor(pos, currentLine, currentPosInLine)
    }

    /** `Lexer(string)` on a non-empty text; `NewLexer` stands for the call on any text. */
    constructor (t: string)
      requires |t| > 0
      ensures Valid() && text == t && State() == Cursor(0, 0, 0)
    {
      text := t;
      pos := 0;
      currentChar := t[0];
      currentLine := 0;
      currentPosInLine := 0;
    }

    /** `Lexer(Lexer)`: a copy of every field. */
    constructor Copy(other: Lexer)
      requires other.Valid()
      ensures Valid() && text == other.text && State() == other.State()
    {
      text := other.text;
      pos := other.pos;
      currentChar := other.currentChar;
      currentLine := other.currentLine;
      currentPosInLine := other.currentPosInLine;
    }

    method Advance()
      requires Valid()
      modifies this
      ensures Valid() && pos == old(pos) + 1
      ensures currentLine == old(currentLine) && currentPosInLine == old(currentPosInLine) + 1
    {
      pos := pos + 1;
      currentPosInLine := currentPosInLine + 1;
      if pos > |text| - 1 {
        currentChar := '\0';
      } else {
        currentChar := text[pos];
      }
    }

    /** `Peek()`: the character after the current one, which must lie in the text. */
    method Peek() returns (r: Result<char, LexError>)
      requires Valid()
      modifies this
      ensures Valid() && State() == old(State())
      ensures r == (if pos + 1 < |text| then Success(text[pos + 1]) else Failure(IndexOutOfRange))
    {
      if pos > |text| - 1 {
        currentChar := '\0';
      }
      if pos + 1 >= |text| {
        return Failure(IndexOutOfRange);
      }
      return Success(text[pos + 1]);
    }

    /** Advances while the current character is non-NUL and continues the run. */
    method Scan(run: Run)
      requires Valid() && pos <= |text|
      modifies this
      ensures Valid() && State() == AdvanceTo(old(State()), RunEnd(text, old(pos), run))
    {
      ghost var start := State();
      while currentChar != '\0' && Continues(run, currentChar)
        invariant Valid() && start.pos <= pos <= |text|
        invariant RunEnd(text, pos, run) == RunEnd(text, start.pos, run)
        invariant State() == AdvanceTo(start, pos)
        decreases |text| - pos
      {
        Advance();
      }
    }

    method SkipWhitespace()
      requires Valid() && pos <= |text|
      modifies this
      ensures Valid() && State() == AdvanceTo(old(State()), RunEnd(text, old(pos), WhiteRun))
    {
      Scan(WhiteRun);
    }

    method SkipComment()
      requires Valid() && pos <= |text|
      modifies this
      ensures Valid() && State() == AdvanceTo(old(State()), RunEnd(text, old(pos), CommentRun))
    {
      Scan(CommentRun);
    }

    method Interger() returns (r: Result<Token, LexError>)
      requires Valid() && pos < |text| && XssExtension.IsNumeric(text[pos])
      modifies this
      ensures IntegerF(text, old(State())).Success? <==> r.Success?
      ensures r.Success? ==> Valid() && Lexed(r.value, State()) == IntegerF(text, old(State())).value
      ensures r.Failure? ==> r.error == IntegerF(text, old(State())).error
    {
      var start := pos;
      Scan(DigitRun);
      if currentChar == '.' {
        var p := Peek();
        if p.Failure? {
          return Failure(p.error);
        }
        if XssExtension.IsNumeric(p.value) {
          Advance();
          Scan(DigitRun);
          return Success(Token(FLOAT, Some(text[start..pos])));
        } else {
          return Failure(InvalidInput(currentChar));
        }
      }
      return Success(Token(INTERGER, Some(text[start..pos])));
    }

    method Char() returns (r: Result<Token, LexError>)
      requires Valid() && pos < |text|
      modifies this
      ensures CharF(text, old(State())).Success? <==> r.Success?
      ensures r.Success? ==> Valid() && Lexed(r.value, State()) == CharF(text, old(State())).value
      ensures r.Failure? ==> r.error == CharF(text, old(State())).error
    {
      Advance();
      var result := currentChar;
      Advance();
      if currentChar != '\'' {
        return Failure(InvalidInput(currentChar));
      }
      Advance();
      return Success(Token(CHAR, Some([result])));
    }

    method String() returns (r: Result<Token, LexError>)
      requires Valid() && pos < |text|
      modifies this
      ensures StringF(text, old(State())).Success? <==> r.Success?
      ensures r.Success? ==> Valid() && Lexed(r.value, State()) == StringF(text, old(State())).value
      ensures r.Failure? ==> r.error == StringF(text, old(State())).error
    {
      Advance();
      var start := pos;
      Scan(StringRun);
      var result := text[start..pos];
      if currentChar != '"' {
        return Failure(InvalidInput(currentChar));
      }
      Advance();
      return Success(Token(STRING, Some(result)));
    }

    method Ident() returns (t: Token)
      requires Valid() && pos < |text| && text[pos] != '\0' && XssExtension.IsIdent(text[pos])
      modifies this
      ensures Valid() && Lexed(t, State()) == IdentF(text, old(State()))
    {
      var start := pos;
      Scan(IdentRun);
      var result := text[start..pos];
      return Token(KeywordKind(result), Some(result));
    }

    /** The single-token part of `GetNextToken`, after the skipping. */
    method ScanToken() returns (r: Result<Token, LexError>)
      requires Valid() && pos < |text| && text[pos] != '\0'
      requires text[pos] in {'/', '!'} ==> pos + 1 < |text|
      modifies this
      ensures ScanF(text, old(State())).Success? <==> r.Success?
      ensures r.Success? ==> Valid() && Lexed(r.value, State()) == ScanF(text, old(State())).value
      ensures r.Failure? ==> r.error == ScanF(text, old(State())).error
    {
      var ch := currentChar;
      var next := CharAt(text, pos + 1);
      if ch == '!' && next == '=' {
        Advance(); Advance();
        return Success(Token(NOTEQUAL, Some("!=")));
      }
      if ch == '>' {
        Advance();
        if currentChar == '=' {
          Advance();
          return Success(Token(LARGEREQUAL, Some(">=")));
        }
        return Success(Token(LARGER, Some(">")));
      }
      if ch == '<' {
        Advance();
        if currentChar == '=' {
          Advance();
          return Success(Token(LESSEREQUAL, Some("<=")));
        }
        return Success(Token(LESSER, Some("<")));
      }
      if ch == '=' {
        Advance();
        if currentChar == '>' {
          Advance();
          return Success(Token(LAMBDA, Some("=>")));
        } else if currentChar == '=' {
          Advance();
          return Success(Token(EQUAL, Some("==")));
        }
        return Success(Token(ASSIGN, Some("=")));
      }
      var single := SingleCharKind(ch);
      if single.Some? {
        Advance();
        return Success(Token(single.value, Some([ch])));
      }
      if ch == '\'' {
        r := Char();
        return;
      }
      if ch == '"' {
        r := String();
        return;
      }
      if XssExtension.IsNumeric(ch) {
        r := Interger();
        return;
      }
      if XssExtension.IsIdent(ch) {
        var t := Ident();
        return Success(t);
      }
      return Failure(InvalidInput(ch));
    }

    /** One pass of `GetNextToken`'s loop at a non-NUL character: skip white space or a
        comment (`done` false), or read the token or fail (`done` true). */
    method Step() returns (done: bool, r: Result<Token, LexError>)
      requires Valid() && pos < |text| && currentChar != '\0'
      modifies this
      ensures !done ==> Valid() && old(pos) < pos <= |text|
      ensures !done ==> NextTokenF(text, State()) == NextTokenF(text, old(State()))
      ensures done ==> (NextTokenF(text, old(State())).Success? <==> r.Success?)
      ensures done && r.Success? ==> Valid() && Lexed(r.value, State()) == NextTokenF(text, old(State())).value
      ensures done && r.Failure? ==> r.error == NextTokenF(text, old(State())).error
    {
      ghost var before := State();
      var ch := currentChar;
      if ch == '\r' {
        currentLine := currentLine + 1;
        currentPosInLine := 0;
      }
      if DotNetText.IsWhiteSpace(ch) {
        SkipWhitespace();
        WhiteStep(text, before);
        return false, Success(Token(EOF, None));
      }
      if ch == '/' || ch == '!' {
        var p := Peek();
        if p.Failure? {
          PeekStepFails(text, before);
          return true, Failure(p.error);
        }
        if ch == '/' && p.value == '/' {
          SkipComment();
          CommentStep(text, before);
          return false, Success(Token(EOF, None));
        }
      }
      ScanStep(text, before);
      r := ScanToken();
      return true, r;
    }

    method GetNextToken() returns (r: Result<Token, LexError>)
      requires Valid() && pos <= |text|
      modifies this
      ensures NextTokenF(text, old(State())).Success? <==> r.Success?
      ensures r.Success? ==> Valid() && Lexed(r.value, State()) == NextTokenF(text, old(State())).value
      ensures r.Failure? ==> r.error == NextTokenF(text, old(State())).error
    {
      while currentChar != '\0'
        invariant Valid() && pos <= |text|
        invariant NextTokenF(text, State()) == NextTokenF(text, old(State()))
        decreases |text| - pos
      {
        var done;
        done, r := Step();
        if done {
          return;
        }
      }
      assert CharAt(text, pos) == '\0';
      return Success(Token(EOF, None));
    }

    /** `PeekNextToken()`: the next token, read by a copy, so this lexer is left as it was. */
    method PeekNextToken() returns (r: Result<Token, LexError>)
      requires Valid() && pos <= |text|
      ensures NextTokenF(text, State()).Success? <==> r.Success?
      ensures r.Success? ==> r.value == NextTokenF(text, State()).value.token
      ensures r.Failure? ==> r.error == NextTokenF(text, State()).error
    {
      var peeker := new Lexer.Copy(this);
      r := peeker.GetNextToken();
    }
  }

  /** `new Lexer(t)` on any text: reading `t[0]` raises IndexOutOfRange when `t` is empty, and
      otherwise the constructor's fresh lexer stands at the start of `t`. */
  method NewLexer(t: string) returns (r: Result<Lexer, LexError>)
    ensures t == [] ==> r == Failure(IndexOutOfRange)
    ensures t != [] ==> r.Success? && fresh(r.value) && r.value.Valid()
    ensures t != [] ==> r.value.text == t && r.value.State() == Cursor(0, 0, 0)
  {
    if t == [] {
      return Failure(IndexOutOfRange);
    }
    var lexer := new Lexer(t);
    return Success(lexer);
  }
}
