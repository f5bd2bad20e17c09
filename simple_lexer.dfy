/** The lexer of the earlier calculator (simple_interpreter/Lexer.cs). The pure functions say
    what one call of `GetNextToken` returns from a position; the class `Lexer` is the C#
    object, whose methods advance the position step by step and are proved to agree with
    them. The calculator's tokens use the kind names of `Tokens`. */
module SimpleLexer {
  import opened Wrappers
  import opened Tokens
  import DotNetText

  /** `Error()`: the character the lexer could not read; or the IndexOutOfRange the
      constructor raises on an empty text. */
  datatype LexError = ErrorParsingInput(found: char) | IndexOutOfRange

  /** `current_char` for a position: the character there, or '\0' past the end. */
  function CharAt(text: string, p: nat): char
  {
    if p < |text| then text[p] else '\0'
  }

  /** The scanning loops: white space, a `;` comment, an integer, an identifier. */
  datatype Run = WhiteRun | CommentRun | DigitRun | WordRun

  /** Whether a scanning loop continues over a (non-NUL) character. */
  predicate Continues(run: Run, ch: char)
  {
    match run
    case WhiteRun => DotNetText.IsWhiteSpace(ch)
    case CommentRun => ch != '\n'
    case DigitRun => DotNetText.IsDigit(ch)
    case WordRun => DotNetText.IsLetterOrDigit(ch)
  }

  /** Where a scanning loop started at `p` stops: every character it passes is non-NUL and
      continues the run, and the one it stops at is NUL (or the end) or ends the run. */
  function RunEnd(text: string, p: nat, run: Run): (q: nat)
    requires p <= |text|
    ensures p <= q <= |text|
    ensures forall k :: p <= k < q ==> text[k] != '\0' && Continues(run, text[k])
    ensures CharAt(text, q) == '\0' || !Continues(run, CharAt(text, q))
    decreases |text| - p
  {
    if p < |text| && text[p] != '\0' && Continues(run, text[p]) then RunEnd(text, p + 1, run) else p
  }

  /** The one-character tokens. */
  function SingleCharKind(ch: char): (r: Option<TokenKind>)
    ensures r.Some? <==> ch in {'=', '+', '-', '*', '/', '^', '(', ')'}
  {
    match ch
    case '=' => Some(ASSIGN)
    case '+' => Some(PLUS)
    case '-' => Some(MINUS)
    case '*' => Some(MULTIPLY)
    case '/' => Some(DIVIDE)
    case '^' => Some(EXPONENT)
    case '(' => Some(LPAREN)
    case ')' => Some(RPAREN)
    case _ => None
  }

  /** `GetNextToken()`: skip white space and comments, which run from `;` to the end of the
      line, then read one token: a digit run, a letter followed by letters and digits, or one
      of the operator characters; any other character is an error. At a NUL character or the
      end of the text the result is EOF with a null lexeme, and the position stays. */
  function NextTokenF(text: string, p: nat): (r: Result<(Token, nat), LexError>)
    requires p <= |text|
    ensures r.Success? ==> p <= r.value.1 <= |text|
    ensures r.Success? && r.value.0.kind != EOF ==> p < r.value.1
    ensures r.Success? && r.value.0.kind == EOF ==>
              r.value.0.lexeme == None && CharAt(text, r.value.1) == '\0'
    decreases |text| - p
  {
    var ch := CharAt(text, p);
    if ch == '\0' then Success((Token(EOF, None), p))
    else if DotNetText.IsWhiteSpace(ch) then NextTokenF(text, RunEnd(text, p, WhiteRun))
    else if ch == ';' then NextTokenF(text, RunEnd(text, p, CommentRun))
    else if DotNetText.IsDigit(ch) then
      var q := RunEnd(text, p, DigitRun);
      Success((Token(INTERGER, Some(text[p..q])), q))
    else if DotNetText.IsLetter(ch) then
      var q := RunEnd(text, p, WordRun);
      Success((Token(IDENT, Some(text[p..q])), q))
    else match SingleCharKind(ch)
      case Some(k) => Success((Token(k, Some([ch])), p + 1))
      case None => Failure(ErrorParsingInput(ch))
  }

  /** One element of the token stream the parser reads: a token, or the error that lexing at
      that point raises. */
  datatype Item = Tok(token: Token) | LexFail(error: LexError)

  /** The successive results of `GetNextToken` from a position, up to and including the EOF
      token or the first error. */
  function Tokenize(text: string, p: nat): (items: seq<Item>)
    requires p <= |text|
    ensures |items| > 0 && (items[|items| - 1].LexFail? || items[|items| - 1].token.kind == EOF)
    decreases |text| - p
  {
    match NextTokenF(text, p)
    case Failure(e) => [LexFail(e)]
    case Success((tok, q)) =>
      if tok.kind == EOF then [Tok(tok)] else [Tok(tok)] + Tokenize(text, q)
  }

  /** The tokens of a whole line as `new Lexer(text)` and the parser's `GetNextToken` calls
      see them: the constructor's read of `text[0]` raises on an empty line, before any token
      is read; otherwise lexing starts at position 0. */
  function Lex(text: string): (items: seq<Item>)
    ensures |items| > 0 && (items[|items| - 1].LexFail? || items[|items| - 1].token.kind == EOF)
    ensures text == [] ==> items == [LexFail(IndexOutOfRange)]
  {
    if text == [] then [LexFail(IndexOutOfRange)] else Tokenize(text, 0)
  }

  /** A run started inside another run of the same kind ends where that one does. */
  lemma {:induction false} RunEndFrom(text: string, p: nat, p': nat, run: Run)
    requires p <= |text| && p <= p' <= RunEnd(text, p, run)
    ensures RunEnd(text, p', run) == RunEnd(text, p, run)
    decreases p' - p
  {
    if p < p' {
      RunEndFrom(text, p + 1, p', run);
    }
  }

  /** White space before a token is skipped: lexing from anywhere in a stretch of white space
      gives what lexing from its end gives. */
  lemma WhiteSpaceSkipped(text: string, p: nat, q: nat)
    requires p <= q <= |text|
    requires forall k :: p <= k < q ==> text[k] != '\0' && DotNetText.IsWhiteSpace(text[k])
    ensures NextTokenF(text, p) == NextTokenF(text, q)
  {
    if p < q {
      var e := RunEnd(text, p, WhiteRun);
      assert CharAt(text, p) == text[p];
      assert NextTokenF(text, p) == NextTokenF(text, e);
      RunEndFrom(text, p, q, WhiteRun);
      if q < e {
        assert CharAt(text, q) == text[q];
        assert NextTokenF(text, q) == NextTokenF(text, e);
      }
    }
  }

  /** A `;` comment is skipped up to the end of its line: lexing from the `;` gives what
      lexing from the line break (or the end) gives. */
  lemma CommentSkipped(text: string, p: nat)
    requires p < |text| && text[p] == ';'
    ensures var q := RunEnd(text, p, CommentRun);
            p < q && CharAt(text, q) in {'\n', '\0'} && NextTokenF(text, p) == NextTokenF(text, q)
  {
    assert CharAt(text, p) == text[p];
  }

  /** At a NUL character or the end of the text the result is EOF with a null lexeme, the
      position stays, and lexing again gives EOF again. */
  lemma EofIsStable(text: string, p: nat)
    requires p <= |text| && NextTokenF(text, p).Success? && NextTokenF(text, p).value.0.kind == EOF
    ensures var q := NextTokenF(text, p).value.1;
            NextTokenF(text, q) == Success((Token(EOF, None), q))
  {
  }

  /** A maximal digit run is one INTERGER token of exactly that run. */
  lemma IntegerToken(text: string, p: nat)
    requires p < |text| && DotNetText.IsDigit(text[p])
    ensures var q := RunEnd(text, p, DigitRun);
            NextTokenF(text, p) == Success((Token(INTERGER, Some(text[p..q])), q))
            && q > p && (forall k :: p <= k < q ==> DotNetText.IsDigit(text[k]))
            && !DotNetText.IsDigit(CharAt(text, q))
  {
    assert CharAt(text, p) == text[p];
  }

  /** A letter starts an IDENT token that runs over the letters and digits after it. */
  lemma IdentToken(text: string, p: nat)
    requires p < |text| && DotNetText.IsLetter(text[p])
    ensures var q := RunEnd(text, p, WordRun);
            NextTokenF(text, p) == Success((Token(IDENT, Some(text[p..q])), q))
            && q > p && (forall k :: p <= k < q ==> DotNetText.IsLetterOrDigit(text[k]))
            && !DotNetText.IsLetterOrDigit(CharAt(text, q))
  {
    assert CharAt(text, p) == text[p];
  }

  /** Each operator character is its own token; every other character that starts no
      token, comment or white space is an error naming it. */
  lemma SingleCharacters(text: string, p: nat)
    requires p < |text| && text[p] != '\0' && text[p] != ';'
    requires !DotNetText.IsWhiteSpace(text[p]) && !DotNetText.IsLetterOrDigit(text[p])
    ensures text[p] in {'=', '+', '-', '*', '/', '^', '(', ')'} ==>
              NextTokenF(text, p) == Success((Token(SingleCharKind(text[p]).value, Some([text[p]])), p + 1))
    ensures text[p] !in {'=', '+', '-', '*', '/', '^', '(', ')'} ==>
              NextTokenF(text, p) == Failure(ErrorParsingInput(text[p]))
  {
    assert CharAt(text, p) == text[p];
  }

  /** The lexer object. `Valid` relates `current_char` to the position, which the
      constructors establish and every method keeps. */
  class Lexer {
    const text: string
    var pos: nat
    var currentChar: char

    ghost predicate Valid()
      reads this
    {
      pos <= |text| && currentChar == CharAt(text, pos)
    }

    /** `Lexer(string)` on a non-empty text; `NewLexer` stands for the call on any text. */
    constructor (t: string)
      requires |t| > 0
      ensures Valid() && text == t && pos == 0
    {
      text := t;
      pos := 0;
      currentChar := t[0];
    }

    /** `Lexer(Lexer)`: a copy of every field. */
    constructor Copy(other: Lexer)
      requires other.Valid()
      ensures Valid() && text == other.text && pos == other.pos
    {
      text := other.text;
      pos := other.pos;
      currentChar := other.currentChar;
    }

    method Advance()
      requires Valid() && pos < |text|
      modifies this
      ensures Valid() && pos == old(pos) + 1
    {
      pos := pos + 1;
      if pos > |text| - 1 {
        currentChar := '\0';
      } else {
        currentChar := text[pos];
      }
    }

    /** Advances while the current character is non-NUL and continues the run. */
    method Scan(run: Run)
      requires Valid()
      modifies this
      ensures Valid() && pos == RunEnd(text, old(pos), run)
    {
      ghost var start := pos;
      while currentChar != '\0' && Continues(run, currentChar)
        invariant Valid() && start <= pos
        invariant RunEnd(text, pos, run) == RunEnd(text, start, run)
        decreases |text| - pos
      {
        Advance();
      }
    }

    method SkipWhitespace()
      requires Valid()
      modifies this
      ensures Valid() && pos == RunEnd(text, old(pos), WhiteRun)
    {
      Scan(WhiteRun);
    }

    method SkipComment()
      requires Valid()
      modifies this
      ensures Valid() && pos == RunEnd(text, old(pos), CommentRun)
    {
      Scan(CommentRun);
    }

    /** `Interger()`: the digit run from the current character. */
    method Interger() returns (s: string)
      requires Valid()
      modifies this
      ensures Valid() && pos == RunEnd(text, old(pos), DigitRun) && s == text[old(pos)..pos]
    {
      var start := pos;
      Scan(DigitRun);
      s := text[start..pos];
    }

    /** `Ident()`: the run of letters and digits from the current character. */
    method Ident() returns (s: string)
      requires Valid()
      modifies this
      ensures Valid() && pos == RunEnd(text, old(pos), WordRun) && s == text[old(pos)..pos]
    {
      var start := pos;
      Scan(WordRun);
      s := text[start..pos];
    }

    method GetNextToken() returns (r: Result<Token, LexError>)
      requires Valid()
      modifies this
      ensures NextTokenF(text, old(pos)).Success? <==> r.Success?
      ensures r.Success? ==> Valid() && (r.value, pos) == NextTokenF(text, old(pos)).value
      ensures r.Failure? ==> r.error == NextTokenF(text, old(pos)).error
    {
      while currentChar != '\0'
        invariant Valid()
        invariant NextTokenF(text, pos) == NextTokenF(text, old(pos))
        decreases |text| - pos
      {
        if DotNetText.IsWhiteSpace(currentChar) {
          SkipWhitespace();
          continue;
        }
        if currentChar == ';' {
          SkipComment();
          continue;
        }
        if DotNetText.IsDigit(currentChar) {
          var s := Interger();
          return Success(Token(INTERGER, Some(s)));
        }
        if DotNetText.IsLetter(currentChar) {
          var s := Ident();
          return Success(Token(IDENT, Some(s)));
        }
        var single := SingleCharKind(currentChar);
        if single.Some? {
          var ch := currentChar;
          Advance();
          return Success(Token(single.value, Some([ch])));
        }
        return Failure(ErrorParsingInput(currentChar));
      }
      return Success(Token(EOF, None));
    }

    /** `PeekNextToken()`: the next token, read by a copy, so this lexer is left as it was. */
    method PeekNextToken() returns (r: Result<Token, LexError>)
      requires Valid()
      ensures NextTokenF(text, pos).Success? <==> r.Success?
      ensures r.Success? ==> r.value == NextTokenF(text, pos).value.0
      ensures r.Failure? ==> r.error == NextTokenF(text, pos).error
    {
      var peeker := new Lexer.Copy(this);
      r := peeker.GetNextToken();
    }
  }

  /** `new Lexer(t)` on any text: reading `t[0]` raises IndexOutOfRange when `t` is empty, and
      otherwise the constructor's fresh lexer stands at the start of `t`. */
  method NewLexer(t: string) returns (r: Result<Lexer, LexError>)
    ensures t == [] ==> r == Failure(IndexOutOfRange)
    ensures t != [] ==> r.Success? && fresh(r.value) && r.value.Valid()
    ensures t != [] ==> r.value.text == t && r.value.pos == 0
  {
    if t == [] {
      return Failure(IndexOutOfRange);
    }
    var lexer := new Lexer(t);
    return Success(lexer);
  }
}
