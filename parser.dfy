/**
 * The parser's state transitions as pure functions (src/parser.rs). The
 * class `Parser.Parser` below performs them field by field; these
 * functions are its specification.
 */
module ParserModel {
  import opened Wrappers
  import opened Tokens
  import A = Ast

  /** Where `error_at` says the error is: `" at end"` or `" at <lexeme>"`. */
  datatype Place = AtEnd | AtLexeme(lexeme: string)

  /** One report written by `error_at` (its text is not modelled). */
  datatype Diagnostic = Diagnostic(line: nat, place: Place, message: string)

  /** The parser's fields, together with how many items the lexer has yielded. */
  datatype ParserState = ParserState(
    cursor: nat,
    token: Token,
    prevToken: Token,
    prevLine: nat,
    prevSlice: string,
    hadError: bool,
    atEnd: bool,
    diagnostics: seq<Diagnostic>)

  /** The state `Parser::new` sets up: both tokens the `Bang` placeholder, no error, not at end. */
  function Initial(): (s: ParserState)
    ensures s.token == Bang && s.prevToken == Bang && s.prevLine == 0 && s.prevSlice == ""
    ensures !s.hadError && !s.atEnd && s.diagnostics == [] && s.cursor == 0
  {
    ParserState(0, Bang, Bang, 0, "", false, false, [])
  }

  /** `lexer.extras.0`: the line count after the last item yielded (0 before any). */
  function LexerLine(input: seq<Lexeme>, cursor: nat): nat
  {
    if 0 < cursor <= |input| then input[cursor - 1].line else 0
  }

  /** `lexer.slice()`: the text of the last item yielded ("" before any). */
  function LexerSlice(input: seq<Lexeme>, cursor: nat): string
  {
    if 0 < cursor <= |input| then input[cursor - 1].slice else ""
  }

  /** `error_at`: records a report and sets `had_error`; nothing else changes. */
  function ErrorAt(s: ParserState, line: nat, lexeme: string, message: string): (t: ParserState)
    ensures t.hadError && |t.diagnostics| == |s.diagnostics| + 1
    ensures t.diagnostics[..|s.diagnostics|] == s.diagnostics
    ensures t.diagnostics[|s.diagnostics|].line == line
    ensures t.diagnostics[|s.diagnostics|] == Diagnostic(line, if s.atEnd then AtEnd else AtLexeme(lexeme), message)
    ensures t.(hadError := s.hadError, diagnostics := s.diagnostics) == s
  {
    var place := if s.atEnd then AtEnd else AtLexeme(lexeme);
    s.(hadError := true, diagnostics := s.diagnostics + [Diagnostic(line, place, message)])
  }

  /** `error`: reports at the previous token's line and text. */
  function Error(s: ParserState, message: string): (t: ParserState)
    ensures t.hadError
    ensures t.diagnostics == s.diagnostics + [Diagnostic(s.prevLine, if s.atEnd then AtEnd else AtLexeme(s.prevSlice), message)]
    ensures t.(hadError := s.hadError, diagnostics := s.diagnostics) == s
  {
    ErrorAt(s, s.prevLine, s.prevSlice, message)
  }

  /** `error_at_current`: reports at the lexer's current line and text. */
  function ErrorAtCurrent(input: seq<Lexeme>, s: ParserState, message: string): (t: ParserState)
    ensures t.hadError
    ensures t.diagnostics == s.diagnostics + [Diagnostic(LexerLine(input, s.cursor),
              if s.atEnd then AtEnd else AtLexeme(LexerSlice(input, s.cursor)), message)]
    ensures t.(hadError := s.hadError, diagnostics := s.diagnostics) == s
  {
    ErrorAt(s, LexerLine(input, s.cursor), LexerSlice(input, s.cursor), message)
  }

  /**
   * `advance`: the current token becomes the previous one, the previous
   * line and text are taken from the lexer, and the lexer yields its next
   * item: a token becomes current, a lexing error is reported and leaves
   * the current token as it was, and exhaustion makes `EOF` current.
   */
  function Advance(input: seq<Lexeme>, s: ParserState): (t: ParserState)
    ensures t.prevToken == s.token
    ensures t.prevLine == LexerLine(input, s.cursor) && t.prevSlice == LexerSlice(input, s.cursor)
    ensures t.atEnd == s.atEnd
    ensures t.cursor == if s.cursor < |input| then s.cursor + 1 else s.cursor
    ensures s.cursor < |input| && input[s.cursor].token.Ok? ==>
              t.token == input[s.cursor].token.value && t.hadError == s.hadError && t.diagnostics == s.diagnostics
    ensures s.cursor < |input| && input[s.cursor].token.Err? ==>
              t.token == s.token && t.hadError
              && t.diagnostics == s.diagnostics + [Diagnostic(LexerLine(input, s.cursor),
                   if s.atEnd then AtEnd else AtLexeme(LexerSlice(input, s.cursor)), "Lexing error")]
    ensures s.cursor >= |input| ==>
              t.token == EOF && t.hadError == s.hadError && t.diagnostics == s.diagnostics
  {
    var s1 := s.(prevLine := LexerLine(input, s.cursor),
                 prevSlice := LexerSlice(input, s.cursor),
                 prevToken := s.token);
    if s.cursor < |input| then
      var s2 := s1.(cursor := s.cursor + 1);
      match input[s.cursor].token
      case Ok(t) => s2.(token := t)
      case Err(_) => Error(s2, "Lexing error")
    else
      s1.(token := EOF)
  }

  /** A literal node holding `n`. */
  function LiteralExpr(n: Values.F64): A.Expr
  {
    A.Expr(A.Lit(A.LitFrom(n)))
  }

  /**
   * `parse_num_literal`: the previous token must be a number; its literal
   * is returned after exactly one `advance`. Any other token panics.
   */
  function ParseNumLiteral(input: seq<Lexeme>, s: ParserState): (r: (Outcome<A.Expr>, ParserState))
    ensures r.0.Done? <==> s.prevToken.Number?
    ensures r.0.Done? ==> r.0.value == LiteralExpr(s.prevToken.number) && r.1 == Advance(input, s)
    ensures r.0.Panicked? ==> r.0.panic == UnexpectedToken && r.1 == s
  {
    match s.prevToken
    case Number(n) => (Done(LiteralExpr(n)), Advance(input, s))
    case _ => (Panicked(UnexpectedToken), s)
  }

  /**
   * `parse_binop`: a literal, the operator (only `Plus` is implemented),
   * then a second literal.
   */
  function ParseBinop(input: seq<Lexeme>, s: ParserState): (r: (Outcome<A.Expr>, ParserState))
    ensures r.0.Done? <==> s.prevToken.Number? && s.token.Plus? && Advance(input, s).token.Number?
    ensures r.0.Done? ==> r.0.value == A.Expr(A.Binary(A.Add, LiteralExpr(s.prevToken.number),
                                                   LiteralExpr(Advance(input, s).token.number)))
    ensures r.0.Done? ==> A.IsLiteralSum(r.0.value)
    ensures r.1.atEnd == s.atEnd
  {
    var (lhs, s1) := ParseNumLiteral(input, s);
    match lhs
    case Panicked(p) => (Panicked(p), s1)
    case Done(l) =>
      if !s1.prevToken.Plus? then
        (Panicked(Unimplemented), s1)
      else
        var s2 := Advance(input, s1);
        var (rhs, s3) := ParseNumLiteral(input, s2);
        match rhs
        case Panicked(p) => (Panicked(p), s3)
        case Done(r) => (Done(A.Expr(A.Binary(A.Add, l, r))), s3)
  }

  /**
   * `parse_root`: two `advance`s seed the current and previous tokens, then
   * one binary expression is parsed. Unless a panic intervenes, the result
   * is `Ok`.
   */
  function ParseRoot(input: seq<Lexeme>, s: ParserState): (r: (Outcome<Result<A.Ast, ()>>, ParserState))
    ensures r.0.Done? ==> r.0.value.Ok? && A.IsLiteralSum(r.0.value.value.root)
    ensures var t1 := Advance(input, s); var t2 := Advance(input, t1); var t3 := Advance(input, t2);
      && (r.0.Done? <==> t1.token.Number? && t2.token.Plus? && t3.token.Number?)
      && (r.0.Done? ==> r.0.value.value.root
                         == A.Expr(A.Binary(A.Add, LiteralExpr(t1.token.number), LiteralExpr(t3.token.number))))
    ensures r.1.atEnd == s.atEnd
  {
    var s2 := Advance(input, Advance(input, s));
    var (e, s3) := ParseBinop(input, s2);
    match e
    case Panicked(p) => (Panicked(p), s3)
    case Done(x) => (Done(Ok(A.Ast(x))), s3)
  }

  /** Parsing a whole token stream with a fresh parser. */
  function ParseSource(input: seq<Lexeme>): (r: Outcome<Result<A.Ast, ()>>)
    ensures r.Done? ==> r.value.Ok? && A.IsLiteralSum(r.value.value.root)
  {
    ParseRoot(input, Initial()).0
  }

  /** `at_end` is unset and every report so far names a lexeme. */
  predicate ReportsAtLexeme(s: ParserState)
  {
    !s.atEnd && forall i | 0 <= i < |s.diagnostics| :: s.diagnostics[i].place.AtLexeme?
  }

  /** `advance` keeps every report naming a lexeme, including the one a lexing error adds. */
  lemma AdvanceReportsAtLexeme(input: seq<Lexeme>, s: ParserState)
    requires ReportsAtLexeme(s)
    ensures ReportsAtLexeme(Advance(input, s))
  {
    var t := Advance(input, s);
    if s.cursor < |input| && input[s.cursor].token.Err? {
      forall i | 0 <= i < |t.diagnostics|
        ensures t.diagnostics[i].place.AtLexeme?
      {
        if i < |s.diagnostics| {
          assert t.diagnostics[i] == t.diagnostics[..|s.diagnostics|][i];
        }
      }
    }
  }

  lemma NumLiteralReportsAtLexeme(input: seq<Lexeme>, s: ParserState)
    requires ReportsAtLexeme(s)
    ensures ReportsAtLexeme(ParseNumLiteral(input, s).1)
  {
    AdvanceReportsAtLexeme(input, s);
  }

  lemma BinopReportsAtLexeme(input: seq<Lexeme>, s: ParserState)
    requires ReportsAtLexeme(s)
    ensures ReportsAtLexeme(ParseBinop(input, s).1)
  {
    NumLiteralReportsAtLexeme(input, s);
    var s1 := ParseNumLiteral(input, s).1;
    AdvanceReportsAtLexeme(input, s1);
    NumLiteralReportsAtLexeme(input, Advance(input, s1));
  }

  /**
   * No operation sets `at_end`, so every error a parse reports, lexing
   * errors included, takes the " at <lexeme>" branch of `error_at`.
   */
  lemma ParseReportsAtLexeme(input: seq<Lexeme>)
    ensures ReportsAtLexeme(ParseRoot(input, Initial()).1)
  {
    AdvanceReportsAtLexeme(input, Initial());
    AdvanceReportsAtLexeme(input, Advance(input, Initial()));
    BinopReportsAtLexeme(input, Advance(input, Advance(input, Initial())));
  }

  /** `Number a, Plus, Number b` parses to `a + b`, whatever follows. */
  lemma ParsesSum(input: seq<Lexeme>, a: Values.F64, b: Values.F64)
    requires |input| >= 3
    requires input[0].token == Ok(Number(a)) && input[1].token == Ok(Plus) && input[2].token == Ok(Number(b))
    ensures ParseSource(input) == Done(Ok(A.Ast(A.Expr(A.Binary(A.Add, LiteralExpr(a), LiteralExpr(b))))))
  {
    var s2 := Advance(input, Advance(input, Initial()));
    assert s2.prevToken == Number(a) && s2.token == Plus && s2.cursor == 2;
    var s3 := Advance(input, s2);
    assert s3.prevToken == Plus && s3.token == Number(b);
    var s4 := Advance(input, s3);
    assert s4.prevToken == Number(b);
  }

  /** Any other operator in the middle is `unimplemented!`. */
  lemma OtherOperatorUnimplemented(input: seq<Lexeme>, a: Values.F64, op: Token)
    requires |input| >= 2 && op != Plus
    requires input[0].token == Ok(Number(a)) && input[1].token == Ok(op)
    ensures ParseSource(input) == Panicked(Unimplemented)
  {
    var s2 := Advance(input, Advance(input, Initial()));
    assert s2.prevToken == Number(a) && s2.token == op;
    var s3 := Advance(input, s2);
    assert s3.prevToken == op;
  }

  /** A token stream that does not start with a number panics on the first literal. */
  lemma LeadingNonNumberPanics(input: seq<Lexeme>, t: Token)
    requires |input| >= 1 && input[0].token == Ok(t) && !t.Number?
    ensures ParseSource(input) == Panicked(UnexpectedToken)
  {
    var s2 := Advance(input, Advance(input, Initial()));
    assert s2.prevToken == t;
  }

  /**
   * A lexing error does not stop `parse_root` from returning `Ok`: after
   * `Number a, Plus, Number b`, an error item is reported and the parse
   * still succeeds.
   */
  lemma LexingErrorStillParses(input: seq<Lexeme>, a: Values.F64, b: Values.F64)
    requires |input| == 4
    requires input[0].token == Ok(Number(a)) && input[1].token == Ok(Plus) && input[2].token == Ok(Number(b))
    requires input[3].token.Err?
    ensures ParseRoot(input, Initial()).0 == Done(Ok(A.Ast(A.Expr(A.Binary(A.Add, LiteralExpr(a), LiteralExpr(b))))))
    ensures ParseRoot(input, Initial()).1.hadError
  {
    var s2 := Advance(input, Advance(input, Initial()));
    assert s2.prevToken == Number(a) && s2.token == Plus && s2.cursor == 2;
    var s3 := Advance(input, s2);
    assert s3.prevToken == Plus && s3.token == Number(b) && s3.cursor == 3 && !s3.hadError;
    var s4 := Advance(input, s3);
    assert s4.prevToken == Number(b) && s4.hadError;
  }
}

/** The parser object (src/parser.rs), its fields updated in place. */
module Parser {
  import opened Wrappers
  import opened Tokens
  import A = Ast
  import M = ParserModel

  class Parser {
    const source: string
    /** What the lexer yields, in order; `cursor` counts the items already taken. */
    const input: seq<Lexeme>
    var cursor: nat
    var token: Token
    var prevToken: Token
    var prevLine: nat
    var prevSlice: string
    var hadError: bool
    var atEnd: bool
    var diagnostics: seq<M.Diagnostic>

    function State(): M.ParserState
      reads this
    {
      M.ParserState(cursor, token, prevToken, prevLine, prevSlice, hadError, atEnd, diagnostics)
    }

    /** `Parser::new`. */
    constructor New(src: string, lexer: seq<Lexeme>)
      ensures source == src && input == lexer
      ensures State() == M.Initial()
    {
      source := src;
      input := lexer;
      cursor := 0;
      token := Bang;
      prevToken := Bang;
      prevLine := 0;
      prevSlice := "";
      hadError := false;
      atEnd := false;
      diagnostics := [];
    }

    /** `check`: a stub that never finds the token. */
    method Check(t: Token) returns (isPresent: bool)
      ensures !isPresent
    {
      isPresent := false;
    }

    /**
     * `eat`: it advances only when `check` finds the token, and `check`
     * never does, so the call to `advance` is dead and nothing changes.
     */
    method Eat(t: Token) returns (isPresent: bool)
      ensures !isPresent
    {
      isPresent := Check(t);
    }

    /** `advance`. */
    method Advance()
      modifies this
      ensures State() == M.Advance(input, old(State()))
    {
      prevLine := M.LexerLine(input, cursor);
      prevSlice := M.LexerSlice(input, cursor);
      prevToken := token;
      if cursor < |input| {
        var next := input[cursor];
        cursor := cursor + 1;
        match next.token {
          case Ok(t) => token := t;
          case Err(_) => Error("Lexing error");
        }
      } else {
        token := EOF;
      }
    }

    /** `error`. */
    method Error(message: string)
      modifies this
      ensures State() == M.Error(old(State()), message)
    {
      ErrorAt(prevLine, prevSlice, message);
    }

    /** `error_at_current`. */
    method ErrorAtCurrent(message: string)
      modifies this
      ensures State() == M.ErrorAtCurrent(input, old(State()), message)
    {
      ErrorAt(M.LexerLine(input, cursor), M.LexerSlice(input, cursor), message);
    }

    /** `error_at`. */
    method ErrorAt(line: nat, lexeme: string, message: string)
      modifies this
      ensures State() == M.ErrorAt(old(State()), line, lexeme, message)
    {
      var place := if atEnd then M.AtEnd else M.AtLexeme(lexeme);
      diagnostics := diagnostics + [M.Diagnostic(line, place, message)];
      hadError := true;
    }

    /** `parse_root`. */
    method ParseRoot() returns (r: Outcome<Result<A.Ast, ()>>)
      modifies this
      ensures (r, State()) == M.ParseRoot(input, old(State()))
    {
      Advance();
      Advance();
      var expr := ParseBinop();
      match expr {
        case Panicked(p) => r := Panicked(p);
        case Done(e) => r := Done(Ok(A.Ast(e)));
      }
    }

    /** `parse_binop`. */
    method ParseBinop() returns (r: Outcome<A.Expr>)
      modifies this
      ensures (r, State()) == M.ParseBinop(input, old(State()))
    {
      var lhs := ParseNumLiteral();
      if lhs.Panicked? {
        return Panicked(lhs.panic);
      }
      if !prevToken.Plus? {
        return Panicked(Unimplemented);
      }
      Advance();
      var rhs := ParseNumLiteral();
      if rhs.Panicked? {
        return Panicked(rhs.panic);
      }
      r := Done(A.Expr(A.Binary(A.Add, lhs.value, rhs.value)));
    }

    /** `parse_num_literal`. */
    method ParseNumLiteral() returns (r: Outcome<A.Expr>)
      modifies this
      ensures (r, State()) == M.ParseNumLiteral(input, old(State()))
    {
      match prevToken {
        case Number(n) =>
          Advance();
          r := Done(M.LiteralExpr(n));
        case _ =>
          r := Panicked(UnexpectedToken);
      }
    }
  }
}
