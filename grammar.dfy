/**
 * The parser as pure functions over a parse state: the scanner cursor and
 * the errors recorded so far. Each function is the specification of one
 * parser method; the methods of `Parsing.Parser` are proved to compute
 * exactly these results and states.
 *
 * A `panic` of the parser becomes `Aborted(msg)`, which every caller
 * passes on unchanged.
 */
module Grammar {
  import opened Outcomes
  import opened Tokens
  import opened Exprs
  import opened Scanning
  import opened ParseErrors

  datatype PState = PState(cur: nat, errs: seq<Error>)

  datatype Parsed<+T> = Done(value: T, st: PState) | Aborted(msg: string)
  {
    predicate IsFailure() {
      Aborted?
    }

    function PropagateFailure<U>(): Parsed<U>
      requires Aborted?
    {
      Aborted(msg)
    }

    function Extract(): (T, PState)
      requires Done?
    {
      (value, st)
    }
  }

  /** The parser has called Next at least once and has not run past the end marker. */
  predicate Loaded(src: Stream, st: PState) {
    1 <= st.cur <= |src.toks| + 1
  }

  /** How many calls of Next are left before the cursor stops moving. */
  function Remaining(src: Stream, st: PState): nat
    requires st.cur <= |src.toks| + 1
  {
    |src.toks| + 1 - st.cur
  }

  function Tok(src: Stream, st: PState): Token {
    CurLexeme(src, st.cur).tok
  }

  function Lit(src: Stream, st: PState): Value {
    CurLexeme(src, st.cur).lit
  }

  function Off(src: Stream, st: PState): int {
    CurLexeme(src, st.cur).offset
  }

  function More(src: Stream, st: PState): bool {
    CurLexeme(src, st.cur).more
  }

  /** `r` is reachable from `st`: the cursor only moves forward and errors are only appended. */
  predicate Step(src: Stream, st: PState, r: PState) {
    st.cur <= r.cur <= |src.toks| + 1 && 1 <= r.cur && st.errs <= r.errs
  }

  /** Unless the input is exhausted, at least one token was consumed. */
  predicate Progress(src: Stream, st: PState, r: PState) {
    st.cur <= |src.toks| ==> st.cur < r.cur
  }

  /** `next`: advance the scanner, then keep advancing while the token is a comment. */
  function Advance(src: Stream, st: PState): (r: PState)
    requires st.cur <= |src.toks| + 1
    ensures Step(src, st, r) && Progress(src, st, r) && r.errs == st.errs
    ensures Tok(src, r) != Comment
    decreases |src.toks| + 1 - st.cur
  {
    var c := NextCur(src, st.cur);
    if CurLexeme(src, c).tok == Comment then Advance(src, PState(c, st.errs)) else PState(c, st.errs)
  }

  /** `next` skips nothing but comments: every token it passes over is a comment. */
  lemma {:induction false} AdvanceSkipsComments(src: Stream, st: PState)
    requires st.cur <= |src.toks| + 1
    ensures var r := Advance(src, st);
            forall j :: st.cur <= j < r.cur - 1 ==> src.toks[j].tok == Comment
    decreases |src.toks| + 1 - st.cur
  {
    var c := NextCur(src, st.cur);
    if CurLexeme(src, c).tok == Comment {
      AdvanceSkipsComments(src, PState(c, st.errs));
    }
  }

  /** `error`: one error at the current offset appended after the earlier ones. */
  function Record(src: Stream, st: PState, msg: string): (r: PState)
    ensures r.cur == st.cur
    ensures |r.errs| == |st.errs| + 1 && r.errs[..|st.errs|] == st.errs
    ensures r.errs[|st.errs|] == Error(Off(src, st), msg)
    ensures st.errs <= r.errs
  {
    PState(st.cur, st.errs + [Error(Off(src, st), msg)])
  }

  function ExpectMessage(want: Token, found: Token): string {
    "expected " + Quoted(want) + ", found " + Quoted(found)
  }

  /** `expect`: never moves the cursor; an error is recorded exactly when the token is not `t`. */
  function Expect(src: Stream, st: PState, t: Token): (r: (bool, PState))
    ensures r.0 <==> Tok(src, st) == t
    ensures r.1.cur == st.cur && st.errs <= r.1.errs
    ensures r.0 ==> r.1.errs == st.errs
    ensures !r.0 ==> r.1 == Record(src, st, ExpectMessage(t, Tok(src, st)))
  {
    var met := t == Tok(src, st);
    if met then (true, st) else (false, Record(src, st, ExpectMessage(t, Tok(src, st))))
  }

  function MissingComma(msg: string, got: Token): string {
    "missing ',' in " + msg + " (got " + Name(got) + ")"
  }

  /**
   * `expectCommaOr`: never moves the cursor. It answers false only at
   * `otherwise`; any token other than a comma or `otherwise` records an
   * error and answers true as if a comma were there.
   */
  function ExpectCommaOr(src: Stream, st: PState, otherwise: Token, msg: string): (r: (bool, PState))
    requires otherwise != Comma
    ensures r.1.cur == st.cur && st.errs <= r.1.errs
    ensures !r.0 <==> Tok(src, st) == otherwise
    ensures Tok(src, st) == Comma || !r.0 ==> r.1.errs == st.errs
    ensures Tok(src, st) != Comma && r.0 ==> r.1 == Record(src, st, MissingComma(msg, Tok(src, st)))
  {
    if Tok(src, st) == Comma then (true, st)
    else if Tok(src, st) != otherwise then (true, Record(src, st, MissingComma(msg, Tok(src, st))))
    else (false, st)
  }

  /** The panic of a failed `.(string)` assertion on the scanner's literal. */
  function ConversionPanic(v: Value): string {
    "interface conversion: interface {} is " + (if v.NoValue? then "nil" else ValueType(v)) + ", not string"
  }

  /**
   * `parseIdent`: the identifier's text, or `_` with a recorded error when
   * the token is not an identifier; the token is consumed either way.
   */
  function IdentF(src: Stream, st: PState): (r: Parsed<Expr>)
    requires Loaded(src, st)
    ensures r.Aborted? <==> Tok(src, st) == Identifier && !Lit(src, st).TextValue?
    ensures r.Done? ==> Step(src, st, r.st) && Progress(src, st, r.st) && r.value.Ident?
    ensures r.Done? && Tok(src, st) == Identifier ==> r == Done(Ident(Lit(src, st).s), Advance(src, st))
    ensures Tok(src, st) != Identifier ==>
      r == Done(Ident("_"), Advance(src, Record(src, st, ExpectMessage(Identifier, Tok(src, st)))))
  {
    var (met, st1) := Expect(src, st, Identifier);
    if met then
      match Lit(src, st)
      case TextValue(s) => Done(Ident(s), Advance(src, st1))
      case _ => Aborted(ConversionPanic(Lit(src, st)))
    else
      Done(Ident("_"), Advance(src, st1))
  }

  predicate IsLiteralToken(t: Token) {
    t == Int || t == Float || t == Imaginary || t == String
  }

  const ExpectedOperand: string := "expected operand"

  /** `parseExpr`: a binary expression of any precedence. */
  function ExprF(src: Stream, prec: Precedences, st: PState): (r: Parsed<Expr>)
    requires Loaded(src, st)
    ensures r.Done? ==> Step(src, st, r.st) && Progress(src, st, r.st) && Prec(prec, Tok(src, r.st)) == 0
    decreases Remaining(src, st), 7, 0
  {
    BinaryF(src, prec, st, 1)
  }

  /**
   * `parseBinaryExpr`: a unary expression, then for each precedence level
   * from the next operator's down to `minPrec`, a left-associated run of
   * operators of exactly that level. Whatever is left has a lower
   * precedence than `minPrec`.
   */
  function BinaryF(src: Stream, prec: Precedences, st: PState, minPrec: int): (r: Parsed<Expr>)
    requires Loaded(src, st) && minPrec >= 1
    ensures r.Done? ==> Step(src, st, r.st) && Progress(src, st, r.st) && Prec(prec, Tok(src, r.st)) < minPrec
    decreases Remaining(src, st), 6, 0
  {
    var u :- UnaryF(src, prec, st);
    Levels(src, prec, u.0, Prec(prec, Tok(src, u.1)), minPrec, u.1)
  }

  function LevelRank(p: int, minPrec: int): nat {
    if p >= minPrec then p - minPrec + 1 else 0
  }

  /** The outer loop of `parseBinaryExpr`, from level `p` down to `minPrec`. */
  function Levels(src: Stream, prec: Precedences, x: Expr, p: int, minPrec: int, st: PState): (r: Parsed<Expr>)
    requires Loaded(src, st) && minPrec >= 1 && Prec(prec, Tok(src, st)) <= p
    ensures r.Done? ==> Step(src, st, r.st) && Prec(prec, Tok(src, r.st)) < minPrec
    decreases Remaining(src, st), 5, 2 * LevelRank(p, minPrec) + 1
  {
    if p < minPrec then Done(x, st) else LevelsStep(src, prec, x, p, minPrec, st)
  }

  /** One pass of the outer loop at level `p >= minPrec`, then the remaining levels. */
  function LevelsStep(src: Stream, prec: Precedences, x: Expr, p: int, minPrec: int, st: PState): (r: Parsed<Expr>)
    requires Loaded(src, st) && minPrec >= 1 && p >= minPrec && Prec(prec, Tok(src, st)) <= p
    ensures r.Done? ==> Step(src, st, r.st) && Prec(prec, Tok(src, r.st)) < minPrec
    decreases Remaining(src, st), 5, 2 * LevelRank(p, minPrec)
  {
    var d :- Run(src, prec, x, p, st);
    Levels(src, prec, d.0, p - 1, minPrec, d.1)
  }

  /**
   * The inner loop of `parseBinaryExpr`: while the operator has level `p`,
   * consume it, parse the right operand with minimum level `p + 1` and
   * fold it in on the right.
   */
  function Run(src: Stream, prec: Precedences, x: Expr, p: int, st: PState): (r: Parsed<Expr>)
    requires Loaded(src, st) && p >= 1 && Prec(prec, Tok(src, st)) <= p
    ensures r.Done? ==> Step(src, st, r.st) && Prec(prec, Tok(src, r.st)) < p
    decreases Remaining(src, st), 4, 0
  {
    var op := Tok(src, st);
    if Prec(prec, op) != p then Done(x, st)
    else
      var st1 := Advance(src, st);
      var y :- BinaryF(src, prec, st1, p + 1);
      Run(src, prec, Binary(op, x, y.0), p, y.1)
  }

  /**
   * `parseUnaryExpr`: prefix `+`, `-`, `!` and `*` operators, then a
   * primary expression. After `+`, `-` or `!`, a scanner error ends the
   * expression with a BadExpr carrying that error.
   */
  function UnaryF(src: Stream, prec: Precedences, st: PState): (r: Parsed<Expr>)
    requires Loaded(src, st)
    ensures r.Done? ==> Step(src, st, r.st) && Progress(src, st, r.st)
    decreases Remaining(src, st), 3, 0
  {
    var t := Tok(src, st);
    if t == Add || t == Sub || t == Not then
      var st1 := Advance(src, st);
      match ScanErr(src, st1.cur)
      case Some(e) => Done(Bad(ScanErrorText(e)), st1)
      case None =>
        var x :- UnaryF(src, prec, st1);
        Done(Unary(t, x.0), x.1)
    else if t == Mul then
      var st1 := Advance(src, st);
      var x :- UnaryF(src, prec, st1);
      Done(Unary(Mul, x.0), x.1)
    else
      PrimaryF(src, prec, st)
  }

  /**
   * `parsePrimaryExpr`: an operand, then at most one call argument list.
   * A selector, index or composite literal is not supported yet and aborts.
   */
  function PrimaryF(src: Stream, prec: Precedences, st: PState): (r: Parsed<Expr>)
    requires Loaded(src, st)
    ensures r.Done? ==> Step(src, st, r.st) && Progress(src, st, r.st)
    decreases Remaining(src, st), 2, 0
  {
    var d :- OperandF(src, prec, st);
    var (x, st1) := d;
    match Tok(src, st1)
    case Period =>
      var st2 := Advance(src, st1);
      Aborted(
        if Tok(src, st2) == Identifier then "TODO parse selector"
        else if Tok(src, st2) == LeftParen then "TODO parse type assertion"
        else "TODO expect selector type assertion")
    case LeftBracket => Aborted("TODO array index")
    case LeftParen =>
      var a :- ArgsF(src, prec, st1);
      Done(Call(x, a.0), a.1)
    case LeftBrace => Aborted("TODO could be composite literal")
    case _ => Done(x, st1)
  }

  /**
   * `parseOperand`: an identifier, a literal, or a parenthesised
   * expression; any other token is skipped and reported.
   */
  function OperandF(src: Stream, prec: Precedences, st: PState): (r: Parsed<Expr>)
    requires Loaded(src, st)
    ensures r.Done? ==> Step(src, st, r.st) && Progress(src, st, r.st)
    decreases Remaining(src, st), 1, 0
  {
    var t := Tok(src, st);
    if t == Identifier then IdentF(src, st)
    else if IsLiteralToken(t) then Done(BasicLiteral(Lit(src, st)), Advance(src, st))
    else if t == LeftParen then
      var st1 := Advance(src, st);
      var d :- ExprF(src, prec, st1);
      Done(Unary(LeftParen, d.0), Expect(src, d.1, RightParen).1)
    else
      var st1 := Advance(src, st);
      Done(Bad(ErrorText(Error(Off(src, st1), ExpectedOperand))), Record(src, st1, ExpectedOperand))
  }

  /** `parseArgs`: `(`, comma-separated expressions, `)`. */
  function ArgsF(src: Stream, prec: Precedences, st: PState): (r: Parsed<seq<Expr>>)
    requires Loaded(src, st)
    ensures r.Done? ==> Step(src, st, r.st)
    decreases Remaining(src, st), 9, 0
  {
    var d :- ArgsLoop(src, prec, Open(src, st), []);
    Done(d.0, Close(src, d.1))
  }

  /** The start of `parseArgs`: expect `(` and move past the token found. */
  function Open(src: Stream, st: PState): (r: PState)
    requires Loaded(src, st)
    ensures Step(src, st, r) && Loaded(src, r)
    ensures Tok(src, st) == LeftParen ==> r == Advance(src, st)
  {
    Advance(src, Expect(src, st, LeftParen).1)
  }

  /** The end of `parseArgs`: expect `)` and move past the token found. */
  function Close(src: Stream, st: PState): (r: PState)
    requires Loaded(src, st)
    ensures Step(src, st, r)
    ensures Tok(src, st) == RightParen ==> r == Advance(src, st)
  {
    Advance(src, Expect(src, st, RightParen).1)
  }

  /**
   * The loop of `parseArgs`: it stops at `)` or when the scanner has no
   * input left, and after an argument followed by `)`.
   */
  function ArgsLoop(src: Stream, prec: Precedences, st: PState, acc: seq<Expr>): (r: Parsed<seq<Expr>>)
    requires Loaded(src, st)
    ensures r.Done? ==> Step(src, st, r.st) && acc <= r.value
    decreases Remaining(src, st), 8, 0
  {
    if Tok(src, st) == RightParen || !More(src, st) then Done(acc, st)
    else
      var d :- ExprF(src, prec, st);
      var (more, st2) := ExpectCommaOr(src, d.1, RightParen, "arguments");
      if !more then Done(acc + [d.0], st2)
      else ArgsLoop(src, prec, Advance(src, st2), acc + [d.0])
  }

  // One-step unfoldings of the loops of `parseBinaryExpr`, which the
  // parser's proofs use one iteration at a time.

  lemma BinaryUnfold(src: Stream, prec: Precedences, st: PState, minPrec: int)
    requires Loaded(src, st) && minPrec >= 1
    ensures var u := UnaryF(src, prec, st);
            && (u.Aborted? ==> BinaryF(src, prec, st, minPrec) == Aborted(u.msg))
            && (u.Done? ==> BinaryF(src, prec, st, minPrec) == Levels(src, prec, u.value, Prec(prec, Tok(src, u.st)), minPrec, u.st))
  {
  }

  lemma LevelsUnfold(src: Stream, prec: Precedences, x: Expr, p: int, minPrec: int, st: PState)
    requires Loaded(src, st) && minPrec >= 1 && p >= minPrec && Prec(prec, Tok(src, st)) <= p
    ensures var d := Run(src, prec, x, p, st);
            && (d.Aborted? ==> Levels(src, prec, x, p, minPrec, st) == Aborted(d.msg))
            && (d.Done? ==> Levels(src, prec, x, p, minPrec, st) == Levels(src, prec, d.value, p - 1, minPrec, d.st))
  {
  }

  lemma RunUnfold(src: Stream, prec: Precedences, x: Expr, p: int, st: PState)
    requires Loaded(src, st) && p >= 1 && Prec(prec, Tok(src, st)) == p
    ensures var d := BinaryF(src, prec, Advance(src, st), p + 1);
            && (d.Aborted? ==> Run(src, prec, x, p, st) == Aborted(d.msg))
            && (d.Done? ==> Run(src, prec, x, p, st) == Run(src, prec, Binary(Tok(src, st), x, d.value), p, d.st))
  {
  }

  /** What ParseExpr returns: an expression (nil when the first scan fails) and an error. */
  datatype Outcome = Outcome(expr: Option<Expr>, err: Option<Failure>)

  /**
   * `ParseExpr`: scan the first token (without skipping comments), parse
   * one expression, then report the recorded errors if there are any, or
   * else the scanner's error unless it is plain end of input.
   */
  function ParseSource(src: Stream, prec: Precedences): (r: Res<Outcome>)
    // No first token: no expression, and plain end of input becomes "unexpected EOF".
    ensures |src.toks| == 0 ==>
      r == Ok(Outcome(None, Some(if src.tail == EOF then UnexpectedEOF else Scan(src.tail))))
    // Otherwise there is always an expression, unless the parser panicked.
    ensures |src.toks| > 0 ==>
      (r.Panic? <==> ExprF(src, prec, PState(1, [])).Aborted?)
      && (r.Ok? ==> r.value.expr.Some? && r.value.err != Some(UnexpectedEOF) && r.value.err != Some(Scan(EOF)))
    // Recorded errors are reported in full, and take precedence over a lexing error.
    ensures |src.toks| > 0 && r.Ok? ==>
      var st := ExprF(src, prec, PState(1, [])).st;
      && (|st.errs| > 0 <==> r.value.err == Some(Errs(st.errs)))
      && (r.value.err.Some? && r.value.err.value.Scan? ==> st.errs == [] && st.cur > |src.toks|)
    // In full: the parsed expression, then the recorded errors, else a lexing
    // error met by the parse, else no error at all.
    ensures |src.toks| > 0 && r.Ok? ==>
      var d := ExprF(src, prec, PState(1, []));
      && r.value.expr == Some(d.value)
      && (d.st.errs == [] && d.st.cur > |src.toks| && src.tail.LexError? ==> r.value.err == Some(Scan(src.tail)))
      && (d.st.errs == [] && (d.st.cur <= |src.toks| || src.tail == EOF) ==> r.value.err == None)
  {
    if |src.toks| == 0 then
      Ok(Outcome(None, Some(if src.tail == EOF then UnexpectedEOF else Scan(src.tail))))
    else
      match ExprF(src, prec, PState(1, []))
      case Aborted(m) => Panic(m)
      case Done(x, st) =>
        if |st.errs| > 0 then Ok(Outcome(Some(x), Some(Errs(st.errs))))
        else
          match ScanErr(src, st.cur)
          case Some(LexError(m)) => Ok(Outcome(Some(x), Some(Scan(LexError(m)))))
          case _ => Ok(Outcome(Some(x), None))
  }
}
