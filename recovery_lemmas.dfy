/**
 * How the parser specification behaves on unexpected input: which tokens
 * are skipped, which errors are recorded and where, what ends an
 * expression early, and what ParseExpr finally reports.
 */
module RecoveryLemmas {
  import opened Outcomes
  import opened Tokens
  import opened Exprs
  import opened Scanning
  import opened ParseErrors
  import opened Grammar
  import opened GrammarLemmas

  // ---------------------------------------------------------------------
  // Unary operators at the end of input

  /**
   * `+`, `-` or `!` as the last token: after it the scanner reports its
   * end-of-input error, and the expression is a BadExpr carrying that
   * error; nothing is recorded.
   */
  lemma PrefixAtEnd(src: Stream, prec: Precedences, st: PState)
    requires |src.toks| >= 1 && st.cur == |src.toks|
    requires Tok(src, st) == Add || Tok(src, st) == Sub || Tok(src, st) == Not
    ensures UnaryF(src, prec, st) == Done(Bad(ScanErrorText(src.tail)), PState(|src.toks| + 1, st.errs))
  {
    assert Advance(src, st) == PState(|src.toks| + 1, st.errs);
  }

  /** At the end of input the missing operand is a BadExpr, reported once at the end offset. */
  lemma OperandMissingAtEnd(src: Stream, prec: Precedences, st: PState)
    requires st.cur == |src.toks| + 1
    ensures UnaryF(src, prec, st)
         == Done(Bad(ErrorText(Error(src.endOffset, ExpectedOperand))),
                 PState(|src.toks| + 1, st.errs + [Error(src.endOffset, ExpectedOperand)]))
  {
    assert Advance(src, st) == st;
    var rec := PState(|src.toks| + 1, st.errs + [Error(src.endOffset, ExpectedOperand)]);
    assert OperandF(src, prec, st) == Done(Bad(ErrorText(Error(src.endOffset, ExpectedOperand))), rec);
    assert Tok(src, rec) == Eof;
  }

  /**
   * `*` as the last token has no such check: its operand is the missing
   * one, reported as "expected operand" at the end offset.
   */
  lemma StarAtEnd(src: Stream, prec: Precedences, st: PState)
    requires |src.toks| >= 1 && st.cur == |src.toks| && Tok(src, st) == Mul
    ensures UnaryF(src, prec, st)
         == Done(Unary(Mul, Bad(ErrorText(Error(src.endOffset, ExpectedOperand)))),
                 PState(|src.toks| + 1, st.errs + [Error(src.endOffset, ExpectedOperand)]))
  {
    var end := PState(|src.toks| + 1, st.errs);
    assert Advance(src, st) == end;
    OperandMissingAtEnd(src, prec, end);
  }

  // ---------------------------------------------------------------------
  // Operands

  /**
   * A token that cannot start an operand is skipped, and exactly one
   * "expected operand" error is appended, at the offset of the token
   * after the skipped one; the expression is a BadExpr with that error.
   */
  lemma UnexpectedOperand(src: Stream, prec: Precedences, st: PState)
    requires Loaded(src, st)
    requires Tok(src, st) != Identifier && !IsLiteralToken(Tok(src, st)) && Tok(src, st) != LeftParen
    ensures var next := Advance(src, st);
            var e := Error(Off(src, next), ExpectedOperand);
            OperandF(src, prec, st) == Done(Bad(ErrorText(e)), PState(next.cur, st.errs + [e]))
  {
  }

  /**
   * A parenthesised operand: the inner expression wrapped in a `(`
   * UnaryExpr. The closing token is checked but not consumed, and a
   * missing `)` is recorded as one error at the token found instead.
   */
  lemma ParenOperand(src: Stream, prec: Precedences, st: PState, e: Expr, inner: PState)
    requires Loaded(src, st) && Tok(src, st) == LeftParen
    requires ExprF(src, prec, Advance(src, st)) == Done(e, inner)
    ensures OperandF(src, prec, st).Done?
    ensures OperandF(src, prec, st).value == Unary(LeftParen, e)
    ensures OperandF(src, prec, st).st.cur == inner.cur
    ensures Tok(src, inner) == RightParen ==> OperandF(src, prec, st).st.errs == inner.errs
    ensures Tok(src, inner) != RightParen ==>
      OperandF(src, prec, st).st.errs == inner.errs + [Error(Off(src, inner), ExpectMessage(RightParen, Tok(src, inner)))]
  {
  }

  /**
   * Because the `)` stays the current token, a parenthesised expression at
   * the start ends the whole expression there: whatever follows the `)`
   * is never read, and nothing is recorded about it.
   */
  lemma ParenEndsExpression(src: Stream, prec: Precedences, st: PState, e: Expr, inner: PState)
    requires Loaded(src, st) && Tok(src, st) == LeftParen
    requires ExprF(src, prec, Advance(src, st)) == Done(e, inner) && Tok(src, inner) == RightParen
    ensures ExprF(src, prec, st) == Done(Unary(LeftParen, e), inner)
  {
    ParenOperand(src, prec, st, e, inner);
    assert PrimaryF(src, prec, st) == Done(Unary(LeftParen, e), inner);
    assert BinaryF(src, prec, st, 1) == Levels(src, prec, Unary(LeftParen, e), 0, 1, inner);
  }

  // ---------------------------------------------------------------------
  // Call arguments

  /** The argument loop stops only at `)` or where the scanner has no input left. */
  lemma {:induction false} ArgsLoopStops(src: Stream, prec: Precedences, st: PState, acc: seq<Expr>)
    requires Loaded(src, st) && ArgsLoop(src, prec, st, acc).Done?
    ensures Tok(src, ArgsLoop(src, prec, st, acc).st) == RightParen || !More(src, ArgsLoop(src, prec, st, acc).st)
    decreases Remaining(src, st)
  {
    if Tok(src, st) != RightParen && More(src, st) {
      var d := ExprF(src, prec, st);
      var (more, st2) := ExpectCommaOr(src, d.st, RightParen, "arguments");
      if more {
        ArgsLoopStops(src, prec, Advance(src, st2), acc + [d.value]);
      }
    }
  }

  /**
   * `parseArgs` closes the list: at `)` it moves past it with nothing
   * recorded; otherwise the input has run out and exactly one "expected
   * ')'" error is appended at the token found.
   */
  lemma ArgsClose(src: Stream, prec: Precedences, st: PState, args: seq<Expr>, s: PState)
    requires Loaded(src, st) && Tok(src, st) == LeftParen
    requires ArgsLoop(src, prec, Advance(src, st), []) == Done(args, s)
    ensures ArgsF(src, prec, st).Done? && ArgsF(src, prec, st).value == args
    ensures Tok(src, s) == RightParen ==> ArgsF(src, prec, st).st == Advance(src, s)
    ensures Tok(src, s) != RightParen ==>
      && !More(src, s)
      && ArgsF(src, prec, st).st.errs == s.errs + [Error(Off(src, s), ExpectMessage(RightParen, Tok(src, s)))]
  {
    ArgsLoopStops(src, prec, Advance(src, st), []);
  }

  // ---------------------------------------------------------------------
  // Primary expressions

  /** The tokens after an operand that `parsePrimaryExpr` does not support yet. */
  predicate Unsupported(t: Token) {
    t == Period || t == LeftBracket || t == LeftBrace
  }

  /**
   * A primary expression is the operand alone, or the operand called once
   * with an argument list; a selector, index or composite literal aborts.
   */
  lemma PrimaryCases(src: Stream, prec: Precedences, st: PState)
    requires Loaded(src, st)
    ensures OperandF(src, prec, st).Aborted? ==> PrimaryF(src, prec, st).Aborted?
    ensures OperandF(src, prec, st).Done? ==>
      var x, s1 := OperandF(src, prec, st).value, OperandF(src, prec, st).st;
      && (Unsupported(Tok(src, s1)) ==> PrimaryF(src, prec, st).Aborted?)
      && (Tok(src, s1) == LeftParen ==>
            PrimaryF(src, prec, st) == (match ArgsF(src, prec, s1)
                                        case Done(a, s2) => Done(Call(x, a), s2)
                                        case Aborted(m) => Aborted(m)))
      && (!Unsupported(Tok(src, s1)) && Tok(src, s1) != LeftParen ==> PrimaryF(src, prec, st) == Done(x, s1))
  {
  }

  // ---------------------------------------------------------------------
  // Whole inputs

  /** An identifier directly followed by `,` or `)` is a whole argument by itself. */
  lemma IdentArg(src: Stream, prec: Precedences, st: PState)
    requires 1 <= st.cur < |src.toks|
    requires Tok(src, st) == Identifier && Lit(src, st).TextValue?
    requires src.toks[st.cur].tok == Comma || src.toks[st.cur].tok == RightParen
    ensures ExprF(src, prec, st) == Done(Ident(Lit(src, st).s), PState(st.cur + 1, st.errs))
  {
    var next := PState(st.cur + 1, st.errs);
    assert CurLexeme(src, st.cur + 1) == src.toks[st.cur];
    assert Advance(src, st) == next;
    var x := Ident(Lit(src, st).s);
    assert OperandF(src, prec, st) == IdentF(src, st) == Done(x, next);
    assert Tok(src, next) == Comma || Tok(src, next) == RightParen;
    assert PrimaryF(src, prec, st) == Done(x, next);
    assert UnaryF(src, prec, st) == Done(x, next);
    UnaryAlone(src, prec, st, 1, Ident(Lit(src, st).s), next);
  }

  /** The six tokens `f ( a , b )`, with input left after each argument. */
  predicate CallOfTwoTokens(src: Stream) {
    && |src.toks| == 6
    && src.toks[0].tok == Identifier && src.toks[1].tok == LeftParen
    && src.toks[2].tok == Identifier && src.toks[3].tok == Comma
    && src.toks[4].tok == Identifier && src.toks[5].tok == RightParen
    && src.toks[0].lit.TextValue? && src.toks[2].lit.TextValue? && src.toks[4].lit.TextValue?
    && src.toks[2].more && src.toks[4].more
  }

  /** The argument loop of `f ( a , b )` collects both identifiers and stops on the `)`. */
  lemma TwoArgs(src: Stream, prec: Precedences)
    requires CallOfTwoTokens(src)
    ensures ArgsLoop(src, prec, PState(3, []), [])
         == Done([Ident(src.toks[2].lit.s), Ident(src.toks[4].lit.s)], PState(6, []))
  {
    var a, b := Ident(src.toks[2].lit.s), Ident(src.toks[4].lit.s);
    IdentArg(src, prec, PState(3, []));
    assert ExpectCommaOr(src, PState(4, []), RightParen, "arguments") == (true, PState(4, []));
    assert Advance(src, PState(4, [])) == PState(5, []);
    assert More(src, PState(3, [])) && [] + [a] == [a];
    assert ArgsLoop(src, prec, PState(3, []), []) == ArgsLoop(src, prec, PState(5, []), [a]);
    IdentArg(src, prec, PState(5, []));
    assert ExpectCommaOr(src, PState(6, []), RightParen, "arguments") == (false, PState(6, []));
    assert ArgsLoop(src, prec, PState(5, []), [a]) == Done([a] + [b], PState(6, []));
    assert [a] + [b] == [a, b];
  }

  /**
   * `f(a, b)` parses as the call of `f` with arguments `a` and `b`: every
   * token is consumed and nothing is recorded, so ParseExpr reports the
   * call with no error, or with the scanner's lexing error if it met one.
   */
  lemma CallOfTwo(src: Stream, prec: Precedences)
    requires CallOfTwoTokens(src)
    ensures var call := Call(Ident(src.toks[0].lit.s), [Ident(src.toks[2].lit.s), Ident(src.toks[4].lit.s)]);
      && ExprF(src, prec, PState(1, [])) == Done(call, PState(7, []))
      && ParseSource(src, prec) == Ok(Outcome(Some(call), if src.tail == EOF then None else Some(Scan(src.tail))))
  {
    var args := [Ident(src.toks[2].lit.s), Ident(src.toks[4].lit.s)];
    var call := Call(Ident(src.toks[0].lit.s), args);
    var st := PState(1, []);
    assert Advance(src, st) == PState(2, []);
    assert OperandF(src, prec, st) == Done(Ident(src.toks[0].lit.s), PState(2, []));
    assert Advance(src, PState(2, [])) == PState(3, []);
    TwoArgs(src, prec);
    ArgsClose(src, prec, PState(2, []), args, PState(6, []));
    assert Advance(src, PState(6, [])) == PState(7, []);
    assert UnaryF(src, prec, st) == Done(call, PState(7, []));
    UnaryAlone(src, prec, st, 1, call, PState(7, []));
  }

  /**
   * A lone token that cannot start an expression: ParseExpr returns a
   * BadExpr and reports exactly one "expected operand" error, at the end
   * of input, where the parser stood after skipping the token.
   */
  lemma StrayToken(src: Stream, prec: Precedences)
    requires |src.toks| == 1
    requires var t := src.toks[0].tok;
      t != Identifier && !IsLiteralToken(t) && t != LeftParen && t != Add && t != Sub && t != Not && t != Mul
    ensures var e := Error(src.endOffset, ExpectedOperand);
      ParseSource(src, prec) == Ok(Outcome(Some(Bad(ErrorText(e))), Some(Errs([e]))))
  {
    var st := PState(1, []);
    var e := Error(src.endOffset, ExpectedOperand);
    var end := PState(2, [e]);
    assert Advance(src, st) == PState(2, []);
    UnexpectedOperand(src, prec, st);
    assert UnaryF(src, prec, st) == Done(Bad(ErrorText(e)), end);
    UnaryAlone(src, prec, st, 1, Bad(ErrorText(e)), end);
  }
}
