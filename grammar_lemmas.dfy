/**
 * Properties of the parser specification: left associativity, precedence
 * levels, error recovery, and which error ParseExpr reports.
 */
module GrammarLemmas {
  import opened Outcomes
  import opened Tokens
  import opened Exprs
  import opened Scanning
  import opened ParseErrors
  import opened Grammar

  // ---------------------------------------------------------------------
  // Left associativity

  /** The m-th operand of a chain `a op b op c ...`, at token index 2m. */
  function OperandAt(src: Stream, m: nat): Lexeme
    requires 2 * m < |src.toks|
  {
    src.toks[2 * m]
  }

  /** The m-th operator of a chain (m >= 1), at token index 2m - 1. */
  function OperatorAt(src: Stream, m: nat): Token
    requires 1 <= m && 2 * m <= |src.toks|
  {
    src.toks[2 * m - 1].tok
  }

  /** The identifier the parser builds from an operand. */
  function IdentOf(l: Lexeme): Expr {
    Ident(match l.lit case TextValue(s) => s case _ => "")
  }

  /** n binary operators between n + 1 identifiers, and nothing else. */
  ghost predicate Operands(src: Stream, n: nat) {
    && |src.toks| == 2 * n + 1
    && (forall m :: 0 <= m <= n ==> OperandAt(src, m).tok == Identifier && OperandAt(src, m).lit.TextValue?)
    && (forall m :: 1 <= m <= n ==> OperatorAt(src, m).IsBinaryOperator())
  }

  /** A chain: every operator has the same precedence k. */
  ghost predicate IsChain(src: Stream, prec: Precedences, k: nat, n: nat) {
    Operands(src, n) && forall m :: 1 <= m <= n ==> Prec(prec, OperatorAt(src, m)) == k
  }

  /** The left-nested tree of the first j operators of a chain, in source order. */
  function FoldLeft(src: Stream, j: nat): Expr
    requires 2 * j < |src.toks|
  {
    if j == 0 then IdentOf(OperandAt(src, 0))
    else Binary(OperatorAt(src, j), FoldLeft(src, j - 1), IdentOf(OperandAt(src, j)))
  }

  /** The token after the m-th operand is the next operator, or the end of input after the last one. */
  lemma AfterOperand(src: Stream, n: nat, m: nat)
    requires Operands(src, n) && m <= n
    ensures Tok(src, PState(2 * (m + 1), [])) == if m < n then OperatorAt(src, m + 1) else Eof
    ensures m < n ==> Tok(src, PState(2 * (m + 1), [])).IsBinaryOperator()
  {
    if m < n {
      assert CurLexeme(src, 2 * m + 2).tok == OperatorAt(src, m + 1);
    }
  }

  /** On the m-th operator, Next moves straight to the m-th operand. */
  lemma OperatorAdvance(src: Stream, prec: Precedences, n: nat, m: nat)
    requires Operands(src, n) && 1 <= m <= n
    ensures Tok(src, PState(2 * m, [])) == OperatorAt(src, m)
    ensures Advance(src, PState(2 * m, [])) == PState(2 * m + 1, [])
  {
    assert CurLexeme(src, 2 * m + 1) == OperandAt(src, m);
  }

  /** An identifier operand parses as a unary expression and consumes exactly itself. */
  lemma OperandUnary(src: Stream, prec: Precedences, n: nat, m: nat)
    requires Operands(src, n) && m <= n
    ensures UnaryF(src, prec, PState(2 * m + 1, [])) == Done(IdentOf(OperandAt(src, m)), PState(2 * (m + 1), []))
  {
    var st := PState(2 * m + 1, []);
    assert CurLexeme(src, 2 * m + 1) == OperandAt(src, m);
    AfterOperand(src, n, m);
    assert Advance(src, st) == PState(2 * (m + 1), []);
    assert OperandF(src, prec, st) == Done(IdentOf(OperandAt(src, m)), PState(2 * (m + 1), []));
  }

  /** An operand followed by an operator looser than minPrec is a whole binary expression by itself. */
  lemma OperandAlone(src: Stream, prec: Precedences, n: nat, m: nat, minPrec: int)
    requires Operands(src, n) && m <= n && minPrec >= 1
    requires Prec(prec, Tok(src, PState(2 * (m + 1), []))) < minPrec
    ensures BinaryF(src, prec, PState(2 * m + 1, []), minPrec) == Done(IdentOf(OperandAt(src, m)), PState(2 * (m + 1), []))
  {
    OperandUnary(src, prec, n, m);
  }

  /** One pass of the inner loop: the operator, then a right operand that binds tighter than it. */
  lemma RunStep(src: Stream, prec: Precedences, x: Expr, p: int, st: PState, y: Expr, st2: PState)
    requires Loaded(src, st) && p >= 1 && Prec(prec, Tok(src, st)) == p
    requires BinaryF(src, prec, Advance(src, st), p + 1) == Done(y, st2)
    ensures Loaded(src, st2) && Prec(prec, Tok(src, st2)) <= p
    ensures Run(src, prec, x, p, st) == Run(src, prec, Binary(Tok(src, st), x, y), p, st2)
  {
  }

  /** After i folded operands the parser sits on operator i + 1, and Next moves to operand i + 1. */
  lemma ChainTokens(src: Stream, prec: Precedences, k: nat, n: nat, i: nat)
    requires IsChain(src, prec, k, n) && i < n
    ensures Tok(src, PState(2 * (i + 1), [])) == OperatorAt(src, i + 1)
    ensures Prec(prec, OperatorAt(src, i + 1)) == k
    ensures Advance(src, PState(2 * (i + 1), [])) == PState(2 * (i + 1) + 1, [])
    ensures Prec(prec, Tok(src, PState(2 * ((i + 1) + 1), []))) <= k
  {
    OperatorAdvance(src, prec, n, i + 1);
    AfterOperand(src, n, i + 1);
    if i + 1 < n {
      assert Prec(prec, OperatorAt(src, i + 2)) == k;
    }
  }

  /** An operand followed by nothing tighter than level k stands alone at level k + 1. */
  lemma ChainOperand(src: Stream, prec: Precedences, k: nat, n: nat, i: nat)
    requires Operands(src, n) && i < n
    requires Prec(prec, Tok(src, PState(2 * ((i + 1) + 1), []))) <= k
    ensures BinaryF(src, prec, PState(2 * (i + 1) + 1, []), k + 1)
         == Done(IdentOf(OperandAt(src, i + 1)), PState(2 * ((i + 1) + 1), []))
  {
    OperandAlone(src, prec, n, i + 1, k + 1);
  }

  /** One pass of the inner loop after i folded operands: it folds in operand i + 1. */
  lemma ChainRunStep(src: Stream, prec: Precedences, k: nat, n: nat, i: nat)
    requires k >= 1 && IsChain(src, prec, k, n) && i < n
    requires Prec(prec, Tok(src, PState(2 * (i + 1), []))) <= k
    ensures Prec(prec, Tok(src, PState(2 * ((i + 1) + 1), []))) <= k
    ensures Run(src, prec, FoldLeft(src, i), k, PState(2 * (i + 1), []))
         == Run(src, prec, FoldLeft(src, i + 1), k, PState(2 * ((i + 1) + 1), []))
  {
    ChainTokens(src, prec, k, n, i);
    ChainOperand(src, prec, k, n, i);
    assert FoldLeft(src, i + 1) == Binary(OperatorAt(src, i + 1), FoldLeft(src, i), IdentOf(OperandAt(src, i + 1)));
    RunStep(src, prec, FoldLeft(src, i), k, PState(2 * (i + 1), []),
            IdentOf(OperandAt(src, i + 1)), PState(2 * ((i + 1) + 1), []));
  }

  /** After the last operand the inner loop stops at the end of input. */
  lemma ChainEnd(src: Stream, prec: Precedences, k: nat, n: nat)
    requires k >= 1 && IsChain(src, prec, k, n)
    ensures Run(src, prec, FoldLeft(src, n), k, PState(2 * (n + 1), []))
         == Done(FoldLeft(src, n), PState(2 * (n + 1), []))
  {
    assert Tok(src, PState(2 * (n + 1), [])) == Eof;
  }

  /** After i folded operands, the inner loop folds every remaining operand in on the right. */
  lemma {:induction false} ChainRun(src: Stream, prec: Precedences, k: nat, n: nat, i: nat)
    requires k >= 1 && IsChain(src, prec, k, n) && i <= n
    requires Prec(prec, Tok(src, PState(2 * (i + 1), []))) <= k
    ensures Run(src, prec, FoldLeft(src, i), k, PState(2 * (i + 1), []))
         == Done(FoldLeft(src, n), PState(2 * (n + 1), []))
    decreases n - i, 1
  {
    if i == n {
      ChainEnd(src, prec, k, n);
    } else {
      ChainRunMore(src, prec, k, n, i);
    }
  }

  /** ChainRun when an operator is left: one step, then the rest. */
  lemma {:induction false} ChainRunMore(src: Stream, prec: Precedences, k: nat, n: nat, i: nat)
    requires k >= 1 && IsChain(src, prec, k, n) && i < n
    requires Prec(prec, Tok(src, PState(2 * (i + 1), []))) <= k
    ensures Run(src, prec, FoldLeft(src, i), k, PState(2 * (i + 1), []))
         == Done(FoldLeft(src, n), PState(2 * (n + 1), []))
    decreases n - i, 0
  {
    ChainRunStep(src, prec, k, n, i);
    var next := i + 1;
    ChainRun(src, prec, k, n, next);
  }

  /**
   * Levels above the current operator's precedence pass without consuming
   * anything: the outer loop may as well start at any level q between.
   */
  lemma {:induction false} LevelsDescend(src: Stream, prec: Precedences, x: Expr, p: int, q: int, minPrec: int, st: PState)
    requires Loaded(src, st) && minPrec >= 1
    requires Prec(prec, Tok(src, st)) <= q <= p && q >= minPrec - 1
    ensures Levels(src, prec, x, p, minPrec, st) == Levels(src, prec, x, q, minPrec, st)
    decreases p - q
  {
    if p > q {
      assert Run(src, prec, x, p, st) == Done(x, st);
      LevelsDescend(src, prec, x, p - 1, q, minPrec, st);
    }
  }

  /** From the first operator on, the outer loop runs level k once and then idles down to level 1. */
  lemma ChainLevels(src: Stream, prec: Precedences, k: nat, n: nat)
    requires k >= 1 && IsChain(src, prec, k, n) && n >= 1
    ensures Prec(prec, Tok(src, PState(2, []))) == k
    ensures Levels(src, prec, FoldLeft(src, 0), k, 1, PState(2, [])) == Done(FoldLeft(src, n), PState(2 * (n + 1), []))
  {
    ChainTokens(src, prec, k, n, 0);
    ChainRun(src, prec, k, n, 0);
    var end := PState(2 * (n + 1), []);
    ChainEnd(src, prec, k, n);
    assert Tok(src, end) == Eof;
    LevelsDescend(src, prec, FoldLeft(src, n), k - 1, 0, 1, end);
  }

  /**
   * Operators of equal precedence build a left-nested Binary chain in
   * source order: `a - b - c` is `(a - b) - c`, and nothing is reported.
   */
  lemma LeftAssociative(src: Stream, prec: Precedences, k: nat, n: nat)
    requires k >= 1 && IsChain(src, prec, k, n)
    ensures ExprF(src, prec, PState(1, [])) == Done(FoldLeft(src, n), PState(2 * (n + 1), []))
  {
    OperandUnary(src, prec, n, 0);
    var st := PState(2, []);
    AfterOperand(src, n, 0);
    assert BinaryF(src, prec, PState(1, []), 1)
        == Levels(src, prec, FoldLeft(src, 0), Prec(prec, Tok(src, st)), 1, st);
    if n == 0 {
      assert Tok(src, st) == Eof;
    } else {
      ChainLevels(src, prec, k, n);
    }
  }

  // ---------------------------------------------------------------------
  // Steps of parseBinaryExpr

  /** parseBinaryExpr starts the outer loop at the precedence of the token after the unary expression. */
  lemma BinaryAfterUnary(src: Stream, prec: Precedences, st: PState, minPrec: int, x: Expr, s: PState)
    requires Loaded(src, st) && minPrec >= 1
    requires UnaryF(src, prec, st) == Done(x, s)
    ensures Loaded(src, s)
    ensures BinaryF(src, prec, st, minPrec) == Levels(src, prec, x, Prec(prec, Tok(src, s)), minPrec, s)
  {
  }

  /** One level of the outer loop: the inner loop at that level, then the levels below. */
  lemma LevelsAfterRun(src: Stream, prec: Precedences, x: Expr, p: int, minPrec: int, st: PState, y: Expr, s: PState)
    requires Loaded(src, st) && minPrec >= 1 && p >= minPrec && Prec(prec, Tok(src, st)) <= p
    requires Run(src, prec, x, p, st) == Done(y, s)
    ensures Loaded(src, s) && Prec(prec, Tok(src, s)) <= p - 1
    ensures Levels(src, prec, x, p, minPrec, st) == Levels(src, prec, y, p - 1, minPrec, s)
  {
  }

  /** At the end of input every remaining level passes. */
  lemma LevelsAtEnd(src: Stream, prec: Precedences, x: Expr, q: int, minPrec: int, s: PState)
    requires Loaded(src, s) && minPrec >= 1 && Tok(src, s) == Eof && q >= minPrec - 1
    ensures Levels(src, prec, x, q, minPrec, s) == Done(x, s)
  {
    LevelsDescend(src, prec, x, q, minPrec - 1, minPrec, s);
  }

  /**
   * Without an operator of level minPrec or above after it, the unary
   * expression is the whole result, and the operator is left unconsumed.
   */
  lemma UnaryAlone(src: Stream, prec: Precedences, st: PState, minPrec: int, x: Expr, s: PState)
    requires Loaded(src, st) && minPrec >= 1
    requires UnaryF(src, prec, st) == Done(x, s) && Prec(prec, Tok(src, s)) < minPrec
    ensures BinaryF(src, prec, st, minPrec) == Done(x, s)
  {
    BinaryAfterUnary(src, prec, st, minPrec, x, s);
  }

  // ---------------------------------------------------------------------
  // Precedence: `a op1 b op2 c`

  /** In `a op1 b op2 c`, the run at op2's level from op2 on folds c in after any x. */
  lemma LastRun(src: Stream, prec: Precedences, x: Expr)
    requires Operands(src, 2) && Prec(prec, OperatorAt(src, 2)) >= 1
    ensures Prec(prec, Tok(src, PState(4, []))) == Prec(prec, OperatorAt(src, 2)) && Tok(src, PState(6, [])) == Eof
    ensures Run(src, prec, x, Prec(prec, OperatorAt(src, 2)), PState(4, []))
         == Done(Binary(OperatorAt(src, 2), x, IdentOf(OperandAt(src, 2))), PState(6, []))
  {
    var p2 := Prec(prec, OperatorAt(src, 2));
    OperatorAdvance(src, prec, 2, 2);
    AfterOperand(src, 2, 2);
    assert Tok(src, PState(6, [])) == Eof;
    OperandAlone(src, prec, 2, 2, p2 + 1);
    RunStep(src, prec, x, p2, PState(4, []), IdentOf(OperandAt(src, 2)), PState(6, []));
  }

  /** In `a op1 b op2 c`, the unary expression `b` is followed by op2, which opens the outer loop. */
  lemma RightOperandStart(src: Stream, prec: Precedences, minPrec: int)
    requires Operands(src, 2) && minPrec >= 1
    ensures Loaded(src, PState(4, [])) && Prec(prec, Tok(src, PState(4, []))) == Prec(prec, OperatorAt(src, 2))
    ensures BinaryF(src, prec, PState(3, []), minPrec)
         == Levels(src, prec, IdentOf(OperandAt(src, 1)), Prec(prec, OperatorAt(src, 2)), minPrec, PState(4, []))
  {
    OperandUnary(src, prec, 2, 1);
    OperatorAdvance(src, prec, 2, 2);
    BinaryAfterUnary(src, prec, PState(3, []), minPrec, IdentOf(OperandAt(src, 1)), PState(4, []));
  }

  /** From op2 on, with op2 tighter than minPrec, the outer loop folds c in after x and stops at the end. */
  lemma LastLevels(src: Stream, prec: Precedences, x: Expr, minPrec: int)
    requires Operands(src, 2) && 1 <= minPrec <= Prec(prec, OperatorAt(src, 2))
    requires Loaded(src, PState(4, [])) && Prec(prec, Tok(src, PState(4, []))) == Prec(prec, OperatorAt(src, 2))
    ensures Levels(src, prec, x, Prec(prec, OperatorAt(src, 2)), minPrec, PState(4, []))
         == Done(Binary(OperatorAt(src, 2), x, IdentOf(OperandAt(src, 2))), PState(6, []))
  {
    var p2 := Prec(prec, OperatorAt(src, 2));
    var xc := Binary(OperatorAt(src, 2), x, IdentOf(OperandAt(src, 2)));
    LastRun(src, prec, x);
    LevelsAfterRun(src, prec, x, p2, minPrec, PState(4, []), xc, PState(6, []));
    LevelsAtEnd(src, prec, xc, p2 - 1, minPrec, PState(6, []));
  }

  /** With op2 tighter than op1, the right operand of op1 is all of `b op2 c`. */
  lemma TighterRightOperand(src: Stream, prec: Precedences)
    requires Operands(src, 2)
    requires 1 <= Prec(prec, OperatorAt(src, 1)) < Prec(prec, OperatorAt(src, 2))
    ensures BinaryF(src, prec, PState(3, []), Prec(prec, OperatorAt(src, 1)) + 1)
         == Done(Binary(OperatorAt(src, 2), IdentOf(OperandAt(src, 1)), IdentOf(OperandAt(src, 2))), PState(6, []))
  {
    RightOperandStart(src, prec, Prec(prec, OperatorAt(src, 1)) + 1);
    LastLevels(src, prec, IdentOf(OperandAt(src, 1)), Prec(prec, OperatorAt(src, 1)) + 1);
  }

  /** A tighter operator on the right binds first: `a + b * c` is `a + (b * c)`. */
  lemma TighterRight(src: Stream, prec: Precedences)
    requires Operands(src, 2)
    requires 1 <= Prec(prec, OperatorAt(src, 1)) < Prec(prec, OperatorAt(src, 2))
    ensures ExprF(src, prec, PState(1, []))
         == Done(Binary(OperatorAt(src, 1), IdentOf(OperandAt(src, 0)),
                        Binary(OperatorAt(src, 2), IdentOf(OperandAt(src, 1)), IdentOf(OperandAt(src, 2)))),
                 PState(6, []))
  {
    var p1 := Prec(prec, OperatorAt(src, 1));
    var a := IdentOf(OperandAt(src, 0));
    var bc := Binary(OperatorAt(src, 2), IdentOf(OperandAt(src, 1)), IdentOf(OperandAt(src, 2)));
    var abc := Binary(OperatorAt(src, 1), a, bc);
    var st2, st6 := PState(2, []), PState(6, []);
    OperandUnary(src, prec, 2, 0);
    OperatorAdvance(src, prec, 2, 1);
    BinaryAfterUnary(src, prec, PState(1, []), 1, a, st2);
    TighterRightOperand(src, prec);
    RunStep(src, prec, a, p1, st2, bc, st6);
    AfterOperand(src, 2, 2);
    assert Run(src, prec, abc, p1, st6) == Done(abc, st6);
    LevelsAfterRun(src, prec, a, p1, 1, st2, abc, st6);
    LevelsAtEnd(src, prec, abc, p1 - 1, 1, st6);
  }

  /** When op2 is strictly looser than op1 (level p), the levels below p pick up `op2 c` after x. */
  lemma LooserLevels(src: Stream, prec: Precedences, x: Expr, p: int)
    requires Operands(src, 2)
    requires p > Prec(prec, OperatorAt(src, 2)) >= 1
    ensures Levels(src, prec, x, p - 1, 1, PState(4, []))
         == Done(Binary(OperatorAt(src, 2), x, IdentOf(OperandAt(src, 2))), PState(6, []))
  {
    var p2 := Prec(prec, OperatorAt(src, 2));
    var st4, st6 := PState(4, []), PState(6, []);
    var xc := Binary(OperatorAt(src, 2), x, IdentOf(OperandAt(src, 2)));
    LastRun(src, prec, x);
    LevelsDescend(src, prec, x, p - 1, p2, 1, st4);
    assert Tok(src, st6) == Eof;
    assert Levels(src, prec, x, p2, 1, st4) == Levels(src, prec, xc, p2 - 1, 1, st6);
    LevelsDescend(src, prec, xc, p2 - 1, 0, 1, st6);
  }

  /** In `a op1 b ...`, parseExpr starts the outer loop at op1's level after the operand `a`. */
  lemma FirstOperand(src: Stream, prec: Precedences)
    requires Operands(src, 2)
    ensures Loaded(src, PState(2, [])) && Prec(prec, Tok(src, PState(2, []))) == Prec(prec, OperatorAt(src, 1))
    ensures ExprF(src, prec, PState(1, [])) == Levels(src, prec, IdentOf(OperandAt(src, 0)), Prec(prec, OperatorAt(src, 1)), 1, PState(2, []))
  {
    OperandUnary(src, prec, 2, 0);
    BinaryAfterUnary(src, prec, PState(1, []), 1, IdentOf(OperandAt(src, 0)), PState(2, []));
    OperatorAdvance(src, prec, 2, 1);
  }

  /** With op2 strictly looser than op1, the run at op1's level folds in just `b` and stops at op2. */
  lemma LooserFirstRun(src: Stream, prec: Precedences)
    requires Operands(src, 2)
    requires Prec(prec, OperatorAt(src, 1)) > Prec(prec, OperatorAt(src, 2)) >= 1
    ensures Prec(prec, Tok(src, PState(2, []))) == Prec(prec, OperatorAt(src, 1))
    ensures Run(src, prec, IdentOf(OperandAt(src, 0)), Prec(prec, OperatorAt(src, 1)), PState(2, []))
         == Done(Binary(OperatorAt(src, 1), IdentOf(OperandAt(src, 0)), IdentOf(OperandAt(src, 1))), PState(4, []))
  {
    var p1 := Prec(prec, OperatorAt(src, 1));
    var a, b := IdentOf(OperandAt(src, 0)), IdentOf(OperandAt(src, 1));
    OperatorAdvance(src, prec, 2, 1);
    LastRun(src, prec, Binary(OperatorAt(src, 1), a, b));
    OperandAlone(src, prec, 2, 1, p1 + 1);
    RunStep(src, prec, a, p1, PState(2, []), b, PState(4, []));
  }

  /** A strictly looser operator on the right binds last. */
  lemma StrictlyLooserRight(src: Stream, prec: Precedences)
    requires Operands(src, 2)
    requires Prec(prec, OperatorAt(src, 1)) > Prec(prec, OperatorAt(src, 2)) >= 1
    ensures ExprF(src, prec, PState(1, []))
         == Done(Binary(OperatorAt(src, 2), Binary(OperatorAt(src, 1), IdentOf(OperandAt(src, 0)), IdentOf(OperandAt(src, 1))),
                        IdentOf(OperandAt(src, 2))),
                 PState(6, []))
  {
    var p1 := Prec(prec, OperatorAt(src, 1));
    var a, b := IdentOf(OperandAt(src, 0)), IdentOf(OperandAt(src, 1));
    var ab := Binary(OperatorAt(src, 1), a, b);
    FirstOperand(src, prec);
    LooserFirstRun(src, prec);
    LevelsAfterRun(src, prec, a, p1, 1, PState(2, []), ab, PState(4, []));
    LooserLevels(src, prec, ab, p1);
  }

  /**
   * A looser or equal operator on the right binds last: `a * b + c` is
   * `(a * b) + c`. With TighterRight this decides every two-operator case.
   */
  lemma LooserRight(src: Stream, prec: Precedences)
    requires Operands(src, 2)
    requires Prec(prec, OperatorAt(src, 1)) >= Prec(prec, OperatorAt(src, 2)) >= 1
    ensures ExprF(src, prec, PState(1, []))
         == Done(Binary(OperatorAt(src, 2), Binary(OperatorAt(src, 1), IdentOf(OperandAt(src, 0)), IdentOf(OperandAt(src, 1))),
                        IdentOf(OperandAt(src, 2))),
                 PState(6, []))
  {
    var p1 := Prec(prec, OperatorAt(src, 1));
    if p1 == Prec(prec, OperatorAt(src, 2)) {
      assert IsChain(src, prec, p1, 2);
      LeftAssociative(src, prec, p1, 2);
      assert FoldLeft(src, 1) == Binary(OperatorAt(src, 1), IdentOf(OperandAt(src, 0)), IdentOf(OperandAt(src, 1)));
      assert FoldLeft(src, 2) == Binary(OperatorAt(src, 2), FoldLeft(src, 1), IdentOf(OperandAt(src, 2)));
    } else {
      StrictlyLooserRight(src, prec);
    }
  }
}
