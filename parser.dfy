/**
 * The parser itself: an object holding a scanner and a growing error list,
 * whose methods advance the scanner and append errors in place. Each
 * method is proved to produce exactly the result and the new state that
 * its specification function in `Grammar` describes.
 */
module Parsing {
  import opened Outcomes
  import opened Tokens
  import opened Exprs
  import opened Scanning
  import opened ParseErrors
  import opened Grammar

  /** A method's result and new state are the ones its specification gives, panics included. */
  predicate Agrees<T(==)>(r: Res<T>, st: PState, spec: Parsed<T>) {
    match spec
    case Done(v, s) => r == Ok(v) && st == s
    case Aborted(m) => r == Panic(m)
  }

  class Parser {
    const s: Scanner
    const prec: Precedences
    var err: seq<Error>

    /**
     * A token is loaded: the state after the first call of Next, which
     * every parsing method needs. A freshly constructed parser is not yet
     * in it; ParseExpr makes the first call itself.
     */
    ghost predicate Valid()
      reads this, s
    {
      1 <= s.cur <= |s.src.toks| + 1
    }

    function Src(): Stream {
      s.src
    }

    function State(): PState
      reads this, s
    {
      PState(s.cur, err)
    }

    /** `newParser`: a fresh scanner over the source and no errors. */
    constructor (src: Stream, prec: Precedences)
      ensures fresh(s) && s.src == src && s.cur == 0 && s.Valid()
      ensures this.prec == prec && err == []
    {
      s := new Scanner(src);
      this.prec := prec;
      err := [];
    }

    method Next()
      requires Valid()
      modifies s
      ensures Valid()
      ensures State() == Advance(Src(), old(State()))
      decreases Remaining(Src(), State())
    {
      var _ := s.Next();
      if s.Tok() == Comment {
        Next();
      }
    }

    method Error(msg: string) returns (e: ParseErrors.Error)
      requires Valid()
      modifies this
      ensures Valid()
      ensures e == ParseErrors.Error(old(s.Offset()), msg)
      ensures State() == Record(Src(), old(State()), msg)
    {
      e := ParseErrors.Error(s.Offset(), msg);
      err := err + [e];
    }

    method Expect(t: Token) returns (met: bool)
      requires Valid()
      modifies this
      ensures Valid()
      ensures (met, State()) == Grammar.Expect(Src(), old(State()), t)
    {
      met := t == s.Tok();
      if !met {
        var _ := Error(ExpectMessage(t, s.Tok()));
      }
    }

    method ExpectCommaOr(otherwise: Token, msg: string) returns (ok: bool)
      requires Valid() && otherwise != Comma
      modifies this
      ensures Valid()
      ensures (ok, State()) == Grammar.ExpectCommaOr(Src(), old(State()), otherwise, msg)
    {
      if s.Tok() == Comma {
        ok := true;
      } else if s.Tok() != otherwise {
        var _ := Error(MissingComma(msg, s.Tok()));
        ok := true;
      } else {
        ok := false;
      }
    }

    method ParseIdent() returns (r: Res<Expr>)
      requires Valid()
      modifies this, s
      ensures Valid()
      ensures Agrees(r, State(), IdentF(Src(), old(State())))
    {
      var name := "_";
      var met := Expect(Identifier);
      if met {
        match s.Literal()
        case TextValue(v) => name := v;
        case _ => return Panic(ConversionPanic(s.Literal()));
      }
      Next();
      return Ok(Ident(name));
    }

    method ParseExpr() returns (r: Res<Expr>)
      requires Valid()
      modifies this, s
      ensures Valid()
      ensures Agrees(r, State(), ExprF(Src(), prec, old(State())))
      decreases Remaining(Src(), State()), 7, 0
    {
      r := ParseBinaryExpr(1);
    }

    method ParseBinaryExpr(minPrec: int) returns (r: Res<Expr>)
      requires Valid() && minPrec >= 1
      modifies this, s
      ensures Valid()
      ensures Agrees(r, State(), BinaryF(Src(), prec, old(State()), minPrec))
      decreases Remaining(Src(), State()), 6, 0
    {
      BinaryUnfold(Src(), prec, State(), minPrec);
      var x :- ParseUnaryExpr();
      r := ParseLevels(x, Prec(prec, s.Tok()), minPrec);
    }

    /**
     * The outer loop of `parseBinaryExpr`: from level `p` down to
     * `minPrec`, fold each run of operators of that level into `x0`.
     */
    method ParseLevels(x0: Expr, p0: int, minPrec: int) returns (r: Res<Expr>)
      requires Valid() && minPrec >= 1 && Prec(prec, s.Tok()) <= p0
      modifies this, s
      ensures Valid()
      ensures Agrees(r, State(), Levels(Src(), prec, x0, p0, minPrec, old(State())))
      decreases Remaining(Src(), State()), 5, 0
    {
      var x, p := x0, p0;
      ghost var goal := Levels(Src(), prec, x, p, minPrec, State());
      while p >= minPrec
        invariant Valid()
        invariant old(s.cur) <= s.cur
        invariant Prec(prec, s.Tok()) <= p
        invariant Levels(Src(), prec, x, p, minPrec, State()) == goal
        decreases p
      {
        LevelsUnfold(Src(), prec, x, p, minPrec, State());
        x :- ParseRun(x, p);
        p := p - 1;
      }
      return Ok(x);
    }

    /**
     * The inner loop of `parseBinaryExpr` at level `p`: consume operators
     * of exactly that level, each followed by a tighter right operand.
     */
    method ParseRun(x0: Expr, p: int) returns (r: Res<Expr>)
      requires Valid() && p >= 1 && Prec(prec, s.Tok()) <= p
      modifies this, s
      ensures Valid()
      ensures Agrees(r, State(), Run(Src(), prec, x0, p, old(State())))
      decreases Remaining(Src(), State()), 4, 1
    {
      var x := x0;
      ghost var goal := Run(Src(), prec, x, p, State());
      while true
        invariant Valid()
        invariant old(s.cur) <= s.cur
        invariant Prec(prec, s.Tok()) <= p
        invariant Run(Src(), prec, x, p, State()) == goal
        decreases Remaining(Src(), State())
      {
        var op := s.Tok();
        if Prec(prec, op) != p {
          break;
        }
        RunUnfold(Src(), prec, x, p, State());
        x :- ParseOperation(x, p);
      }
      return Ok(x);
    }

    /**
     * One pass of the inner loop: consume the operator, parse its right
     * operand one level tighter, and fold it in on the right.
     */
    method ParseOperation(x: Expr, p: int) returns (r: Res<Expr>)
      requires Valid() && p >= 1 && Prec(prec, s.Tok()) == p
      modifies this, s
      ensures Valid()
      ensures var d := BinaryF(Src(), prec, Advance(Src(), old(State())), p + 1);
              && (d.Aborted? ==> r == Panic(d.msg))
              && (d.Done? ==> r == Ok(Binary(Tok(Src(), old(State())), x, d.value)) && State() == d.st)
      decreases Remaining(Src(), State()), 4, 0
    {
      var op := s.Tok();
      Next();
      var y :- ParseBinaryExpr(p + 1);
      return Ok(Binary(op, x, y));
    }

    method ParseUnaryExpr() returns (r: Res<Expr>)
      requires Valid()
      modifies this, s
      ensures Valid()
      ensures Agrees(r, State(), UnaryF(Src(), prec, old(State())))
      decreases Remaining(Src(), State()), 3, 0
    {
      var t := s.Tok();
      if t == Add || t == Sub || t == Not {
        Next();
        var e := s.Err();
        if e.Some? {
          return Ok(Bad(ScanErrorText(e.value)));
        }
        var x :- ParseUnaryExpr();
        return Ok(Unary(t, x));
      } else if t == Mul {
        Next();
        var x :- ParseUnaryExpr();
        return Ok(Unary(Mul, x));
      } else {
        r := ParsePrimaryExpr();
      }
    }

    method ParseArgs() returns (r: Res<seq<Expr>>)
      requires Valid()
      modifies this, s
      ensures Valid()
      ensures Agrees(r, State(), ArgsF(Src(), prec, old(State())))
      decreases Remaining(Src(), State()), 9, 0
    {
      var _ := Expect(LeftParen);
      Next();
      var args :- ParseArgList();
      var _ := Expect(RightParen);
      Next();
      return Ok(args);
    }

    /** The loop of `parseArgs`, from the first token after `(`. */
    method ParseArgList() returns (r: Res<seq<Expr>>)
      requires Valid()
      modifies this, s
      ensures Valid()
      ensures Agrees(r, State(), ArgsLoop(Src(), prec, old(State()), []))
      decreases Remaining(Src(), State()), 8, 0
    {
      var args: seq<Expr> := [];
      while s.Tok() != RightParen && s.More()
        invariant Valid()
        invariant old(s.cur) <= s.cur
        invariant ArgsLoop(Src(), prec, State(), args) == ArgsLoop(Src(), prec, old(State()), [])
        decreases Remaining(Src(), State())
      {
        var e :- ParseExpr();
        args := args + [e];
        var ok := ExpectCommaOr(RightParen, "arguments");
        if !ok {
          break;
        }
        Next();
      }
      return Ok(args);
    }

    method ParsePrimaryExpr() returns (r: Res<Expr>)
      requires Valid()
      modifies this, s
      ensures Valid()
      ensures Agrees(r, State(), PrimaryF(Src(), prec, old(State())))
      decreases Remaining(Src(), State()), 2, 0
    {
      var x :- ParseOperand();
      match s.Tok()
      case Period =>
        Next();
        if s.Tok() == Identifier {
          return Panic("TODO parse selector");
        } else if s.Tok() == LeftParen {
          return Panic("TODO parse type assertion");
        }
        return Panic("TODO expect selector type assertion");
      case LeftBracket => return Panic("TODO array index");
      case LeftParen =>
        var args :- ParseArgs();
        return Ok(Call(x, args));
      case LeftBrace => return Panic("TODO could be composite literal");
      case _ => return Ok(x);
    }

    method ParseOperand() returns (r: Res<Expr>)
      requires Valid()
      modifies this, s
      ensures Valid()
      ensures Agrees(r, State(), OperandF(Src(), prec, old(State())))
      decreases Remaining(Src(), State()), 1, 0
    {
      var t := s.Tok();
      if t == Identifier {
        r := ParseIdent();
        return;
      }
      if IsLiteralToken(t) {
        var x := BasicLiteral(s.Literal());
        Next();
        return Ok(x);
      }
      if t == LeftParen {
        Next();
        var e :- ParseExpr();
        var _ := Expect(RightParen);
        return Ok(Unary(LeftParen, e));
      }
      Next();
      var e := Error(ExpectedOperand);
      return Ok(Bad(ErrorText(e)));
    }
  }

  /** `ParseExpr`: parse one expression from a source and decide which error to report. */
  method ParseExpr(src: Stream, prec: Precedences) returns (r: Res<Outcome>)
    ensures r == ParseSource(src, prec)
  {
    var p := new Parser(src, prec);
    var first := p.s.Next();
    if first.Some? {
      var failure := if first.value == EOF then UnexpectedEOF else Scan(first.value);
      return Ok(Outcome(None, Some(failure)));
    }
    var x :- p.ParseExpr();
    var failure: Option<Failure> := None;
    if |p.err| > 0 {
      failure := Some(Errs(p.err));
    }
    if failure.None? {
      match p.s.Err()
      case Some(LexError(m)) => failure := Some(Scan(LexError(m)));
      case _ =>
    }
    return Ok(Outcome(Some(x), failure));
  }
}
