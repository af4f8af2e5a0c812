/**
 * Parenthesis balance of the s-expression rendering, node by node.
 *
 * Every node kind closes the parenthesis it opens: its rendering is exactly
 * as balanced as its children and names together. TableIndex is the
 * exception: its rendering never closes its outer group, so it leaves one
 * more `(` than `)` on top of its children.
 */
module ExprsBalance {
  import opened Outcomes
  import opened Tokens
  import opened Text
  import opened Exprs
  import opened ExprsLemmas

  function CharDepth(c: char): int {
    if c == '(' then 1 else if c == ')' then -1 else 0
  }

  /** Opening minus closing parentheses. */
  function Depth(s: string): int
    decreases |s|
  {
    if s == [] then 0 else Depth(s[..|s| - 1]) + CharDepth(s[|s| - 1])
  }

  lemma {:induction false} DepthConcat(a: string, b: string)
    ensures Depth(a + b) == Depth(a) + Depth(b)
    decreases |b|
  {
    if b == [] {
      assert a + b == a;
    } else {
      assert (a + b)[..|a + b| - 1] == a + b[..|b| - 1];
      DepthConcat(a, b[..|b| - 1]);
    }
  }

  lemma DepthChar(c: char)
    ensures Depth([c]) == CharDepth(c)
  {
    assert [c][..0] == [];
  }

  lemma {:induction false} DepthFree(s: string)
    requires forall i :: 0 <= i < |s| ==> s[i] != '(' && s[i] != ')'
    ensures Depth(s) == 0
    decreases |s|
  {
    if s != [] {
      DepthFree(s[..|s| - 1]);
    }
  }

  lemma DepthOpen(w: string)
    requires forall i :: 0 <= i < |w| ==> w[i] != '(' && w[i] != ')'
    ensures Depth("(" + w) == 1
  {
    DepthFree(w);
    DepthConcat("(", w);
    DepthChar('(');
  }

  // One lemma per fixed text of the rendering: a proof obligation that
  // evaluates several string literals at once is much more expensive.
  lemma DepthNilExpr() ensures Depth("nilexpr") == 0 { DepthFree("nilexpr"); }
  lemma DepthNilBin() ensures Depth("nilbin") == 0 { DepthFree("nilbin"); }
  lemma DepthNilUnary() ensures Depth("nilunary") == 0 { DepthFree("nilunary"); }
  lemma DepthNilSel() ensures Depth("nilsel") == 0 { DepthFree("nilsel"); }
  lemma DepthNilLit() ensures Depth("nillit") == 0 { DepthFree("nillit"); }
  lemma DepthNilIdent() ensures Depth("nilident") == 0 { DepthFree("nilident"); }
  lemma DepthNilCall() ensures Depth("nilcall") == 0 { DepthFree("nilcall"); }
  lemma DepthNilType() ensures Depth("niltype") == 0 { DepthFree("niltype"); }
  lemma DepthNilBody() ensures Depth("nilbody") == 0 { DepthFree("nilbody"); }
  lemma DepthBadBody() ensures Depth("badbody:") == 0 { DepthFree("badbody:"); }
  lemma DepthNilTypeName() ensures Depth("<nil>") == 0 { DepthFree("<nil>"); }
  lemma DepthStringTypeName() ensures Depth("string") == 0 { DepthFree("string"); }
  lemma DepthIntTypeName() ensures Depth("*big.Int") == 0 { DepthFree("*big.Int"); }
  lemma DepthFloatTypeName() ensures Depth("*big.Float") == 0 { DepthFree("*big.Float"); }
  lemma DepthNilValue() ensures Depth("%!s(<nil>)") == 0 {
    assert "%!s(<nil>)" == "%!s" + ("(" + "<nil>") + ")";
    DepthFree("%!s");
    DepthOpen("<nil>");
    DepthConcat("%!s", "(" + "<nil>");
    DepthConcat("%!s" + ("(" + "<nil>"), ")");
    DepthChar(')');
  }
  lemma DepthOpenBad() ensures Depth("(bad ") == 1 { assert "(bad " == "(" + "bad "; DepthOpen("bad "); }
  lemma DepthOpenSel() ensures Depth("(sel ") == 1 { assert "(sel " == "(" + "sel "; DepthOpen("sel "); }
  lemma DepthOpenLit() ensures Depth("(lit ") == 1 { assert "(lit " == "(" + "lit "; DepthOpen("lit "); }
  lemma DepthOpenComp() ensures Depth("(comp ") == 1 { assert "(comp " == "(" + "comp "; DepthOpen("comp "); }
  lemma DepthOpenTable() ensures Depth("(table ") == 1 { assert "(table " == "(" + "table "; DepthOpen("table "); }
  lemma DepthOpenCall() ensures Depth("(call ") == 1 { assert "(call " == "(" + "call "; DepthOpen("call "); }
  lemma DepthOpenTableIndex() ensures Depth("(tableindex ") == 1 { assert "(tableindex " == "(" + "tableindex "; DepthOpen("tableindex "); }
  lemma DepthOpenMethod() ensures Depth("(method (") == 2 {
    assert "(method (" == "(" + "method " + "(";
    DepthOpen("method ");
    DepthConcat("(" + "method ", "(");
    DepthChar('(');
  }
  lemma DepthCloseReceiver() ensures Depth(") ") == -1 {
    assert ") " == [')'] + [' '];
    DepthConcat([')'], [' ']);
    DepthChar(')');
    DepthChar(' ');
  }
  lemma DepthOpenFunc() ensures Depth("(func ") == 1 { assert "(func " == "(" + "func "; DepthOpen("func "); }
  lemma DepthOpenRows() ensures Depth(" (") == 1 {
    assert " (" == [' '] + ['('];
    DepthConcat([' '], ['(']);
    DepthChar(' ');
    DepthChar('(');
  }
  lemma DepthQuoteOpen() ensures Depth(" \"") == 0 { DepthFree(" \""); }
  lemma DepthQuote() ensures Depth("\"") == 0 { DepthFree("\""); }
  lemma DepthNameSep() ensures Depth("\"|\"") == 0 { DepthFree("\"|\""); }
  lemma DepthStar() ensures Depth("*") == 0 { DepthFree("*"); }

  // Shapes of the renderings, over arbitrary parts.

  lemma DepthHead1(h: string, a: string)
    ensures Depth(h + a + ")") == Depth(h) + Depth(a) - 1
  {
    DepthConcat(h, a);
    DepthConcat(h + a, ")");
    DepthChar(')');
  }

  lemma DepthHead2(h: string, a: string, b: string)
    ensures Depth(h + a + " " + b + ")") == Depth(h) + Depth(a) + Depth(b) - 1
  {
    DepthConcat(h, a);
    DepthConcat(h + a, " ");
    DepthConcat(h + a + " ", b);
    DepthConcat(h + a + " " + b, ")");
    DepthChar(' ');
    DepthChar(')');
  }

  lemma DepthHead3(h: string, a: string, b: string, c: string)
    ensures Depth(h + a + " " + b + " " + c + ")") == Depth(h) + Depth(a) + Depth(b) + Depth(c) - 1
  {
    DepthHead2(h, a, b);
    DepthConcat(h + a + " " + b, " ");
    DepthConcat(h + a + " " + b + " ", c);
    DepthConcat(h + a + " " + b + " " + c, ")");
    DepthConcat(h + a + " " + b, ")");
    DepthChar(' ');
    DepthChar(')');
  }

  lemma DepthTableShape(h: string, a: string, b: string, c: string)
    ensures Depth(h + a + " " + b + c + ")") == Depth(h) + Depth(a) + Depth(b) + Depth(c) - 1
  {
    DepthConcat(h, a);
    DepthConcat(h + a, " ");
    DepthConcat(h + a + " ", b);
    DepthConcat(h + a + " " + b, c);
    DepthConcat(h + a + " " + b + c, ")");
    DepthChar(' ');
    DepthChar(')');
  }

  lemma DepthTableIndexShape(h: string, a: string, b: string, c: string, d: string)
    ensures Depth(h + a + b + " " + c + " " + d) == Depth(h) + Depth(a) + Depth(b) + Depth(c) + Depth(d)
  {
    DepthConcat(h, a);
    DepthConcat(h + a, b);
    DepthConcat(h + a + b, " ");
    DepthConcat(h + a + b + " ", c);
    DepthConcat(h + a + b + " " + c, " ");
    DepthConcat(h + a + b + " " + c + " ", d);
    DepthChar(' ');
  }

  lemma DepthGroup2(a: string, b: string)
    ensures Depth("(" + a + " " + b + ")") == Depth(a) + Depth(b)
  {
    DepthHead2("(", a, b);
    DepthChar('(');
  }

  lemma DepthGroup3(a: string, b: string, c: string)
    ensures Depth("(" + a + " " + b + " " + c + ")") == Depth(a) + Depth(b) + Depth(c)
  {
    DepthHead3("(", a, b, c);
    DepthChar('(');
  }

  ghost predicate OpBalanced(op: Token) {
    op.Other? ==> Depth(op.name) == 0
  }

  lemma DepthName(t: Token)
    requires OpBalanced(t)
    ensures Depth(Name(t)) == 0
  {
    if !t.Other? {
      NameIsWord(t);
      DepthFree(Name(t));
    }
  }

  ghost predicate TipeBalanced(t: Tipe) {
    t.Type? ==> Depth(t.sexp) == 0
  }

  ghost predicate BodyBalanced(b: Body) {
    && (b.Renderable? ==> Depth(b.sexp) == 0)
    && (b.Opaque? ==> Depth(b.typeName) == 0)
  }

  ghost predicate ValueBalanced(v: Value) {
    && (v.TextValue? ==> Depth(v.s) == 0)
    && (v.FloatValue? ==> Depth(v.printed) == 0)
  }

  lemma DepthNatStr(n: nat)
    ensures Depth(NatStr(n)) == 0
  {
    DepthFree(NatStr(n));
  }

  lemma DepthIntStr(i: int)
    ensures Depth(IntStr(i)) == 0
  {
    if i < 0 {
      DepthNatStr(-i);
      DepthConcat("-", NatStr(-i));
      DepthChar('-');
    } else {
      DepthNatStr(i);
    }
  }

  lemma DepthValue(v: Value)
    requires ValueBalanced(v)
    ensures Depth(ValueType(v)) == 0 && Depth(ValueStr(v)) == 0
  {
    match v
    case NoValue => DepthNilTypeName(); DepthNilValue();
    case TextValue(_) => DepthStringTypeName();
    case IntValue(i) => DepthIntTypeName(); DepthIntStr(i);
    case FloatValue(_) => DepthFloatTypeName();
  }

  lemma DepthSentinel(k: NodeKind)
    ensures Depth(Sentinel(k)) == 0
  {
    match k
    case BinaryKind => DepthNilBin();
    case UnaryKind => DepthNilUnary();
    case SelectorKind => DepthNilSel();
    case LiteralKind => DepthNilLit();
    case IdentKind => DepthNilIdent();
    case CallKind => DepthNilCall();
  }

  lemma DepthTipe(t: Tipe)
    requires TipeBalanced(t)
    ensures Depth(TipeSexp(t)) == 0
  {
    if t.NilType? { DepthNilType(); }
  }

  lemma DepthBody(b: Body)
    requires BodyBalanced(b)
    ensures Depth(BodySexp(b)) == 0
  {
    match b
    case NilBody => DepthNilBody();
    case Renderable(_) =>
    case Opaque(tn) => DepthBadBody(); DepthConcat("badbody:", tn);
  }

  lemma {:induction false} DepthJoin(names: seq<string>, sep: string)
    requires Depth(sep) == 0
    requires forall i :: 0 <= i < |names| ==> Depth(names[i]) == 0
    ensures Depth(Join(names, sep)) == 0
    decreases |names|
  {
    if names == [] {
      assert Join(names, sep) == [];
    } else if |names| > 1 {
      DepthJoin(names[1..], sep);
      DepthConcat(names[0], sep);
      DepthConcat(names[0] + sep, Join(names[1..], sep));
    }
  }

  lemma DepthNamesGroup(names: seq<string>)
    requires forall i :: 0 <= i < |names| ==> Depth(names[i]) == 0
    ensures Depth(NamesGroup(names)) == 0
  {
    if |names| > 0 {
      DepthChar(' ');
      DepthJoin(names, " ");
      DepthChar('(');
      DepthHead1("(", Join(names, " "));
    } else {
      assert NamesGroup(names) == [];
    }
  }

  lemma DepthColNames(names: seq<string>)
    requires forall i :: 0 <= i < |names| ==> Depth(names[i]) == 0
    ensures Depth(ColNamesStr(names)) == 0
  {
    var joined := Join(names, "\"|\"");
    DepthNameSep();
    DepthJoin(names, "\"|\"");
    if joined != "" {
      DepthQuoteOpen();
      DepthQuote();
      DepthConcat(" \"", joined);
      DepthConcat(" \"" + joined, "\"");
    } else {
      assert ColNamesStr(names) == [];
    }
  }

  function Part(e: Expr): string {
    if e != Nil then Sexp(e) else ""
  }

  lemma DepthWrap(rs: string, x: string)
    ensures Depth("(" + rs + x + ")") == Depth(rs) + Depth(x)
  {
    DepthConcat("(", rs);
    DepthConcat("(" + rs, x);
    DepthConcat("(" + rs + x, ")");
    DepthChar('(');
    DepthChar(')');
  }

  lemma DepthInterval(a: string, b: string)
    ensures Depth(a + ":" + b) == Depth(a) + Depth(b)
    ensures Depth(a + ":" + b + " ") == Depth(a) + Depth(b)
  {
    DepthConcat(a, ":");
    DepthConcat(a + ":", b);
    DepthConcat(a + ":" + b, " ");
    DepthChar(':');
    DepthChar(' ');
  }

  lemma DepthRangeParts(r: Range)
    ensures Depth(RangeSexp(r)) == Depth(Part(r.start)) + Depth(Part(r.end)) + Depth(Part(r.exact))
  {
    var a, b, x := Part(r.start), Part(r.end), Part(r.exact);
    DepthInterval(a, b);
    if r.start != Nil || r.end != Nil {
      if r.exact != Nil {
        assert RangeSexp(r) == "(" + (a + ":" + b + " ") + x + ")";
        DepthWrap(a + ":" + b + " ", x);
      } else {
        assert RangeSexp(r) == "(" + (a + ":" + b) + x + ")";
        DepthWrap(a + ":" + b, x);
      }
    } else {
      assert RangeSexp(r) == "(" + "" + x + ")";
      DepthWrap("", x);
    }
  }

  lemma DepthFuncLiteral(name: string, recv: string, ptr: bool, t: Tipe, body: Body)
    requires Depth(name) == 0 && Depth(recv) == 0 && TipeBalanced(t) && BodyBalanced(body)
    ensures Depth(FuncLiteralSexp(name, recv, ptr, t, body)) == 0
  {
    DepthTipe(t);
    DepthBody(body);
    var ts, bs := TipeSexp(t), BodySexp(body);
    if recv != "" {
      var pointer := if ptr then "*" else "";
      if ptr { DepthStar(); } else { assert pointer == []; }
      DepthOpenMethod();
      DepthCloseReceiver();
      var rest := pointer + recv + ") " + name + " " + ts + " " + bs + ")";
      DepthConcat(pointer, recv);
      DepthConcat(pointer + recv, ") ");
      DepthHead3(pointer + recv + ") ", name, ts, bs);
      DepthConcat("(method (", rest);
    } else {
      DepthOpenFunc();
      var rest := name + " " + ts + " " + bs + ")";
      DepthHead3("", name, ts, bs);
      assert "" + name == name;
      DepthConcat("(func ", rest);
    }
  }

  lemma DepthSpaced(a: string, b: string)
    ensures Depth(a + " " + b) == Depth(a) + Depth(b)
  {
    DepthConcat(a, " ");
    DepthConcat(a + " ", b);
    DepthChar(' ');
  }

  /** The sentinels and the nil rendering hold no parenthesis. */
  lemma NilBalanced(k: NodeKind)
    ensures Depth(Sexp(Nil)) == 0 && Depth(Sexp(NilNode(k))) == 0
  {
    DepthNilExpr();
    DepthSentinel(k);
  }

  /** An Ident renders as its name, so it is as balanced as the name. */
  lemma IdentBalanced(n: string)
    ensures Depth(Sexp(Ident(n))) == Depth(n)
  {
  }

  lemma BinaryBalanced(op: Token, l: Expr, r: Expr)
    requires OpBalanced(op)
    ensures Depth(Sexp(Binary(op, l, r))) == Depth(Sexp(l)) + Depth(Sexp(r))
  {
    DepthName(op);
    DepthGroup3(Name(op), Sexp(l), Sexp(r));
  }

  lemma UnaryBalanced(op: Token, x: Expr)
    requires OpBalanced(op)
    ensures Depth(Sexp(Unary(op, x))) == Depth(Sexp(x))
  {
    DepthName(op);
    DepthGroup2(Name(op), Sexp(x));
  }

  lemma BadBalanced(err: string)
    ensures Depth(Sexp(Bad(err))) == Depth(err)
  {
    DepthOpenBad();
    DepthHead1("(bad ", err);
  }

  lemma SelectorBalanced(x: Expr, f: Option<string>)
    requires f.Some? ==> Depth(f.value) == 0
    ensures Depth(Sexp(Selector(x, f))) == Depth(Sexp(x))
  {
    DepthOpenSel();
    DepthNilIdent();
    DepthHead2("(sel ", Sexp(x), match f case None => Sentinel(IdentKind) case Some(n) => n);
  }

  lemma LiteralBalanced(v: Value)
    requires ValueBalanced(v)
    ensures Depth(Sexp(BasicLiteral(v))) == 0
  {
    DepthValue(v);
    DepthOpenLit();
    DepthHead2("(lit ", ValueType(v), ValueStr(v));
  }

  lemma FuncLiteralBalanced(name: string, recv: string, ptr: bool, t: NodeTipe, ps: seq<string>, rs: seq<string>, body: Body)
    requires Depth(name) == 0 && Depth(recv) == 0 && TipeBalanced(t) && BodyBalanced(body)
    ensures Depth(Sexp(FuncLiteral(name, recv, ptr, t, ps, rs, body))) == 0
  {
    DepthFuncLiteral(name, recv, ptr, t, body);
  }

  lemma CompLiteralBalanced(t: Tipe, names: seq<string>, elems: seq<Expr>)
    requires TipeBalanced(t)
    requires forall i :: 0 <= i < |names| ==> Depth(names[i]) == 0
    ensures Depth(Sexp(CompLiteral(t, names, elems))) == Depth(ExprsStr(elems))
  {
    DepthTipe(t);
    DepthNamesGroup(names);
    DepthOpenComp();
    DepthHead3("(comp ", TipeSexp(t), NamesGroup(names), ExprsStr(elems));
  }

  lemma TableLiteralBalanced(t: NodeTipe, cols: seq<Expr>, rows: seq<Row>)
    requires TipeBalanced(t)
    ensures Depth(Sexp(TableLiteral(t, cols, rows))) == Depth(ExprsStr(cols)) + Depth(RowsGroup(RowStrs(rows)))
  {
    DepthTipe(t);
    DepthOpenTable();
    DepthTableShape("(table ", TipeSexp(t), ExprsStr(cols), RowsGroup(RowStrs(rows)));
  }

  /** The rows group closes the parenthesis it opens. */
  lemma RowsGroupBalanced(rendered: seq<string>)
    ensures Depth(RowsGroup(rendered)) == Depth(RowsStr(rendered))
  {
    var acc := RowsStr(rendered);
    if acc != "" {
      RowsStrIsJoin(rendered);
      assert acc == [' '] + acc[1..];
      DepthConcat([' '], acc[1..]);
      DepthChar(' ');
      DepthOpenRows();
      DepthHead1(" (", acc[1..]);
    } else {
      assert RowsGroup(rendered) == [];
    }
  }

  lemma CallBalanced(f: Expr, args: seq<Expr>)
    ensures Depth(Sexp(Call(f, args))) == Depth(Sexp(f)) + Depth(ExprsStr(args))
  {
    DepthOpenCall();
    DepthHead2("(call ", Sexp(f), ExprsStr(args));
  }

  /** A Range closes its group; its three parts contribute what they hold. */
  lemma RangeBalanced(r: Range)
    ensures Depth(RangeSexp(r)) == Depth(Part(r.start)) + Depth(Part(r.end)) + Depth(Part(r.exact))
  {
    DepthRangeParts(r);
  }

  /**
   * The one unbalanced node: a TableIndex opens `(tableindex` and never
   * closes it, so its rendering has one more `(` than its parts.
   */
  lemma TableIndexUnclosed(x: Expr, names: seq<string>, c: Range, r: Range)
    requires forall i :: 0 <= i < |names| ==> Depth(names[i]) == 0
    ensures Depth(Sexp(TableIndex(x, names, c, r))) == 1 + Depth(Sexp(x)) + Depth(RangeSexp(c)) + Depth(RangeSexp(r))
  {
    var h, a, b := "(tableindex ", Sexp(x), ColNamesStr(names);
    assert Sexp(TableIndex(x, names, c, r)) == h + a + b + " " + RangeSexp(c) + " " + RangeSexp(r);
    DepthColNames(names);
    DepthOpenTableIndex();
    DepthTableIndexShape(h, a, b, RangeSexp(c), RangeSexp(r));
  }

  /** The smallest witness: an index with no names and empty ranges. */
  lemma TableIndexWitness()
    ensures Sexp(TableIndex(Ident("t"), [], Range(Nil, Nil, Nil), Range(Nil, Nil, Nil))) == "(tableindex t () ()"
    ensures Depth(Sexp(TableIndex(Ident("t"), [], Range(Nil, Nil, Nil), Range(Nil, Nil, Nil)))) == 1
  {
    var e := TableIndex(Ident("t"), [], Range(Nil, Nil, Nil), Range(Nil, Nil, Nil));
    RangeEmpty(Range(Nil, Nil, Nil));
    assert ColNamesStr([]) == "" by { assert Join([], "\"|\"") == ""; }
    assert Sexp(e) == "(tableindex " + "t" + "" + " " + "()" + " " + "()";
    TableIndexUnclosed(Ident("t"), [], Range(Nil, Nil, Nil), Range(Nil, Nil, Nil));
    assert Depth("t") == 0;
    assert Depth("()") == 0;
  }

  /** Every name, message, type rendering and literal text in the tree has balanced parentheses. */
  ghost predicate LeavesBalanced(e: Expr)
    decreases e
  {
    match e
    case Nil => true
    case NilNode(_) => true
    case Binary(op, l, r) => OpBalanced(op) && LeavesBalanced(l) && LeavesBalanced(r)
    case Unary(op, x) => OpBalanced(op) && LeavesBalanced(x)
    case Bad(err) => Depth(err) == 0
    case Selector(x, f) => LeavesBalanced(x) && (f.Some? ==> Depth(f.value) == 0)
    case BasicLiteral(v) => ValueBalanced(v)
    case FuncLiteral(name, recv, _, t, _, _, body) =>
      Depth(name) == 0 && Depth(recv) == 0 && TipeBalanced(t) && BodyBalanced(body)
    case CompLiteral(t, names, elems) =>
      && TipeBalanced(t)
      && (forall i :: 0 <= i < |names| ==> Depth(names[i]) == 0)
      && (forall i :: 0 <= i < |elems| ==> LeavesBalanced(elems[i]))
    case TableLiteral(t, cols, rows) =>
      && TipeBalanced(t)
      && (forall i :: 0 <= i < |cols| ==> LeavesBalanced(cols[i]))
      && (forall i, j :: 0 <= i < |rows| && 0 <= j < |rows[i].elems| ==> LeavesBalanced(rows[i].elems[j]))
    case Ident(n) => Depth(n) == 0
    case Call(f, args) => LeavesBalanced(f) && (forall i :: 0 <= i < |args| ==> LeavesBalanced(args[i]))
    case TableIndex(x, names, c, r) =>
      && LeavesBalanced(x)
      && (forall i :: 0 <= i < |names| ==> Depth(names[i]) == 0)
      && LeavesBalanced(c.start) && LeavesBalanced(c.end) && LeavesBalanced(c.exact)
      && LeavesBalanced(r.start) && LeavesBalanced(r.end) && LeavesBalanced(r.exact)
  }

  /** The number of TableIndex nodes in a tree. */
  function TableIndexCount(e: Expr): nat
    decreases e, 1
  {
    match e
    case Binary(_, l, r) => TableIndexCount(l) + TableIndexCount(r)
    case Unary(_, x) => TableIndexCount(x)
    case Selector(x, _) => TableIndexCount(x)
    case CompLiteral(_, _, elems) => TableIndexCountAll(elems)
    case TableLiteral(_, cols, rows) => TableIndexCountAll(cols) + TableIndexCountRows(rows)
    case Call(f, args) => TableIndexCount(f) + TableIndexCountAll(args)
    case TableIndex(x, _, c, r) =>
      1 + TableIndexCount(x) + TableIndexCountRange(c) + TableIndexCountRange(r)
    case _ => 0
  }

  function TableIndexCountAll(es: seq<Expr>): nat
    decreases es, 0
  {
    if es == [] then 0 else TableIndexCount(es[0]) + TableIndexCountAll(es[1..])
  }

  function TableIndexCountRows(rows: seq<Row>): nat
    decreases rows, 0
  {
    if rows == [] then 0 else TableIndexCountAll(rows[0].elems) + TableIndexCountRows(rows[1..])
  }

  function TableIndexCountRange(r: Range): nat
    decreases r, 0
  {
    TableIndexCount(r.start) + TableIndexCount(r.end) + TableIndexCount(r.exact)
  }

  lemma DepthPart(e: Expr)
    requires LeavesBalanced(e)
    ensures Depth(Part(e)) == TableIndexCount(e)
    decreases e, 2
  {
    if e != Nil {
      DepthSexp(e);
    } else {
      assert Part(e) == [];
    }
  }

  lemma DepthRange(r: Range)
    requires LeavesBalanced(r.start) && LeavesBalanced(r.end) && LeavesBalanced(r.exact)
    ensures Depth(RangeSexp(r)) == TableIndexCountRange(r)
    decreases r, 0
  {
    RangeBalanced(r);
    DepthPart(r.start);
    DepthPart(r.end);
    DepthPart(r.exact);
    assert TableIndexCountRange(r) == TableIndexCount(r.start) + TableIndexCount(r.end) + TableIndexCount(r.exact);
  }

  lemma {:induction false} DepthExprsStr(es: seq<Expr>)
    requires forall i :: 0 <= i < |es| ==> LeavesBalanced(es[i])
    ensures Depth(ExprsStr(es)) == TableIndexCountAll(es)
    decreases es, 0
  {
    if es == [] {
      assert ExprsStr(es) == [];
    } else if |es| == 1 {
      DepthSexp(es[0]);
      assert es[1..] == [];
    } else {
      DepthSexp(es[0]);
      DepthExprsStr(es[1..]);
      DepthSpaced(Sexp(es[0]), ExprsStr(es[1..]));
    }
  }

  lemma {:induction false} DepthRowsStr(rows: seq<Row>)
    requires forall i, j :: 0 <= i < |rows| && 0 <= j < |rows[i].elems| ==> LeavesBalanced(rows[i].elems[j])
    ensures Depth(RowsStr(RowStrs(rows))) == TableIndexCountRows(rows)
    decreases rows, 0
  {
    if rows == [] {
      assert RowsStr(RowStrs(rows)) == [];
    } else {
      assert RowStrs(rows)[1..] == RowStrs(rows[1..]);
      DepthExprsStr(rows[0].elems);
      DepthRowsStr(rows[1..]);
      var a, b := ExprsStr(rows[0].elems), RowsStr(RowStrs(rows[1..]));
      DepthConcat(" ", a);
      DepthConcat(" " + a, b);
      DepthChar(' ');
    }
  }

  /**
   * Every TableIndex leaves exactly one parenthesis open and every other
   * node closes what it opens: with balanced leaves, the rendering has as
   * many more `(` than `)` as the tree has TableIndex nodes.
   */
  lemma {:induction false} DepthSexp(e: Expr)
    requires LeavesBalanced(e)
    ensures Depth(Sexp(e)) == TableIndexCount(e)
    decreases e, 1
  {
    match e
    case Binary(op, l, r) =>
      DepthSexp(l);
      DepthSexp(r);
      BinaryBalanced(op, l, r);
    case Unary(op, x) =>
      DepthSexp(x);
      UnaryBalanced(op, x);
    case Selector(x, f) =>
      DepthSexp(x);
      SelectorBalanced(x, f);
    case TableIndex(_, _, _, _) => DepthTableIndex(e);
    case CompLiteral(_, _, _) => DepthSexpLists(e);
    case TableLiteral(_, _, _) => DepthSexpLists(e);
    case Call(_, _) => DepthSexpLists(e);
    case _ => DepthLeaf(e);
  }

  /** DepthSexp for the nodes that render lists of sub-expressions. */
  lemma {:induction false} DepthSexpLists(e: Expr)
    requires LeavesBalanced(e) && (e.CompLiteral? || e.TableLiteral? || e.Call?)
    ensures Depth(Sexp(e)) == TableIndexCount(e)
    decreases e, 0
  {
    match e
    case CompLiteral(t, names, elems) =>
      DepthExprsStr(elems);
      CompLiteralBalanced(t, names, elems);
    case TableLiteral(t, cols, rows) =>
      DepthExprsStr(cols);
      DepthRowsStr(rows);
      RowsGroupBalanced(RowStrs(rows));
      TableLiteralBalanced(t, cols, rows);
    case Call(f, args) =>
      DepthSexp(f);
      DepthExprsStr(args);
      CallBalanced(f, args);
  }

  /** DepthSexp for a TableIndex: the one node that leaves a parenthesis open. */
  lemma {:induction false} DepthTableIndex(e: Expr)
    requires LeavesBalanced(e) && e.TableIndex?
    ensures Depth(Sexp(e)) == TableIndexCount(e)
    decreases e, 0
  {
    DepthSexp(e.table);
    DepthRange(e.cols);
    DepthRange(e.rowRange);
    TableIndexUnclosed(e.table, e.names, e.cols, e.rowRange);
  }

  /** DepthSexp for the nodes without sub-expressions. */
  lemma DepthLeaf(e: Expr)
    requires LeavesBalanced(e)
    requires e.Nil? || e.NilNode? || e.Bad? || e.BasicLiteral? || e.FuncLiteral? || e.Ident?
    ensures Depth(Sexp(e)) == TableIndexCount(e)
  {
    match e
    case Nil => NilBalanced(IdentKind);
    case NilNode(k) => NilBalanced(k);
    case Bad(err) => BadBalanced(err);
    case BasicLiteral(v) => LiteralBalanced(v);
    case FuncLiteral(name, recv, ptr, t, ps, rs, body) =>
      FuncLiteralBalanced(name, recv, ptr, t, ps, rs, body);
    case Ident(n) => IdentBalanced(n);
  }
}
