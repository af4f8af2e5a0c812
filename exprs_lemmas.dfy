/** Properties of the s-expression rendering. */
module ExprsLemmas {
  import opened Outcomes
  import opened Tokens
  import opened Text
  import opened Exprs

  /**
   * Missing pieces still render: each nil node kind has its own `nil…`
   * sentinel, distinct from the others and from a nil interface value,
   * and none of them looks like a parenthesised node.
   */
  lemma NilRenderings(k1: NodeKind, k2: NodeKind)
    ensures Sexp(NilNode(k1)) == Sexp(NilNode(k2)) <==> k1 == k2
    ensures Sexp(NilNode(k1)) != Sexp(Nil) && Sexp(Nil) == "nilexpr"
    ensures |Sexp(NilNode(k1))| > 3 && Sexp(NilNode(k1))[..3] == "nil"
  {
  }

  /** The rendering of each expression of a list, in order. */
  function Renderings(es: seq<Expr>): (r: seq<string>)
    ensures |r| == |es| && forall i :: 0 <= i < |es| ==> r[i] == Sexp(es[i])
  {
    seq(|es|, i requires 0 <= i < |es| => Sexp(es[i]))
  }

  /** How often `c` occurs in all the strings of `ss` together. */
  function Occurrences(ss: seq<string>, c: char): nat {
    if ss == [] then 0 else multiset(ss[0])[c] + Occurrences(ss[1..], c)
  }

  // ---------------------------------------------------------------------------
  // Joining with a separator

  lemma {:induction false} JoinAppend(a: seq<string>, b: seq<string>, sep: string)
    requires a != [] && b != []
    ensures Join(a + b, sep) == Join(a, sep) + sep + Join(b, sep)
    decreases |a|
  {
    if |a| == 1 {
      assert (a + b)[1..] == b;
    } else {
      assert (a + b)[1..] == a[1..] + b;
      JoinAppend(a[1..], b, sep);
    }
  }

  /** Joining n strings with a single space adds exactly n - 1 spaces. */
  lemma {:induction false} JoinSpaces(ss: seq<string>)
    requires ss != []
    ensures multiset(Join(ss, " "))[' '] == Occurrences(ss, ' ') + |ss| - 1
    decreases |ss|
  {
    if |ss| > 1 {
      JoinSpaces(ss[1..]);
      assert multiset(Join(ss, " ")) == multiset(ss[0]) + multiset(" ") + multiset(Join(ss[1..], " "));
    }
  }

  /** exprsStr is strings.Join of the renderings with a single space. */
  lemma {:induction false} ExprsStrIsJoin(es: seq<Expr>)
    ensures ExprsStr(es) == Join(Renderings(es), " ")
    decreases |es|
  {
    if |es| > 1 {
      ExprsStrIsJoin(es[1..]);
      assert Renderings(es)[1..] == Renderings(es[1..]);
    }
  }

  lemma ExprsStrAppend(a: seq<Expr>, b: seq<Expr>)
    requires a != [] && b != []
    ensures ExprsStr(a + b) == ExprsStr(a) + " " + ExprsStr(b)
  {
    ExprsStrIsJoin(a);
    ExprsStrIsJoin(b);
    ExprsStrIsJoin(a + b);
    assert Renderings(a + b) == Renderings(a) + Renderings(b);
    JoinAppend(Renderings(a), Renderings(b), " ");
  }

  /** An empty list renders as "", and n renderings are separated by exactly n - 1 spaces. */
  lemma ExprsStrSeparators(es: seq<Expr>)
    ensures es == [] ==> ExprsStr(es) == ""
    ensures es != [] ==> multiset(ExprsStr(es))[' '] == Occurrences(Renderings(es), ' ') + |es| - 1
  {
    if es != [] {
      ExprsStrIsJoin(es);
      JoinSpaces(Renderings(es));
    }
  }

  // ---------------------------------------------------------------------------
  // TableLiteral rows

  /** All the rows' elements, in order. */
  function Flatten(rows: seq<Row>): (r: seq<Expr>)
    ensures (forall i :: 0 <= i < |rows| ==> rows[i].elems == []) <==> r == []
  {
    if rows == [] then [] else rows[0].elems + Flatten(rows[1..])
  }

  lemma {:induction false} RowsStrIsJoin(rs: seq<string>)
    ensures RowsStr(rs) == if rs == [] then "" else " " + Join(rs, " ")
    decreases |rs|
  {
    if |rs| > 1 {
      RowsStrIsJoin(rs[1..]);
    }
  }

  /**
   * The rows group is one parenthesised group holding the rows' renderings
   * joined by spaces; it is present exactly when there is at least one row,
   * even when every row is empty.
   */
  lemma RowsGroupShape(rows: seq<Row>)
    ensures RowsGroup(RowStrs(rows)) == if rows == [] then "" else " (" + Join(RowStrs(rows), " ") + ")"
    ensures RowsGroup(RowStrs(rows)) != "" <==> rows != []
  {
    RowsStrIsJoin(RowStrs(rows));
  }

  lemma {:induction false} RowsJoinFlatten(rows: seq<Row>)
    requires rows != []
    requires forall i :: 0 <= i < |rows| ==> rows[i].elems != []
    ensures Join(RowStrs(rows), " ") == ExprsStr(Flatten(rows))
    decreases |rows|
  {
    if |rows| == 1 {
      assert rows[1..] == [];
      assert RowStrs(rows) == [ExprsStr(rows[0].elems)];
      assert Flatten(rows) == rows[0].elems;
    } else {
      RowsJoinFlatten(rows[1..]);
      assert RowStrs(rows)[1..] == RowStrs(rows[1..]);
      assert rows[1].elems != [];
      assert Flatten(rows[1..]) != [];
      ExprsStrAppend(rows[0].elems, Flatten(rows[1..]));
    }
  }

  /**
   * When no row is empty, a TableLiteral renders its type, its column names
   * and then a single group of all the rows' elements, flattened.
   */
  lemma TableLiteralFlattensRows(t: NodeTipe, cols: seq<Expr>, rows: seq<Row>)
    requires forall i :: 0 <= i < |rows| ==> rows[i].elems != []
    ensures Sexp(TableLiteral(t, cols, rows)) ==
      "(table " + TipeSexp(t) + " " + ExprsStr(cols)
      + (if rows == [] then "" else " (" + ExprsStr(Flatten(rows)) + ")") + ")"
  {
    RowsGroupShape(rows);
    if rows != [] {
      RowsJoinFlatten(rows);
    }
  }

  // ---------------------------------------------------------------------------
  // CompLiteral, TableIndex column names, FuncLiteral

  /** The names group of a CompLiteral is present exactly when there are names. */
  lemma CompLiteralNames(t: Tipe, names: seq<string>, elems: seq<Expr>)
    ensures Sexp(CompLiteral(t, names, elems)) ==
      "(comp " + TipeSexp(t) + " " + (if names == [] then "" else "(" + Join(names, " ") + ")")
      + " " + ExprsStr(elems) + ")"
  {
  }

  function Quote(n: string): string { "\"" + n + "\"" }

  function Quotes(ns: seq<string>): (r: seq<string>)
    ensures |r| == |ns| && forall i :: 0 <= i < |ns| ==> r[i] == Quote(ns[i])
  {
    seq(|ns|, i requires 0 <= i < |ns| => Quote(ns[i]))
  }

  lemma {:induction false} QuotedJoin(ns: seq<string>)
    requires ns != []
    ensures "\"" + Join(ns, "\"|\"") + "\"" == Join(Quotes(ns), "|")
    decreases |ns|
  {
    if |ns| > 1 {
      QuotedJoin(ns[1..]);
      assert Quotes(ns)[1..] == Quotes(ns[1..]);
      calc {
        "\"" + Join(ns, "\"|\"") + "\"";
        "\"" + ns[0] + "\"|\"" + Join(ns[1..], "\"|\"") + "\"";
        { assert "\"" + ns[0] + "\"|\"" + Join(ns[1..], "\"|\"") + "\""
            == Quote(ns[0]) + "|" + ("\"" + Join(ns[1..], "\"|\"") + "\""); }
        Quote(ns[0]) + "|" + Join(Quotes(ns[1..]), "|");
      }
    }
  }

  lemma {:induction false} JoinEmpty(ns: seq<string>, sep: string)
    requires sep != ""
    ensures Join(ns, sep) == "" <==> ns == [] || ns == [""]
  {
    if |ns| > 1 {
      assert |Join(ns, sep)| >= |sep|;
    }
  }

  /**
   * TableIndex column names: each name quoted, joined by `|`, after one
   * space; nothing at all when the names join to the empty string.
   */
  lemma ColNamesShape(names: seq<string>)
    ensures ColNamesStr(names) ==
      if names == [] || names == [""] then "" else " " + Join(Quotes(names), "|")
  {
    JoinEmpty(names, "\"|\"");
    if !(names == [] || names == [""]) {
      QuotedJoin(names);
    }
  }

  lemma PrefixOf(head: string, rest: string)
    ensures (head + rest)[..|head|] == head
  {
  }

  /**
   * A FuncLiteral with a receiver renders as a method, with `*` before the
   * receiver exactly when it is a pointer receiver.
   */
  lemma MethodShape(name: string, recv: string, ptr: bool, t: Tipe, body: Body)
    requires recv != "" && recv[0] != '*'
    ensures var r := FuncLiteralSexp(name, recv, ptr, t, body);
      |r| > 9 && r[..9] == "(method (" && (r[9] == '*' <==> ptr)
  {
    var r := FuncLiteralSexp(name, recv, ptr, t, body);
    var pointer := if ptr then "*" else "";
    var rest := pointer + recv + ") " + name + " " + TipeSexp(t) + " " + BodySexp(body) + ")";
    assert r == "(method (" + rest;
    PrefixOf("(method (", rest);
    assert r[9] == rest[0];
    assert rest[0] == (pointer + recv)[0];
  }

  /** A FuncLiteral without a receiver renders as a func. */
  lemma FuncShape(name: string, t: Tipe, body: Body, ptr: bool)
    ensures var r := FuncLiteralSexp(name, "", ptr, t, body);
      |r| > 6 && r[..6] == "(func " && r[1] == 'f'
  {
    var r := FuncLiteralSexp(name, "", ptr, t, body);
    var rest := name + " " + TipeSexp(t) + " " + BodySexp(body) + ")";
    PrefixOf("(func ", rest);
  }

  /** Method or func: the rendering says which, and `*` marks a pointer receiver. */
  lemma FuncLiteralShape(name: string, recv: string, ptr: bool, t: NodeTipe,
                         params: seq<string>, results: seq<string>, body: Body)
    requires recv == "" || recv[0] != '*'
    ensures var r := Sexp(FuncLiteral(name, recv, ptr, t, params, results, body));
      && (recv != "" <==> |r| > 9 && r[..9] == "(method (")
      && (recv != "" ==> (r[9] == '*' <==> ptr))
  {
    var r := Sexp(FuncLiteral(name, recv, ptr, t, params, results, body));
    assert r == FuncLiteralSexp(name, recv, ptr, t, body);
    if recv != "" {
      MethodShape(name, recv, ptr, t, body);
    } else {
      FuncShape(name, t, body, ptr);
      assert r[1] != "(method ("[1];
    }
  }

  // ---------------------------------------------------------------------------
  // Range

  /** A character occurs in a concatenation exactly when it occurs in one of the parts. */
  lemma InConcat(c: char, a: string, b: string)
    ensures c in a + b <==> c in a || c in b
  {
    if c in a + b {
      var i :| 0 <= i < |a + b| && (a + b)[i] == c;
      if i >= |a| {
        assert b[i - |a|] == c;
      }
    }
    if c in b {
      var j :| 0 <= j < |b| && b[j] == c;
      assert (a + b)[|a| + j] == c;
    }
  }

  /** A range with a start or an end renders the `:` between them. */
  lemma RangeColonPresent(r: Range)
    requires r.start != Nil || r.end != Nil
    ensures ':' in RangeSexp(r)
  {
    var lo := if r.start != Nil then Sexp(r.start) else "";
    var hi := if r.end != Nil then Sexp(r.end) else "";
    var exact := if r.exact != Nil then Sexp(r.exact) else "";
    var interval := lo + ":" + hi;
    assert interval[|lo|] == ':';
    var rs := if r.exact != Nil then interval + " " else interval;
    assert rs[|lo|] == ':';
    assert RangeSexp(r) == "(" + rs + exact + ")";
    assert RangeSexp(r)[1 + |lo|] == ':';
  }

  /** Without a start or an end, the rendering is the exact part in parentheses. */
  lemma RangeColonAbsent(r: Range)
    requires r.start == Nil && r.end == Nil && ':' !in Sexp(r.exact)
    ensures ':' !in RangeSexp(r)
  {
    var exact := if r.exact != Nil then Sexp(r.exact) else "";
    assert RangeSexp(r) == "(" + exact + ")";
    InConcat(':', "(", exact);
    InConcat(':', "(" + exact, ")");
  }

  /** `:` appears in a range's rendering exactly when it has a start or an end. */
  lemma RangeColon(r: Range)
    requires ':' !in Sexp(r.start) && ':' !in Sexp(r.end) && ':' !in Sexp(r.exact)
    ensures ':' in RangeSexp(r) <==> r.start != Nil || r.end != Nil
  {
    if r.start != Nil || r.end != Nil {
      RangeColonPresent(r);
    } else {
      RangeColonAbsent(r);
    }
  }

  /**
   * A range renders as `()` exactly when it has neither bound and its exact
   * part is nil or renders as nothing; an exact part is separated from an
   * interval by one space.
   */
  lemma RangeEmpty(r: Range)
    ensures RangeSexp(r) == "()" <==> r.start == Nil && r.end == Nil && (r.exact == Nil || Sexp(r.exact) == "")
    ensures r.start != Nil && r.end == Nil && r.exact != Nil ==>
      RangeSexp(r) == "(" + Sexp(r.start) + ": " + Sexp(r.exact) + ")"
  {
  }

  /** The interval part of a range with a bound: each bound present, around a `:`. */
  function Interval(r: Range): string {
    PartText(RangePart(r.start)) + ":" + PartText(RangePart(r.end))
  }

  /** A bound is rendered when present and contributes nothing when nil. */
  lemma PartTexts(e: Expr)
    ensures PartText(RangePart(e)) == if e != Nil then Sexp(e) else ""
  {
  }

  /** With a bound and an exact part, exactly one space separates them. */
  lemma TextBoundExact(lo: Option<string>, hi: Option<string>, exact: Option<string>)
    requires (lo.Some? || hi.Some?) && exact.Some?
    ensures RangeText(lo, hi, exact) == "(" + (PartText(lo) + ":" + PartText(hi)) + (" " + exact.value) + ")"
  {
    var interval := PartText(lo) + ":" + PartText(hi);
    assert |interval| > 0;
    assert RangeText(lo, hi, exact) == "(" + (interval + " ") + exact.value + ")";
  }

  /** With a bound and no exact part, the interval alone fills the group. */
  lemma TextBoundOnly(lo: Option<string>, hi: Option<string>, exact: Option<string>)
    requires (lo.Some? || hi.Some?) && exact.None?
    ensures RangeText(lo, hi, exact) == "(" + (PartText(lo) + ":" + PartText(hi)) + ")"
  {
    assert RangeText(lo, hi, exact) == "(" + (PartText(lo) + ":" + PartText(hi)) + "" + ")";
  }

  /** Without a bound, the exact part (if any) alone fills the group, with no space. */
  lemma TextNoBound(lo: Option<string>, hi: Option<string>, exact: Option<string>)
    requires lo.None? && hi.None?
    ensures RangeText(lo, hi, exact) == "(" + PartText(exact) + ")"
  {
    assert RangeText(lo, hi, exact) == "(" + "" + PartText(exact) + ")";
  }

  /**
   * Whatever bounds are present, one space separates the interval from an
   * exact part, and there is no space when either is missing.
   */
  lemma RangeSpacing(r: Range)
    ensures (r.start != Nil || r.end != Nil) ==>
      RangeSexp(r) == "(" + Interval(r) + (if r.exact != Nil then " " + Sexp(r.exact) else "") + ")"
    ensures r.start == Nil && r.end == Nil ==>
      RangeSexp(r) == "(" + (if r.exact != Nil then Sexp(r.exact) else "") + ")"
  {
    var lo, hi, exact := RangePart(r.start), RangePart(r.end), RangePart(r.exact);
    PartTexts(r.exact);
    if r.start == Nil && r.end == Nil {
      TextNoBound(lo, hi, exact);
    } else if r.exact != Nil {
      TextBoundExact(lo, hi, exact);
    } else {
      TextBoundOnly(lo, hi, exact);
      assert "(" + Interval(r) + ")" == "(" + Interval(r) + "" + ")";
    }
  }
}
