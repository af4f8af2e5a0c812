/**
 * The expression syntax tree and its s-expression rendering (lang/expr).
 *
 * Go's `Expr` interface with eleven pointer-typed implementations becomes
 * one closed datatype. A nil `Expr` interface value is `Nil`; a typed nil
 * pointer of one of the six kinds whose `Sexp` method checks for nil is
 * `NilNode(kind)`. Typed nil pointers of the other five kinds (Bad,
 * FuncLiteral, CompLiteral, TableLiteral, TableIndex) dereference their
 * receiver and panic in Go; they have no value in this datatype.
 */
module Exprs {
  import opened Outcomes
  import opened Tokens
  import opened Text

  /** The dynamic value of a BasicLiteral: a Go string, *big.Int or *big.Float (or nil). */
  datatype Value =
    | NoValue
    | TextValue(s: string)
    | IntValue(i: int)
    | FloatValue(printed: string)   // a *big.Float, carried with its `%s` rendering

  /** A type annotation from the tipe package: nil, or a type with its own rendering. */
  datatype Tipe = NilType | Type(sexp: string)

  /**
   * The type of a FuncLiteral (a *tipe.Func) or a TableLiteral (a *tipe.Table):
   * stored in the tipe.Type interface, it is never the nil interface, so
   * tipeSexp always calls its Sexp method.
   */
  type NodeTipe = t: Tipe | t.Type? witness Type("")

  /** FuncLiteral.Body: nil, a value with a Sexp method, or some other dynamic type. */
  datatype Body = NilBody | Renderable(sexp: string) | Opaque(typeName: string)

  /** The six node kinds whose Sexp method renders a nil receiver as a sentinel. */
  datatype NodeKind = BinaryKind | UnaryKind | SelectorKind | LiteralKind | IdentKind | CallKind

  datatype Expr =
    | Nil
    | NilNode(kind: NodeKind)
    | Binary(op: Token, left: Expr, right: Expr)
    | Unary(op: Token, x: Expr)
    | Bad(error: string)                 // the carried error, as `%v` prints it
    | Selector(operand: Expr, field: Option<string>)   // field: a *Ident, None when nil
    | BasicLiteral(value: Value)
    | FuncLiteral(name: string, receiverName: string, pointerReceiver: bool, tipe: NodeTipe,
                  paramNames: seq<string>, resultNames: seq<string>, body: Body)
    | CompLiteral(compTipe: Tipe, names: seq<string>, elements: seq<Expr>)
    | TableLiteral(tipe: NodeTipe, colNames: seq<Expr>, rows: seq<Row>)
    | Ident(name: string)
    | Call(func: Expr, args: seq<Expr>)
    | TableIndex(table: Expr, names: seq<string>, cols: Range, rowRange: Range)

  /** One row of a TableLiteral. */
  datatype Row = Row(elems: seq<Expr>)

  /** A slice bound; each part may be nil (`Nil`). */
  datatype Range = Range(start: Expr, end: Expr, exact: Expr)

  function Sentinel(k: NodeKind): string {
    match k
    case BinaryKind => "nilbin"
    case UnaryKind => "nilunary"
    case SelectorKind => "nilsel"
    case LiteralKind => "nillit"
    case IdentKind => "nilident"
    case CallKind => "nilcall"
  }

  /** `%T` of a literal value. */
  function ValueType(v: Value): string {
    match v
    case NoValue => "<nil>"
    case TextValue(_) => "string"
    case IntValue(_) => "*big.Int"
    case FloatValue(_) => "*big.Float"
  }

  /** `%s` of a literal value. */
  function ValueStr(v: Value): string {
    match v
    case NoValue => "%!s(<nil>)"
    case TextValue(s) => s
    case IntValue(i) => IntStr(i)
    case FloatValue(p) => p
  }

  /** tipeSexp. */
  function TipeSexp(t: Tipe): string {
    match t
    case NilType => "niltype"
    case Type(s) => s
  }

  /** The body part of a FuncLiteral rendering. */
  function BodySexp(b: Body): string {
    match b
    case NilBody => "nilbody"
    case Renderable(s) => s
    case Opaque(tn) => "badbody:" + tn
  }

  /** strings.Join. */
  function Join(ss: seq<string>, sep: string): string {
    if ss == [] then ""
    else if |ss| == 1 then ss[0]
    else ss[0] + sep + Join(ss[1..], sep)
  }

  /** FuncLiteral.Sexp: a method when the receiver name is non-empty, a func otherwise. */
  function FuncLiteralSexp(name: string, receiverName: string, pointerReceiver: bool,
                           tipe: Tipe, body: Body): string
  {
    if receiverName != "" then
      var pointer := if pointerReceiver then "*" else "";
      "(method (" + (pointer + receiverName + ") " + name + " " + TipeSexp(tipe) + " " + BodySexp(body) + ")")
    else
      "(func " + (name + " " + TipeSexp(tipe) + " " + BodySexp(body) + ")")
  }

  /** The names group of a CompLiteral: empty when there are no names. */
  function NamesGroup(names: seq<string>): string {
    if |names| > 0 then "(" + Join(names, " ") + ")" else ""
  }

  /** The column-name part of a TableIndex: ` "a"|"b"`, or empty. */
  function ColNamesStr(names: seq<string>): string {
    var joined := Join(names, "\"|\"");
    if joined != "" then " \"" + joined + "\"" else ""
  }

  /** exprSexp composed with the dynamic Sexp method of each node kind. */
  function Sexp(e: Expr): (r: string)
    ensures e.Nil? || e.NilNode? || e.Ident? || (|r| > 0 && r[0] == '(')
    decreases e, 1
  {
    match e
    case Nil => "nilexpr"
    case NilNode(k) => Sentinel(k)
    case Binary(op, l, r) => "(" + Name(op) + " " + Sexp(l) + " " + Sexp(r) + ")"
    case Unary(op, x) => "(" + Name(op) + " " + Sexp(x) + ")"
    case Bad(err) => "(bad " + err + ")"
    case Selector(l, r) =>
      "(sel " + Sexp(l) + " " + (match r case None => Sentinel(IdentKind) case Some(n) => n) + ")"
    case BasicLiteral(v) => "(lit " + ValueType(v) + " " + ValueStr(v) + ")"
    case FuncLiteral(name, recv, ptr, t, _, _, body) => FuncLiteralSexp(name, recv, ptr, t, body)
    case CompLiteral(t, names, elems) =>
      "(comp " + TipeSexp(t) + " " + NamesGroup(names) + " " + ExprsStr(elems) + ")"
    case TableLiteral(t, cols, rows) =>
      "(table " + TipeSexp(t) + " " + ExprsStr(cols) + RowsGroup(RowStrs(rows)) + ")"
    case Ident(name) => name
    case Call(f, args) => "(call " + Sexp(f) + " " + ExprsStr(args) + ")"
    case TableIndex(x, names, cols, rows) =>
      "(tableindex " + Sexp(x) + ColNamesStr(names) + " " + RangeSexp(cols) + " " + RangeSexp(rows)
  }

  /** exprsStr: the renderings of `es`, separated by single spaces. */
  function ExprsStr(es: seq<Expr>): string
    decreases es, 0
  {
    if es == [] then ""
    else if |es| == 1 then Sexp(es[0])
    else Sexp(es[0]) + " " + ExprsStr(es[1..])
  }

  /** exprsStr of each row, in order. */
  function RowStrs(rows: seq<Row>): (r: seq<string>)
    ensures |r| == |rows|
    decreases rows, 2
  {
    if rows == [] then [] else [ExprsStr(rows[0].elems)] + RowStrs(rows[1..])
  }

  /** The accumulated `rows` string of TableLiteral.Sexp: " " + exprsStr(row) for each row, given the rows' renderings. */
  function RowsStr(rendered: seq<string>): string {
    if rendered == [] then "" else " " + rendered[0] + RowsStr(rendered[1..])
  }

  /** The rows group of a TableLiteral: the accumulated string without its first space, in parentheses, or empty. */
  function RowsGroup(rendered: seq<string>): string {
    var acc := RowsStr(rendered);
    if acc != "" then " (" + acc[1..] + ")" else ""
  }

  /** The rangeSexp closure of TableIndex.Sexp. */
  function RangeSexp(r: Range): string
    decreases r, 0
  {
    RangeText(RangePart(r.start), RangePart(r.end), RangePart(r.exact))
  }

  /** The rendering of one part of a Range, absent when the part is nil. */
  function RangePart(e: Expr): Option<string>
    decreases e, 2
  {
    if e != Nil then Some(Sexp(e)) else None
  }

  /** A rendered part of a Range, or nothing for an absent one. */
  function PartText(p: Option<string>): string {
    if p.Some? then p.value else ""
  }

  /**
   * The `rangeSexp` closure on the rendered parts: the interval when there
   * is a bound, a space when both an interval and an exact part are there,
   * then the exact part, in one group.
   */
  function RangeText(lo: Option<string>, hi: Option<string>, exact: Option<string>): string {
    var interval := if lo.Some? || hi.Some? then PartText(lo) + ":" + PartText(hi) else "";
    var rs := if exact.Some? && interval != "" then interval + " " else interval;
    "(" + rs + PartText(exact) + ")"
  }
}
