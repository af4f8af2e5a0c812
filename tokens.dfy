/**
 * The token kinds the expression parser looks at, their printed names and the
 * operator table's contract. The token package itself (its enum and its
 * Precedence and String methods) is not part of this model: the kinds the
 * parser names are listed here, every other kind is `Other`, and the
 * precedence table is a parameter: one level per binary operator.
 */
module Tokens {

  datatype Token =
    | Eof          // what the scanner reports once the input is exhausted
    | Comment
    | Identifier
    | Int | Float | Imaginary | String
    | Add | Sub | Mul | Div | Rem | Pow
    | And | Or | Equal | NotEqual | Less | Greater
    | Not | Ref
    | LeftParen | RightParen | LeftBracket | RightBracket | LeftBrace | RightBrace
    | Period | Comma
    | Other(name: string)
  {
    /** The infix operators a Binary node may carry. */
    predicate IsBinaryOperator() {
      this in {Add, Sub, Mul, Div, Rem, Pow, And, Or, Equal, NotEqual, Less, Greater}
    }
  }

  predicate IsLetter(c: char) {
    'A' <= c <= 'Z' || 'a' <= c <= 'z'
  }

  /** Token.String(): the printed name used by `%s` and `%q`; every fixed name is a non-empty word. */
  function Name(t: Token): (r: string)
    ensures !t.Other? ==> |r| > 0
  {
    match t
    case Eof => "EOF"
    case Comment => "Comment"
    case Identifier => "Identifier"
    case Int => "Int"
    case Float => "Float"
    case Imaginary => "Imaginary"
    case String => "String"
    case Add => "Add"
    case Sub => "Sub"
    case Mul => "Mul"
    case Div => "Div"
    case Rem => "Rem"
    case Pow => "Pow"
    case And => "And"
    case Or => "Or"
    case Equal => "Equal"
    case NotEqual => "NotEqual"
    case Less => "Less"
    case Greater => "Greater"
    case Not => "Not"
    case Ref => "Ref"
    case LeftParen => "LeftParen"
    case RightParen => "RightParen"
    case LeftBracket => "LeftBracket"
    case RightBracket => "RightBracket"
    case LeftBrace => "LeftBrace"
    case RightBrace => "RightBrace"
    case Period => "Period"
    case Comma => "Comma"
    case Other(n) => n
  }

  /** The name of an infix operator is a word of letters. */
  lemma OperatorNameIsWord(t: Token)
    requires t.IsBinaryOperator()
    ensures forall i :: 0 <= i < |Name(t)| ==> IsLetter(Name(t)[i])
  {
  }

  /** Every fixed token name is a word of letters: it never holds a parenthesis, quote or space. */
  lemma NameIsWord(t: Token)
    requires !t.Other?
    ensures forall i :: 0 <= i < |Name(t)| ==> IsLetter(Name(t)[i])
  {
    if t.IsBinaryOperator() {
      OperatorNameIsWord(t);
    }
  }

  /** `%q` of a token: its name in double quotes. */
  function Quoted(t: Token): (r: string)
    ensures |r| == |Name(t)| + 2 && r[0] == '"' && r[|r| - 1] == '"'
    ensures r[1..|r| - 1] == Name(t)
  {
    "\"" + Name(t) + "\""
  }

  /**
   * For every fixed token, plain quoting is already what `%q` prints: no
   * character between the delimiting quotes needs a backslash escape.
   */
  lemma QuotedNeedsNoEscape(t: Token)
    requires !t.Other?
    ensures var q := Quoted(t);
      forall i :: 0 < i < |q| - 1 ==> q[i] != '"' && q[i] != '\\' && ' ' <= q[i] <= '~'
  {
    NameIsWord(t);
    var q := Quoted(t);
    forall i | 0 < i < |q| - 1
      ensures q[i] != '"' && q[i] != '\\' && ' ' <= q[i] <= '~'
    {
      assert q[i] == q[1..|q| - 1][i - 1] == Name(t)[i - 1];
    }
  }

  /**
   * The operator table: the precedence level of each binary operator. The
   * levels themselves belong to the token package, so they are a parameter.
   */
  datatype Precedences = Precedences(
    add: nat, sub: nat, mul: nat, div: nat, rem: nat, pow: nat,
    and: nat, or: nat, equal: nat, notEqual: nat, less: nat, greater: nat)

  /** Token.Precedence(): the operator's level; every token that is not a binary operator has 0. */
  function Prec(prec: Precedences, t: Token): nat {
    match t
    case Add => prec.add
    case Sub => prec.sub
    case Mul => prec.mul
    case Div => prec.div
    case Rem => prec.rem
    case Pow => prec.pow
    case And => prec.and
    case Or => prec.or
    case Equal => prec.equal
    case NotEqual => prec.notEqual
    case Less => prec.less
    case Greater => prec.greater
    case _ => 0
  }
}
