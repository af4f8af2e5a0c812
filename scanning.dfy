/**
 * The token source the parser reads from.
 *
 * The scanner itself is not part of this model: its output is given as a
 * finished sequence of lexemes, followed by the error it reports once the
 * input is exhausted (end of input or a lexing error). A cursor walks the
 * sequence; cursor 0 is the fresh scanner, cursor i (1 <= i <= |toks|)
 * stands on toks[i-1], and cursor |toks|+1 is past the end, where the
 * current token is Eof and the scanner error is set.
 */
module Scanning {
  import opened Outcomes
  import opened Tokens
  import opened Exprs

  /** What the scanner reports once it has no token left: io.EOF, or a lexing error. */
  datatype ScanError = EOF | LexError(msg: string)

  /**
   * One scanned token: its kind, its literal value, its byte offset, and
   * whether the scanner still had input left to read after it.
   */
  datatype Lexeme = Lexeme(tok: Token, lit: Value, offset: int, more: bool)

  datatype Stream = Stream(toks: seq<Lexeme>, tail: ScanError, endOffset: int)

  /** The error text the scanner error carries. */
  function ScanErrorText(e: ScanError): string {
    match e
    case EOF => "EOF"
    case LexError(m) => m
  }

  /** The lexeme the scanner shows at a cursor; past the end it is an Eof with no input left. */
  function CurLexeme(src: Stream, cur: nat): (l: Lexeme)
    ensures cur > |src.toks| ==> l.tok == Eof && !l.more && l.offset == src.endOffset
  {
    if 0 < cur <= |src.toks| then src.toks[cur - 1] else Lexeme(Eof, NoValue, src.endOffset, false)
  }

  /** The cursor after one call of Next: it moves by one until it is past the end, then stays. */
  function NextCur(src: Stream, cur: nat): (c: nat)
    ensures cur <= |src.toks| ==> c == cur + 1
    ensures cur > |src.toks| ==> c == cur
  {
    if cur <= |src.toks| then cur + 1 else cur
  }

  /** The scanner error at a cursor: set exactly when the cursor is past the last token. */
  function ScanErr(src: Stream, cur: nat): (e: Option<ScanError>)
    ensures e.Some? <==> cur > |src.toks|
  {
    if cur > |src.toks| then Some(src.tail) else None
  }

  /** A token other than Eof can only be shown before the end. */
  lemma NotEofInside(src: Stream, cur: nat)
    requires CurLexeme(src, cur).tok != Eof
    ensures cur <= |src.toks|
  {
  }

  class Scanner {
    const src: Stream
    var cur: nat

    ghost predicate Valid()
      reads this
    {
      cur <= |src.toks| + 1
    }

    constructor (src: Stream)
      ensures Valid() && this.src == src && cur == 0
    {
      this.src := src;
      cur := 0;
    }

    function Tok(): Token
      reads this
    {
      CurLexeme(src, cur).tok
    }

    function Literal(): Value
      reads this
    {
      CurLexeme(src, cur).lit
    }

    function Offset(): int
      reads this
    {
      CurLexeme(src, cur).offset
    }

    function More(): bool
      reads this
    {
      CurLexeme(src, cur).more
    }

    function Err(): Option<ScanError>
      reads this
    {
      ScanErr(src, cur)
    }

    /** Scans the next token; returns (and keeps) the scanner error once the input is exhausted. */
    method Next() returns (err: Option<ScanError>)
      requires Valid()
      modifies this
      ensures Valid()
      ensures cur == NextCur(src, old(cur))
      ensures err == Err()
    {
      if cur <= |src.toks| {
        cur := cur + 1;
      }
      err := ScanErr(src, cur);
    }
  }
}
