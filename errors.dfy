/**
 * Parse errors: each recorded error is an offset and a message; a list of
 * them prints as a banner followed by one line per error, in recording
 * order.
 */
module ParseErrors {
  import opened Text
  import opened Scanning

  datatype Error = Error(offset: int, msg: string)

  /** The text of a single error, as its `Error()` method formats it. */
  function ErrorText(e: Error): string {
    "numgrad: parser: " + e.msg + " (off " + IntStr(e.offset) + ")"
  }

  /** The banner is printed as written in the source, misspelling included. */
  const Banner: string := "numgrad: parser erorrs:\n"

  /** One report line: `off %5d: %v` and a newline. */
  function Line(e: Error): string {
    "off " + PadLeft(IntStr(e.offset), 5) + ": " + e.msg + "\n"
  }

  function Lines(errs: seq<Error>): string {
    if errs == [] then "" else Lines(errs[..|errs| - 1]) + Line(errs[|errs| - 1])
  }

  /** The text of an error list. */
  function Report(errs: seq<Error>): string {
    Banner + Lines(errs)
  }

  /** Formats an error list into a buffer, line by line, in order. */
  method ErrorsError(errs: seq<Error>) returns (s: string)
    ensures s == Report(errs)
  {
    var buf := Banner;
    ReportEmpty();
    var i := 0;
    while i < |errs|
      invariant 0 <= i <= |errs|
      invariant buf == Report(errs[..i])
    {
      ReportSnoc(errs, i);
      buf := buf + Line(errs[i]);
      i := i + 1;
    }
    assert errs[..i] == errs;
    s := buf;
  }

  lemma ReportEmpty()
    ensures Report([]) == Banner
  {
    assert Lines([]) == "";
  }

  /** One more error adds its line at the end of the report. */
  lemma ReportSnoc(errs: seq<Error>, i: nat)
    requires i < |errs|
    ensures Report(errs[..i + 1]) == Report(errs[..i]) + Line(errs[i])
  {
    assert errs[..i + 1][..i] == errs[..i];
    Assoc(Banner, Lines(errs[..i]), Line(errs[i]));
  }

  lemma Assoc(x: string, y: string, z: string)
    ensures x + (y + z) == (x + y) + z
  {
  }

  /** The number of times `c` occurs in `s`. */
  function Count(s: string, c: char): nat {
    if s == [] then 0 else Count(s[..|s| - 1], c) + (if s[|s| - 1] == c then 1 else 0)
  }

  lemma {:induction false} CountConcat(a: string, b: string, c: char)
    ensures Count(a + b, c) == Count(a, c) + Count(b, c)
    decreases |b|
  {
    if b == [] {
      assert a + b == a;
    } else {
      assert (a + b)[..|a + b| - 1] == a + b[..|b| - 1];
      CountConcat(a, b[..|b| - 1], c);
    }
  }

  lemma {:induction false} CountAbsent(s: string, c: char)
    requires forall i :: 0 <= i < |s| ==> s[i] != c
    ensures Count(s, c) == 0
    decreases |s|
  {
    if s != [] {
      CountAbsent(s[..|s| - 1], c);
    }
  }

  ghost predicate SingleLine(msg: string) {
    forall i :: 0 <= i < |msg| ==> msg[i] != '\n'
  }

  /** A rendered integer holds no newline. */
  lemma IntStrSingleLine(i: int)
    ensures SingleLine(IntStr(i))
  {
    if i < 0 {
      var d := NatStr(-i);
      assert IntStr(i) == "-" + d;
      forall k | 1 <= k < |IntStr(i)|
        ensures IntStr(i)[k] != '\n'
      {
        assert IntStr(i)[k] == d[k - 1];
      }
    }
  }

  /** Padding with spaces adds no newline. */
  lemma PadLeftSingleLine(s: string, width: nat)
    requires SingleLine(s)
    ensures SingleLine(PadLeft(s, width))
  {
    var r := PadLeft(s, width);
    forall k | |r| - |s| <= k < |r|
      ensures r[k] != '\n'
    {
      assert r[k] == r[|r| - |s|..][k - (|r| - |s|)];
    }
  }

  /** A line holds exactly one newline, provided its message holds none. */
  lemma LineNewlines(e: Error)
    requires SingleLine(e.msg)
    ensures Count(Line(e), '\n') == 1
  {
    IntStrSingleLine(e.offset);
    PadLeftSingleLine(IntStr(e.offset), 5);
    CountTerminated("off ", PadLeft(IntStr(e.offset), 5), ": ", e.msg);
  }

  /** Four newline-free pieces and a newline hold exactly one newline. */
  lemma CountTerminated(a: string, b: string, c: string, d: string)
    requires SingleLine(a) && SingleLine(b) && SingleLine(c) && SingleLine(d)
    ensures Count(a + b + c + d + "\n", '\n') == 1
  {
    CountAbsent(a, '\n');
    CountAbsent(b, '\n');
    CountAbsent(c, '\n');
    CountAbsent(d, '\n');
    CountConcat(a, b, '\n');
    CountConcat(a + b, c, '\n');
    CountConcat(a + b + c, d, '\n');
    CountConcat(a + b + c + d, "\n", '\n');
    assert Count("\n", '\n') == 1 by { assert "\n"[..0] == []; }
  }

  lemma BannerNewlines()
    ensures Count(Banner, '\n') == 1
  {
    var text := "numgrad: parser erorrs:";
    assert Banner == text + "\n";
    CountAbsent(text, '\n');
    CountConcat(text, "\n", '\n');
    assert Count("\n", '\n') == 1 by { assert "\n"[..0] == []; }
  }

  /** A report of n single-line errors spans exactly n + 1 lines: the banner and one per error. */
  lemma {:induction false} ReportNewlines(errs: seq<Error>)
    requires forall i :: 0 <= i < |errs| ==> SingleLine(errs[i].msg)
    ensures Count(Report(errs), '\n') == |errs| + 1
    decreases |errs|
  {
    if errs == [] {
      assert Report(errs) == Banner + [];
      assert Banner + [] == Banner;
      BannerNewlines();
    } else {
      var init, last := errs[..|errs| - 1], Line(errs[|errs| - 1]);
      ReportNewlines(init);
      LineNewlines(errs[|errs| - 1]);
      assert Lines(errs) == Lines(init) + last;
      Assoc(Banner, Lines(init), last);
      CountConcat(Report(init), last, '\n');
    }
  }

  /** Reporting more errors only appends their lines: earlier lines are never rewritten. */
  lemma {:induction false} ReportAppend(a: seq<Error>, b: seq<Error>)
    ensures Report(a + b) == Report(a) + Lines(b)
    decreases |b|
  {
    if b == [] {
      assert a + b == a;
    } else {
      var init, last := b[..|b| - 1], Line(b[|b| - 1]);
      assert (a + b)[..|a + b| - 1] == a + init;
      assert Lines(a + b) == Lines(a + init) + last;
      ReportAppend(a, init);
      Assoc(Banner, Lines(a + init), last);
      Assoc(Report(a), Lines(init), last);
    }
  }

  /** Cutting a concatenation of four pieces and a terminator back into its pieces. */
  lemma Pieces(p: string, x: string, q: string, m: string, n: string)
    ensures var l := p + x + q + m + n;
            && l[..|p|] == p
            && l[|p|..|p| + |x|] == x
            && l[|p| + |x|..|p| + |x| + |q|] == q
            && l[|p| + |x| + |q|..|l| - |n|] == m
  {
    var l := p + x + q + m + n;
    assert l == p + (x + (q + (m + n)));
  }

  /**
   * The offset field of a line reads back as the offset: after `off ` come
   * the digits of the offset, right-aligned in at least five characters.
   */
  lemma LineOffset(e: Error)
    requires e.offset >= 0
    ensures var digits := NatStr(e.offset);
            var w := if |digits| >= 5 then |digits| else 5;
            && Line(e)[..4] == "off "
            && (forall i :: 4 <= i < 4 + w - |digits| ==> Line(e)[i] == ' ')
            && DigitsValue(Line(e)[4 + w - |digits|..4 + w]) == e.offset
  {
    var digits := NatStr(e.offset);
    assert IntStr(e.offset) == digits;
    var padded := PadLeft(digits, 5);
    LineShape(e);
    Within(Line(e), 4, 4 + |padded|, padded, |padded| - |digits|);
    NatStrRoundTrip(e.offset);
  }

  /** After the offset field come `: `, the message and the newline. */
  lemma LineMessage(e: Error)
    ensures var w := |PadLeft(IntStr(e.offset), 5)|;
            && Line(e)[4 + w..6 + w] == ": "
            && Line(e)[6 + w..|Line(e)| - 1] == e.msg
            && Line(e)[|Line(e)| - 1] == '\n'
  {
    LineShape(e);
  }

  /** Inside a slice `l[a..b] == p`: the part of p from c on, and the characters before it. */
  lemma Within(l: string, a: nat, b: nat, p: string, c: nat)
    requires a <= b <= |l| && l[a..b] == p && c <= |p|
    ensures l[a + c..b] == p[c..]
    ensures forall i :: a <= i < a + c ==> l[i] == p[i - a]
  {
    forall i | a <= i < a + c
      ensures l[i] == p[i - a]
    {
      assert l[i] == l[a..b][i - a];
    }
  }

  /** Where the four fields of a line sit, whatever the width of its number. */
  lemma LineShape(e: Error)
    ensures var padded := PadLeft(IntStr(e.offset), 5);
            var w, l := |padded|, Line(e);
            && |l| == 7 + w + |e.msg|
            && l[..4] == "off " && l[4..4 + w] == padded
            && l[4 + w..6 + w] == ": " && l[6 + w..|l| - 1] == e.msg
  {
    Pieces("off ", PadLeft(IntStr(e.offset), 5), ": ", e.msg, "\n");
  }

  /** The same reading back for the text of a single error: prefix, message, then ` (off N)`. */
  lemma ErrorTextFields(e: Error)
    requires e.offset >= 0
    ensures var r := ErrorText(e);
            var digits := NatStr(e.offset);
            && r[..17] == "numgrad: parser: "
            && r[17..17 + |e.msg|] == e.msg
            && r[17 + |e.msg|..23 + |e.msg|] == " (off "
            && r[23 + |e.msg|..|r| - 1] == digits
            && DigitsValue(r[23 + |e.msg|..|r| - 1]) == e.offset
            && r[|r| - 1] == ')'
  {
    var digits := NatStr(e.offset);
    Pieces("numgrad: parser: ", e.msg, " (off ", digits, ")");
    NatStrRoundTrip(e.offset);
  }

  /** Why ParseExpr gives up: premature end of input, a scanner error, or the recorded parse errors. */
  datatype Failure = UnexpectedEOF | Scan(err: ScanError) | Errs(errs: seq<Error>)

  function FailureText(f: Failure): string {
    match f
    case UnexpectedEOF => "unexpected EOF"
    case Scan(e) => ScanErrorText(e)
    case Errs(es) => Report(es)
  }
}
