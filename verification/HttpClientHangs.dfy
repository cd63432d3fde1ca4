/**
 * The HTTP client's header loop on header blocks with carriage returns anywhere in them: exactly when it ends inside
 * the block, goes on over the body, or never ends.
 */
module HttpClientHangs {
  import opened Asio
  import opened Streams
  import opened HttpClient
  import opened HttpClientProperties
  import opened HttpClientLimits

  // ----- the lines the loop sees

  /** The lines the header loop sees before it ends or starts to spin. */
  function SeenLines(i: Input): seq<string>
    decreases |i.buf|, i.Good()
  {
    if !i.Good() then []
    else
      var (in1, line) := GetLine(i, '\r', "");
      if line == "" then [] else [line] + SeenLines(Get(in1))
  }

  /** A loop that ends has made the header map of exactly the lines it has seen. */
  lemma {:induction false} SeenLinesMakeHeaders(i: Input, headers: Headers)
    ensures HeaderLoop(i, headers).Ended? ==> HeaderLoop(i, headers).headers == HeaderMap(headers, SeenLines(i))
    decreases |i.buf|, i.Good()
  {
    if i.Good() {
      var (in1, line) := GetLine(i, '\r', "");
      if line != "" { SeenLinesMakeHeaders(Get(in1), AddLine(headers, line)); }
    }
  }

  /** The loop sees a block's own lines exactly when they are free of carriage returns. */
  lemma {:induction false} LinesAreSeenIffCRFree(lines: seq<string>, more: string)
    requires forall i | 0 <= i < |lines| :: lines[i] != ""
    ensures SeenLines(Open(PrintLines(lines) + CRLF + more)) == lines
        <==> forall i | 0 <= i < |lines| :: '\r' !in lines[i]
  {
    SeenAreCRFree(Open(PrintLines(lines) + CRLF + more));
    if forall i | 0 <= i < |lines| :: '\r' !in lines[i] { LinesAreSeen(lines, more); }
  }

  lemma {:induction false} SeenAreCRFree(i: Input)
    ensures forall k | 0 <= k < |SeenLines(i)| :: '\r' !in SeenLines(i)[k]
    decreases |i.buf|, i.Good()
  {
    if i.Good() {
      var (in1, line) := GetLine(i, '\r', "");
      GetLineIsDelimFree(i, '\r', "");
      if line != "" { SeenAreCRFree(Get(in1)); }
    }
  }

  lemma {:induction false} LinesAreSeen(lines: seq<string>, more: string)
    requires AreLines(lines)
    ensures SeenLines(Open(PrintLines(lines) + CRLF + more)) == lines
  {
    if lines == [] {
      LineIsRead("", more);
    } else {
      var rest := PrintLines(lines[1..]) + CRLF + more;
      assert PrintLines(lines) + CRLF + more == lines[0] + CRLF + rest;
      LineIsRead(lines[0], rest);
      LinesAreSeen(lines[1..], more);
    }
  }

  // ----- the loop as a walk over the text, from line to line

  /** The text is what is left of a block that ends in a blank line. */
  predicate EndsBlank(s: string) {
    if |s| >= 4 then s[|s| - 4..] == BLANK_LINE else |s| != 1 && s == BLANK_LINE[4 - |s|..]
  }

  /** A walk from line to line over the text meets an empty line. */
  predicate EndsInside(s: string) {
    var k := IndexOf(s, '\r');
    k < |s| && (k == 0 || (k + 2 <= |s| && EndsInside(s[k + 2..])))
  }

  /** What is behind that empty line. */
  function LeftIn(s: string): string
    requires EndsInside(s)
  {
    if IndexOf(s, '\r') == 0 then AfterFirstLine(s) else LeftIn(AfterFirstLine(s))
  }

  /** The walk over the text meets an empty line, or ends exactly where the text does. */
  predicate Ends(s: string) {
    var k := IndexOf(s, '\r');
    s == "" || (k < |s| && (k == 0 || (k + 2 <= |s| && Ends(s[k + 2..]))))
  }

  /** A block has a CR, its first one at the latest in the blank line, and the byte behind it. */
  lemma BlockHasCR(s: string)
    requires EndsBlank(s) && s != ""
    ensures IndexOf(s, '\r') + (if |s| >= 4 then 4 else 2) <= |s|
  {
    if |s| >= 4 {
      assert s[|s| - 4] == s[|s| - 4..][0];
      IndexOfAtMost(s, '\r', |s| - 4);
    } else {
      IndexOfAtMost(s, '\r', |s| - 2);
    }
  }

  lemma IndexOfAtMost(s: string, c: char, p: nat)
    requires p < |s| && s[p] == c
    ensures IndexOf(s, c) <= p
  {
    var k := IndexOf(s, c);
    assert forall i | 0 <= i < k :: s[..k][i] == s[i];
  }

  lemma RestOfBlock(s: string)
    requires EndsBlank(s) && s != ""
    ensures EndsBlank(AfterFirstLine(s))
  {
    BlockHasCR(s);
    var k := IndexOf(s, '\r') + 2;
    if |s| >= 4 {
      assert forall i | 0 <= i < 4 :: s[|s| - 4 + i] == s[|s| - 4..][i] == BLANK_LINE[i];
      assert |s| - k == 3 ==> s[k..] == BLANK_LINE[1..];
      assert |s| - k == 2 ==> s[k..] == BLANK_LINE[2..];
      assert |s| - k >= 4 ==> s[k..][|s| - k - 4..] == s[|s| - 4..];
    }
  }

  lemma FirstLineOfBlock(s: string, more: string)
    requires EndsBlank(s) && s != ""
    ensures IndexOf(s, '\r') + 2 <= |s| && EndsBlank(AfterFirstLine(s))
    ensures FirstLine(s + more) == FirstLine(s) && AfterFirstLine(s + more) == AfterFirstLine(s) + more
    ensures IndexOf(s + more, '\r') == IndexOf(s, '\r')
  {
    BlockHasCR(s);
    RestOfBlock(s);
    FirstLineStays(s, more);
  }

  lemma LoopRound(s: string, headers: Headers)
    requires s != ""
    ensures HeaderLoop(Open(s), headers)
         == if IndexOf(s, '\r') == 0 then Ended(headers, AfterFirstLine(s))
            else if IndexOf(s, '\r') + 2 <= |s| then HeaderLoop(Open(AfterFirstLine(s)), AddLine(headers, FirstLine(s)))
            else Spins
    ensures SeenLines(Open(s))
         == if IndexOf(s, '\r') == 0 then []
            else if IndexOf(s, '\r') + 2 <= |s| then [FirstLine(s)] + SeenLines(Open(AfterFirstLine(s)))
            else [FirstLine(s)]
  {
    FirstLineIsRead(s);
  }

  lemma NothingSeen()
    ensures SeenLines(Open("")) == []
    ensures forall headers :: HeaderLoop(Open(""), headers) == Ended(headers, "")
  {
  }

  /**
   * The loop on a block and whatever is buffered behind it: it ends inside the block, with the rest of the block put in
   * front of what follows, or it goes on over what follows as if it were header lines.
   */
  lemma {:induction false} BlockPasses(s: string, more: string, headers: Headers)
    requires EndsBlank(s)
    ensures HeaderLoop(Open(s + more), headers)
         == if EndsInside(s) then Ended(HeaderMap(headers, SeenLines(Open(s))), LeftIn(s) + more)
            else HeaderLoop(Open(more), HeaderMap(headers, SeenLines(Open(s))))
    decreases |s|
  {
    if s == "" {
      NothingSeen();
      assert s + more == more;
    } else {
      FirstLineOfBlock(s, more);
      LoopRound(s, headers);
      LoopRound(s + more, headers);
      if IndexOf(s, '\r') > 0 { BlockPasses(AfterFirstLine(s), more, AddLine(headers, FirstLine(s))); }
    }
  }

  /** On any text at all, the loop ends exactly if its walk does. */
  lemma {:induction false} LoopEndsExactly(s: string, headers: Headers)
    ensures HeaderLoop(Open(s), headers).Ended? <==> Ends(s)
    decreases |s|
  {
    if s == "" {
      NothingSeen();
    } else {
      LoopRound(s, headers);
      var k := IndexOf(s, '\r');
      if k > 0 && k + 2 <= |s| { LoopEndsExactly(AfterFirstLine(s), AddLine(headers, FirstLine(s))); }
    }
  }

  ghost predicate AlwaysEnds(s: string, headers: Headers, found: Headers, left: string) {
    forall more :: HeaderLoop(Open(s + more), headers) == Ended(found, left + more)
  }

  /** What has arrived behind a block does not matter to the loop exactly if it ends inside the block. */
  lemma {:induction false} BlockIsTimingFreeExactly(s: string, headers: Headers)
    requires EndsBlank(s)
    ensures (exists found, left :: AlwaysEnds(s, headers, found, left)) <==> EndsInside(s)
  {
    if EndsInside(s) {
      forall more
        ensures HeaderLoop(Open(s + more), headers) == Ended(HeaderMap(headers, SeenLines(Open(s))), LeftIn(s) + more)
      {
        BlockPasses(s, more, headers);
      }
      assert AlwaysEnds(s, headers, HeaderMap(headers, SeenLines(Open(s))), LeftIn(s));
    } else {
      BlockPasses(s, "z", headers);
      LoopEndsExactly("z", HeaderMap(headers, SeenLines(Open(s))));
    }
  }

  // ----- whole responses

  /** A header block as `read_until` finds it: as far as the first blank line. */
  predicate IsBlock(b: string) {
    |b| >= 4 && Find(b, BLANK_LINE) == Some(|b| - 4)
  }

  /** What the loop comes to if it goes on over the first `k` bytes of the body. */
  function LoopOverBody(code: nat, message: string, headers: Headers, body: string, ending: ErrorCode, k: nat): Outcome
    requires k <= |body|
  {
    match HeaderLoop(Open(body[..k]), headers)
    case Spins => Hangs
    case Ended(more, left) => Completed(BodyResult(ending), code, message, more, left + body[k..])
  }

  /** What the client makes of a block, and of a body of which `k` bytes have arrived with it. */
  function BlockOutcome(code: nat, message: string, b: string, body: string, ending: ErrorCode, k: nat): Outcome
    requires k <= |body|
  {
    var headers := HeaderMap(map[], SeenLines(Open(b)));
    if EndsInside(b) then Completed(BodyResult(ending), code, message, headers, LeftIn(b) + body)
    else LoopOverBody(code, message, headers, body, ending, k)
  }

  lemma BlockIsFound(b: string, body: string)
    requires IsBlock(b)
    ensures EndsBlank(b) && Find(b + body, BLANK_LINE) == Some(|b| - 4)
  {
    assert (b + body)[..|b|] == b;
    FindInPrefix(b + body, BLANK_LINE, |b|);
  }

  /** Every header block with every body, however they arrive. */
  lemma {:induction false} HeadersExactly(code: nat, message: string, b: string, body: string, ending: ErrorCode,
      rest: string, tail: string, m: nat)
    returns (k: nat)
    requires IsBlock(b) && rest + tail == b + body && BufferedHeaders(rest, tail, m)
    ensures k <= |body| && |b| + k == |rest| + m
    ensures ReceiveHeaders(code, message, rest, tail, ending, m) == BlockOutcome(code, message, b, body, ending, k)
  {
    BlockIsFound(b, body);
    var more := HeadArrives(b, body, rest, tail, m);
    k := |more|;
    assert more == body[..k] && tail[m..] == body[k..];
    BlockPasses(b, more, map[]);
    if EndsInside(b) { Regroup(LeftIn(b), more, tail[m..]); }
  }

  /** The same for whole responses whose first line, CR or no CR, itself decides that it is a good status line. */
  lemma {:induction false} ResponseExactly(line: string, tail: string, b: string, body: string, ending: ErrorCode,
      n: nat, m: nat)
    returns (k: nat)
    requires !Contains(line, CRLF) && Settled(line) && LineVerdict(line).GoodStatus?
    requires IsBlock(b) && LineVerdict(line).rest + tail == b + body && Buffered(line + CRLF + tail, n, m)
    ensures k <= |body|
    ensures Receive(line + CRLF + tail, ending, n, m)
         == BlockOutcome(LineVerdict(line).code, LineVerdict(line).message, b, body, ending, k)
    ensures |line + CRLF| + |b| + k == n + m + |LineVerdict(line).rest|
  {
    SettledLineInStream(line, tail, ending, n, m);
    var left, p := LineVerdict(line).rest, n - |line| - 2;
    LineEndIsFirst(line, tail);
    var more := FirstLineArrives(line, tail, n);
    SettledParses(line, more);
    Regroup(left, tail[..p], tail[p..]);
    assert tail[..p] + tail[p..] == tail && (line + CRLF + tail)[n..] == tail[p..] && more == tail[..p];
    k := HeadersExactly(LineVerdict(line).code, LineVerdict(line).message, b, body, ending,
                        left + tail[..p], tail[p..], m);
  }

  /** A block in which the loop does not end, and a piece of what follows in which it does not end either. */
  predicate HangingPieces(b: string, piece: string) {
    IsBlock(b) && !EndsInside(b) && !Ends(piece)
  }

  /** What follows a status line hangs the client if its first `n` bytes are buffered when the headers are parsed. */
  ghost predicate Hanging(text: string, n: nat) {
    exists b, piece, later :: HangingPieces(b, piece) && text == b + (piece + later) && |b| + |piece| == n
  }

  lemma BlockHangsExactly(code: nat, message: string, b: string, piece: string, later: string, ending: ErrorCode)
    ensures BlockOutcome(code, message, b, piece + later, ending, |piece|) == Hangs <==> !EndsInside(b) && !Ends(piece)
  {
    assert (piece + later)[..|piece|] == piece;
    LoopEndsExactly(piece, HeaderMap(map[], SeenLines(Open(b))));
  }

  /** However the bytes arrive: exactly when the client hangs on a block and what follows it. */
  lemma {:induction false} HangsBehindBlock(code: nat, message: string, b: string, piece: string, later: string,
      ending: ErrorCode, rest: string, tail: string, m: nat)
    requires IsBlock(b) && rest + tail == b + (piece + later) && |b| + |piece| == |rest| + m
    requires BufferedHeaders(rest, tail, m)
    ensures ReceiveHeaders(code, message, rest, tail, ending, m) == Hangs <==> HangingPieces(b, piece)
  {
    var k := HeadersExactly(code, message, b, piece + later, ending, rest, tail, m);
    BlockHangsExactly(code, message, b, piece, later, ending);
  }

  lemma Pieces(text: string, n: nat) returns (b: string, piece: string, later: string)
    requires n <= |text| && Contains(text[..n], BLANK_LINE)
    ensures IsBlock(b) && text == b + (piece + later) && |b| + |piece| == n
  {
    FindInPrefix(text, BLANK_LINE, n);
    var p := Find(text, BLANK_LINE).value + 4;
    FindInPrefix(text, BLANK_LINE, p);
    b, piece, later := text[..p], text[p..n], text[n..];
  }

  /** For everything that can follow a status line, and every way it arrives. */
  lemma {:induction false} HangsExactly(code: nat, message: string, rest: string, tail: string, ending: ErrorCode,
      m: nat)
    requires BufferedHeaders(rest, tail, m)
    ensures ReceiveHeaders(code, message, rest, tail, ending, m) == Hangs <==> Hanging(rest + tail, |rest| + m)
  {
    if ReceiveHeaders(code, message, rest, tail, ending, m) == Hangs {
      PrefixOfBoth(rest, tail, m);
      var b, piece, later := Pieces(rest + tail, |rest| + m);
      HangsBehindBlock(code, message, b, piece, later, ending, rest, tail, m);
    }
    if Hanging(rest + tail, |rest| + m) {
      var b, piece, later :|
        HangingPieces(b, piece) && rest + tail == b + (piece + later) && |b| + |piece| == |rest| + m;
      HangsBehindBlock(code, message, b, piece, later, ending, rest, tail, m);
    }
  }

  ghost predicate HangingAfter(parsed: StatusLine, tail: string, m: nat) {
    parsed.GoodStatus? && Hanging(parsed.rest + tail, |parsed.rest| + m)
  }

  lemma AfterStatusLineHangs(parsed: StatusLine, tail: string, ending: ErrorCode, m: nat)
    requires m <= |tail| && (parsed.GoodStatus? ==> BufferedHeaders(parsed.rest, tail, m))
    ensures AfterStatusLine(parsed, tail, ending, m) == Hangs <==> HangingAfter(parsed, tail, m)
  {
    if parsed.GoodStatus? { HangsExactly(parsed.code, parsed.message, parsed.rest, tail, ending, m); }
  }

  /** For every stream and every way it arrives. */
  lemma {:induction false} ReceiveHangsExactly(stream: string, ending: ErrorCode, n: nat, m: nat)
    requires Buffered(stream, n, m)
    ensures Receive(stream, ending, n, m) == Hangs
        <==> Contains(stream, CRLF) && HangingAfter(ParseStatusLine(stream[..n]), stream[n..], m)
  {
    if Contains(stream, CRLF) { AfterStatusLineHangs(ParseStatusLine(stream[..n]), stream[n..], ending, m); }
  }

  // ----- a CR at the end of the last header line

  /** A header line with a CR at its end, and the blank line behind it. */
  function BadEnd(line: string): string {
    line + "\r" + BLANK_LINE
  }

  lemma BlankLineBehindBadEnd(line: string, body: string)
    requires IsLine(line)
    ensures Find(BadEnd(line) + body, BLANK_LINE) == Some(|line| + 1)
  {
    var all := BadEnd(line) + body;
    assert all[|line| + 1..|line| + 5] == BLANK_LINE && all[|line| + 1] == '\r';
    forall j: nat | j < |line| + 1 ensures !At(all, BLANK_LINE, j) {
      if j < |line| {
        assert all[j] == line[j];
        DiffersAt(all, BLANK_LINE, j, 0);
      } else {
        DiffersAt(all, BLANK_LINE, j, 1);
      }
    }
    FirstAtIsUnique(all, BLANK_LINE, |line| + 1);
  }

  lemma {:induction false} LinesPass(lines: seq<string>, headers: Headers, text: string)
    requires AreLines(lines)
    ensures HeaderLoop(Open(PrintLines(lines) + text), headers) == HeaderLoop(Open(text), HeaderMap(headers, lines))
    decreases |lines|
  {
    if lines == [] {
      assert PrintLines(lines) + text == text;
    } else {
      Regroup(lines[0] + CRLF, PrintLines(lines[1..]), text);
      LineIsRead(lines[0], PrintLines(lines[1..]) + text);
      LinesPass(lines[1..], AddLine(headers, lines[0]), text);
    }
  }

  /** The loop swallows the blank line behind a bad line, and goes on reading. */
  lemma BadEndPasses(line: string, headers: Headers, more: string)
    requires IsLine(line)
    ensures HeaderLoop(Open(BadEnd(line) + more), headers) == HeaderLoop(Open(more), AddLine(headers, line))
  {
    var rest := "\n" + ['\r'] + ("\n" + more);
    assert BadEnd(line) + more == line + ['\r'] + ("\r" + rest);
    GetLineUpTo(line, '\r', "\r" + rest, "");
    assert ("\r" + rest)[1..] == rest;
    GetLineUpTo("\n", '\r', "\n" + more, "");
    assert ("\n" + more)[1..] == more;
  }

  function BadBlock(lines: seq<string>, line: string): string {
    PrintLines(lines) + BadEnd(line)
  }

  lemma BadBlockIsFound(lines: seq<string>, line: string, body: string)
    requires AreLines(lines) && IsLine(line)
    ensures Find(BadBlock(lines, line) + body, BLANK_LINE) == Some(|BadBlock(lines, line)| - 4)
  {
    BlankLineBehindBadEnd(line, body);
    BlankLineBehindLines(lines, BadEnd(line) + body, |line| + 1);
    Regroup(PrintLines(lines), BadEnd(line), body);
  }

  lemma BadBlockPasses(lines: seq<string>, line: string, more: string)
    requires AreLines(lines) && IsLine(line)
    ensures HeaderLoop(Open(BadBlock(lines, line) + more), map[])
         == HeaderLoop(Open(more), HeaderMap(map[], lines + [line]))
  {
    Regroup(PrintLines(lines), BadEnd(line), more);
    LinesPass(lines, map[], BadEnd(line) + more);
    BadEndPasses(line, HeaderMap(map[], lines), more);
    OneMoreLine(map[], lines, line);
  }

  lemma {:induction false} BadBlockInTail(code: nat, message: string, lines: seq<string>, line: string, body: string,
      ending: ErrorCode, rest: string, tail: string, m: nat)
    returns (k: nat)
    requires AreLines(lines) && IsLine(line)
    requires rest + tail == BadBlock(lines, line) + body && BufferedHeaders(rest, tail, m)
    ensures k <= |body| && |BadBlock(lines, line)| + k == |rest| + m
    ensures ReceiveHeaders(code, message, rest, tail, ending, m)
         == LoopOverBody(code, message, HeaderMap(map[], lines + [line]), body, ending, k)
  {
    BadBlockIsFound(lines, line, body);
    var more := HeadArrives(BadBlock(lines, line), body, rest, tail, m);
    k := |more|;
    assert more == body[..k] && tail[m..] == body[k..];
    BadBlockPasses(lines, line, more);
  }

  function BadHead(r: Response, line: string): string {
    StatusText(r) + CRLF + BadBlock(r.lines, line)
  }

  /** Such a response comes to what the loop makes of as much of the body as has arrived. */
  lemma {:induction false} BadEndReadsBody(r: Response, line: string, body: string, ending: ErrorCode, n: nat, m: nat)
    returns (k: nat)
    requires HasStatus(r) && AreLines(r.lines) && IsLine(line) && Buffered(BadHead(r, line) + body, n, m)
    ensures k <= |body| && |BadHead(r, line)| + k == n + m
    ensures Receive(BadHead(r, line) + body, ending, n, m)
         == LoopOverBody(r.code, " " + r.reason, HeaderMap(map[], r.lines + [line]), body, ending, k)
  {
    var tail := BadBlock(r.lines, line) + body;
    Regroup(StatusText(r) + CRLF, BadBlock(r.lines, line), body);
    var rest := StatusLineInStream(r, tail, n);
    k := BadBlockInTail(r.code, " " + r.reason, r.lines, line, body, ending,
                        rest, (StatusText(r) + CRLF + tail)[n..], m);
  }

  /**
   * With a CR at the end of its last header line, a response whose body has no CR hangs the client exactly if some of
   * the body has arrived by the time the headers are parsed. Otherwise it completes as if the CR were not there.
   */
  lemma {:induction false} BareCRHangsExactly(r: Response, line: string, body: string, ending: ErrorCode,
      n: nat, m: nat)
    requires HasStatus(r) && AreLines(r.lines) && IsLine(line) && '\r' !in body
    requires Buffered(BadHead(r, line) + body, n, m)
    ensures Receive(BadHead(r, line) + body, ending, n, m)
         == if n + m > |BadHead(r, line)| then Hangs
            else Completed(BodyResult(ending), r.code, " " + r.reason,
                           HeaderMap(map[], r.lines + [line]), body)
  {
    var k := BadEndReadsBody(r, line, body, ending, n, m);
    LoopOverCRFree(r.code, " " + r.reason, HeaderMap(map[], r.lines + [line]), body, ending, k);
  }

  lemma LoopOverCRFree(code: nat, message: string, headers: Headers, body: string, ending: ErrorCode, k: nat)
    requires k <= |body| && '\r' !in body
    ensures LoopOverBody(code, message, headers, body, ending, k)
         == if k > 0 then Hangs else Completed(BodyResult(ending), code, message, headers, body)
  {
    var piece := body[..k];
    assert piece[..|piece|] == piece;
    IndexOfIs(piece, '\r', |piece|);
    assert GetLine(Open(piece), '\r', "") == (Input("", true, piece == ""), piece);
    assert HeaderLoop(Open(piece), headers) == if piece == "" then Ended(headers, "") else Spins;
    assert k == 0 ==> "" + body[k..] == body;
  }

  lemma {:induction false} OneMoreLine(headers: Headers, lines: seq<string>, line: string)
    ensures HeaderMap(headers, lines + [line]) == AddLine(HeaderMap(headers, lines), line)
    decreases |lines|
  {
    if lines != [] {
      assert (lines + [line])[1..] == lines[1..] + [line];
      OneMoreLine(AddLine(headers, lines[0]), lines[1..], line);
    }
  }

  /** Such responses can be received: the client hangs if all of the response arrives at once. */
  lemma HangOccurs(r: Response, line: string, body: string, ending: ErrorCode)
    requires HasStatus(r) && AreLines(r.lines) && IsLine(line) && '\r' !in body && body != ""
    ensures
      var stream := BadHead(r, line) + body;
      Buffered(stream, |stream|, 0) && Receive(stream, ending, |stream|, 0) == Hangs
  {
    var stream := BadHead(r, line) + body;
    assert stream[..|stream|] == stream && stream[|stream|..] == "";
    BareCRHangsExactly(r, line, body, ending, |stream|, 0);
  }
}
