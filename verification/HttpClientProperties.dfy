/** What the HTTP client makes of well-formed responses, however their bytes arrive. */
module HttpClientProperties {
  import opened Asio
  import opened Streams
  import opened HttpClient
  import opened Numbers

  // ----- responses as section 3.1.2 and section 3.2 of RFC 7230 print them

  /** A response whose status code is printed with `width` digits; the RFC has three. */
  datatype Response = Response(code: nat, width: nat, reason: string, lines: seq<string>)

  predicate IsLine(line: string) {
    line != "" && '\r' !in line
  }

  predicate AreLines(lines: seq<string>) {
    forall i | 0 <= i < |lines| :: IsLine(lines[i])
  }

  predicate HasStatus(r: Response) {
    0 < r.width && r.code < Power10(r.width) && r.code < 4294967296 && '\r' !in r.reason
  }

  predicate WellFormed(r: Response) {
    HasStatus(r) && r.lines != [] && AreLines(r.lines)
  }

  function PrintLines(lines: seq<string>): string {
    if lines == [] then "" else lines[0] + CRLF + PrintLines(lines[1..])
  }

  function StatusText(r: Response): string {
    "HTTP/1.1" + " " + Printed(r.code, r.width) + " " + r.reason
  }

  function PrintHead(r: Response): string {
    StatusText(r) + CRLF + PrintLines(r.lines) + CRLF
  }

  /** The headers of a list of lines, the first one first. */
  function HeaderMap(headers: Headers, lines: seq<string>): Headers
    decreases |lines|
  {
    if lines == [] then headers else HeaderMap(AddLine(headers, lines[0]), lines[1..])
  }

  // ----- the header map by itself: for every name the last line with that name wins

  ghost predicate Names(line: string, name: string) {
    IndexOf(line, ':') < |line| && line[..IndexOf(line, ':')] == name
  }

  function ValueIn(line: string): string
    requires IndexOf(line, ':') < |line|
  {
    line[IndexOf(line, ':') + 1..]
  }

  lemma {:induction false} LastLineWins(headers: Headers, lines: seq<string>, name: string, i: nat)
    requires i < |lines| && Names(lines[i], name)
    requires forall j :: i < j < |lines| ==> !Names(lines[j], name)
    ensures name in HeaderMap(headers, lines) && HeaderMap(headers, lines)[name] == ValueIn(lines[i])
    decreases |lines|
  {
    if i > 0 {
      LastLineWins(AddLine(headers, lines[0]), lines[1..], name, i - 1);
    } else {
      UnnamedStays(AddLine(headers, lines[0]), lines[1..], name);
    }
  }

  lemma {:induction false} UnnamedStays(headers: Headers, lines: seq<string>, name: string)
    requires forall j :: 0 <= j < |lines| ==> !Names(lines[j], name)
    ensures name in HeaderMap(headers, lines) <==> name in headers
    ensures name in headers ==> HeaderMap(headers, lines)[name] == headers[name]
    decreases |lines|
  {
    if lines != [] {
      assert !Names(lines[0], name);
      UnnamedStays(AddLine(headers, lines[0]), lines[1..], name);
    }
  }

  // ----- the two parsers on printed text

  lemma StatusLineParses(r: Response, more: string)
    requires HasStatus(r)
    ensures ParseStatusLine(StatusText(r) + CRLF + more) == GoodStatus(r.code, " " + r.reason, more)
  {
    var buf := StatusText(r) + CRLF + more;
    var afterCode := " " + r.reason + CRLF + more;
    var afterVersion := " " + Printed(r.code, r.width) + afterCode;
    assert buf == "HTTP/1.1" + afterVersion;
    VersionIsExtracted(afterVersion);
    CodeParses(r.code, r.width);
    ExtractNextWord(Printed(r.code, r.width), afterCode, "");
    LineIsRead(" " + r.reason, more);
  }

  lemma VersionIsExtracted(rest: string)
    requires rest != "" && IsSpace(rest[0])
    ensures Extract(Open("HTTP/1.1" + rest), "") == (Open(rest), "HTTP/1.1")
  {
    ExtractWord("HTTP/1.1", rest, "");
  }

  /** Reading a line: `getline` up to the CR, and `get` for the LF. */
  lemma LineIsRead(line: string, more: string)
    requires '\r' !in line
    ensures
      var (i, text) := GetLine(Open(line + CRLF + more), '\r', "");
      text == line && Get(i) == Open(more)
  {
    assert line + CRLF + more == line + ['\r'] + ("\n" + more);
    GetLineUpTo(line, '\r', "\n" + more, "");
    assert ("\n" + more)[1..] == more;
  }

  lemma {:induction false} CodeParses(k: nat, width: nat)
    requires 0 < width && k < Power10(width) && k < 4294967296
    ensures SpaceFree(Printed(k, width)) && '\r' !in Printed(k, width) && Stoul(Printed(k, width)) == Some(k)
  {
    var word := Printed(k, width);
    PrintedIsRead(k, width);
    assert word + "" == word && IsDigit(word[0]);
    StoulOfNumber(word, k, width, "");
  }

  /** On CR-free lines the loop ends exactly behind the blank line, with every line taken into account in order. */
  lemma {:induction false} HeaderLoopEnds(lines: seq<string>, headers: Headers, more: string)
    requires AreLines(lines)
    ensures HeaderLoop(Open(PrintLines(lines) + CRLF + more), headers) == Ended(HeaderMap(headers, lines), more)
  {
    if lines == [] {
      assert PrintLines(lines) + CRLF + more == "" + CRLF + more;
      LineIsRead("", more);
    } else {
      var rest := PrintLines(lines[1..]) + CRLF + more;
      assert PrintLines(lines) + CRLF + more == lines[0] + CRLF + rest;
      LineIsRead(lines[0], rest);
      HeaderLoopEnds(lines[1..], AddLine(headers, lines[0]), more);
    }
  }

  /** Lines in front of a text that does not begin with a CR add no blank line. */
  lemma {:induction false} BlankLineBehindLines(lines: seq<string>, text: string, k: nat)
    requires AreLines(lines) && text != "" && text[0] != '\r' && Find(text, BLANK_LINE) == Some(k)
    ensures Find(PrintLines(lines) + text, BLANK_LINE) == Some(|PrintLines(lines)| + k)
  {
    if lines == [] {
      assert PrintLines(lines) + text == text;
    } else {
      BlankLineBehindLines(lines[1..], text, k);
      LinesStartWithoutCR(lines[1..], text);
      BlankLineBehindLine(lines[0], PrintLines(lines[1..]) + text, |PrintLines(lines[1..])| + k);
      Regroup(lines[0] + CRLF, PrintLines(lines[1..]), text);
    }
  }

  lemma LinesStartWithoutCR(lines: seq<string>, text: string)
    requires AreLines(lines) && text != "" && text[0] != '\r'
    ensures PrintLines(lines) + text != "" && (PrintLines(lines) + text)[0] != '\r'
  {
    assert lines != [] ==> (PrintLines(lines) + text)[0] == lines[0][0];
  }

  lemma Regroup(a: string, b: string, c: string)
    ensures a + b + c == a + (b + c)
  {
  }

  lemma BlankLineBehindLine(line: string, rest: string, k: nat)
    requires '\r' !in line && rest != "" && rest[0] != '\r' && Find(rest, BLANK_LINE) == Some(k)
    ensures Find(line + CRLF + rest, BLANK_LINE) == Some(|line| + 2 + k)
  {
    var p := |line + CRLF|;
    AtBehind(line + CRLF, rest, BLANK_LINE, k);
    forall j: nat | j < p + k ensures !At(line + CRLF + rest, BLANK_LINE, j) {
      if j < p { NoBlankLineAcross(line, rest, j); } else { AtBehind(line + CRLF, rest, BLANK_LINE, j - p); }
    }
    FirstAtIsUnique(line + CRLF + rest, BLANK_LINE, p + k);
  }

  lemma NoBlankLineAcross(line: string, rest: string, j: nat)
    requires '\r' !in line && rest != "" && rest[0] != '\r' && j < |line| + 2
    ensures !At(line + CRLF + rest, BLANK_LINE, j)
  {
    var all := line + CRLF + rest;
    if j == |line| {
      assert all[j + 2] == rest[0];
      DiffersAt(all, BLANK_LINE, j, 2);
    } else {
      assert all[j] == if j < |line| then line[j] else '\n';
      DiffersAt(all, BLANK_LINE, j, 0);
    }
  }

  lemma BlankLineBehindLast(line: string, more: string)
    requires '\r' !in line
    ensures Find(line + BLANK_LINE + more, BLANK_LINE) == Some(|line|)
  {
    var all := line + BLANK_LINE + more;
    assert all[|line|..|line| + 4] == BLANK_LINE;
    forall j: nat | j < |line| ensures !At(all, BLANK_LINE, j) {
      assert all[j] == line[j];
      DiffersAt(all, BLANK_LINE, j, 0);
    }
    FirstAtIsUnique(all, BLANK_LINE, |line|);
  }

  lemma BlankLineBehindAll(lines: seq<string>, last: string, more: string)
    requires AreLines(lines) && IsLine(last)
    ensures Find(PrintLines(lines) + (last + BLANK_LINE + more), BLANK_LINE) == Some(|PrintLines(lines)| + |last|)
  {
    BlankLineBehindLast(last, more);
    BlankLineBehindLines(lines, last + BLANK_LINE + more, |last|);
  }

  lemma BlankLineIsFound(lines: seq<string>, more: string)
    requires lines != [] && AreLines(lines)
    ensures |PrintLines(lines)| >= 2
    ensures Find(PrintLines(lines) + CRLF + more, BLANK_LINE) == Some(|PrintLines(lines)| - 2)
  {
    var front, last := lines[..|lines| - 1], lines[|lines| - 1];
    BlankLineBehindAll(front, last, more);
    PrintLast(lines);
    LastRegrouped(PrintLines(front), last, more);
    assert |PrintLines(lines)| == |PrintLines(front)| + |last| + 2;
  }

  lemma LastRegrouped(front: string, line: string, more: string)
    ensures front + line + CRLF + CRLF + more == front + (line + BLANK_LINE + more)
  {
  }

  lemma {:induction false} PrintLast(lines: seq<string>)
    requires lines != []
    ensures PrintLines(lines) == PrintLines(lines[..|lines| - 1]) + lines[|lines| - 1] + CRLF
  {
    var front, last := lines[..|lines| - 1], lines[|lines| - 1];
    if |lines| > 1 {
      PrintLast(lines[1..]);
      assert lines[1..][..|lines| - 2] == front[1..] && front[0] == lines[0];
      Regroup(lines[0] + CRLF, PrintLines(front[1..]) + last, CRLF);
      Regroup(lines[0] + CRLF, PrintLines(front[1..]), last);
    } else {
      assert PrintLines(lines[1..]) == "" && PrintLines(front) == "";
      assert lines[0] + CRLF + "" == "" + last + CRLF;
    }
  }

  // ----- every chunking

  /**
   * However the bytes of a well-formed response arrive, an uncancelled run completes with the code, the reason with
   * the space before it, the headers, and exactly the body: with success if the connection then ends, and otherwise
   * with the error that ended it.
   */
  lemma {:induction false} ChunkingIndependent(r: Response, body: string, ending: ErrorCode, n: nat, m: nat)
    requires WellFormed(r) && Buffered(PrintHead(r) + body, n, m)
    ensures Receive(PrintHead(r) + body, ending, n, m)
         == Completed(if ending == Eof then Success else ending, r.code,
                      " " + r.reason, HeaderMap(map[], r.lines), body)
  {
    var tail := PrintLines(r.lines) + CRLF + body;
    assert PrintHead(r) + body == StatusText(r) + CRLF + tail;
    var more := StatusLineInStream(r, tail, n);
    HeadersInTail(r, body, ending, more, (StatusText(r) + CRLF + tail)[n..], m);
  }

  /** However a connection with a well-formed response is cut: inside its head the cut is what is reported. */
  lemma {:induction false} CutResponse(r: Response, body: string, j: nat, ending: ErrorCode, n: nat, m: nat)
    requires WellFormed(r) && j <= |PrintHead(r) + body| && Buffered((PrintHead(r) + body)[..j], n, m)
    ensures Receive((PrintHead(r) + body)[..j], ending, n, m)
         == if j < |PrintHead(r)| then Failed(ending)
            else Completed(if ending == Eof then Success else ending, r.code, " " + r.reason,
                           HeaderMap(map[], r.lines), body[..j - |PrintHead(r)|])
  {
    var h := |PrintHead(r)|;
    Cut(PrintHead(r), body, j);
    if j >= h { ChunkingIndependent(r, body[..j - h], ending, n, m); } else { CutHead(r, j, ending, n, m); }
  }

  lemma Cut(head: string, body: string, j: nat)
    requires j <= |head + body|
    ensures (head + body)[..j] == if j < |head| then head[..j] else head + body[..j - |head|]
  {
  }

  lemma CutHead(r: Response, j: nat, ending: ErrorCode, n: nat, m: nat)
    requires WellFormed(r) && j < |PrintHead(r)| && Buffered(PrintHead(r)[..j], n, m)
    ensures Receive(PrintHead(r)[..j], ending, n, m) == Failed(ending)
  {
    var p, block := |StatusText(r)| + 2, PrintLines(r.lines) + CRLF;
    Regroup(StatusText(r) + CRLF, PrintLines(r.lines), CRLF);
    if j >= p {
      PrefixOfBoth(StatusText(r) + CRLF, block, j - p);
      CutHeaders(r, j - p, ending, n, m);
    } else {
      CutStatusLine(r, block, j);
    }
  }

  lemma CutBefore(head: string, body: string, j: nat)
    requires j <= |head|
    ensures (head + body)[..j] == head[..j]
  {
  }

  lemma CutStatusLine(r: Response, tail: string, j: nat)
    requires HasStatus(r) && j < |StatusText(r) + CRLF|
    ensures !Contains((StatusText(r) + CRLF + tail)[..j], CRLF)
  {
    StatusTextIsCRFree(r);
    LineEndIsFound(StatusText(r), tail);
    FindInPrefix(StatusText(r) + CRLF + tail, CRLF, j);
  }

  lemma CutHeaders(r: Response, p: nat, ending: ErrorCode, n: nat, m: nat)
    requires WellFormed(r) && p < |PrintLines(r.lines) + CRLF|
    requires Buffered(StatusText(r) + CRLF + (PrintLines(r.lines) + CRLF)[..p], n, m)
    ensures Receive(StatusText(r) + CRLF + (PrintLines(r.lines) + CRLF)[..p], ending, n, m) == Failed(ending)
  {
    var block := PrintLines(r.lines) + CRLF;
    BlankLineIsFound(r.lines, "");
    assert block + "" == block;
    FindInPrefix(block, BLANK_LINE, p);
    var more := StatusLineInStream(r, block[..p], n);
  }

  /** Whatever has arrived with the status line stays in the buffer, in front of what is still to come. */
  lemma StatusLineInStream(r: Response, tail: string, n: nat) returns (more: string)
    requires HasStatus(r)
    requires
      var stream := StatusText(r) + CRLF + tail;
      n <= |stream| && (Contains(stream, CRLF) ==> Contains(stream[..n], CRLF))
    ensures
      var stream := StatusText(r) + CRLF + tail;
      && Contains(stream, CRLF)
      && ParseStatusLine(stream[..n]) == GoodStatus(r.code, " " + r.reason, more)
      && more + stream[n..] == tail
  {
    StatusTextIsCRFree(r);
    CRFreeHasNoLineEnd(StatusText(r));
    LineEndIsFirst(StatusText(r), tail);
    more := FirstLineArrives(StatusText(r), tail, n);
    StatusLineParses(r, more);
  }

  lemma StatusTextIsCRFree(r: Response)
    requires HasStatus(r)
    ensures '\r' !in StatusText(r)
  {
    CodeParses(r.code, r.width);
  }

  /** Once a prefix of the stream contains a line end, it contains the whole first line. */
  lemma FirstLineArrives(line: string, tail: string, n: nat) returns (more: string)
    requires !Contains(line, CRLF) && n <= |line + CRLF + tail| && Contains((line + CRLF + tail)[..n], CRLF)
    ensures (line + CRLF + tail)[..n] == line + CRLF + more && more + (line + CRLF + tail)[n..] == tail
  {
    LineEndIsFirst(line, tail);
    FindInPrefix(line + CRLF + tail, CRLF, n);
    var k := n - |line + CRLF|;
    PrefixOfBoth(line + CRLF, tail, k);
    more := tail[..k];
  }

  lemma HeadersInTail(r: Response, body: string, ending: ErrorCode, rest: string, tail: string, m: nat)
    requires WellFormed(r) && rest + tail == PrintLines(r.lines) + CRLF + body && BufferedHeaders(rest, tail, m)
    ensures ReceiveHeaders(r.code, " " + r.reason, rest, tail, ending, m)
         == Completed(BodyResult(ending), r.code, " " + r.reason, HeaderMap(map[], r.lines), body)
  {
    BlankLineIsFound(r.lines, body);
    var more := HeadersArrive(r.lines, body, rest, tail, m);
    HeaderLoopEnds(r.lines, map[], more);
  }

  /** Once the buffer contains a blank line, it contains the whole header block, and the body is split behind it. */
  lemma {:induction false} HeadersArrive(lines: seq<string>, body: string, rest: string, tail: string, m: nat)
    returns (more: string)
    requires lines != [] && AreLines(lines)
    requires rest + tail == PrintLines(lines) + CRLF + body && m <= |tail| && Contains(rest + tail[..m], BLANK_LINE)
    ensures rest + tail[..m] == PrintLines(lines) + CRLF + more && more + tail[m..] == body
  {
    BlankLineIsFound(lines, body);
    more := HeadArrives(PrintLines(lines) + CRLF, body, rest, tail, m);
  }

  lemma HeadArrives(head: string, body: string, rest: string, tail: string, m: nat) returns (more: string)
    requires |head| >= 4 && Find(head + body, BLANK_LINE) == Some(|head| - 4)
    requires rest + tail == head + body && m <= |tail| && Contains(rest + tail[..m], BLANK_LINE)
    ensures rest + tail[..m] == head + more && more + tail[m..] == body && |more| == |rest| + m - |head|
  {
    PrefixOfBoth(rest, tail, m);
    assert rest + tail[..m] == (head + body)[..|rest| + m];
    BufferHoldsHead(head, body, |rest| + m);
    more := body[..|rest| + m - |head|];
    PrefixOfBoth(head, body, |more|);
    assert more + body[|more|..] == body;
    assert tail[m..] == body[|more|..];
  }

  lemma BufferHoldsHead(head: string, body: string, k: nat)
    requires k <= |head + body| && Contains((head + body)[..k], BLANK_LINE)
    requires |head| >= 4 && Find(head + body, BLANK_LINE) == Some(|head| - 4)
    ensures |head| <= k && (head + body)[..k] == head + body[..k - |head|]
  {
    FindInPrefix(head + body, BLANK_LINE, k);
    PrefixOfBoth(head, body, k - |head|);
  }
}
