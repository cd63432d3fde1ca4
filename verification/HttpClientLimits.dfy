/** Responses on which the HTTP client fails, hangs, or depends on timing: exactly when, and what it does then. */
module HttpClientLimits {
  import opened Asio
  import opened Streams
  import opened HttpClient
  import opened Numbers
  import opened HttpClientProperties

  // ----- no headers

  lemma EmptyLineEnds(headers: Headers, more: string)
    ensures HeaderLoop(Open(CRLF + more), headers) == Ended(headers, more)
  {
    assert "" + CRLF + more == CRLF + more;
    LineIsRead("", more);
  }

  /**
   * The status line's CRLF is consumed before the blank line is looked for, so that a response without headers
   * completes exactly if there is another blank line somewhere behind it, and otherwise fails with the connection.
   */
  lemma {:induction false} NoHeadersExactly(r: Response, body: string, ending: ErrorCode, n: nat, m: nat)
    requires HasStatus(r) && Buffered(StatusText(r) + CRLF + (CRLF + body), n, m)
    ensures Receive(StatusText(r) + CRLF + (CRLF + body), ending, n, m)
         == if Contains(CRLF + body, BLANK_LINE)
            then Completed(BodyResult(ending), r.code, " " + r.reason, map[], body)
            else Failed(ending)
  {
    var stream := StatusText(r) + CRLF + (CRLF + body);
    var more := StatusLineInStream(r, CRLF + body, n);
    if Contains(CRLF + body, BLANK_LINE) {
      var k := EmptyBlockArrives(body, more, stream[n..], m);
      EmptyLineEnds(map[], body[..k]);
    }
  }

  /** A buffer with a blank line is longer than a CRLF, and so holds the first one and some of the body. */
  lemma EmptyBlockArrives(body: string, rest: string, tail: string, m: nat) returns (k: nat)
    requires rest + tail == CRLF + body && m <= |tail| && Contains(rest + tail[..m], BLANK_LINE)
    ensures k <= |body| && rest + tail[..m] == CRLF + body[..k] && body[..k] + tail[m..] == body
  {
    k := |rest| + m - 2;
    PrefixOfBoth(rest, tail, m);
    PrefixOfBoth(CRLF, body, k);
    assert tail[m..] == body[k..];
    assert body[..k] + body[k..] == body;
  }

  // ----- status lines that arrive before what completes them

  function FirstWord(line: string): string {
    Extract(Open(line), "").1
  }

  function AfterFirstWord(line: string): string {
    Extract(Open(line), "").0.buf
  }

  /** What extraction finds as the second word of a line by itself. */
  function SecondWord(line: string): string {
    Extract(Extract(Open(line), "").0, "").1
  }

  /** The line itself decides: it has a first word, and a second one if the first is the expected version. */
  predicate Settled(line: string) {
    FirstWord(line) != "" && (FirstWord(line) != "HTTP/1.1" || SecondWord(line) != "")
  }

  ghost predicate AlwaysGood(line: string, code: nat, message: string, left: string) {
    forall more :: ParseStatusLine(line + CRLF + more) == GoodStatus(code, message, left + more)
  }

  /** What has arrived behind the line does not matter to what the client makes of the line. */
  ghost predicate TimingFree(line: string) {
    || (forall more :: ParseStatusLine(line + CRLF + more) == BadStatus)
    || (exists code, message, left :: AlwaysGood(line, code, message, left))
  }

  lemma {:induction false} SkipSpacesAppend(s: string, t: string)
    ensures SkipSpaces(s + t) == if SkipSpaces(s) != "" then SkipSpaces(s) + t else SkipSpaces(t)
  {
    if s == "" {
      assert s + t == t;
    } else if IsSpace(s[0]) {
      SkipSpacesAppend(s[1..], t);
      assert (s + t)[1..] == s[1..] + t;
    }
  }

  lemma NoFirstWord(line: string)
    ensures FirstWord(line) == "" <==> SkipSpaces(line) == ""
  {
    var s := SkipSpaces(line);
    if s != "" { assert WordLength(s) > 0; }
  }

  lemma TakeWordAppend(s: string, t: string)
    requires s != "" && t != "" && IsSpace(t[0])
    ensures TakeWord(s + t, "") == (Open(TakeWord(s, "").0.buf + t), TakeWord(s, "").1)
  {
    var n := WordLength(s);
    assert (s + t)[..n] == s[..n] && (s + t)[n..] == s[n..] + t;
    WordLengthIs(s + t, n);
  }

  /** A word is extracted whole, whatever follows the space behind it. */
  lemma ExtractAppend(s: string, t: string)
    requires t != "" && IsSpace(t[0])
    ensures FirstWord(s) != "" ==> Extract(Open(s + t), "") == (Open(AfterFirstWord(s) + t), FirstWord(s))
    ensures FirstWord(s) == "" ==> Extract(Open(s + t), "") == Extract(Open(t), "")
  {
    SkipSpacesAppend(s, t);
    NoFirstWord(s);
    if SkipSpaces(s) != "" { TakeWordAppend(SkipSpaces(s), t); }
  }

  lemma ExtractAfterLineEnd(more: string)
    ensures Extract(Open(CRLF + more), "") == Extract(Open(more), "")
  {
    assert CRLF + more == ['\r'] + (['\n'] + more);
    ExtractAfterSpace('\r', ['\n'] + more, "");
    ExtractAfterSpace('\n', more, "");
  }

  /** The second word of a line is the first word of what follows the first, if it is any word at all. */
  lemma SecondIsFirstOfRest(line: string)
    requires FirstWord(line) != ""
    ensures SecondWord(line) == FirstWord(AfterFirstWord(line))
  {
  }

  /** What a settled line comes to. If the line contains a CR, its message ends there, and some of it is left. */
  function LineVerdict(line: string): StatusLine {
    if FirstWord(line) != "HTTP/1.1" then BadStatus
    else
      match Stoul(SecondWord(line))
      case None => BadStatus
      case Some(code) =>
        var text := AfterFirstWord(AfterFirstWord(line)) + CRLF;
        GoodStatus(code, FirstLine(text), AfterFirstLine(text))
  }

  function Followed(verdict: StatusLine, more: string): StatusLine {
    match verdict
    case BadStatus => BadStatus
    case GoodStatus(code, message, left) => GoodStatus(code, message, left + more)
  }

  lemma MessageIsRead(rest: string, more: string)
    ensures
      var (i, message) := GetLine(Open(rest + (CRLF + more)), '\r', "");
      message == FirstLine(rest + CRLF) && Get(i).buf == AfterFirstLine(rest + CRLF) + more
  {
    Regroup(rest, CRLF, more);
    AtBehind(rest, CRLF, CRLF, 0);
    FirstLineIsBuffered(rest + CRLF + more, rest + CRLF, more);
    FirstLineIsRead(rest + CRLF + more);
  }

  lemma SettledParses(line: string, more: string)
    requires Settled(line)
    ensures ParseStatusLine(line + CRLF + more) == Followed(LineVerdict(line), more)
  {
    var rest := AfterFirstWord(line);
    Regroup(line, CRLF, more);
    ExtractAppend(line, CRLF + more);
    if FirstWord(line) == "HTTP/1.1" {
      SecondIsFirstOfRest(line);
      ExtractAppend(rest, CRLF + more);
      MessageIsRead(AfterFirstWord(rest), more);
    }
  }

  /** What has to follow an unsettled line to make it a status line. */
  function Missing(line: string, r: Response): string {
    if FirstWord(line) == "" then StatusText(r) else Printed(r.code, r.width) + " " + r.reason
  }

  lemma BlankLineIsSkipped(line: string, more: string)
    requires FirstWord(line) == ""
    ensures ParseStatusLine(line + CRLF + more) == ParseStatusLine(more)
  {
    Regroup(line, CRLF, more);
    ExtractAppend(line, CRLF + more);
    ExtractAfterLineEnd(more);
  }

  lemma VersionAlone(line: string, more: string)
    requires FirstWord(line) == "HTTP/1.1" && SecondWord(line) == ""
    ensures Extract(Open(line + CRLF + more), "") == (Open(AfterFirstWord(line) + (CRLF + more)), "HTTP/1.1")
    ensures Extract(Open(AfterFirstWord(line) + (CRLF + more)), "") == Extract(Open(more), "")
  {
    Regroup(line, CRLF, more);
    ExtractAppend(line, CRLF + more);
    SecondIsFirstOfRest(line);
    ExtractAppend(AfterFirstWord(line), CRLF + more);
    ExtractAfterLineEnd(more);
  }

  /** An unsettled line is rejected if nothing has arrived behind it, and completed by what is missing if that has. */
  lemma UnsettledParses(line: string, r: Response, more: string)
    requires !Settled(line) && HasStatus(r)
    ensures ParseStatusLine(line + CRLF + "") == BadStatus
    ensures ParseStatusLine(line + CRLF + (Missing(line, r) + CRLF + more))
         == GoodStatus(r.code, " " + r.reason, more)
  {
    var text := Missing(line, r) + CRLF + more;
    if FirstWord(line) == "" {
      BlankLineIsSkipped(line, "");
      BlankLineIsSkipped(line, text);
      StatusLineParses(r, more);
    } else {
      VersionAlone(line, "");
      VersionAlone(line, text);
      var afterCode := " " + r.reason + CRLF + more;
      assert text == Printed(r.code, r.width) + afterCode;
      CodeParses(r.code, r.width);
      ExtractWord(Printed(r.code, r.width), afterCode, "");
      LineIsRead(" " + r.reason, more);
    }
  }

  /** What the client makes of a first line is independent of timing exactly if the line itself decides. */
  lemma {:induction false} TimingFreeIffSettled(line: string)
    ensures TimingFree(line) <==> Settled(line)
  {
    if Settled(line) {
      forall more ensures ParseStatusLine(line + CRLF + more) == Followed(LineVerdict(line), more) {
        SettledParses(line, more);
      }
      match LineVerdict(line)
      case BadStatus =>
      case GoodStatus(code, message, left) => assert AlwaysGood(line, code, message, left);
    } else {
      var r := Response(0, 1, "OK", []);
      UnsettledParses(line, r, "");
    }
  }

  /** With a settled line, every run goes on with the same code and message, or fails the same way. */
  lemma SettledLineInStream(line: string, tail: string, ending: ErrorCode, n: nat, m: nat)
    requires !Contains(line, CRLF) && Settled(line) && Buffered(line + CRLF + tail, n, m)
    ensures |line| + 2 <= n
    ensures
      var k := n - |line| - 2;
      Receive(line + CRLF + tail, ending, n, m)
      == match LineVerdict(line)
         case BadStatus => Failed(InvalidResponse)
         case GoodStatus(code, message, left) => ReceiveHeaders(code, message, left + tail[..k], tail[k..], ending, m)
  {
    LineEndIsFirst(line, tail);
    var more := FirstLineArrives(line, tail, n);
    SettledParses(line, more);
    var k := n - |line| - 2;
    PrefixOfBoth(line + CRLF, tail, k);
    assert more == tail[..k];
  }

  /** With any other line there is a response, completed as `r`, that succeeds or fails by how much arrives at once. */
  lemma {:induction false} UnsettledDependsOnTiming(line: string, r: Response, body: string, ending: ErrorCode)
    requires !Contains(line, CRLF) && !Settled(line) && WellFormed(r)
    ensures
      var stream := line + CRLF + (Missing(line, r) + CRLF + (PrintLines(r.lines) + CRLF + body));
      && Buffered(stream, |line| + 2, 0) && Receive(stream, ending, |line| + 2, 0) == Failed(InvalidResponse)
      && Buffered(stream, |stream|, 0)
      && Receive(stream, ending, |stream|, 0)
         == Completed(BodyResult(ending), r.code, " " + r.reason, HeaderMap(map[], r.lines), body)
  {
    var block := PrintLines(r.lines) + CRLF + body;
    var tail := Missing(line, r) + CRLF + block;
    var stream := line + CRLF + tail;
    LineEndIsFirst(line, tail);
    LineEndIsFirst(line, "");
    UnsettledParses(line, r, block);
    assert stream[..|line| + 2] == line + CRLF + "";
    assert stream[..|stream|] == stream && stream[|stream|..] == "" && block + "" == block;
    HeadersInTail(r, body, ending, block, "", 0);
  }
}
