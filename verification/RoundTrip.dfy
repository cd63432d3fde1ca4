/** The server's reading of what the client prints, and the client's of what the server prints. */
module RoundTrip {
  import opened Asio
  import opened Streams
  import opened Sockets
  import opened Numbers
  import HttpClient
  import Limits = HttpClientLimits
  import Client = HttpClientProperties
  import Life = ServerLife
  import LifeRuns = ServerLifeProperties
  import opened HttpServer
  import opened HttpDecisions
  import opened HeaderLoops

  // ----- the client's requests

  /** Whatever the server has buffered when it parses the headers, it sees this resource and exactly this header. */
  ghost predicate Understood(uri: string, host: string, ending: ErrorCode) {
    var stream := HttpClient.PrintRequest(uri, host);
    && Decide(stream, ending) == Lookup(uri)
    && forall k: nat :: HeadersBuffered(stream, k) ==>
         HeaderLoop(Open(AfterFirstLine(stream)[..k]), map[]) == map["HOST" := " " + host]
  }

  predicate Fits(uri: string, host: string) {
    |"GET " + uri + " HTTP/1.1" + CRLF| <= 4096 && |"HOST: " + host + CRLF + CRLF| <= 4096
  }

  function RequestText(uri: string): string {
    "GET " + uri + " HTTP/1.1"
  }

  function HeaderText(host: string): string {
    "HOST: " + host + CRLF + CRLF
  }

  lemma FirstLineBefore(uri: string, tail: string)
    requires SpaceFree(uri)
    ensures
      var stream := RequestText(uri) + CRLF + tail;
      && Find(stream, CRLF) == Some(|RequestText(uri)|)
      && FirstLine(stream) == RequestText(uri) && AfterFirstLine(stream) == tail
  {
    var line := RequestText(uri);
    var stream := line + CRLF + tail;
    SpaceFreeIsCRFree(uri);
    LineEndIsFound(line, tail);
    assert stream[..|line|] == line && stream[|line|] == '\r' && stream[|line| + 2..] == tail;
    IndexOfIs(stream, '\r', |line|);
  }

  lemma FirstLineOfRequest(uri: string, host: string)
    requires SpaceFree(uri)
    ensures
      var stream := HttpClient.PrintRequest(uri, host);
      && Find(stream, CRLF) == Some(|RequestText(uri)|)
      && FirstLine(stream) == RequestText(uri) && AfterFirstLine(stream) == HeaderText(host)
  {
    FirstLineBefore(uri, HeaderText(host));
    assert HttpClient.PrintRequest(uri, host) == RequestText(uri) + CRLF + HeaderText(host);
  }

  lemma SpaceFreeIsCRFree(s: string)
    requires SpaceFree(s)
    ensures '\r' !in s
  {
  }

  lemma RequestLineParses(uri: string)
    requires uri != "" && SpaceFree(uri)
    ensures ParseRequestLine(RequestText(uri)) == RequestLine("GET", uri, "HTTP/1.1")
  {
    var afterUri := " " + "HTTP/1.1";
    assert RequestText(uri) == "GET" + (" " + uri + afterUri);
    VerbIsExtracted(" " + uri + afterUri);
    ExtractNextWord(uri, afterUri, "");
    ExtractFinalWord("HTTP/1.1", "");
  }

  lemma VerbIsExtracted(rest: string)
    requires rest != "" && IsSpace(rest[0])
    ensures Extract(Open("GET" + rest), "") == (Open(rest), "GET")
  {
    ExtractWord("GET", rest, "");
  }

  lemma BlankLineOfRequest(host: string)
    requires '\r' !in host
    ensures Find(HeaderText(host), BLANK_LINE) == Some(|HeaderText(host)| - 4)
  {
    var line, text := "HOST: " + host, HeaderText(host);
    var k := |line|;
    assert text[k..k + 4] == BLANK_LINE;
    forall j: nat | j < k ensures !At(text, BLANK_LINE, j) {
      assert text[j] == line[j];
      DiffersAt(text, BLANK_LINE, j, 0);
    }
    FirstAtIsUnique(text, BLANK_LINE, k);
  }

  lemma HeaderOfRequest(host: string)
    requires '\r' !in host
    ensures HeaderLoop(Open(HeaderText(host)), map[]) == map["HOST" := " " + host]
  {
    var value := " " + host;
    assert HeaderText(host) == "HOST" + [':'] + (value + ['\r'] + ("\n" + CRLF));
    RoundReadsHeader("HOST", value, CRLF, map[]);
    RoundHitsEnd(CRLF, map["HOST" := value]);
  }

  lemma {:induction false} GoodRequestIsUnderstood(uri: string, host: string, ending: ErrorCode)
    requires uri != "" && SpaceFree(uri) && '\r' !in host && Fits(uri, host)
    ensures Understood(uri, host, ending)
  {
    FirstLineOfRequest(uri, host);
    RequestLineParses(uri);
    BlankLineOfRequest(host);
    HeaderOfRequest(host);
    var tail := HeaderText(host);
    forall k: nat | HeadersBuffered(HttpClient.PrintRequest(uri, host), k) ensures tail[..k] == tail {
      FindInPrefix(tail, BLANK_LINE, k);
    }
  }

  lemma {:induction false} UnderstoodIsGood(uri: string, host: string, ending: ErrorCode)
    requires uri != "" && ending != Success && Understood(uri, host, ending)
    ensures SpaceFree(uri) && '\r' !in host && Fits(uri, host)
  {
    var stream := HttpClient.PrintRequest(uri, host);
    ResourceIsSpaceFree(FirstLine(stream));
    FirstLineOfRequest(uri, host);
    var rest := AfterFirstLine(stream);
    var k := Find(rest, BLANK_LINE).value + 4;
    FindInPrefix(rest, BLANK_LINE, k);
    assert HeadersBuffered(stream, k);
    ValuesAreCRFree(Open(rest[..k]), map[]);
    var headers := HeaderLoop(Open(rest[..k]), map[]);
    assert headers["HOST"] == " " + host;
    assert forall c :: c in host ==> c in " " + host;
    BlankLineOfRequest(host);
  }

  lemma ResourceIsSpaceFree(line: string)
    ensures SpaceFree(ParseRequestLine(line).resource)
  {
    var (in1, _) := Extract(Open(line), "");
    ExtractedIsSpaceFree(in1, "");
  }

  /**
   * What the client prints for a non-empty URI is understood by the server, for every way its bytes may arrive,
   * exactly if the URI is free of white space, the host is free of CR, and each part fits into the server's buffer.
   */
  lemma {:induction false} UnderstoodExactly(uri: string, host: string, ending: ErrorCode)
    requires uri != "" && ending != Success
    ensures Understood(uri, host, ending) <==> SpaceFree(uri) && '\r' !in host && Fits(uri, host)
  {
    if Understood(uri, host, ending) { UnderstoodIsGood(uri, host, ending); }
    if SpaceFree(uri) && '\r' !in host && Fits(uri, host) { GoodRequestIsUnderstood(uri, host, ending); }
  }

  // ----- requests without headers

  /**
   * The request line's CRLF is consumed before the blank line is looked for. So a request without headers is answered
   * exactly if another blank line follows in time, or if it fills the buffer; by itself it never is.
   */
  lemma {:induction false} NoHeadersExactly(uri: string, tail: string, ending: ErrorCode)
    requires uri != "" && SpaceFree(uri) && |RequestText(uri) + CRLF| <= 4096
    requires ending != NotFound && ending != Success
    ensures Decide(RequestText(uri) + CRLF + (CRLF + tail), ending)
         == if FoundInTime(CRLF + tail, BLANK_LINE) then Lookup(uri)
            else if |CRLF + tail| >= 4096 then Reject(413) else NoResponse
    ensures !FoundInTime(CRLF, BLANK_LINE)
  {
    FirstLineBefore(uri, CRLF + tail);
    RequestLineParses(uri);
    UntilExactly(CRLF + tail, BLANK_LINE, ending);
  }

  /** If it is answered, headers are stored for it exactly if a colon is buffered behind its blank line. */
  lemma {:induction false} NoHeadersStoredExactly(uri: string, tail: string, k: nat)
    requires SpaceFree(uri) && HeadersBuffered(RequestText(uri) + CRLF + (CRLF + tail), k)
    ensures
      var stream := RequestText(uri) + CRLF + (CRLF + tail);
      HeaderLoop(Open(AfterFirstLine(stream)[..k]), map[]) == map[] <==> ':' !in (CRLF + tail)[..k]
  {
    FirstLineBefore(uri, CRLF + tail);
    StoresNothingIffNoColon((CRLF + tail)[..k]);
  }

  // ----- the server's status lines

  /** Without a space behind it, the version and what follows are one word. */
  lemma VersionIsGlued(text: string)
    requires text != "" && !IsSpace(text[0])
    ensures Limits.FirstWord("HTTP/1.1" + text) != "" && Limits.FirstWord("HTTP/1.1" + text) != "HTTP/1.1"
  {
    var s := "HTTP/1.1" + text;
    assert SkipSpaces(s) == s;
    var n := WordLength(s);
    assert s[8] == text[0];
    assert forall i | 0 <= i < 8 :: s[i] == "HTTP/1.1"[i];
    assert n > 8;
  }

  /** The texts of the table begin with their codes. */
  lemma {:induction false} StatusTexts(code: int)
    requires code in STATUS_TABLE
    ensures |STATUS_TABLE[code]| > 4 && '\r' !in STATUS_TABLE[code]
    ensures 100 <= code < 1000 && STATUS_TABLE[code][..4] == Printed(code, 3) + " "
  {
    TextsBegin(code);
    TextsAreCRFree(code);
    CodeIsPrinted(code, STATUS_TABLE[code]);
  }

  predicate IsDigitOf(c: char, d: nat) {
    HttpClient.IsDigit(c) && HttpClient.Digit(c) == d
  }

  lemma TextsBegin(code: int)
    requires code in STATUS_TABLE
    ensures 100 <= code < 1000 && |STATUS_TABLE[code]| > 4 && STATUS_TABLE[code][3] == ' '
    ensures IsDigitOf(STATUS_TABLE[code][0], code / 100) && IsDigitOf(STATUS_TABLE[code][1], code / 10 % 10)
    ensures IsDigitOf(STATUS_TABLE[code][2], code % 10)
  {
  }

  lemma TextsAreCRFree(code: int)
    requires code in STATUS_TABLE
    ensures '\r' !in STATUS_TABLE[code]
  {
  }

  lemma CodeIsPrinted(k: nat, text: string)
    requires k < 1000 && |text| >= 4 && text[3] == ' '
    requires IsDigitOf(text[0], k / 100) && IsDigitOf(text[1], k / 10 % 10) && IsDigitOf(text[2], k % 10)
    ensures text[..4] == Printed(k, 3) + " "
  {
    assert k / 10 / 10 == k / 100 && Printed(k / 100, 1) == [DIGITS[k / 100]];
    DigitIsPrinted(text[0]);
    DigitIsPrinted(text[1]);
    DigitIsPrinted(text[2]);
    assert text[..4] == [text[0], text[1], text[2]] + [text[3]];
  }

  /** The client rejects every response that begins with a status line as the server prints it, however it arrives. */
  lemma {:induction false} StatusLineIsRejected(code: int, tail: string, ending: ErrorCode, n: nat, m: nat)
    requires code in STATUS_TABLE && HttpClient.Buffered("HTTP/1.1" + STATUS_TABLE[code] + CRLF + tail, n, m)
    ensures HttpClient.Receive("HTTP/1.1" + STATUS_TABLE[code] + CRLF + tail, ending, n, m)
         == HttpClient.Failed(InvalidResponse)
  {
    StatusTexts(code);
    assert STATUS_TABLE[code][0] == STATUS_TABLE[code][..4][0] == Printed(code, 3)[0];
    PrintedIsRead(code, 3);
    GluedLineIsRejected(STATUS_TABLE[code], tail, ending, n, m);
  }

  /** With the one space that is missing, the client would understand every one of them. */
  lemma {:induction false} SpaceIsAllThatIsMissing(code: int, lines: seq<string>, body: string, ending: ErrorCode,
      n: nat, m: nat)
    requires code in STATUS_TABLE && lines != [] && Client.AreLines(lines)
    requires HttpClient.Buffered(Client.PrintHead(WithSpace(code, lines)) + body, n, m)
    ensures Client.StatusText(WithSpace(code, lines)) == "HTTP/1.1 " + STATUS_TABLE[code]
    ensures HttpClient.Receive(Client.PrintHead(WithSpace(code, lines)) + body, ending, n, m)
         == HttpClient.Completed(if ending == Eof then Success else ending, code, STATUS_TABLE[code][3..],
                                 Client.HeaderMap(map[], lines), body)
  {
    StatusTexts(code);
    SpaceIsPrinted(code, STATUS_TABLE[code], lines);
    Client.ChunkingIndependent(WithSpace(code, lines), body, ending, n, m);
  }

  function WithSpace(code: int, lines: seq<string>): Client.Response
    requires code in STATUS_TABLE
  {
    StatusTexts(code);
    Client.Response(code, 3, STATUS_TABLE[code][4..], lines)
  }

  lemma SpaceIsPrinted(code: nat, text: string, lines: seq<string>)
    requires |text| > 4 && text[..4] == Printed(code, 3) + " "
    ensures Client.StatusText(Client.Response(code, 3, text[4..], lines)) == "HTTP/1.1 " + text
    ensures text[3..] == " " + text[4..]
  {
    assert text == text[..4] + text[4..] && text[3] == text[..4][3];
    Client.Regroup("HTTP/1.1 ", text[..4], text[4..]);
  }

  lemma GluedLineIsRejected(text: string, tail: string, ending: ErrorCode, n: nat, m: nat)
    requires text != "" && !IsSpace(text[0]) && '\r' !in text
    requires HttpClient.Buffered("HTTP/1.1" + text + CRLF + tail, n, m)
    ensures HttpClient.Receive("HTTP/1.1" + text + CRLF + tail, ending, n, m) == HttpClient.Failed(InvalidResponse)
  {
    var line := "HTTP/1.1" + text;
    VersionIsGlued(text);
    CRFreeHasNoLineEnd(line);
    Limits.SettledLineInStream(line, tail, ending, n, m);
  }

  // ----- both programs

  /** What the client's request object puts into its buffer. */
  method PrintedRequest(uri: string, host: string) returns (text: string)
    ensures text == HttpClient.PrintRequest(uri, host)
  {
    var outgoing := new Socket("", Eof);
    var request := new HttpClient.HTTPRequest(uri, host, outgoing);
    request.OnConnectionEstablished();
    assert "" + HttpClient.PrintRequest(uri, host) == HttpClient.PrintRequest(uri, host);
    text := request.requestBuf;
  }

  /**
   * The two programs together: the client's request object prints, the server's service object reads. The service is
   * service `s` of the server in state `v`, whose first read has just been started, and is served by thread `t`.
   */
  method Exchange(uri: string, host: string, files: string -> Resource, ghost v: Life.State, t: nat, ghost s: nat)
    returns (service: Service, ghost w: Life.State)
    requires uri != "" && SpaceFree(uri) && '\r' !in host && Fits(uri, host)
    requires t < |v.threads| && v.threads[t] == Life.Idle && s < |v.services|
    requires v.services[s] == Life.Service(multiset{Life.ReadFirst}, 0, 0, Life.Io(Life.ReadFirst))
    ensures fresh(service) && service.life.deletions == 1 && service.life.responses == 1
    ensures LifeRuns.Leads(Life.HttpServer, v, w) && s < |w.services| && w.services[s] == service.life
    ensures service.requestedResource == uri && service.requestHeaders == map["HOST" := " " + host]
    ensures
      var found := files("D:\\http_root" + uri);
      && (service.responseStatusCode == 404 <==> found.Missing?)
      && (service.responseStatusCode == 500 <==> found.Unreadable?)
      && (service.responseStatusCode == 200 <==> found.Found?)
    ensures service.responseStatusCode in STATUS_TABLE
    ensures service.responseStatusLine == "HTTP/1.1" + STATUS_TABLE[service.responseStatusCode] + "\r\n"
  {
    var printed := PrintedRequest(uri, host);
    var arriving := new Socket(printed, Eof);
    service := new Service(arriving, t);
    service.StartHandling();
    LifeRuns.StaysLeads(Life.HttpServer, v);
    assert service.life == v.services[s];
    GoodRequestIsUnderstood(uri, host, Eof);
    ghost var k;
    w, k := service.Handle(files, v, t, s);
  }
}
