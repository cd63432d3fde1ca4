/**
 * How the HTTP client reads a response: three reads of a connection whose bytes arrive in arbitrary pieces, and two
 * parsers that work on whatever happens to be buffered by then.
 */
module HttpClient {
  import opened Asio
  import opened Streams
  import opened Sockets

  type Headers = map<string, string>

  // ----- std::stoul, with the 32-bit unsigned long of the Windows target

  const ULONG_MODULUS: nat := 0x1_0000_0000

  predicate IsDigit(c: char) { '0' <= c <= '9' }

  function DigitCount(s: string): (n: nat)
    ensures n <= |s|
  {
    if s == "" || !IsDigit(s[0]) then 0 else 1 + DigitCount(s[1..])
  }

  function Digit(c: char): nat
    requires IsDigit(c)
  {
    (c - '0') as nat
  }

  function Decimal(s: string): nat
    requires forall i | 0 <= i < |s| :: IsDigit(s[i])
  {
    if s == "" then 0 else 10 * Decimal(s[..|s| - 1]) + Digit(s[|s| - 1])
  }

  lemma DigitsAreDigits(s: string)
    ensures forall i | 0 <= i < DigitCount(s) :: IsDigit(s[i])
  {
  }

  /** The number that the digits at the front of a text make, if there are any and it fits. */
  function Unsigned(text: string): Option<nat> {
    var n := DigitCount(text);
    DigitsAreDigits(text);
    if n == 0 || Decimal(text[..n]) >= ULONG_MODULUS then None else Some(Decimal(text[..n]))
  }

  /** `std::stoul` of a word: an optional sign and at least one digit; anything after the digits is ignored. */
  function Stoul(word: string): Option<nat> {
    if word == "" || (word[0] != '+' && word[0] != '-') then Unsigned(word)
    else if word[0] == '+' then Unsigned(word[1..])
    else
      match Unsigned(word[1..])
      case None => None
      case Some(value) => Some((ULONG_MODULUS - value) % ULONG_MODULUS)
  }

  // ----- the status line

  datatype StatusLine = BadStatus | GoodStatus(code: nat, message: string, rest: string)

  /** `on_status_line_received` on a buffer. */
  function ParseStatusLine(buf: string): StatusLine {
    var (in1, version) := Extract(Open(buf), "");
    if version != "HTTP/1.1" then BadStatus
    else
      var (in2, word) := Extract(in1, "");
      match Stoul(word)
      case None => BadStatus
      case Some(code) =>
        var (in3, message) := GetLine(in2, '\r', "");
        GoodStatus(code, message, Get(in3).buf)
  }

  // ----- the header block

  /** `add_header` for one line: its text up to the first colon names the header, the text after it is the value. */
  function AddLine(headers: Headers, line: string): Headers {
    var k := IndexOf(line, ':');
    if k < |line| then headers[line[..k] := line[k + 1..]] else headers
  }

  datatype HeaderBlock = Ended(headers: Headers, rest: string) | Spins

  /**
   * The loop of `on_headers_received`, entered with its stream in state `i`. A stream that is no longer good leaves
   * the line variable alone, so the loop then goes round for ever on the same non-empty line: `Spins`.
   */
  function HeaderLoop(i: Input, headers: Headers): HeaderBlock
    decreases |i.buf|, i.Good()
  {
    if !i.Good() then Spins
    else
      var (in1, line) := GetLine(i, '\r', "");
      var in2 := Get(in1);
      if line == "" then Ended(headers, in2.buf) else HeaderLoop(in2, AddLine(headers, line))
  }

  /** Why a stream that is not good is hopeless: one more iteration changes nothing. */
  lemma SpinningIteration(i: Input, headers: Headers, line: string)
    requires !i.Good() && line != ""
    ensures
      var (in1, next) := GetLine(i, '\r', line);
      var in2 := Get(in1);
      next == line && !in2.Good() && in2.buf == i.buf && AddLine(AddLine(headers, line), next) == AddLine(headers, line)
  {
  }

  // ----- the whole response

  datatype Outcome =
    | Failed(ec: ErrorCode)
    | Hangs
    | Completed(ec: ErrorCode, code: nat, message: string, headers: Headers, body: string)

  /** `asio::error::eof` after the body is how a response is supposed to end. */
  function BodyResult(ending: ErrorCode): ErrorCode {
    if ending == Eof then Success else ending
  }

  /**
   * The run from the status line on: `rest` is left in the buffer, `tail` is still to come and then `ending`, and the
   * buffer has got the first `m` bytes of `tail` when the headers are parsed.
   */
  function ReceiveHeaders(code: nat, message: string, rest: string, tail: string, ending: ErrorCode, m: nat): Outcome
    requires m <= |tail|
  {
    if !Contains(rest + tail, BLANK_LINE) then Failed(ending)
    else
      match HeaderLoop(Open(rest + tail[..m]), map[])
      case Spins => Hangs
      case Ended(headers, left) => Completed(BodyResult(ending), code, message, headers, left + tail[m..])
  }

  function AfterStatusLine(parsed: StatusLine, tail: string, ending: ErrorCode, m: nat): Outcome
    requires m <= |tail|
  {
    match parsed
    case BadStatus => Failed(InvalidResponse)
    case GoodStatus(code, message, rest) => ReceiveHeaders(code, message, rest, tail, ending, m)
  }

  /**
   * An uncancelled run on a connection that delivers `stream` and then `ending`: the buffer holds the first `n` bytes
   * when the status line is parsed, and `m` more have been added when the headers are.
   */
  function Receive(stream: string, ending: ErrorCode, n: nat, m: nat): Outcome
    requires n + m <= |stream|
  {
    if !Contains(stream, CRLF) then Failed(ending)
    else AfterStatusLine(ParseStatusLine(stream[..n]), stream[n..], ending, m)
  }

  /** The second `read_until` stops only when the buffer contains the blank line, if it ever can. */
  predicate BufferedHeaders(rest: string, tail: string, m: nat) {
    m <= |tail| && (Contains(rest + tail, BLANK_LINE) ==> Contains(rest + tail[..m], BLANK_LINE))
  }

  /** `n` and `m` are amounts that the two calls of `read_until` may have read. */
  predicate Buffered(stream: string, n: nat, m: nat) {
    && n + m <= |stream|
    && (Contains(stream, CRLF) ==>
          && Contains(stream[..n], CRLF)
          && (ParseStatusLine(stream[..n]).GoodStatus? ==>
                BufferedHeaders(ParseStatusLine(stream[..n]).rest, stream[n..], m)))
  }

  class HTTPResponse {
    var statusCode: nat
    var statusMessage: string
    var headers: Headers
    const buf: StreamBuf

    constructor ()
      ensures headers == map[] && fresh(buf) && buf.data == "" && buf.limit == None
    {
      statusCode, statusMessage, headers := 0, "", map[];
      buf := new StreamBuf(None);
    }

    method AddHeader(name: string, value: string)
      modifies this`headers
      ensures headers == old(headers)[name := value]
    {
      headers := headers[name := value];
    }
  }

  /** The request as sections 3.1.1 and 3.2 of RFC 7230 lay it out: one request line, one header, a blank line. */
  function PrintRequest(uri: string, host: string): string {
    "GET " + uri + " HTTP/1.1" + CRLF + ("HOST: " + host + CRLF + CRLF)
  }

  class HTTPRequest {
    const uri: string
    const host: string
    const sock: Socket
    const response: HTTPResponse
    var requestBuf: string

    constructor (uri: string, host: string, sock: Socket)
      ensures this.uri == uri && this.host == host && this.sock == sock && requestBuf == ""
      ensures fresh(response) && fresh(response.buf)
      ensures response.headers == map[] && response.buf.data == "" && response.buf.limit == None
    {
      this.uri, this.host, this.sock := uri, host, sock;
      response := new HTTPResponse();
      requestBuf := "";
    }

    /** `on_connection_established`, up to where it looks at the cancel flag. */
    method OnConnectionEstablished()
      modifies this`requestBuf
      ensures requestBuf == old(requestBuf) + PrintRequest(uri, host)
    {
      requestBuf := requestBuf + ("GET " + uri + " HTTP/1.1\r\n");
      requestBuf := requestBuf + ("HOST: " + host + "\r\n");
      requestBuf := requestBuf + "\r\n";
    }

    /** `on_status_line_received`, up to where it looks at the cancel flag. */
    method OnStatusLineReceived() returns (ok: bool)
      modifies response`statusCode, response`statusMessage, response.buf`data
      ensures
        match ParseStatusLine(old(response.buf.data))
        case BadStatus => !ok
        case GoodStatus(code, message, rest) =>
          ok && response.statusCode == code && response.statusMessage == message && response.buf.data == rest
    {
      var (in1, version) := Extract(Open(response.buf.data), "");
      if version != "HTTP/1.1" {
        response.buf.data := in1.buf;
        return false;
      }
      var (in2, word) := Extract(in1, "");
      var parsed := Stoul(word);
      if parsed.None? {
        response.buf.data := in2.buf;
        return false;
      }
      var (in3, message) := GetLine(in2, '\r', "");
      response.buf.data := Get(in3).buf;
      response.statusCode, response.statusMessage := parsed.value, message;
      return true;
    }

    /** `on_headers_received`, up to where it looks at the cancel flag; not `ended` means that it never gets there. */
    method OnHeadersReceived() returns (ended: bool)
      modifies response`headers, response.buf`data
      ensures
        match HeaderLoop(Open(old(response.buf.data)), old(response.headers))
        case Spins => !ended
        case Ended(headers, rest) => ended && response.headers == headers && response.buf.data == rest
    {
      var stream := Open(response.buf.data);
      var header := "";
      while true
        invariant HeaderLoop(stream, response.headers)
            == HeaderLoop(Open(old(response.buf.data)), old(response.headers))
        decreases |stream.buf|, stream.Good()
      {
        if !stream.Good() {
          return false;                    // see SpinningIteration
        }
        var (in1, line) := GetLine(stream, '\r', header);
        header := line;
        stream := Get(in1);
        if header == "" {
          break;
        }
        ghost var before := response.headers;
        var separator := IndexOf(header, ':');
        if separator != |header| {
          var value := "";
          if separator < |header| - 1 {
            value := header[separator + 1..];
          }
          response.AddHeader(header[..separator], value);
        }
        assert response.headers == AddLine(before, header);
      }
      response.buf.data := stream.buf;
      return true;
    }

    /** From the parsing of the headers to `on_finish`, when nobody cancels. */
    method ReceiveBody() returns (o: Outcome)
      requires sock.ending != Success && response.buf.limit == None
      modifies sock`incoming, response`headers, response.buf`data
      ensures
        match HeaderLoop(Open(old(response.buf.data)), old(response.headers))
        case Spins => o == Hangs
        case Ended(headers, left) =>
          && o == Completed(BodyResult(sock.ending), response.statusCode, response.statusMessage, headers,
                            left + old(sock.incoming))
          && o.headers == response.headers && o.body == response.buf.data
    {
      var ended := OnHeadersReceived();
      if !ended {
        return Hangs;
      }
      var ec := ReadToEnd(sock, response.buf);
      o := Completed(if ec == Eof then Success else ec, response.statusCode, response.statusMessage,
                     response.headers, response.buf.data);
    }

    /** From the second `read_until` to `on_finish`, when nobody cancels. */
    method ReceiveRest() returns (o: Outcome, ghost m: nat)
      requires sock.ending != Success && response.headers == map[] && response.buf.limit == None
      modifies sock`incoming, response`headers, response.buf`data
      ensures BufferedHeaders(old(response.buf.data), old(sock.incoming), m)
      ensures o == ReceiveHeaders(response.statusCode, response.statusMessage, old(response.buf.data),
                                  old(sock.incoming), sock.ending, m)
      ensures o.Completed? ==>
                && o.headers == response.headers && o.body == response.buf.data
                && o.ec == if sock.ending == Eof then Success else sock.ending
    {
      ghost var rest, tail := response.buf.data, sock.incoming;
      var ec := ReadUntil(sock, response.buf, BLANK_LINE);
      m := |response.buf.data| - |rest|;
      ReadOn(rest, tail, response.buf.data, sock.incoming);
      ghost var buffer := rest + tail[..m];
      assert response.buf.data == buffer && sock.incoming == tail[m..];
      assert ec == Success <==> Contains(rest + tail, BLANK_LINE);
      assert BufferedHeaders(rest, tail, m);
      if ec != Success {
        return Failed(ec), m;
      }
      o := ReceiveBody();
      assert HeaderLoop(Open(buffer), map[]).Spins? ==> o == Hangs;
    }

    /**
     * The chain from `on_request_sent` to `on_finish` when nobody cancels. The two ghost results are how much had
     * arrived at its two parsing stages; they and the stream determine everything.
     */
    method ReceiveResponse() returns (o: Outcome, ghost n: nat, ghost m: nat)
      requires sock.ending != Success && response.headers == map[] && response.buf.data == ""
          && response.buf.limit == None
      modifies sock`incoming, response`statusCode, response`statusMessage, response`headers, response.buf`data
      ensures Buffered(old(sock.incoming), n, m)
      ensures o == Receive(old(sock.incoming), sock.ending, n, m)
      ensures !Contains(old(sock.incoming), CRLF) ==> o == Failed(sock.ending)
      ensures o.Completed? ==>
                && o.code == response.statusCode && o.message == response.statusMessage
                && o.headers == response.headers && o.body == response.buf.data
                && o.ec == if sock.ending == Eof then Success else sock.ending
    {
      ghost var stream := sock.incoming;
      assert "" + stream == stream;
      var ec := ReadUntil(sock, response.buf, CRLF);
      n, m := |response.buf.data|, 0;
      ReadOn("", stream, response.buf.data, sock.incoming);
      assert response.buf.data == stream[..n] && sock.incoming == stream[n..];
      if ec != Success {
        return Failed(ec), n, m;
      }
      var ok := OnStatusLineReceived();
      if !ok {
        return Failed(InvalidResponse), n, m;
      }
      o, m := ReceiveRest();
    }
  }

  /** Bytes appended to a buffer that held `rest` are the next ones of `tail`. */
  lemma ReadOn(rest: string, tail: string, data: string, incoming: string)
    requires rest <= data && data + incoming == rest + tail
    ensures
      var m := |data| - |rest|;
      m <= |tail| && data == rest + tail[..m] && incoming == tail[m..]
  {
    var all := rest + tail;
    assert all[..|data|] == data && all[|data|..] == incoming;
  }
}
