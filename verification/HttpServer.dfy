/**
 * The HTTP server's `Service`: how it reads a request into a buffer of 4096 bytes, decides on a status code, answers
 * at most once, and deletes itself.
 */
module HttpServer {
  import opened Asio
  import opened Streams
  import opened Sockets
  import opened Words
  import Life = ServerLife
  import LifeRuns = ServerLifeProperties

  type Headers = map<string, string>

  const MAX_REQUEST: nat := 4096
  const ROOT: string := "D:\\http_root"

  const STATUS_TABLE: map<int, string> := map[
    200 := "200 OK",
    404 := "404 Not Found",
    413 := "413 Request Entity Too Large",
    500 := "500 Server Error",
    501 := "501 Not Implemented",
    505 := "505 HTTP Version Not Supported"
  ]

  /** What the file system has under a path. */
  datatype Resource = Missing | Unreadable | Found(size: nat)

  datatype Decision = NoResponse | Reject(code: int) | Lookup(resource: string)

  datatype RequestLine = RequestLine(verb: string, resource: string, version: string)

  function ParseRequestLine(line: string): RequestLine {
    var (in1, verb) := Extract(Open(line), "");
    var (in2, resource) := Extract(in1, "");
    var (in3, version) := Extract(in2, "");
    RequestLine(verb, resource, version)
  }

  /** What `error_check` makes of a failed read. */
  function OnReadError(ec: ErrorCode): Decision {
    if ec == NotFound then Reject(413) else NoResponse
  }

  /** How a handler ends after a failed read. */
  function OnError(ec: ErrorCode): Life.Verdict {
    if ec == NotFound then Life.Respond else Life.Quit
  }

  /** What the service does once it has accepted a request line for `resource` and `rest` follows it. */
  function DecideHeaders(rest: string, ending: ErrorCode, resource: string): Decision {
    var ec := UntilResult(rest, BLANK_LINE, Some(MAX_REQUEST), ending);
    if ec != Success then OnReadError(ec) else Lookup(resource)
  }

  /** What the service does with a connection that delivers `stream` and then `ending`. */
  function Decide(stream: string, ending: ErrorCode): Decision {
    var ec := UntilResult(stream, CRLF, Some(MAX_REQUEST), ending);
    if ec != Success then OnReadError(ec)
    else
      var line := ParseRequestLine(FirstLine(stream));
      if line.verb != "GET" then Reject(501)
      else if line.version != "HTTP/1.1" then Reject(505)
      else DecideHeaders(AfterFirstLine(stream), ending, line.resource)
  }

  /** One round of the loop of `on_headers_received`: it consumes at least a colon, or hits the end of the buffer. */
  function HeaderRound(i: Input, headers: Headers): (r: (Input, Headers))
    requires !i.eof && !i.fail
    ensures r.0.fail ==> r.0.eof
    ensures |r.0.buf| < |i.buf| || (r.0.eof && |r.0.buf| <= |i.buf|)
  {
    var (in1, name) := GetLine(i, ':', "");
    if in1.eof then (in1, headers)
    else
      var (in2, value) := GetLine(in1, '\r', "");
      (Get(in2), headers[name := value])
  }

  /** The whole loop, over everything that is buffered. */
  function HeaderLoop(i: Input, headers: Headers): Headers
    requires i.fail ==> i.eof
    decreases |i.buf|, !i.eof
  {
    if i.eof then headers
    else
      var (next, more) := HeaderRound(i, headers);
      HeaderLoop(next, more)
  }

  class Service {
    const sock: Socket
    const request: StreamBuf
    var requestHeaders: Headers
    var requestedResource: string
    var responseStatusCode: int
    var resourceSize: nat
    var responseStatusLine: string
    var life: Life.Service           // operations outstanding, responses started, deletions

    /** Thread `t` handles the accept that has brought the connection. */
    constructor (sock: Socket, t: nat)
      ensures this.sock == sock && fresh(request) && request.limit == Some(4096) && request.data == ""
      ensures requestHeaders == map[] && requestedResource == "" && responseStatusCode == 200
      ensures life == Life.Service(multiset{}, 0, 0, Life.Starter(t))
    {
      this.sock := sock;
      request := new StreamBuf(Some(MAX_REQUEST));
      requestHeaders, requestedResource, responseStatusCode, resourceSize, responseStatusLine := map[], "", 200, 0, "";
      life := Life.Service(multiset{}, 0, 0, Life.Starter(t));
    }

    /** `start_handling`. */
    method StartHandling()
      modifies this`life
      ensures life == Life.Started(old(life), Life.ReadFirst)
    {
      life := Life.Started(life, Life.ReadFirst);
    }

    /** `on_finish`: nothing touches the service any more. */
    method OnFinish()
      modifies this`life
      ensures life == old(life).(deletions := old(life).deletions + 1, keeper := Life.Gone)
    {
      life := life.(deletions := life.deletions + 1, keeper := Life.Gone);
    }

    /** `send_response`: its write is started. */
    method SendResponse()
      requires responseStatusCode in STATUS_TABLE      // `at` throws otherwise
      modifies this`responseStatusLine, this`life
      ensures responseStatusLine == "HTTP/1.1" + STATUS_TABLE[responseStatusCode] + "\r\n"
      ensures life == Life.Started(old(life), Life.WriteResponse)
    {
      responseStatusLine := "HTTP/1.1" + STATUS_TABLE[responseStatusCode] + CRLF;
      life := Life.Started(life, Life.WriteResponse);
    }

    /** `on_response_sent`: it ends in `on_finish` whether or not the write failed. */
    method OnResponseSent(ec: ErrorCode)
      modifies this`life
      ensures Left(old(life), Life.WriteResponse, Life.Quit)
      ensures life.deletions == old(life).deletions + 1
    {
      OnFinish();
    }

    /**
     * The handler of `op` has done what it does last, one of the things such a handler may do: it has started one
     * operation or deleted the service, which was `before`, and left it as the step system's handler does.
     */
    ghost predicate Left(before: Life.Service, op: Life.Operation, verdict: Life.Verdict)
      reads this`life
    {
      Life.Possible(Life.HttpServer, op, verdict) && life == Life.AfterVerdict(before, verdict)
    }

    /** A handler runs, nothing is outstanding, and nothing has been answered. */
    ghost predicate Handling()
      reads this`life, this`responseStatusCode
    {
      life == Life.Service(multiset{}, 0, 0, life.keeper) && responseStatusCode == 200
    }

    /** `error_check`: the answer to a failed read. */
    method ErrorCheck(ec: ErrorCode, ghost op: Life.Operation) returns (failed: bool)
      requires Handling() && op != Life.WriteResponse
      modifies this`responseStatusCode, this`responseStatusLine, this`life
      ensures failed <==> ec != Success
      ensures !failed ==> life == old(life) && responseStatusCode == 200
      ensures failed ==> Left(old(life), op, OnError(ec)) && Answered(OnReadError(ec))
      ensures failed ==>
                if ec == NotFound then responseStatusCode == 413 && life.responses == 1 && life.deletions == 0
                else responseStatusCode == 200 && life.responses == 0 && life.deletions == 1
      ensures responseStatusCode in STATUS_TABLE
    {
      if ec != Success {
        if ec == NotFound {
          responseStatusCode := 413;
          SendResponse();
        } else {
          OnFinish();
        }
        return true;
      }
      return false;
    }

    /** What a decision has led to. */
    ghost predicate Answered(d: Decision)
      reads this`life, this`responseStatusCode, this`responseStatusLine
    {
      match d
      case NoResponse => life.responses == 0 && responseStatusCode == 200
      case Reject(code) => HasResponded() && responseStatusCode == code
      case Lookup(_) => HasResponded()
    }

    /** One response was started, with a status line from the table. */
    ghost predicate HasResponded()
      reads this`life, this`responseStatusCode, this`responseStatusLine
    {
      && life.responses == 1 && responseStatusCode in STATUS_TABLE
      && responseStatusLine == "HTTP/1.1" + STATUS_TABLE[responseStatusCode] + "\r\n"
    }

    /** 404 stands for a resource that is not there, 500 for one that cannot be opened, 200 for one that is found. */
    ghost predicate LookedUp(found: Resource)
      reads this`responseStatusCode
    {
      && (responseStatusCode == 404 <==> found.Missing?)
      && (responseStatusCode == 500 <==> found.Unreadable?)
      && (responseStatusCode == 200 <==> found.Found?)
    }

    /** The header loop of `on_headers_received`. It terminates: every round consumes at least a colon. */
    method ReadHeaders()
      modifies this`requestHeaders, request`data
      ensures requestHeaders == HeaderLoop(Open(old(request.data)), old(requestHeaders))
    {
      var stream := Open(request.data);
      var name, value := "", "";
      while !stream.eof
        invariant stream.fail ==> stream.eof
        invariant HeaderLoop(stream, requestHeaders) == HeaderLoop(Open(old(request.data)), old(requestHeaders))
        decreases |stream.buf|, !stream.eof
      {
        ghost var round := HeaderRound(stream, requestHeaders);
        var (in1, first) := GetLine(stream, ':', name);
        name, stream := first, in1;
        if !stream.eof {
          var (in2, second) := GetLine(stream, '\r', value);
          value, stream := second, Get(in2);
          requestHeaders := requestHeaders[name := value];
        }
        assert (stream, requestHeaders) == round;
      }
      request.data := stream.buf;
    }

    /** `process_request`, against a file system. */
    method ProcessRequest(files: string -> Resource)
      requires responseStatusCode == 200
      modifies this`responseStatusCode, this`resourceSize
      ensures
        var found := files("D:\\http_root" + requestedResource);
        && (responseStatusCode == 404 <==> found.Missing?)
        && (responseStatusCode == 500 <==> found.Unreadable?)
        && (responseStatusCode == 200 <==> found.Found?)
      ensures resourceSize
           == match files("D:\\http_root" + requestedResource) case Found(size) => size case _ => old(resourceSize)
    {
      var found := files(ROOT + requestedResource);
      if found.Missing? {
        responseStatusCode := 404;
        return;
      }
      if found.Unreadable? {
        responseStatusCode := 500;
        return;
      }
      resourceSize := found.size;
    }

    /** `on_headers_received`. */
    method OnHeadersReceived(ec: ErrorCode, files: string -> Resource) returns (ghost verdict: Life.Verdict)
      requires Handling()
      modifies this, request`data
      ensures Left(old(life), Life.ReadSecond, verdict) && responseStatusCode in STATUS_TABLE
      ensures requestedResource == old(requestedResource)
      ensures ec != Success ==> verdict == OnError(ec) && Answered(OnReadError(ec))
      ensures ec == Success ==>
                var found := files("D:\\http_root" + requestedResource);
                && verdict == Life.Respond && HasResponded()
                && (responseStatusCode == 404 <==> found.Missing?)
                && (responseStatusCode == 500 <==> found.Unreadable?)
                && (responseStatusCode == 200 <==> found.Found?)
                && requestHeaders == HeaderLoop(Open(old(request.data)), old(requestHeaders))
    {
      verdict := OnError(ec);
      var failed := ErrorCheck(ec, Life.ReadSecond);
      if failed {
        return;
      }
      ReadHeaders();
      ProcessRequest(files);
      SendResponse();
      verdict := Life.Respond;
    }

    /** `on_request_line_received`; unless it ends with `ReadMore`, the request has been answered or dropped. */
    method OnRequestLineReceived(ec: ErrorCode) returns (ghost verdict: Life.Verdict)
      requires Handling() && requestedResource == ""
      modifies this, request`data
      ensures Left(old(life), Life.ReadFirst, verdict) && responseStatusCode in STATUS_TABLE
      ensures requestHeaders == old(requestHeaders)
      ensures ec != Success ==> verdict == OnError(ec) && Answered(OnReadError(ec))
      ensures ec == Success ==>
                var line := FirstLine(old(request.data));
                if WordAt(line, 0) != "GET" then verdict == Life.Respond && Answered(Reject(501))
                else if WordAt(line, 2) != "HTTP/1.1" then verdict == Life.Respond && Answered(Reject(505))
                else
                  && verdict == Life.ReadMore && responseStatusCode == 200
                  && requestedResource == WordAt(line, 1) && request.data == AfterFirstLine(old(request.data))
    {
      verdict := OnError(ec);
      var failed := ErrorCheck(ec, Life.ReadFirst);
      if failed {
        return;
      }
      FirstLineIsRead(request.data);
      var (in1, line) := GetLine(Open(request.data), '\r', "");
      request.data := Get(in1).buf;
      RequestLineByWords(line);
      var (words1, verb) := Extract(Open(line), "");
      if verb != "GET" {
        responseStatusCode := 501;
        SendResponse();
        return Life.Respond;
      }
      var (words2, resource) := Extract(words1, requestedResource);
      requestedResource := resource;
      var (words3, version) := Extract(words2, "");
      if version != "HTTP/1.1" {
        responseStatusCode := 505;
        SendResponse();
        return Life.Respond;
      }
      life := Life.Started(life, Life.ReadSecond);
      return Life.ReadMore;
    }

    // ----- the io_service: completions and the handlers they run

    /** The object is service `s` of `v`, where thread `t` is free and which a run from `u` has led to. */
    ghost predicate Stands(u: Life.State, v: Life.State, t: nat, s: nat)
      reads this`life
    {
      && LifeRuns.Leads(Life.HttpServer, u, v)
      && t < |v.threads| && v.threads[t] == Life.Idle && s < |v.services| && v.services[s] == life
    }

    /** All that is left to do after decision `d` is to complete the write of the answer, if there is one. */
    ghost predicate Ending(d: Decision)
      reads this`life, this`responseStatusCode, this`responseStatusLine
    {
      && Answered(d)
      && life.outstanding == (if d.NoResponse? then multiset{} else multiset{Life.WriteResponse})
      && life.deletions == (if d.NoResponse? then 1 else 0)
    }

    /** The first read completes, and its handler runs on thread `t`. */
    method ReceiveRequestLine(t: nat) returns (ghost verdict: Life.Verdict)
      requires sock.ending != Success && request.data == "" && request.limit == Some(MAX_REQUEST)
      requires requestedResource == "" && responseStatusCode == 200
      requires life == Life.Service(multiset{Life.ReadFirst}, 0, 0, life.keeper)
      modifies this, sock`incoming, request`data
      ensures Left(Life.Taken(old(life), t, Life.ReadFirst), Life.ReadFirst, verdict)
      ensures requestHeaders == old(requestHeaders)
      ensures
        var stream := old(sock.incoming);
        if verdict == Life.ReadMore then
          && responseStatusCode == 200 && |request.data| <= MAX_REQUEST
          && request.data + sock.incoming == AfterFirstLine(stream)
          && Decide(stream, sock.ending) == DecideHeaders(AfterFirstLine(stream), sock.ending, requestedResource)
        else
          Ending(Decide(stream, sock.ending)) && !Decide(stream, sock.ending).Lookup?
    {
      ghost var stream := sock.incoming;
      assert "" + stream == stream;
      var ec := ReadUntil(sock, request, CRLF);
      FirstDecision(stream, request.data, sock.incoming, ec, sock.ending);
      life := Life.Taken(life, t, Life.ReadFirst);
      verdict := OnRequestLineReceived(ec);
    }

    /** The second read completes, when `request.data + sock.incoming` is what follows the request line. */
    method ReceiveHeaders(files: string -> Resource, t: nat) returns (ghost verdict: Life.Verdict, ghost k: nat)
      requires sock.ending != Success && request.limit == Some(MAX_REQUEST) && |request.data| <= MAX_REQUEST
      requires responseStatusCode == 200 && requestHeaders == map[]
      requires life == Life.Service(multiset{Life.ReadSecond}, 0, 0, life.keeper)
      modifies this, sock`incoming, request`data
      ensures Left(Life.Taken(old(life), t, Life.ReadSecond), Life.ReadSecond, verdict)
      ensures requestedResource == old(requestedResource)
      ensures
        var rest := old(request.data + sock.incoming);
        var d := DecideHeaders(rest, sock.ending, requestedResource);
        && Ending(d)
        && (d.Lookup? ==> Answers(d.resource, rest, k, files))
    {
      ghost var rest := request.data + sock.incoming;
      var ec := ReadUntil(sock, request, BLANK_LINE);
      k := |request.data|;
      assert rest[..k] == request.data;
      life := Life.Taken(life, t, Life.ReadSecond);
      verdict := OnHeadersReceived(ec, files);
    }

    /** The resource was looked up, and with `k` bytes of `rest` buffered the headers were stored. */
    ghost predicate Answers(resource: string, rest: string, k: nat, files: string -> Resource)
      reads this`requestedResource, this`requestHeaders, this`responseStatusCode
    {
      && requestedResource == resource && LookedUp(files("D:\\http_root" + resource))
      && k <= |rest| && k <= MAX_REQUEST && Contains(rest[..k], BLANK_LINE)
      && requestHeaders == HeaderLoop(Open(rest[..k]), map[])
    }

    /** The write of the answer completes, well or not. */
    method FinishResponse(ghost d: Decision, t: nat)
      requires Ending(d) && !d.NoResponse?
      modifies this`life
      ensures Left(Life.Taken(old(life), t, Life.WriteResponse), Life.WriteResponse, Life.Quit)
      ensures Answered(d) && life.outstanding == multiset{} && life.deletions == 1
    {
      var fails: bool := *;
      life := Life.Taken(life, t, Life.WriteResponse);
      OnResponseSent(if fails then SystemError(1) else Success);
    }

    /** The first handler in the step system. */
    method ServeRequestLine(ghost u: Life.State, ghost v: Life.State, t: nat, ghost s: nat)
      returns (ghost w: Life.State)
      requires sock.ending != Success && request.data == "" && request.limit == Some(MAX_REQUEST)
      requires requestedResource == "" && responseStatusCode == 200
      requires life == Life.Service(multiset{Life.ReadFirst}, 0, 0, life.keeper) && Stands(u, v, t, s)
      modifies this, sock`incoming, request`data
      ensures Stands(u, w, t, s) && requestHeaders == old(requestHeaders)
      ensures
        var stream := old(sock.incoming);
        if Life.ReadSecond in life.outstanding then
          && life == Life.Service(multiset{Life.ReadSecond}, 0, 0, life.keeper)
          && responseStatusCode == 200 && |request.data| <= MAX_REQUEST
          && request.data + sock.incoming == AfterFirstLine(stream)
          && Decide(stream, sock.ending) == DecideHeaders(AfterFirstLine(stream), sock.ending, requestedResource)
        else
          Ending(Decide(stream, sock.ending)) && !Decide(stream, sock.ending).Lookup?
    {
      ghost var verdict := ReceiveRequestLine(t);
      w := LifeRuns.Served(Life.HttpServer, u, v, t, s, Life.ReadFirst, verdict);
    }

    /** The second handler in the step system. */
    method ServeHeaders(files: string -> Resource, ghost u: Life.State, ghost v: Life.State, t: nat, ghost s: nat)
      returns (ghost w: Life.State, ghost k: nat)
      requires sock.ending != Success && request.limit == Some(MAX_REQUEST) && |request.data| <= MAX_REQUEST
      requires responseStatusCode == 200 && requestHeaders == map[]
      requires life == Life.Service(multiset{Life.ReadSecond}, 0, 0, life.keeper) && Stands(u, v, t, s)
      modifies this, sock`incoming, request`data
      ensures Stands(u, w, t, s) && requestedResource == old(requestedResource)
      ensures
        var rest := old(request.data + sock.incoming);
        var d := DecideHeaders(rest, sock.ending, requestedResource);
        && Ending(d)
        && (d.Lookup? ==> Answers(d.resource, rest, k, files))
    {
      ghost var verdict;
      verdict, k := ReceiveHeaders(files, t);
      w := LifeRuns.Served(Life.HttpServer, u, v, t, s, Life.ReadSecond, verdict);
    }

    /** The last handler in the step system, if there is an answer. */
    method ServeResponse(ghost d: Decision, ghost u: Life.State, ghost v: Life.State, t: nat, ghost s: nat)
      returns (ghost w: Life.State)
      requires Ending(d) && Stands(u, v, t, s)
      modifies this`life
      ensures Stands(u, w, t, s) && Answered(d) && life.outstanding == multiset{} && life.deletions == 1
    {
      w := v;
      if Life.WriteResponse in life.outstanding {
        FinishResponse(d, t);
        w := LifeRuns.Served(Life.HttpServer, u, v, t, s, Life.WriteResponse, Life.Quit);
      }
    }

    /** The reads of a service complete one after the other, and their handlers run. */
    method ServeReads(files: string -> Resource, ghost v: Life.State, t: nat, ghost s: nat)
      returns (ghost w: Life.State, ghost k: nat)
      requires sock.ending != Success && request.limit == Some(MAX_REQUEST) && request.data == ""
      requires requestHeaders == map[] && requestedResource == "" && responseStatusCode == 200
      requires life == Life.Service(multiset{Life.ReadFirst}, 0, 0, Life.Io(Life.ReadFirst)) && Stands(v, v, t, s)
      modifies this, sock`incoming, request`data
      ensures Stands(v, w, t, s)
      ensures
        var d := Decide(old(sock.incoming), sock.ending);
        Ending(d) && (d.Lookup? ==> Answers(d.resource, AfterFirstLine(old(sock.incoming)), k, files))
    {
      ghost var stream := sock.incoming;
      w := ServeRequestLine(v, v, t, s);
      k := 0;
      if Life.ReadSecond in life.outstanding {
        w, k := ServeHeaders(files, v, w, t, s);
      }
    }

    /**
     * The whole life of a service: a run of the step system, with the verdicts its code reaches. What it decides is a
     * function of the bytes and the end of its connection, however they arrive; it answers at most once and deletes
     * itself exactly once, with a status of the table. The ghost result `k` is how much of the rest was buffered when
     * the headers were parsed.
     */
    method Handle(files: string -> Resource, ghost v: Life.State, t: nat, ghost s: nat)
      returns (ghost w: Life.State, ghost k: nat)
      requires sock.ending != Success && request.limit == Some(MAX_REQUEST) && request.data == ""
      requires requestHeaders == map[] && requestedResource == "" && responseStatusCode == 200
      requires life == Life.Service(multiset{Life.ReadFirst}, 0, 0, Life.Io(Life.ReadFirst)) && Stands(v, v, t, s)
      modifies this, sock`incoming, request`data
      ensures Stands(v, w, t, s) && life.deletions == 1 && life.outstanding == multiset{}
      ensures responseStatusCode in STATUS_TABLE
      ensures
        var d := Decide(old(sock.incoming), sock.ending);
        && Answered(d)
        && (d.Lookup? ==>
              var found := files("D:\\http_root" + d.resource);
              && (responseStatusCode == 404 <==> found.Missing?)
              && (responseStatusCode == 500 <==> found.Unreadable?)
              && (responseStatusCode == 200 <==> found.Found?)
              && requestedResource == d.resource
              && HeadersBuffered(old(sock.incoming), k)
              && requestHeaders == HeaderLoop(Open(AfterFirstLine(old(sock.incoming))[..k]), map[]))
    {
      ghost var d := Decide(sock.incoming, sock.ending);
      w, k := ServeReads(files, v, t, s);
      w := ServeResponse(d, v, w, t, s);
    }
  }

  /** The second `read_until` may have stopped with `k` unread bytes in the buffer. */
  predicate HeadersBuffered(stream: string, k: nat) {
    k <= |AfterFirstLine(stream)| && k <= MAX_REQUEST && Contains(AfterFirstLine(stream)[..k], BLANK_LINE)
  }

  /** The decision as far as the first read takes it, in terms of what is buffered then. */
  lemma FirstDecision(stream: string, data: string, incoming: string, ec: ErrorCode, ending: ErrorCode)
    requires data + incoming == stream && ec == UntilResult(stream, CRLF, Some(MAX_REQUEST), ending)
    requires ec == Success ==> Contains(data, CRLF)
    ensures ec != Success ==> Decide(stream, ending) == OnReadError(ec)
    ensures ec == Success ==>
              var line := FirstLine(data);
              && AfterFirstLine(data) + incoming == AfterFirstLine(stream)
              && Decide(stream, ending)
                 == if WordAt(line, 0) != "GET" then Reject(501)
                    else if WordAt(line, 2) != "HTTP/1.1" then Reject(505)
                    else DecideHeaders(AfterFirstLine(stream), ending, WordAt(line, 1))
  {
    if ec == Success {
      FirstLineIsBuffered(stream, data, incoming);
      RequestLineByWords(FirstLine(data));
    }
  }

  /** What extraction makes of a request line, word by word. */
  lemma RequestLineByWords(line: string)
    ensures ParseRequestLine(line) == RequestLine(WordAt(line, 0), WordAt(line, 1), WordAt(line, 2))
  {
    var words := WordsOf(line);
    var words1 := if words == [] then [] else words[1..];
    var words2 := if words1 == [] then [] else words1[1..];
    NextIsExtracted(Open(line), words, "");
    var in1 := Extract(Open(line), "").0;
    NextIsExtracted(in1, words1, "");
    NextIsExtracted(Extract(in1, "").0, words2, "");
  }
}
