/** The server's decisions on the bytes of a connection, whatever they are. */
module HttpDecisions {
  import opened Asio
  import opened Streams
  import opened Words
  import opened HttpServer

  /** The delimiter is among the bytes that fit into the buffer. */
  predicate FoundInTime(unread: string, delim: string) {
    Contains(if |unread| <= 4096 then unread else unread[..4096], delim)
  }

  lemma UntilExactly(unread: string, delim: string, ending: ErrorCode)
    ensures UntilResult(unread, delim, Some(MAX_REQUEST), ending)
         == if FoundInTime(unread, delim) then Success else if |unread| >= 4096 then NotFound else ending
  {
    FindInPrefix(unread, delim, if |unread| <= 4096 then |unread| else 4096);
    assert unread[..|unread|] == unread;
  }

  lemma InTime(unread: string, delim: string, k: nat)
    requires Find(unread, delim) == Some(k) && k + |delim| <= 4096
    ensures FoundInTime(unread, delim)
  {
    if |unread| > 4096 { FindInPrefix(unread, delim, 4096); }
  }

  /** More bytes change nothing once the delimiter is there, or the buffer full. */
  lemma FoundStays(unread: string, more: string, delim: string)
    requires FoundInTime(unread, delim) || |unread| >= 4096
    ensures FoundInTime(unread + more, delim) == FoundInTime(unread, delim)
    ensures FoundInTime(unread, delim) ==> Contains(unread, delim)
  {
    var all := unread + more;
    if |unread| >= 4096 {
      assert all[..4096] == unread[..4096] && unread[..|unread|] == unread && all[..|all|] == all;
      FindInPrefix(unread, delim, 4096);
    } else {
      assert all[..|unread|] == unread;
      FindInPrefix(all, delim, |unread|);
      InTime(all, delim, Find(all, delim).value);
    }
  }

  /** What the server does about a read that has not found its delimiter in time. */
  function Overflow(unread: string): Decision {
    if |unread| >= 4096 then Reject(413) else NoResponse
  }

  // ----- every connection

  lemma DecideByLine(stream: string, line: string, rest: string, ending: ErrorCode)
    requires ending != NotFound && ending != Success && line == FirstLine(stream) && rest == AfterFirstLine(stream)
    ensures Decide(stream, ending)
         == if !FoundInTime(stream, CRLF) then Overflow(stream)
            else if WordAt(line, 0) != "GET" then Reject(501)
            else if WordAt(line, 2) != "HTTP/1.1" then Reject(505)
            else if FoundInTime(rest, BLANK_LINE) then Lookup(WordAt(line, 1)) else Overflow(rest)
  {
    UntilExactly(stream, CRLF, ending);
    UntilExactly(rest, BLANK_LINE, ending);
    RequestLineByWords(line);
  }

  /** Without a line end in time nothing but the size counts. */
  lemma {:induction false} NoLineExactly(stream: string, ending: ErrorCode)
    requires ending != NotFound && ending != Success && !FoundInTime(stream, CRLF)
    ensures Decide(stream, ending) == if |stream| >= 4096 then Reject(413) else NoResponse
  {
    DecideByLine(stream, FirstLine(stream), AfterFirstLine(stream), ending);
  }

  /**
   * With a line end in time the words of the first line decide, wherever its white space is and however few they are.
   * The line ends at its first CR, and one byte behind that is dropped.
   */
  lemma {:induction false} DecideExactly(line: string, c: char, rest: string, words: seq<string>, ending: ErrorCode)
    requires ending != NotFound && ending != Success
    requires '\r' !in line && Splits(line, words) && FoundInTime(line + ['\r', c] + rest, CRLF)
    ensures Decide(line + ['\r', c] + rest, ending)
         == if words == [] || words[0] != "GET" then Reject(501)
            else if |words| < 3 || words[2] != "HTTP/1.1" then Reject(505)
            else if FoundInTime(rest, BLANK_LINE) then Lookup(words[1])
            else if |rest| >= 4096 then Reject(413) else NoResponse
  {
    var stream := line + ['\r', c] + rest;
    assert stream[..|line|] == line && stream[|line|] == '\r' && stream[|line| + 2..] == rest;
    IndexOfIs(stream, '\r', |line|);
    DecideByLine(stream, line, rest, ending);
    WordAtIs(line, words, 0);
    WordAtIs(line, words, 1);
    WordAtIs(line, words, 2);
  }

  /** Which requests of three words are rejected for their verb or version. */
  lemma {:induction false} RejectedExactly(verb: string, uri: string, version: string, rest: string, ending: ErrorCode)
    requires ending != NotFound && ending != Success && Word(verb) && Word(uri) && Word(version)
    requires |verb + " " + uri + " " + version + CRLF| <= 4096
    ensures
      var d := Decide(verb + " " + uri + " " + version + CRLF + rest, ending);
      && (d == Reject(501) <==> verb != "GET")
      && (d == Reject(505) <==> verb == "GET" && version != "HTTP/1.1")
      && (d.Lookup? ==> d.resource == uri)
      && (verb == "GET" && version == "HTTP/1.1" ==> (d.Lookup? <==> FoundInTime(rest, BLANK_LINE)))
  {
    var line := verb + " " + uri + " " + version;
    ThreeWords(verb, uri, version);
    NoCR(verb, uri, version);
    LineEndIsFound(line, rest);
    InTime(line + CRLF + rest, CRLF, |line|);
    DecideExactly(line, '\n', rest, [verb, uri, version], ending);
  }

  lemma NoCR(verb: string, uri: string, version: string)
    requires Word(verb) && Word(uri) && Word(version)
    ensures '\r' !in verb + " " + uri + " " + version
  {
    assert White('\r');
  }

  lemma ThreeWords(verb: string, uri: string, version: string)
    requires Word(verb) && Word(uri) && Word(version)
    ensures Splits(verb + " " + uri + " " + version, [verb, uri, version])
  {
    var rest := " " + uri + (" " + version);
    TwoWords(uri, version);
    WordInFrontOf("", verb, rest, [verb, uri, version]);
    assert verb + " " + uri + " " + version == "" + verb + rest;
  }

  lemma TwoWords(uri: string, version: string)
    requires Word(uri) && Word(version)
    ensures Splits(" " + uri + (" " + version), [uri, version])
  {
    WordInFrontOf(" ", version, "", [version]);
    assert " " + version + "" == " " + version;
    WordInFrontOf(" ", uri, " " + version, [uri, version]);
  }

  lemma WordInFrontOf(gap: string, word: string, rest: string, words: seq<string>)
    requires Gap(gap) && Word(word) && (rest == "" || White(rest[0]))
    requires words != [] && words[0] == word && Splits(rest, words[1..])
    ensures Splits(gap + word + rest, words)
  {
    assert Begins(gap + word + rest, gap, word, rest);
  }

  // ----- request entity too large

  /** The delimiter does not lie within the first 4096 bytes, and there are that many. */
  predicate Overflows(unread: string, delim: string) {
    |unread| >= 4096 && !Contains(unread[..4096], delim)
  }

  predicate FirstLineAccepted(stream: string) {
    var line := FirstLine(stream);
    Contains(stream, CRLF) && WordAt(line, 0) == "GET" && WordAt(line, 2) == "HTTP/1.1"
  }

  lemma OverflowsExactly(unread: string, delim: string)
    ensures Overflows(unread, delim) <==> !FoundInTime(unread, delim) && |unread| >= 4096
    ensures FoundInTime(unread, delim) ==> Contains(unread, delim)
  {
    assert |unread| == 4096 ==> unread[..4096] == unread;
    FindInPrefix(unread, delim, if |unread| <= 4096 then |unread| else 4096);
  }

  /**
   * The server answers 413 exactly if one of its two reads overflows: the request line, or the headers behind a
   * request line that it accepts.
   */
  lemma {:induction false} TooLargeExactly(stream: string, ending: ErrorCode)
    requires ending != NotFound && ending != Success
    ensures Decide(stream, ending) == Reject(413) <==>
              || Overflows(stream, CRLF)
              || (FirstLineAccepted(stream) && Overflows(AfterFirstLine(stream), BLANK_LINE))
  {
    var rest := AfterFirstLine(stream);
    DecideByLine(stream, FirstLine(stream), rest, ending);
    OverflowsExactly(stream, CRLF);
    OverflowsExactly(rest, BLANK_LINE);
    if |stream| < 4096 { assert |rest| < 4096; }
  }

  // ----- what arrives later

  lemma DecidedWithoutEnding(stream: string, ending: ErrorCode, ending': ErrorCode)
    requires ending != NotFound && ending != Success && Decide(stream, ending) != NoResponse
    ensures Decide(stream, ending') == Decide(stream, ending)
  {
    UntilExactly(stream, CRLF, ending);
    UntilExactly(stream, CRLF, ending');
    UntilExactly(AfterFirstLine(stream), BLANK_LINE, ending);
    UntilExactly(AfterFirstLine(stream), BLANK_LINE, ending');
  }

  /** Once the server has enough bytes to answer, nothing that follows and no way of ending changes its answer. */
  lemma {:induction false} LaterBytesDoNotMatter(stream: string, more: string, ending: ErrorCode, ending': ErrorCode)
    requires ending != NotFound && ending != Success && Decide(stream, ending) != NoResponse
    ensures Decide(stream + more, ending') == Decide(stream, ending)
  {
    var line, rest := FirstLine(stream), AfterFirstLine(stream);
    DecideByLine(stream, line, rest, ending);
    DecideByLine(stream + more, FirstLine(stream + more), AfterFirstLine(stream + more), ending);
    FoundStays(stream, more, CRLF);
    if FoundInTime(stream, CRLF) {
      FirstLineIsBuffered(stream + more, stream, more);
      if WordAt(line, 0) == "GET" && WordAt(line, 2) == "HTTP/1.1" { FoundStays(rest, more, BLANK_LINE); }
    }
    DecidedWithoutEnding(stream + more, ending, ending');
  }
}
