/** The server's header loop against the client's: what each stores, and exactly when they store the same. */
module HeaderLoops {
  import opened Streams
  import opened HttpServer
  import HttpClient
  import Client = HttpClientProperties

  // ----- single rounds

  lemma RoundReadsHeader(name: string, value: string, rest: string, headers: Headers)
    requires ':' !in name && '\r' !in value
    ensures HeaderRound(Open(name + [':'] + (value + ['\r'] + ("\n" + rest))), headers)
        == (Open(rest), headers[name := value])
  {
    GetLineUpTo(name, ':', value + ['\r'] + ("\n" + rest), "");
    GetLineUpTo(value, '\r', "\n" + rest, "");
    assert ("\n" + rest)[1..] == rest;
  }

  lemma RoundHitsEnd(rest: string, headers: Headers)
    requires ':' !in rest
    ensures HeaderRound(Open(rest), headers) == (Input("", true, rest == ""), headers)
  {
    assert rest[..|rest|] == rest;
    IndexOfIs(rest, ':', |rest|);
  }

  // ----- what the server's loop stores

  /** Names that are stored stay stored. */
  lemma {:induction false} NamesStay(i: Input, headers: Headers, name: string)
    requires (i.fail ==> i.eof) && name in headers
    ensures name in HeaderLoop(i, headers)
    decreases |i.buf|, !i.eof
  {
    if !i.eof {
      var (next, more) := HeaderRound(i, headers);
      NamesStay(next, more, name);
    }
  }

  /** The loop stores nothing exactly if there is no colon. */
  lemma {:induction false} StoresNothingIffNoColon(text: string)
    ensures HeaderLoop(Open(text), map[]) == map[] <==> ':' !in text
  {
    if ':' in text { FirstNameIsStored(text, map[]); } else { RoundHitsEnd(text, map[]); }
  }

  /** The text up to the first colon becomes a name, whatever it contains. */
  lemma FirstNameIsStored(text: string, headers: Headers)
    requires ':' in text
    ensures IndexOf(text, ':') < |text| && text[..IndexOf(text, ':')] in HeaderLoop(Open(text), headers)
  {
    var k := IndexOf(text, ':');
    assert text[..k] + text[k..] == text;
    var (next, more) := HeaderRound(Open(text), headers);
    NamesStay(next, more, text[..k]);
  }

  /** No header value the server stores contains a CR. */
  lemma {:induction false} ValuesAreCRFree(i: Input, headers: Headers)
    requires i.fail ==> i.eof
    requires forall name | name in headers :: '\r' !in headers[name]
    ensures forall name | name in HeaderLoop(i, headers) :: '\r' !in HeaderLoop(i, headers)[name]
    decreases |i.buf|
  {
    if !i.eof {
      var (in1, name) := GetLine(i, ':', "");
      if !in1.eof {
        var (in2, value) := GetLine(in1, '\r', "");
        GetLineIsDelimFree(in1, '\r', "");
        ValuesAreCRFree(Get(in2), headers[name := value]);
      }
    }
  }

  // ----- the two loops on one block of lines

  function Block(lines: seq<string>): string {
    Client.PrintLines(lines) + CRLF
  }

  /** No line with a colon follows a line without one. */
  predicate ColonsFirst(lines: seq<string>) {
    forall i, j | 0 <= i < j < |lines| :: ':' in lines[j] ==> ':' in lines[i]
  }

  predicate NamesAreCRFree(headers: Headers) {
    forall name | name in headers :: '\r' !in name
  }

  lemma {:induction false} ColonsOfBlock(lines: seq<string>)
    ensures ':' in Block(lines) <==> exists i :: 0 <= i < |lines| && ':' in lines[i]
  {
    if lines != [] {
      ColonsOfBlock(lines[1..]);
      assert Block(lines) == lines[0] + CRLF + Block(lines[1..]);
      assert forall i | 0 < i < |lines| :: lines[i] == lines[1..][i - 1];
      assert ':' in Block(lines) <==> ':' in lines[0] || ':' in Block(lines[1..]);
    }
  }

  lemma {:induction false} ColonlessLinesAddNothing(headers: Headers, lines: seq<string>)
    requires forall i | 0 <= i < |lines| :: ':' !in lines[i]
    ensures Client.HeaderMap(headers, lines) == headers
    decreases |lines|
  {
    if lines != [] { ColonlessLinesAddNothing(headers, lines[1..]); }
  }

  lemma {:induction false} ClientNamesAreCRFree(headers: Headers, lines: seq<string>)
    requires Client.AreLines(lines) && NamesAreCRFree(headers)
    ensures NamesAreCRFree(Client.HeaderMap(headers, lines))
    decreases |lines|
  {
    if lines != [] { ClientNamesAreCRFree(HttpClient.AddLine(headers, lines[0]), lines[1..]); }
  }

  lemma HeaderInFront(lines: seq<string>, headers: Headers)
    requires lines != [] && Client.IsLine(lines[0]) && ':' in lines[0]
    ensures HeaderLoop(Open(Block(lines)), headers)
         == HeaderLoop(Open(Block(lines[1..])), HttpClient.AddLine(headers, lines[0]))
  {
    var line, rest := lines[0], Block(lines[1..]);
    var k := IndexOf(line, ':');
    assert k < |line|;
    Client.Regroup(line + CRLF, Client.PrintLines(lines[1..]), CRLF);
    var name, value := line[..k], line[k + 1..];
    HeaderRegrouped(line, k, rest);
    RoundReadsHeader(name, value, rest, headers);
  }

  lemma HeaderRegrouped(line: string, k: nat, rest: string)
    requires k < |line| && line[k] == ':'
    ensures line + CRLF + rest == line[..k] + [':'] + (line[k + 1..] + ['\r'] + ("\n" + rest))
  {
    assert line == line[..k] + [':'] + line[k + 1..];
  }

  /** A colonless line in front becomes part of the next header's name, and with it a CR. */
  lemma MergedNameIsStored(lines: seq<string>, headers: Headers)
    requires lines != [] && ':' !in lines[0] && ':' in Block(lines)
    ensures !NamesAreCRFree(HeaderLoop(Open(Block(lines)), headers))
  {
    var text, p := Block(lines), |lines[0]|;
    assert text == lines[0] + CRLF + Block(lines[1..]);
    FirstNameIsStored(text, headers);
    var k := IndexOf(text, ':');
    assert forall i | 0 <= i < p :: text[i] == lines[0][i];
    assert text[p] == '\r';
    assert text[..k][p] == '\r';
  }

  lemma ColonlessBlock(lines: seq<string>, headers: Headers)
    requires ':' !in Block(lines)
    ensures HeaderLoop(Open(Block(lines)), headers) == Client.HeaderMap(headers, lines) && ColonsFirst(lines)
  {
    ColonsOfBlock(lines);
    RoundHitsEnd(Block(lines), headers);
    ColonlessLinesAddNothing(headers, lines);
  }

  lemma ColonlessFront(lines: seq<string>, headers: Headers)
    requires Client.AreLines(lines) && NamesAreCRFree(headers)
    requires lines != [] && ':' !in lines[0] && ':' in Block(lines)
    ensures HeaderLoop(Open(Block(lines)), headers) != Client.HeaderMap(headers, lines) && !ColonsFirst(lines)
  {
    ColonsOfBlock(lines);
    MergedNameIsStored(lines, headers);
    ClientNamesAreCRFree(headers, lines);
  }

  /**
   * On a block of CR-free lines, the server's loop stores what the client's loop stores exactly if no line with a colon
   * follows a line without one.
   */
  lemma {:induction false} ParsersAgreeExactly(lines: seq<string>, headers: Headers)
    requires Client.AreLines(lines) && NamesAreCRFree(headers)
    ensures HeaderLoop(Open(Block(lines)), headers) == Client.HeaderMap(headers, lines) <==> ColonsFirst(lines)
    decreases |lines|
  {
    if ':' !in Block(lines) {
      ColonlessBlock(lines, headers);
    } else if lines != [] && ':' in lines[0] {
      HeaderInFront(lines, headers);
      ParsersAgreeExactly(lines[1..], HttpClient.AddLine(headers, lines[0]));
      ColonsFirstOfRest(lines);
    } else {
      ColonsOfBlock(lines);
      ColonlessFront(lines, headers);
    }
  }

  lemma ColonsFirstOfRest(lines: seq<string>)
    requires lines != [] && ':' in lines[0]
    ensures ColonsFirst(lines) <==> ColonsFirst(lines[1..])
  {
    var rest := lines[1..];
    assert forall i | 0 < i < |lines| :: lines[i] == rest[i - 1];
    if ColonsFirst(rest) {
      forall i, j | 0 <= i < j < |lines| && ':' in lines[j] ensures ':' in lines[i] {
        if i > 0 { assert ':' in rest[j - 1]; }
      }
    }
  }

  // ----- what has arrived behind the block

  lemma HeaderInFrontOf(lines: seq<string>, more: string, headers: Headers)
    requires lines != [] && Client.IsLine(lines[0]) && ':' in lines[0]
    ensures HeaderLoop(Open(Block(lines) + more), headers)
         == HeaderLoop(Open(Block(lines[1..]) + more), HttpClient.AddLine(headers, lines[0]))
  {
    var line, rest := lines[0], Block(lines[1..]) + more;
    var k := IndexOf(line, ':');
    assert k < |line|;
    Client.Regroup(line + CRLF, Client.PrintLines(lines[1..]), CRLF);
    Client.Regroup(line + CRLF, Block(lines[1..]), more);
    HeaderRegrouped(line, k, rest);
    RoundReadsHeader(line[..k], line[k + 1..], rest, headers);
  }

  /** A colon behind a block without colons makes a name of everything in front of it, a CR included. */
  lemma NameBehindBlock(block: string, more: string, headers: Headers)
    requires ':' !in block && '\r' in block && ':' in more
    ensures !NamesAreCRFree(HeaderLoop(Open(block + more), headers))
  {
    var text := block + more;
    var p :| 0 <= p < |block| && block[p] == '\r';
    var c :| 0 <= c < |more| && more[c] == ':';
    assert text[|block| + c] == ':' && text[p] == '\r';
    assert forall i | 0 <= i < |block| :: text[i] == block[i];
    FirstNameIsStored(text, headers);
    assert text[..IndexOf(text, ':')][p] == '\r';
  }

  /**
   * What the server stores for a block whose lines with a colon come first depends on what is buffered behind the block
   * exactly if there is a colon in that.
   */
  lemma {:induction false} StoredIsTimingFreeExactly(lines: seq<string>, more: string, headers: Headers)
    requires Client.AreLines(lines) && NamesAreCRFree(headers) && ColonsFirst(lines)
    ensures HeaderLoop(Open(Block(lines) + more), headers) == Client.HeaderMap(headers, lines) <==> ':' !in more
    decreases |lines|
  {
    if ':' !in Block(lines) {
      ColonsOfBlock(lines);
      ColonlessLinesAddNothing(headers, lines);
      if ':' in more {
        assert Block(lines)[|Client.PrintLines(lines)|] == '\r';
        NameBehindBlock(Block(lines), more, headers);
      } else {
        RoundHitsEnd(Block(lines) + more, headers);
      }
    } else {
      ColonsOfBlock(lines);
      HeaderInFrontOf(lines, more, headers);
      ColonsFirstOfRest(lines);
      StoredIsTimingFreeExactly(lines[1..], more, HttpClient.AddLine(headers, lines[0]));
    }
  }
}
