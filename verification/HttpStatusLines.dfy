/** What the HTTP client makes of first lines, word by word. */
module HttpStatusLines {
  import opened Asio
  import opened Streams
  import opened Words
  import opened Numbers
  import opened HttpClient
  import opened HttpClientLimits

  /** The line decides by itself exactly if it has a first word, and a second one behind the expected version. */
  lemma {:induction false} TimingFreeByWords(line: string, words: seq<string>)
    requires Splits(line, words)
    ensures TimingFree(line) <==> words != [] && (words[0] == "HTTP/1.1" ==> |words| > 1)
  {
    TimingFreeIffSettled(line);
    WordsAreFound(line, words);
  }

  lemma WordsAreFound(line: string, words: seq<string>)
    requires Splits(line, words)
    ensures FirstWord(line) == if words == [] then "" else words[0]
    ensures SecondWord(line) == if |words| < 2 then "" else words[1]
    ensures forall i | 0 <= i < |words| && i < 2 :: words[i] != ""
  {
    NextIsExtracted(Open(line), words, "");
    NextIsExtracted(Extract(Open(line), "").0, if words == [] then [] else words[1..], "");
    WordsAreWords(line, words);
  }

  lemma WordsAreWords(line: string, words: seq<string>)
    requires Splits(line, words)
    ensures forall i | 0 <= i < |words| && i < 2 :: words[i] != ""
  {
    if words != [] {
      var gap, rest :| Begins(line, gap, words[0], rest) && Splits(rest, words[1..]);
      if |words| > 1 { var gap', rest' :| Begins(rest, gap', words[1..][0], rest') && Splits(rest', words[1..][1..]); }
    }
  }

  /** With another version in front every response is rejected. */
  lemma {:induction false} OtherVersionIsRejected(line: string, gap: string, word: string, rest: string, tail: string,
      ending: ErrorCode, n: nat, m: nat)
    requires Begins(line, gap, word, rest) && word != "HTTP/1.1"
    requires !Contains(line, CRLF) && Buffered(line + CRLF + tail, n, m)
    ensures Receive(line + CRLF + tail, ending, n, m) == Failed(InvalidResponse)
  {
    FirstIsExtracted(line, gap, word, rest, "");
    SettledLineInStream(line, tail, ending, n, m);
  }

  /** `text` is what follows the second word, `word`, of a line that begins with the expected version. */
  ghost predicate IsStatusLine(line: string, word: string, text: string) {
    exists gap, gap', rest :: Begins(line, gap, "HTTP/1.1", rest) && Begins(rest, gap', word, text)
  }

  lemma StatusLineWords(line: string, word: string, text: string)
    requires IsStatusLine(line, word, text)
    ensures Settled(line) && FirstWord(line) == "HTTP/1.1" && SecondWord(line) == word
    ensures AfterFirstWord(AfterFirstWord(line)) == text
  {
    var gap, gap', rest :| Begins(line, gap, "HTTP/1.1", rest) && Begins(rest, gap', word, text);
    FirstIsExtracted(line, gap, "HTTP/1.1", rest, "");
    FirstIsExtracted(rest, gap', word, text, "");
  }

  /** Behind the expected version, a word without a number is rejected. */
  lemma {:induction false} NoNumberIsRejected(line: string, word: string, text: string, tail: string,
      ending: ErrorCode, n: nat, m: nat)
    requires IsStatusLine(line, word, text) && NoNumber(Unsign(word))
    requires !Contains(line, CRLF) && Buffered(line + CRLF + tail, n, m)
    ensures Receive(line + CRLF + tail, ending, n, m) == Failed(InvalidResponse)
  {
    StatusLineWords(line, word, text);
    StoulOfOthers(word);
    SettledLineInStream(line, tail, ending, n, m);
  }

  /**
   * A word that begins with a number is rejected if the number does not fit, and else is the code with which every run
   * goes on to the headers, whatever follows the digits, and modulo 2 to the power of 32 behind a minus sign.
   */
  lemma {:induction false} NumberIsCode(line: string, word: string, text: string, k: nat, width: nat, junk: string,
      tail: string, ending: ErrorCode, n: nat, m: nat)
    requires IsStatusLine(line, word, text) && Number(Unsign(word), k, width, junk)
    requires !Contains(line, CRLF) && Buffered(line + CRLF + tail, n, m)
    ensures |line| + 2 <= n
    ensures
      var p := n - |line| - 2;
      Receive(line + CRLF + tail, ending, n, m)
      == if k >= 4294967296 then Failed(InvalidResponse)
         else ReceiveHeaders(if word[0] == '-' then (4294967296 - k) % 4294967296 else k,
                             FirstLine(text + CRLF), AfterFirstLine(text + CRLF) + tail[..p], tail[p..], ending, m)
  {
    StatusLineWords(line, word, text);
    StoulOfNumber(word, k, width, junk);
    SettledLineInStream(line, tail, ending, n, m);
  }

  /** Every first line on which timing has no influence is of one of the kinds above. */
  lemma {:induction false} KindsOfLines(line: string)
    requires TimingFree(line)
    ensures (exists gap, word, rest :: Begins(line, gap, word, rest) && word != "HTTP/1.1")
         || (exists word, text :: IsStatusLine(line, word, text))
  {
    var words := WordsOf(line);
    TimingFreeByWords(line, words);
    var gap, rest :| Begins(line, gap, words[0], rest) && Splits(rest, words[1..]);
    if words[0] == "HTTP/1.1" {
      var gap', text :| Begins(rest, gap', words[1..][0], text) && Splits(text, words[1..][1..]);
      assert IsStatusLine(line, words[1], text);
    }
  }
}
