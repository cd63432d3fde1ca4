/**
 * The pieces of the C++ standard library and of Boost.Asio that the parsers are built on: `std::istream` over a
 * buffer that may end before the data does, and the search of `read_until`.
 */
module Streams {
  import opened Asio

  const CRLF: string := "\r\n"
  const BLANK_LINE: string := "\r\n\r\n"

  // ----- searching

  predicate At(s: string, d: string, k: nat) {
    k + |d| <= |s| && s[k..k + |d|] == d
  }

  /** `k` is the first place where `d` occurs in `s`. */
  ghost predicate FirstAt(s: string, d: string, k: nat) {
    At(s, d, k) && forall j: nat :: j < k ==> !At(s, d, j)
  }

  function FindFrom(s: string, d: string, k: nat): (r: Option<nat>)
    requires k <= |s|
    ensures r.Some? ==> r.value >= k && At(s, d, r.value) && forall j: nat :: k <= j < r.value ==> !At(s, d, j)
    ensures r.None? ==> forall j: nat :: k <= j ==> !At(s, d, j)
    decreases |s| - k
  {
    if At(s, d, k) then Some(k) else if k == |s| then None else FindFrom(s, d, k + 1)
  }

  function Find(s: string, d: string): (r: Option<nat>)
    ensures r.Some? ==> FirstAt(s, d, r.value)
    ensures r.None? ==> forall j: nat :: !At(s, d, j)
  {
    FindFrom(s, d, 0)
  }

  predicate Contains(s: string, d: string) {
    Find(s, d).Some?
  }

  lemma FirstAtIsUnique(s: string, d: string, k: nat)
    requires FirstAt(s, d, k)
    ensures Find(s, d) == Some(k)
  {
  }

  /** More data after a match, or the cut of everything after it, does not move the first match. */
  lemma FindInPrefix(s: string, d: string, n: nat)
    requires n <= |s|
    ensures Find(s[..n], d).Some? ==> Find(s, d) == Find(s[..n], d)
    ensures Find(s, d).Some? && Find(s, d).value + |d| <= n ==> Find(s[..n], d) == Find(s, d)
    ensures Find(s[..n], d).None? && Find(s, d).Some? ==> n < Find(s, d).value + |d|
  {
    forall j: nat ensures At(s[..n], d, j) <==> At(s, d, j) && j + |d| <= n {
      if j + |d| <= n { assert s[..n][j..j + |d|] == s[j..j + |d|]; }
    }
    if Find(s[..n], d).Some? { FirstAtIsUnique(s, d, Find(s[..n], d).value); }
    if Find(s, d).Some? && Find(s, d).value + |d| <= n { FirstAtIsUnique(s[..n], d, Find(s, d).value); }
  }

  lemma DiffersAt(s: string, d: string, j: nat, o: nat)
    requires o < |d| && j + o < |s| && s[j + o] != d[o]
    ensures !At(s, d, j)
  {
    assert j + |d| <= |s| ==> s[j..j + |d|][o] == s[j + o];
  }

  /** What occurs behind a prefix is what occurs in the rest. */
  lemma AtBehind(prefix: string, rest: string, d: string, j: nat)
    ensures At(prefix + rest, d, |prefix| + j) <==> At(rest, d, j)
  {
    if j + |d| <= |rest| { assert (prefix + rest)[|prefix| + j..|prefix| + j + |d|] == rest[j..j + |d|]; }
  }

  /** A line without a line end of its own ends at the one behind it, even if its last character is a CR. */
  lemma LineEndIsFirst(line: string, more: string)
    requires !Contains(line, CRLF)
    ensures Find(line + CRLF + more, CRLF) == Some(|line|)
  {
    var all := line + CRLF + more;
    assert all[|line|..|line| + 2] == CRLF;
    forall j: nat | j < |line| ensures !At(all, CRLF, j) {
      if j + 1 < |line| {
        assert all[j..j + 2] == line[j..j + 2];
        assert !At(line, CRLF, j);
      } else {
        DiffersAt(all, CRLF, j, 1);
      }
    }
    FirstAtIsUnique(all, CRLF, |line|);
  }

  lemma CRFreeHasNoLineEnd(line: string)
    requires '\r' !in line
    ensures !Contains(line, CRLF)
  {
    forall k: nat ensures !At(line, CRLF, k) {
      if k < |line| { DiffersAt(line, CRLF, k, 0); }
    }
  }

  lemma LineEndIsFound(line: string, more: string)
    requires '\r' !in line
    ensures Find(line + CRLF + more, CRLF) == Some(|line|)
  {
    CRFreeHasNoLineEnd(line);
    LineEndIsFirst(line, more);
  }

  lemma PrefixOfBoth(a: string, b: string, k: nat)
    requires k <= |b|
    ensures (a + b)[..|a| + k] == a + b[..k] && (a + b)[|a| + k..] == b[k..]
  {
  }

  /** The place of the first `c`, or the length if there is none. */
  function IndexOf(s: string, c: char): (k: nat)
    ensures k <= |s| && (k < |s| ==> s[k] == c) && c !in s[..k]
  {
    if s == "" || s[0] == c then 0 else 1 + IndexOf(s[1..], c)
  }

  lemma IndexOfIs(s: string, c: char, k: nat)
    requires k <= |s| && (k < |s| ==> s[k] == c) && c !in s[..k]
    ensures IndexOf(s, c) == k
  {
    var j := IndexOf(s, c);
    assert forall i | 0 <= i < k :: s[..k][i] == s[i];
    assert forall i | 0 <= i < j :: s[..j][i] == s[i];
  }

  // ----- std::istream

  /** `isspace` in the C locale. */
  predicate IsSpace(c: char) {
    c == ' ' || '\t' <= c <= '\r'
  }

  predicate SpaceFree(s: string) {
    forall i | 0 <= i < |s| :: !IsSpace(s[i])
  }

  /** A `std::istream`: the unread bytes of its buffer, `eofbit` and `failbit`. */
  datatype Input = Input(buf: string, eof: bool, fail: bool) {
    predicate Good() { !eof && !fail }
  }

  function Open(buf: string): Input {
    Input(buf, false, false)
  }

  /** `std::getline(in, text, delim)`: a stream that is not good leaves `text` as it was. */
  function GetLine(i: Input, delim: char, text: string): (Input, string) {
    if !i.Good() then
      (i.(fail := true), text)
    else
      var k := IndexOf(i.buf, delim);
      if k < |i.buf| then (i.(buf := i.buf[k + 1..]), i.buf[..k])
      else (Input("", true, i.buf == ""), i.buf)
  }

  /** `in.get()`, the character ignored. */
  function Get(i: Input): Input {
    if !i.Good() then i.(fail := true)
    else if i.buf == "" then Input("", true, true)
    else i.(buf := i.buf[1..])
  }

  function SkipSpaces(s: string): (r: string)
    ensures r == "" || !IsSpace(r[0])
  {
    if s != "" && IsSpace(s[0]) then SkipSpaces(s[1..]) else s
  }

  function WordLength(s: string): (n: nat)
    ensures n <= |s| && SpaceFree(s[..n]) && (n < |s| ==> IsSpace(s[n]))
  {
    if s == "" || IsSpace(s[0]) then 0 else 1 + WordLength(s[1..])
  }

  /** The word at the front of what is left after skipping spaces, if there is anything left. */
  function TakeWord(s: string, text: string): (Input, string) {
    if s == "" then (Input("", true, true), text)
    else
      var n := WordLength(s);
      (Input(s[n..], n == |s|, false), s[..n])
  }

  /** `in >> text`: spaces skipped, then everything up to the next space or the end of the buffer. */
  function Extract(i: Input, text: string): (Input, string) {
    if i.Good() then TakeWord(SkipSpaces(i.buf), text) else (i.(fail := true), text)
  }

  lemma {:induction false} WordLengthIs(s: string, n: nat)
    requires n <= |s| && SpaceFree(s[..n]) && (n < |s| ==> IsSpace(s[n]))
    ensures WordLength(s) == n
  {
    var m := WordLength(s);
    assert forall i | 0 <= i < n :: s[..n][i] == s[i];
    assert forall i | 0 <= i < m :: s[..m][i] == s[i];
  }

  /** A word that is followed by a space is extracted exactly, whatever the buffer holds after it. */
  lemma ExtractWord(word: string, rest: string, text: string)
    requires word != "" && SpaceFree(word) && rest != "" && IsSpace(rest[0])
    ensures Extract(Open(word + rest), text) == (Open(rest), word)
  {
    var s := word + rest;
    assert s[0] == word[0];
    assert s[..|word|] == word && s[|word|..] == rest;
    WordLengthIs(s, |word|);
  }

  /** Extraction skips a leading space. */
  lemma ExtractAfterSpace(c: char, s: string, text: string)
    requires IsSpace(c)
    ensures Extract(Open([c] + s), text) == Extract(Open(s), text)
  {
    var cs := [c] + s;
    assert cs[0] == c && cs[1..] == s;
  }

  /** The last word of a buffer: extraction takes it and hits the end. */
  lemma ExtractLastWord(word: string, text: string)
    requires word != "" && SpaceFree(word)
    ensures Extract(Open(word), text) == (Input("", true, false), word)
  {
    assert word[..|word|] == word && word[|word|..] == "";
    WordLengthIs(word, |word|);
  }

  lemma ExtractNextWord(word: string, rest: string, text: string)
    requires word != "" && SpaceFree(word) && rest != "" && IsSpace(rest[0])
    ensures Extract(Open(" " + word + rest), text) == (Open(rest), word)
  {
    assert " " + word + rest == [' '] + (word + rest);
    ExtractAfterSpace(' ', word + rest, text);
    ExtractWord(word, rest, text);
  }

  lemma ExtractFinalWord(word: string, text: string)
    requires word != "" && SpaceFree(word)
    ensures Extract(Open(" " + word), text).1 == word
  {
    ExtractAfterSpace(' ', word, text);
    ExtractLastWord(word, text);
  }

  /** What is extracted contains no space, unless nothing was extracted. */
  lemma ExtractedIsSpaceFree(i: Input, text: string)
    ensures Extract(i, text).1 == text || (SpaceFree(Extract(i, text).1) && Extract(i, text).1 != "")
  {
  }

  lemma GetLineUpTo(line: string, delim: char, rest: string, text: string)
    requires delim !in line
    ensures GetLine(Open(line + [delim] + rest), delim, text) == (Open(rest), line)
  {
    var s := line + [delim] + rest;
    assert s[..|line|] == line && s[|line|] == delim && s[|line| + 1..] == rest;
    IndexOfIs(s, delim, |line|);
  }

  /** What `getline` returns never contains its delimiter, unless the stream was not good. */
  lemma GetLineIsDelimFree(i: Input, delim: char, text: string)
    requires i.Good() || delim !in text
    ensures delim !in GetLine(i, delim, text).1
  {
  }

  // ----- lines

  /** The first line of a stream, as far as its first CR, and what follows the CR and the byte after it. */
  function FirstLine(stream: string): string {
    stream[..IndexOf(stream, '\r')]
  }

  function AfterFirstLine(stream: string): string {
    var k := IndexOf(stream, '\r') + 2;
    if k <= |stream| then stream[k..] else ""
  }

  lemma FirstLineIsRead(data: string)
    ensures
      var (in1, line) := GetLine(Open(data), '\r', "");
      line == FirstLine(data) && Get(in1).buf == AfterFirstLine(data)
  {
    var k := IndexOf(data, '\r');
    if k + 1 < |data| { assert data[k + 1..][1..] == data[k + 2..]; }
  }

  lemma FirstCRIsBuffered(data: string)
    requires Contains(data, CRLF)
    ensures IndexOf(data, '\r') + 2 <= |data|
  {
    var p, k := Find(data, CRLF).value, IndexOf(data, '\r');
    assert data[p] == data[p..p + 2][0] == '\r';
    assert forall i | 0 <= i < k :: data[..k][i] == data[i];
  }

  lemma FirstLineStays(data: string, incoming: string)
    requires IndexOf(data, '\r') + 2 <= |data|
    ensures IndexOf(data + incoming, '\r') == IndexOf(data, '\r')
    ensures FirstLine(data + incoming) == FirstLine(data)
    ensures AfterFirstLine(data + incoming) == AfterFirstLine(data) + incoming
  {
    var stream, k := data + incoming, IndexOf(data, '\r');
    assert stream[..k] == data[..k] && stream[k] == data[k];
    IndexOfIs(stream, '\r', k);
    assert stream[k + 2..] == data[k + 2..] + incoming;
  }

  /** Once the buffer contains a CRLF, its first line is the stream's. */
  lemma FirstLineIsBuffered(stream: string, data: string, incoming: string)
    requires data + incoming == stream && Contains(data, CRLF)
    ensures FirstLine(data) == FirstLine(stream) && AfterFirstLine(data) + incoming == AfterFirstLine(stream)
  {
    FirstCRIsBuffered(data);
    FirstLineStays(data, incoming);
  }

  // ----- read_until

  /**
   * How `read_until` ends on a connection that will deliver `all` (what is buffered already included) and then
   * `ending`, into a buffer that holds at most `limit` bytes.
   */
  function UntilResult(all: string, delim: string, limit: Option<nat>, ending: ErrorCode): ErrorCode {
    var k := Find(all, delim);
    if k.Some? && (limit.Some? ==> k.value + |delim| <= limit.value) then Success
    else if limit.Some? && limit.value <= |all| then NotFound
    else ending
  }
}
