/** Lines as words with white space between them, independently of how a stream extracts them. */
module Words {
  import opened Streams

  /** Space, tab, line feed, vertical tab, form feed and carriage return. */
  predicate White(c: char) {
    c == ' ' || c == '\t' || c == '\n' || c == '\U{0B}' || c == '\U{0C}' || c == '\r'
  }

  lemma SpaceIsWhite(c: char)
    ensures IsSpace(c) <==> White(c)
  {
  }

  predicate Gap(s: string) {
    forall i | 0 <= i < |s| :: White(s[i])
  }

  predicate Word(s: string) {
    s != "" && forall i | 0 <= i < |s| :: !White(s[i])
  }

  lemma GapIsSpace(s: string)
    requires Gap(s)
    ensures forall i | 0 <= i < |s| :: IsSpace(s[i])
  {
    forall i | 0 <= i < |s| ensures IsSpace(s[i]) { SpaceIsWhite(s[i]); }
  }

  lemma WordIsSpaceFree(s: string)
    ensures Word(s) <==> s != "" && SpaceFree(s)
  {
    forall i | 0 <= i < |s| ensures IsSpace(s[i]) <==> White(s[i]) { SpaceIsWhite(s[i]); }
  }

  /** `word` is the first word of `line`, behind `gap` and in front of `rest`. */
  predicate Begins(line: string, gap: string, word: string, rest: string) {
    line == gap + word + rest && Gap(gap) && Word(word) && (rest == "" || White(rest[0]))
  }

  /** `words` are all the words of `line`, in order. */
  ghost predicate Splits(line: string, words: seq<string>)
    decreases |words|
  {
    if words == [] then Gap(line)
    else exists gap, rest :: Begins(line, gap, words[0], rest) && Splits(rest, words[1..])
  }

  /** Every line has its words. */
  function WordsOf(line: string): (words: seq<string>)
    ensures Splits(line, words)
    decreases |line|
  {
    if line == "" then []
    else if IsSpace(line[0]) then
      var words := WordsOf(line[1..]);
      SpaceIsWhite(line[0]);
      SpaceInFront(line, words);
      words
    else
      var n := WordLength(line);
      var words := WordsOf(line[n..]);
      WordInFront(line, n, words);
      [line[..n]] + words
  }

  lemma SpaceInFront(line: string, words: seq<string>)
    requires line != "" && White(line[0]) && Splits(line[1..], words)
    ensures Splits(line, words)
  {
    if words != [] {
      var gap, rest :| Begins(line[1..], gap, words[0], rest) && Splits(rest, words[1..]);
      assert Begins(line, [line[0]] + gap, words[0], rest) by { assert line == [line[0]] + line[1..]; }
    }
  }

  lemma WordInFront(line: string, n: nat, words: seq<string>)
    requires 0 < n <= |line| && SpaceFree(line[..n]) && (n < |line| ==> IsSpace(line[n])) && Splits(line[n..], words)
    ensures Splits(line, [line[..n]] + words)
  {
    var all := [line[..n]] + words;
    WordIsSpaceFree(line[..n]);
    if n < |line| { SpaceIsWhite(line[n]); }
    assert all[0] == line[..n] && all[1..] == words;
    assert line == "" + line[..n] + line[n..] && line[..n] != "";
    assert Begins(line, "", all[0], line[n..]);
  }

  /** The words of a line are determined. */
  lemma {:induction false} WordsAreUnique(line: string, words: seq<string>, words': seq<string>)
    requires Splits(line, words) && Splits(line, words')
    ensures words == words'
    decreases |words|
  {
    if words != [] && words' != [] {
      var gap, rest :| Begins(line, gap, words[0], rest) && Splits(rest, words[1..]);
      var gap', rest' :| Begins(line, gap', words'[0], rest') && Splits(rest', words'[1..]);
      FirstIsExtracted(line, gap, words[0], rest, "");
      FirstIsExtracted(line, gap', words'[0], rest', "");
      WordsAreUnique(rest, words[1..], words'[1..]);
    } else if words != [] {
      var gap, rest :| Begins(line, gap, words[0], rest) && Splits(rest, words[1..]);
      WordIsNoGap(line, gap, words[0], rest);
    } else if words' != [] {
      var gap', rest' :| Begins(line, gap', words'[0], rest') && Splits(rest', words'[1..]);
      WordIsNoGap(line, gap', words'[0], rest');
    }
  }

  lemma WordIsNoGap(line: string, gap: string, word: string, rest: string)
    requires Begins(line, gap, word, rest)
    ensures !Gap(line)
  {
    assert line[|gap|] == word[0];
  }

  /** The word with this index, counted from zero, or nothing if there are not that many. */
  function WordAt(line: string, i: nat): string {
    if i < |WordsOf(line)| then WordsOf(line)[i] else ""
  }

  lemma WordAtIs(line: string, words: seq<string>, i: nat)
    requires Splits(line, words)
    ensures WordAt(line, i) == if i < |words| then words[i] else ""
  {
    WordsAreUnique(line, words, WordsOf(line));
  }

  // ----- extraction

  lemma {:induction false} GapIsSkipped(gap: string, s: string)
    requires Gap(gap)
    ensures SkipSpaces(gap + s) == SkipSpaces(s)
  {
    GapIsSpace(gap);
    if gap == "" {
      assert gap + s == s;
    } else {
      assert (gap + s)[1..] == gap[1..] + s;
      GapIsSkipped(gap[1..], s);
    }
  }

  lemma FirstIsExtracted(line: string, gap: string, word: string, rest: string, text: string)
    requires Begins(line, gap, word, rest)
    ensures Extract(Open(line), text) == (Input(rest, rest == "", false), word)
  {
    assert line == gap + (word + rest);
    GapIsSkipped(gap, word + rest);
    WordIsSpaceFree(word);
    if rest == "" {
      assert word + rest == word;
      ExtractLastWord(word, text);
    } else {
      SpaceIsWhite(rest[0]);
      ExtractWord(word, rest, text);
    }
  }

  lemma NothingIsExtracted(gap: string, text: string)
    requires Gap(gap)
    ensures Extract(Open(gap), text) == (Input("", true, true), text)
  {
    GapIsSkipped(gap, "");
    assert gap + "" == gap;
  }

  /** A stream from which `words` are still to be extracted. */
  ghost predicate Holds(i: Input, words: seq<string>) {
    Splits(i.buf, words) && (i.Good() || i.buf == "")
  }

  /** Extraction takes the next word, if there is one. */
  lemma NextIsExtracted(i: Input, words: seq<string>, text: string)
    requires Holds(i, words)
    ensures Extract(i, text).1 == if words == [] then text else words[0]
    ensures Holds(Extract(i, text).0, if words == [] then [] else words[1..])
  {
    if words != [] {
      var gap, rest :| Begins(i.buf, gap, words[0], rest) && Splits(rest, words[1..]);
      FirstIsExtracted(i.buf, gap, words[0], rest, text);
    } else if i.Good() {
      NothingIsExtracted(i.buf, text);
    }
  }
}
