/** The string operations the modelled code shares: trimming, splitting into words, joining. */
module Text {

  datatype Option<+T> = None | Some(value: T)

  /** The characters for which Python's str.isspace answers true. */
  predicate IsSpace(c: char) {
    var n := c as int;
    || 0x09 <= n <= 0x0D || 0x1C <= n <= 0x20 || n == 0x85 || n == 0xA0 || n == 0x1680
    || 0x2000 <= n <= 0x200A || n == 0x2028 || n == 0x2029 || n == 0x202F || n == 0x205F || n == 0x3000
  }

  function StripLeft(s: string): string {
    if s != "" && IsSpace(s[0]) then StripLeft(s[1..]) else s
  }

  function StripRight(s: string): string {
    if s != "" && IsSpace(s[|s| - 1]) then StripRight(s[..|s| - 1]) else s
  }

  function Strip(s: string): string {
    StripRight(StripLeft(s))
  }

  /** No space at either end. */
  predicate IsTrimmed(s: string) {
    s == "" || (!IsSpace(s[0]) && !IsSpace(s[|s| - 1]))
  }

  predicate IsBlank(s: string) {
    Strip(s) == ""
  }

  lemma {:induction false} StripLeftTrims(s: string)
    ensures StripLeft(s) == "" || !IsSpace(StripLeft(s)[0])
  {
    if s != "" && IsSpace(s[0]) { StripLeftTrims(s[1..]); }
  }

  lemma {:induction false} StripRightTrims(s: string)
    ensures StripRight(s) <= s
    ensures StripRight(s) == "" || !IsSpace(StripRight(s)[|StripRight(s)| - 1])
  {
    if s != "" && IsSpace(s[|s| - 1]) { StripRightTrims(s[..|s| - 1]); }
  }

  lemma StripTrims(s: string)
    ensures IsTrimmed(Strip(s))
    ensures IsTrimmed(s) ==> Strip(s) == s
  {
    StripLeftTrims(s);
    StripRightTrims(StripLeft(s));
  }

  /** str.lower, on ASCII letters. */
  function LowerChar(c: char): char {
    if 'A' <= c <= 'Z' then (c as int + 32) as char else c
  }

  function Lower(s: string): (r: string)
    ensures |r| == |s|
  {
    seq(|s|, i requires 0 <= i < |s| => LowerChar(s[i]))
  }

  /** str.upper, on ASCII letters. */
  function UpperChar(c: char): char {
    if 'a' <= c <= 'z' then (c as int - 32) as char else c
  }

  function Upper(s: string): (r: string)
    ensures |r| == |s|
  {
    seq(|s|, i requires 0 <= i < |s| => UpperChar(s[i]))
  }

  /** The number of leading characters that are kept. */
  function RunLength(s: string, keep: char -> bool): (n: nat)
    ensures n <= |s|
  {
    if s != "" && keep(s[0]) then 1 + RunLength(s[1..], keep) else 0
  }

  /** The maximal runs of kept characters, left to right. */
  function Runs(s: string, keep: char -> bool): seq<string>
    decreases |s|
  {
    if s == "" then []
    else if !keep(s[0]) then Runs(s[1..], keep)
    else var n := RunLength(s, keep); [s[..n]] + Runs(s[n..], keep)
  }

  predicate NotSpace(c: char) { !IsSpace(c) }

  /** str.split(): the runs of characters that are not spaces. */
  function Split(s: string): seq<string> {
    Runs(s, NotSpace)
  }

  /** The number of runs in several texts together. */
  function RunsIn(texts: seq<string>, keep: char -> bool): nat {
    if texts == [] then 0 else |Runs(texts[0], keep)| + RunsIn(texts[1..], keep)
  }

  lemma {:induction false} RunLengthBeforeGap(a: string, gap: char, b: string, keep: char -> bool)
    requires !keep(gap)
    ensures RunLength(a + [gap] + b, keep) == RunLength(a, keep)
  {
    if a != "" {
      assert (a + [gap] + b)[1..] == a[1..] + [gap] + b;
      RunLengthBeforeGap(a[1..], gap, b, keep);
    }
  }

  /** A character that is not kept separates the runs on its two sides. */
  lemma {:induction false} RunsAcrossGap(a: string, gap: char, b: string, keep: char -> bool)
    requires !keep(gap)
    ensures Runs(a + [gap] + b, keep) == Runs(a, keep) + Runs(b, keep)
    decreases |a|
  {
    var whole := a + [gap] + b;
    if a == "" {
      assert whole[1..] == b;
    } else if !keep(a[0]) {
      assert whole[1..] == a[1..] + [gap] + b;
      RunsAcrossGap(a[1..], gap, b, keep);
    } else {
      var n := RunLength(a, keep);
      RunLengthBeforeGap(a, gap, b, keep);
      assert whole[..n] == a[..n] && whole[n..] == a[n..] + [gap] + b;
      RunsAcrossGap(a[n..], gap, b, keep);
    }
  }

  /** sep.join(parts) with a single character separator. */
  function Join(parts: seq<string>, sep: char): string {
    if parts == [] then ""
    else if |parts| == 1 then parts[0]
    else parts[0] + [sep] + Join(parts[1..], sep)
  }

  lemma {:induction false} JoinSnoc(parts: seq<string>, last: string, sep: char)
    requires parts != []
    ensures Join(parts + [last], sep) == Join(parts, sep) + [sep] + last
  {
    assert (parts + [last])[1..] == parts[1..] + [last];
    if |parts| > 1 {
      JoinSnoc(parts[1..], last, sep);
      calc {
        Join(parts + [last], sep);
        parts[0] + [sep] + (Join(parts[1..], sep) + [sep] + last);
        (parts[0] + [sep] + Join(parts[1..], sep)) + [sep] + last;
      }
    }
  }

  lemma {:induction false} NoChunksNoText(s: string)
    ensures Split(s) == [] ==> StripLeft(s) == ""
  {
    if s != "" && IsSpace(s[0]) {
      NoChunksNoText(s[1..]);
    }
  }

  /** A text with more than white space has a chunk. */
  lemma SpokenHasChunk(s: string)
    requires !IsBlank(s)
    ensures |Split(s)| >= 1
  {
    NoChunksNoText(s);
  }

  lemma {:induction false} BlankMeansSpaces(s: string)
    ensures StripLeft(s) == "" <==> forall k :: 0 <= k < |s| ==> IsSpace(s[k])
  {
    if s != "" {
      BlankMeansSpaces(s[1..]);
      assert forall k :: 1 <= k < |s| ==> s[k] == s[1..][k - 1];
      assert forall k :: 0 <= k < |s| - 1 ==> s[1..][k] == s[k + 1];
    }
  }

  lemma BlankIffLeftBlank(s: string)
    ensures IsBlank(s) <==> StripLeft(s) == ""
  {
    StripLeftTrims(s);
    var t := StripLeft(s);
    if t != "" {
      FirstSurvives(t);
    }
  }

  lemma {:induction false} FirstSurvives(t: string)
    requires t != "" && !IsSpace(t[0])
    ensures StripRight(t) != ""
  {
    if IsSpace(t[|t| - 1]) {
      FirstSurvives(t[..|t| - 1]);
    }
  }

  /** Two texts together are blank if and only if both are. */
  lemma BlankJoined(a: string, b: string)
    ensures IsBlank(a + b) <==> IsBlank(a) && IsBlank(b)
  {
    BlankIffLeftBlank(a);
    BlankIffLeftBlank(b);
    BlankIffLeftBlank(a + b);
    BlankMeansSpaces(a);
    BlankMeansSpaces(b);
    BlankMeansSpaces(a + b);
    assert forall k :: 0 <= k < |a| ==> (a + b)[k] == a[k];
    assert forall k :: 0 <= k < |b| ==> (a + b)[|a| + k] == b[k];
  }

  // ---------- Two ways of counting words ----------

  ghost predicate SpacesSeparate(isWord: char -> bool) {
    forall c :: isWord(c) ==> !IsSpace(c)
  }

  lemma {:induction false} RunStops(s: string, keep: char -> bool)
    ensures RunLength(s, keep) < |s| ==> !keep(s[RunLength(s, keep)])
  {
    if s != "" && keep(s[0]) {
      RunStops(s[1..], keep);
    }
  }

  /** The words of a text are those of its space-separated chunks. */
  lemma {:induction false} WordsByChunk(s: string, isWord: char -> bool)
    requires SpacesSeparate(isWord)
    ensures |Runs(s, isWord)| == RunsIn(Split(s), isWord)
    decreases |s|
  {
    if s != "" {
      if IsSpace(s[0]) {
        WordsByChunk(s[1..], isWord);
      } else {
        var n := RunLength(s, NotSpace);
        RunStops(s, NotSpace);
        WordsByChunk(s[n..], isWord);
        FirstChunk(s[..n], s[n..], isWord);
        assert s[..n] + s[n..] == s;
        assert Split(s) == [s[..n]] + Split(s[n..]);
      }
    }
  }

  lemma FirstChunk(chunk: string, rest: string, isWord: char -> bool)
    requires SpacesSeparate(isWord) && (rest != "" ==> IsSpace(rest[0]))
    ensures Runs(chunk + rest, isWord) == Runs(chunk, isWord) + Runs(rest, isWord)
  {
    if rest == "" {
      assert chunk + rest == chunk;
    } else {
      RunsAcrossGap(chunk, rest[0], rest[1..], isWord);
      assert chunk + [rest[0]] + rest[1..] == chunk + rest;
    }
  }

  /** Chunks that hold one word each, or at least one. */
  ghost predicate OneWordEach(chunks: seq<string>, isWord: char -> bool) {
    forall k :: 0 <= k < |chunks| ==> |Runs(chunks[k], isWord)| == 1
  }

  ghost predicate SomeWordEach(chunks: seq<string>, isWord: char -> bool) {
    forall k :: 0 <= k < |chunks| ==> |Runs(chunks[k], isWord)| >= 1
  }

  lemma {:induction false} ChunksCounted(chunks: seq<string>, isWord: char -> bool)
    ensures OneWordEach(chunks, isWord) ==> RunsIn(chunks, isWord) == |chunks|
    ensures SomeWordEach(chunks, isWord) ==>
              RunsIn(chunks, isWord) >= |chunks| && (RunsIn(chunks, isWord) == |chunks| <==> OneWordEach(chunks, isWord))
  {
    if chunks != [] {
      ChunksCounted(chunks[1..], isWord);
      assert forall k :: 0 <= k < |chunks| - 1 ==> chunks[1..][k] == chunks[k + 1];
      assert OneWordEach(chunks, isWord) ==> OneWordEach(chunks[1..], isWord);
      assert SomeWordEach(chunks, isWord) ==> SomeWordEach(chunks[1..], isWord);
      forall k | OneWordEach(chunks[1..], isWord) && |Runs(chunks[0], isWord)| == 1 && 0 <= k < |chunks|
        ensures |Runs(chunks[k], isWord)| == 1
      {
        assert k > 0 ==> chunks[k] == chunks[1..][k - 1];
      }
    }
  }

  /** Counting chunks and counting words agree when every chunk holds exactly one word, as it does when
      punctuation only stands at the ends of chunks; among texts without a chunk of bare punctuation they
      agree only then, and otherwise there are more words than chunks. */
  lemma TwoWordCounts(s: string, isWord: char -> bool)
    requires SpacesSeparate(isWord)
    ensures |Runs(s, isWord)| == RunsIn(Split(s), isWord)
    ensures OneWordEach(Split(s), isWord) ==> |Split(s)| == |Runs(s, isWord)|
    ensures SomeWordEach(Split(s), isWord) ==>
              |Split(s)| <= |Runs(s, isWord)| && (|Split(s)| == |Runs(s, isWord)| <==> OneWordEach(Split(s), isWord))
  {
    WordsByChunk(s, isWord);
    ChunksCounted(Split(s), isWord);
  }

  /** An apostrophe inside a word: one chunk, two words. */
  lemma ApostropheCountsTwice(isWord: char -> bool)
    requires isWord('i') && isWord('t') && isWord('s') && !isWord('\'')
    ensures |Split("it's")| == 1 && |Runs("it's", isWord)| == 2
  {
    var s := "it's";
    assert s == "it" + ['\''] + "s";
    RunsAcrossGap("it", '\'', "s", isWord);
    WholeRun("it", isWord);
    WholeRun("s", isWord);
    WholeRun(s, NotSpace);
  }

  lemma {:induction false} WholeRun(s: string, keep: char -> bool)
    requires s != "" && forall k :: 0 <= k < |s| ==> keep(s[k])
    ensures RunLength(s, keep) == |s| && Runs(s, keep) == [s]
  {
    if |s| > 1 {
      WholeRun(s[1..], keep);
    }
    assert s[|s|..] == "" && s[..|s|] == s;
  }
}
