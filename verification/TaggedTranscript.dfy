/** Transcripts that mark speech in another language as "[XX: text]": the writer that joins recognised
    segments, and the three scanners that read the result. The scanners share one regular expression
    ("[", two capital letters, ": ", anything up to the first "]"), matched leftmost without overlaps. */
module TaggedTranscript {
  import opened Text

  // ---------- Scanning ----------

  datatype Piece = Plain(c: char) | Tag(first: char, second: char, inner: string)

  predicate IsCapital(c: char) { 'A' <= c <= 'Z' }

  /** The text of one piece. */
  function Show(p: Piece): string {
    match p
    case Plain(c) => [c]
    case Tag(first, second, inner) => ['[', first, second, ':', ' '] + inner + [']']
  }

  function ShowAll(ps: seq<Piece>): string {
    if ps == [] then "" else Show(ps[0]) + ShowAll(ps[1..])
  }

  predicate Opens(s: string) {
    |s| >= 5 && s[0] == '[' && IsCapital(s[1]) && IsCapital(s[2]) && s[3] == ':' && s[4] == ' '
  }

  /** The position of the first closing bracket. */
  function FirstClose(s: string): (at: Option<nat>)
    ensures at.Some? ==> at.value < |s| && s[at.value] == ']' && ']' !in s[..at.value]
    ensures at.None? ==> ']' !in s
  {
    if s == "" then None
    else if s[0] == ']' then Some(0)
    else
      var rest := FirstClose(s[1..]);
      if rest.None? then None
      else
        assert s[..rest.value + 1] == [s[0]] + s[1..][..rest.value];
        Some(rest.value + 1)
  }

  /** The match of the regular expression that starts at the head of s. */
  function Match(s: string): (t: Option<Piece>)
    ensures t.Some? ==> t.value.Tag? && Show(t.value) <= s
  {
    if Opens(s) && FirstClose(s[5..]).Some? then
      var end := FirstClose(s[5..]).value;
      assert s == s[..5] + s[5..][..end] + [']'] + s[5..][end + 1..];
      Some(Tag(s[1], s[2], s[5..][..end]))
    else None
  }

  function Scan(s: string): seq<Piece>
    decreases |s|
  {
    if s == "" then []
    else
      match Match(s)
      case Some(tag) => [tag] + Scan(s[|Show(tag)|..])
      case None => [Plain(s[0])] + Scan(s[1..])
  }

  /** strip_non_target_segments: each tag becomes a space. */
  function Stripped(ps: seq<Piece>): string {
    if ps == [] then "" else (if ps[0].Tag? then " " else Show(ps[0])) + Stripped(ps[1..])
  }

  /** What one piece gives to the extracted texts. */
  function InnerOf(p: Piece): seq<string> {
    if p.Tag? then [p.inner] else []
  }

  /** extract_non_target_segments: the inner texts in order. */
  function Extracted(ps: seq<Piece>): seq<string> {
    if ps == [] then [] else InnerOf(ps[0]) + Extracted(ps[1..])
  }

  /** unwrap_language_tags: the inner text in place of its tag. */
  function Unwrapped(ps: seq<Piece>): string {
    if ps == [] then "" else (if ps[0].Tag? then ps[0].inner else Show(ps[0])) + Unwrapped(ps[1..])
  }

  function StripTags(text: string): string { Stripped(Scan(text)) }
  function ExtractTags(text: string): seq<string> { Extracted(Scan(text)) }
  function UnwrapTags(text: string): string { Unwrapped(Scan(text)) }

  // ---------- What a scan is ----------

  predicate IsTag(p: Piece) {
    p.Tag? && IsCapital(p.first) && IsCapital(p.second) && ']' !in p.inner
  }

  /** The text begins with some match of the regular expression. */
  ghost predicate StartsWithTag(s: string) {
    exists p: Piece :: IsTag(p) && Show(p) <= s
  }

  /** Every tag is a match, and no match starts at a plain character: matches are taken leftmost. */
  ghost predicate IsScan(ps: seq<Piece>) {
    forall k :: 0 <= k < |ps| ==> if ps[k].Tag? then IsTag(ps[k]) else !StartsWithTag(ShowAll(ps[k..]))
  }

  /** Two matches at one place are the same match. */
  lemma MatchMeaning(s: string, p: Piece)
    ensures IsTag(p) && Show(p) <= s <==> Match(s) == Some(p)
  {
    if IsTag(p) && Show(p) <= s {
      var n := |p.inner|;
      assert s[..5] == Show(p)[..5] && s[0] == Show(p)[0] && s[1] == Show(p)[1] && s[2] == Show(p)[2] && s[3] == Show(p)[3] && s[4] == Show(p)[4];
      assert s[5 + n] == Show(p)[5 + n] == ']';
      var end := FirstClose(s[5..]);
      assert s[5..][n] == ']';
      assert forall k :: 0 <= k < n ==> s[5..][k] == s[5 + k] == Show(p)[5 + k] == p.inner[k];
      assert end.Some?;
      assert s[5..][..n] == p.inner;
    }
  }

  lemma StartsIffMatch(s: string)
    ensures StartsWithTag(s) <==> Match(s).Some?
  {
    if Match(s).Some? {
      MatchMeaning(s, Match(s).value);
    }
    if StartsWithTag(s) {
      var p: Piece :| IsTag(p) && Show(p) <= s;
      MatchMeaning(s, p);
    }
  }

  /** Scanning loses nothing, and finds exactly the leftmost matches. */
  lemma {:induction false} ScanIsLossless(s: string)
    ensures ShowAll(Scan(s)) == s
    ensures IsScan(Scan(s))
    decreases |s|
  {
    if s != "" {
      var head := Scan(s)[0];
      var rest := s[|Show(head)|..];
      ScanIsLossless(rest);
      assert Scan(s) == [head] + Scan(rest);
      assert Scan(s)[1..] == Scan(rest);
      StartsIffMatch(s);
      if Match(s).Some? {
        MatchMeaning(s, head);
      }
      assert s == Show(head) + rest;
      forall k | 0 < k < |Scan(s)| ensures Scan(s)[k] == Scan(rest)[k - 1] && Scan(s)[k..] == Scan(rest)[k - 1..] {
      }
    }
  }

  /** A text has one scan only. */
  lemma {:induction false} ScanIsUnique(ps: seq<Piece>)
    requires IsScan(ps)
    ensures Scan(ShowAll(ps)) == ps
  {
    if ps != [] {
      var s := ShowAll(ps);
      assert s == Show(ps[0]) + ShowAll(ps[1..]);
      assert ps[0..] == ps;
      forall k | 0 <= k < |ps| - 1 ensures ps[1..][k] == ps[k + 1] && ps[1..][k..] == ps[k + 1..] {
      }
      ScanIsUnique(ps[1..]);
      StartsIffMatch(s);
      if ps[0].Tag? {
        MatchMeaning(s, ps[0]);
      }
      assert s[|Show(ps[0])|..] == ShowAll(ps[1..]);
    }
  }

  function TagCount(ps: seq<Piece>): nat {
    if ps == [] then 0 else (if ps[0].Tag? then 1 else 0) + TagCount(ps[1..])
  }

  /** Unwrapping removes exactly the six marker characters of each tag, so a text comes back unchanged
      if and only if there is no tag in it. */
  lemma {:induction false} UnwrapRemovesMarkers(ps: seq<Piece>)
    ensures |Unwrapped(ps)| + 6 * TagCount(ps) == |ShowAll(ps)|
    ensures |Extracted(ps)| == TagCount(ps)
    ensures TagCount(ps) == 0 ==> Unwrapped(ps) == ShowAll(ps) == Stripped(ps)
  {
    if ps != [] {
      UnwrapRemovesMarkers(ps[1..]);
    }
  }

  lemma UnchangedIffUntagged(text: string)
    ensures UnwrapTags(text) == text <==> ExtractTags(text) == []
    ensures ExtractTags(text) == [] ==> StripTags(text) == text
    ensures |UnwrapTags(text)| + 6 * |ExtractTags(text)| == |text|
  {
    ScanIsLossless(text);
    UnwrapRemovesMarkers(Scan(text));
  }

  // ---------- Writing ----------

  datatype Segment = Segment(text: string, language: string)

  /** The part of a locale before its first dash. */
  function BeforeDash(s: string): string {
    if s == "" || s[0] == '-' then "" else [s[0]] + BeforeDash(s[1..])
  }

  function LanguageCode(language: string): string {
    var code := Upper(BeforeDash(language));
    if code == "" then "XX" else code
  }

  function Bracketed(code: string, text: string): string {
    "[" + code + ": " + text + "]"
  }

  /** Whether the segment is in the language being graded, whose prefix is in lower case. */
  predicate InTarget(segment: Segment, prefix: string) {
    prefix <= Lower(segment.language)
  }

  function Part(segment: Segment, prefix: string): string {
    if InTarget(segment, prefix) then segment.text else Bracketed(LanguageCode(segment.language), segment.text)
  }

  function Parts(segments: seq<Segment>, prefix: string): seq<string> {
    if segments == [] then [] else [Part(segments[0], prefix)] + Parts(segments[1..], prefix)
  }

  /** The transcript that is stored. */
  function Rendered(segments: seq<Segment>, prefix: string): string {
    Join(Parts(segments, prefix), ' ')
  }

  function Texts(segments: seq<Segment>): seq<string> {
    if segments == [] then [] else [segments[0].text] + Texts(segments[1..])
  }

  function TargetTexts(segments: seq<Segment>, prefix: string): seq<string> {
    if segments == [] then []
    else (if InTarget(segments[0], prefix) then [segments[0].text] else []) + TargetTexts(segments[1..], prefix)
  }

  function ForeignTexts(segments: seq<Segment>, prefix: string): seq<string> {
    if segments == [] then []
    else (if InTarget(segments[0], prefix) then [] else [segments[0].text]) + ForeignTexts(segments[1..], prefix)
  }

  predicate IsCode(code: string) {
    |code| == 2 && IsCapital(code[0]) && IsCapital(code[1])
  }

  /** What a recogniser delivers: no opening bracket in the target language, no closing bracket in
      another one, and two-letter codes for the other languages. */
  predicate Readable(segment: Segment, prefix: string) {
    if InTarget(segment, prefix) then '[' !in segment.text
    else ']' !in segment.text && IsCode(LanguageCode(segment.language))
  }

  ghost predicate AllReadable(segments: seq<Segment>, prefix: string) {
    forall k :: 0 <= k < |segments| ==> Readable(segments[k], prefix)
  }

  function Plains(s: string): seq<Piece> {
    if s == "" then [] else [Plain(s[0])] + Plains(s[1..])
  }

  function PiecesOf(segment: Segment, prefix: string): seq<Piece>
    requires Readable(segment, prefix)
  {
    if InTarget(segment, prefix) then Plains(segment.text)
    else var code := LanguageCode(segment.language); [Tag(code[0], code[1], segment.text)]
  }

  // ---------- Reading what was written ----------

  lemma {:induction false} ScanPlain(text: string, rest: string)
    requires '[' !in text
    ensures Scan(text + rest) == Plains(text) + Scan(rest)
    decreases |text|
  {
    if text == "" {
      assert text + rest == rest;
    } else {
      assert (text + rest)[0] == text[0] && (text + rest)[1..] == text[1..] + rest;
      ScanPlain(text[1..], rest);
    }
  }

  lemma ScanTag(tag: Piece, rest: string)
    requires IsTag(tag)
    ensures Scan(Show(tag) + rest) == [tag] + Scan(rest)
  {
    MatchMeaning(Show(tag) + rest, tag);
    assert (Show(tag) + rest)[|Show(tag)|..] == rest;
  }

  lemma ScanPart(segment: Segment, prefix: string, rest: string)
    requires Readable(segment, prefix)
    ensures Scan(Part(segment, prefix) + rest) == PiecesOf(segment, prefix) + Scan(rest)
  {
    if InTarget(segment, prefix) {
      ScanPlain(segment.text, rest);
    } else {
      var code := LanguageCode(segment.language);
      var tag := Tag(code[0], code[1], segment.text);
      assert Show(tag) == Bracketed(code, segment.text);
      ScanTag(tag, rest);
    }
  }

  lemma {:induction false} PlainsRead(s: string)
    ensures Stripped(Plains(s)) == s && Unwrapped(Plains(s)) == s && Extracted(Plains(s)) == []
  {
    if s != "" { PlainsRead(s[1..]); }
  }

  lemma {:induction false} StripAcross(a: seq<Piece>, b: seq<Piece>)
    ensures Stripped(a + b) == Stripped(a) + Stripped(b)
  {
    if a == [] {
      assert a + b == b;
    } else {
      assert (a + b)[1..] == a[1..] + b;
      StripAcross(a[1..], b);
    }
  }

  lemma {:induction false} UnwrapAcross(a: seq<Piece>, b: seq<Piece>)
    ensures Unwrapped(a + b) == Unwrapped(a) + Unwrapped(b)
  {
    if a == [] {
      assert a + b == b;
    } else {
      assert (a + b)[1..] == a[1..] + b;
      UnwrapAcross(a[1..], b);
    }
  }

  lemma {:induction false} ExtractAcross(a: seq<Piece>, b: seq<Piece>)
    ensures Extracted(a + b) == Extracted(a) + Extracted(b)
  {
    if a == [] {
      assert a + b == b;
    } else {
      assert (a + b)[1..] == a[1..] + b && (a + b)[0] == a[0];
      ExtractAcross(a[1..], b);
      calc {
        Extracted(a + b);
        InnerOf(a[0]) + Extracted(a[1..] + b);
        InnerOf(a[0]) + (Extracted(a[1..]) + Extracted(b));
        (InnerOf(a[0]) + Extracted(a[1..])) + Extracted(b);
      }
    }
  }

  lemma ReadAcross(a: seq<Piece>, b: seq<Piece>)
    ensures Stripped(a + b) == Stripped(a) + Stripped(b)
    ensures Unwrapped(a + b) == Unwrapped(a) + Unwrapped(b)
    ensures Extracted(a + b) == Extracted(a) + Extracted(b)
  {
    StripAcross(a, b);
    UnwrapAcross(a, b);
    ExtractAcross(a, b);
  }

  /** How the three readers see one rendered segment followed by more text. */
  lemma PartRead(segment: Segment, prefix: string, rest: string)
    requires Readable(segment, prefix)
    ensures var whole := Part(segment, prefix) + rest;
            && UnwrapTags(whole) == segment.text + UnwrapTags(rest)
            && ExtractTags(whole) == (if InTarget(segment, prefix) then [] else [segment.text]) + ExtractTags(rest)
            && StripTags(whole) == (if InTarget(segment, prefix) then segment.text else " ") + StripTags(rest)
  {
    ScanPart(segment, prefix, rest);
    ReadAcross(PiecesOf(segment, prefix), Scan(rest));
    if InTarget(segment, prefix) {
      PlainsRead(segment.text);
    } else {
      var tag := PiecesOf(segment, prefix)[0];
      assert Unwrapped([tag]) == tag.inner + Unwrapped([]);
      assert Extracted([tag]) == [tag.inner] + Extracted([]);
      assert Stripped([tag]) == " " + Stripped([]);
    }
  }

  lemma SpaceRead(rest: string)
    ensures UnwrapTags(" " + rest) == " " + UnwrapTags(rest)
    ensures ExtractTags(" " + rest) == ExtractTags(rest)
    ensures StripTags(" " + rest) == " " + StripTags(rest)
  {
    ScanPlain(" ", rest);
    PlainsRead(" ");
    ReadAcross(Plains(" "), Scan(rest));
  }

  /** What a segment leaves in the stripped transcript. */
  function Trace(segment: Segment, prefix: string): string {
    if InTarget(segment, prefix) then segment.text else " "
  }

  lemma RenderedStep(segments: seq<Segment>, prefix: string)
    requires |segments| > 1
    ensures Rendered(segments, prefix) == Part(segments[0], prefix) + (" " + Rendered(segments[1..], prefix))
    ensures Join(Texts(segments), ' ') == segments[0].text + (" " + Join(Texts(segments[1..]), ' '))
  {
    JoinFirst(segments[0].text, Texts(segments[1..]));
    JoinFirst(Part(segments[0], prefix), Parts(segments[1..], prefix));
    assert Texts(segments[1..]) != [] && Parts(segments[1..], prefix) != [];
  }

  lemma JoinFirst(first: string, rest: seq<string>)
    requires rest != []
    ensures Join([first] + rest, ' ') == first + (" " + Join(rest, ' '))
  {
    assert ([first] + rest)[1..] == rest;
    assert first + [' '] + Join(rest, ' ') == first + (" " + Join(rest, ' '));
  }

  /** How the three readers see a rendered transcript, first segment first. */
  lemma FirstRead(segments: seq<Segment>, prefix: string)
    requires segments != [] && Readable(segments[0], prefix)
    ensures var whole, rest := Rendered(segments, prefix), Rendered(segments[1..], prefix);
            && UnwrapTags(whole) == segments[0].text + (if |segments| == 1 then "" else " " + UnwrapTags(rest))
            && ExtractTags(whole) == (if InTarget(segments[0], prefix) then [] else [segments[0].text]) + ExtractTags(rest)
            && StripTags(whole) == Trace(segments[0], prefix) + (if |segments| == 1 then "" else " " + StripTags(rest))
  {
    var rest := Rendered(segments[1..], prefix);
    if |segments| == 1 {
      assert Rendered(segments, prefix) == Part(segments[0], prefix) + "";
      PartRead(segments[0], prefix, "");
    } else {
      RenderedStep(segments, prefix);
      PartRead(segments[0], prefix, " " + rest);
      SpaceRead(rest);
    }
  }

  /** Unwrapping the stored transcript gives back what was said, word for word and space for space;
      extracting gives exactly the foreign segments, in order. */
  lemma {:induction false} RenderingIsUndone(segments: seq<Segment>, prefix: string)
    requires AllReadable(segments, prefix)
    ensures UnwrapTags(Rendered(segments, prefix)) == Join(Texts(segments), ' ')
    ensures ExtractTags(Rendered(segments, prefix)) == ForeignTexts(segments, prefix)
  {
    if segments != [] {
      FirstRead(segments, prefix);
      RenderingIsUndone(segments[1..], prefix);
      if |segments| > 1 {
        RenderedStep(segments, prefix);
      }
    }
  }

  // ---------- Counting words ----------

  function RunsOfAll(texts: seq<string>, isWord: char -> bool): seq<string> {
    if texts == [] then [] else Runs(texts[0], isWord) + RunsOfAll(texts[1..], isWord)
  }

  /** compute_code_switching_ratio before its rounding. */
  function SwitchingRatio(text: string, isWord: char -> bool): real {
    var target := |Runs(StripTags(text), isWord)|;
    var foreign := RunsIn(ExtractTags(text), isWord);
    if target + foreign > 0 then foreign as real / (target + foreign) as real else 0.0
  }

  /** Runs of a text, of a space, of more text. */
  lemma RunsAcrossSpace(a: string, b: string, isWord: char -> bool)
    requires !isWord(' ')
    ensures Runs(a + (" " + b), isWord) == Runs(a, isWord) + Runs(b, isWord)
    ensures Runs(" " + b, isWord) == Runs(b, isWord)
    ensures Runs(" ", isWord) == []
  {
    RunsAcrossGap(a, ' ', b, isWord);
    assert a + [' '] + b == a + (" " + b);
    assert (" " + b)[1..] == b;
  }

  lemma RunsOfFirst(text: string, texts: seq<string>, isWord: char -> bool)
    ensures RunsOfAll([text] + texts, isWord) == Runs(text, isWord) + RunsOfAll(texts, isWord)
  {
    assert ([text] + texts)[1..] == texts;
  }

  lemma TargetWordsStep(segments: seq<Segment>, prefix: string, isWord: char -> bool)
    requires segments != [] && !isWord(' ')
    ensures RunsOfAll(TargetTexts(segments, prefix), isWord) ==
            Runs(Trace(segments[0], prefix), isWord) + RunsOfAll(TargetTexts(segments[1..], prefix), isWord)
  {
    var rest := TargetTexts(segments[1..], prefix);
    if InTarget(segments[0], prefix) {
      RunsOfFirst(segments[0].text, rest, isWord);
    } else {
      RunsAcrossSpace("", "", isWord);
      assert [] + rest == rest;
    }
  }

  /** Stripping keeps exactly the words of the target language, in order. */
  lemma {:induction false} StrippedWords(segments: seq<Segment>, prefix: string, isWord: char -> bool)
    requires AllReadable(segments, prefix) && !isWord(' ')
    ensures Runs(StripTags(Rendered(segments, prefix)), isWord) == RunsOfAll(TargetTexts(segments, prefix), isWord)
  {
    if segments != [] {
      var head := Trace(segments[0], prefix);
      FirstRead(segments, prefix);
      StrippedWords(segments[1..], prefix, isWord);
      TargetWordsStep(segments, prefix, isWord);
      if |segments| == 1 {
        assert head + "" == head;
      } else {
        RunsAcrossSpace(head, StripTags(Rendered(segments[1..], prefix)), isWord);
      }
    }
  }

  lemma {:induction false} TotalIsRuns(texts: seq<string>, isWord: char -> bool)
    ensures RunsIn(texts, isWord) == |RunsOfAll(texts, isWord)|
  {
    if texts != [] { TotalIsRuns(texts[1..], isWord); }
  }

  lemma {:induction false} WordsOfJoin(texts: seq<string>, isWord: char -> bool)
    requires !isWord(' ')
    ensures Runs(Join(texts, ' '), isWord) == RunsOfAll(texts, isWord)
  {
    if |texts| == 1 {
      assert RunsOfAll(texts, isWord) == Runs(texts[0], isWord) + RunsOfAll([], isWord);
    } else if |texts| > 1 {
      WordsOfJoin(texts[1..], isWord);
      RunsAcrossGap(texts[0], ' ', Join(texts[1..], ' '), isWord);
    }
  }

  lemma {:induction false} WordsAreSplit(segments: seq<Segment>, prefix: string, isWord: char -> bool)
    ensures |RunsOfAll(Texts(segments), isWord)| ==
            |RunsOfAll(TargetTexts(segments, prefix), isWord)| + |RunsOfAll(ForeignTexts(segments, prefix), isWord)|
  {
    if segments != [] {
      WordsAreSplit(segments[1..], prefix, isWord);
      var text, targets, others := segments[0].text, TargetTexts(segments[1..], prefix), ForeignTexts(segments[1..], prefix);
      RunsOfFirst(text, Texts(segments[1..]), isWord);
      if InTarget(segments[0], prefix) {
        RunsOfFirst(text, targets, isWord);
        assert [] + others == others;
      } else {
        RunsOfFirst(text, others, isWord);
        assert [] + targets == targets;
      }
    }
  }

  /** The ratio is the share of foreign words among all words of what was said. */
  lemma RatioMeaning(segments: seq<Segment>, prefix: string, isWord: char -> bool)
    requires AllReadable(segments, prefix) && !isWord(' ')
    ensures var all := |Runs(Join(Texts(segments), ' '), isWord)|;
            var foreign := |Runs(Join(ForeignTexts(segments, prefix), ' '), isWord)|;
            SwitchingRatio(Rendered(segments, prefix), isWord) == if all == 0 then 0.0 else foreign as real / all as real
  {
    RenderingIsUndone(segments, prefix);
    StrippedWords(segments, prefix, isWord);
    TotalIsRuns(ForeignTexts(segments, prefix), isWord);
    WordsOfJoin(Texts(segments), isWord);
    WordsOfJoin(ForeignTexts(segments, prefix), isWord);
    WordsAreSplit(segments, prefix, isWord);
  }

  // ---------- Why both conditions are there ----------

  lemma {:induction false} InnersAreShorter(s: string)
    ensures forall t :: t in ExtractTags(s) ==> |t| + 6 <= |s|
    decreases |s|
  {
    if s != "" {
      var head := Scan(s)[0];
      var rest := s[|Show(head)|..];
      InnersAreShorter(rest);
      assert Scan(s) == [head] + Scan(rest);
      assert ExtractTags(s) == (if head.Tag? then [head.inner] else []) + ExtractTags(rest);
    }
  }

  /** A foreign text is read back from its tag if and only if its code has two capital letters and it
      holds no closing bracket. */
  lemma WrappedReadBack(code: string, text: string)
    requires '[' !in code && ':' !in code
    ensures ExtractTags(Bracketed(code, text)) == [text] <==> IsCode(code) && ']' !in text
  {
    var whole := Bracketed(code, text);
    if IsCode(code) && ']' !in text {
      var tag := Tag(code[0], code[1], text);
      assert whole == Show(tag) + "";
      ScanTag(tag, "");
      assert Extracted([tag]) == [text] + Extracted([]);
    } else if IsCode(code) {
      CutShort(code, text);
    } else {
      MisreadCode(code, text);
    }
  }

  /** A closing bracket inside a foreign text ends the tag too early. */
  lemma CutShort(code: string, text: string)
    requires IsCode(code) && ']' in text
    ensures ExtractTags(Bracketed(code, text)) != [text]
  {
    var whole := Bracketed(code, text);
    assert whole[..5] == "[" + code + ": " && whole[5..] == text + "]";
    var end := FirstClose(whole[5..]);
    var k :| 0 <= k < |text| && text[k] == ']';
    assert whole[5..][k] == ']';
    assert end.Some? && end.value < |text| by {
      assert end.Some? ==> ']' !in whole[5..][..end.value];
      assert forall j :: end.Some? && 0 <= j < end.value ==> whole[5..][..end.value][j] == whole[5..][j];
    }
    assert Match(whole) == Some(Tag(code[0], code[1], whole[5..][..end.value]));
    assert |ExtractTags(whole)[0]| < |text|;
  }

  /** A code of another shape is not read as a tag at all. */
  lemma MisreadCode(code: string, text: string)
    requires '[' !in code && ':' !in code && !IsCode(code)
    ensures ExtractTags(Bracketed(code, text)) != [text]
  {
    var rest := text + "]";
    DoesNotOpen(code, rest);
    assert Bracketed(code, text) == "[" + ((code + ": ") + rest);
    PlainHead((code + ": ") + rest);
    ExtractSkips(code + ": ", rest);
    InnersAreShorter(rest);
    assert |rest| == |text| + 1 && text in [text];
  }

  lemma PlainHead(rest: string)
    requires !Opens("[" + rest)
    ensures ExtractTags("[" + rest) == ExtractTags(rest)
  {
    assert ("[" + rest)[1..] == rest;
    ExtractAcross([Plain('[')], Scan(rest));
  }

  lemma ExtractSkips(text: string, rest: string)
    requires '[' !in text
    ensures ExtractTags(text + rest) == ExtractTags(rest)
  {
    ScanPlain(text, rest);
    ExtractAcross(Plains(text), Scan(rest));
    PlainsRead(text);
  }

  lemma DoesNotOpen(code: string, rest: string)
    requires ':' !in code && !IsCode(code)
    ensures !Opens("[" + ((code + ": ") + rest))
  {
    var whole := "[" + ((code + ": ") + rest);
    assert whole[1 + |code|] == ':';
    assert |code| > 2 ==> whole[3] == code[2];
    assert |code| == 2 ==> whole[1] == code[0] && whole[2] == code[1];
  }

  // ---------- Languages ----------

  predicate IsSmall(c: char) { 'a' <= c <= 'z' }

  /** The code of a locale such as "vi-VN": its two letters, as capitals. */
  lemma LocaleCode(a: char, b: char, region: string)
    requires IsSmall(a) && IsSmall(b)
    ensures var code := LanguageCode([a, b] + "-" + region);
            IsCode(code) && code[0] as int == a as int - 32 && code[1] as int == b as int - 32
    ensures LanguageCode("") == "XX" && LanguageCode("-" + region) == "XX"
  {
    var language := [a, b] + "-" + region;
    assert language[0] == a && language[1..][0] == b && language[1..][1..][0] == '-';
    assert BeforeDash(language[1..][1..]) == "";
    assert BeforeDash(language[1..]) == [b];
    assert BeforeDash(language) == [a, b];
  }

  /** A segment is in the target language exactly when its locale starts with the target's letters. */
  lemma LocaleInTarget(a: char, b: char, region: string, p: char, q: char, text: string)
    requires IsSmall(a) && IsSmall(b) && IsSmall(p) && IsSmall(q)
    ensures InTarget(Segment(text, [a, b] + "-" + region), [p, q]) <==> a == p && b == q
  {
    var low := Lower([a, b] + "-" + region);
    assert low[0] == a && low[1] == b;
  }

  /** A target segment and a foreign one, written: the first as it is, the second in brackets after its code;
      and both are readable when they hold no bracket. */
  lemma WrittenDown(x: string, y: string, a: char, b: char, p: char, q: char, region: string)
    requires IsSmall(a) && IsSmall(b) && IsSmall(p) && IsSmall(q) && !(a == p && b == q)
    ensures var segments := [Segment(x, [p, q] + "-" + region), Segment(y, [a, b] + "-" + region)];
            && Rendered(segments, [p, q]) == x + " [" + [(a as int - 32) as char, (b as int - 32) as char] + ": " + y + "]"
            && ('[' !in x && ']' !in y ==> AllReadable(segments, [p, q]))
  {
    var first, second := Segment(x, [p, q] + "-" + region), Segment(y, [a, b] + "-" + region);
    LocaleInTarget(p, q, region, p, q, x);
    LocaleInTarget(a, b, region, p, q, y);
    LocaleCode(a, b, region);
    var code := LanguageCode(second.language);
    assert code == [(a as int - 32) as char, (b as int - 32) as char];
    RenderedStep([first, second], [p, q]);
    assert [first, second][1..] == [second];
    assert Parts([second], [p, q]) == [Part(second, [p, q])];
    assert Rendered([second], [p, q]) == Bracketed(code, y);
    assert x + (" " + Bracketed(code, y)) == x + " [" + code + ": " + y + "]";
  }
}
