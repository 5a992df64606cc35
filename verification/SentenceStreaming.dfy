/** Sentences taken off a growing buffer (audio/audio_manager.py).

    The searches for a sentence boundary and for a URL, and the table of abbreviations, are oracles. */
module SentenceStreaming {
  import opened Prelude
  import opened Text

  datatype Match = Match(start: nat, end: nat)

  /** A boundary is a run of whitespace behind at least one character, or an empty match at the end of the buffer or in
      front of a final newline. */
  predicate IsBoundary(s: string, m: Match) {
    && 1 <= m.start <= m.end <= |s|
    && IsBlank(s[m.start..m.end])
    && (m.start == m.end ==> m.end == |s| || IsSpace(s[m.end]))
  }

  /** `urlEnd` is the end of the first URL in a text; `isAbbreviated` says that a text ends with an abbreviation. */
  datatype Oracles = Oracles(
    boundary: string -> Option<Match>, urlEnd: string -> Option<nat>, isAbbreviated: string -> bool)
  {
    ghost predicate Valid() {
      forall s: string :: boundary(s).Some? ==> IsBoundary(s, boundary(s).value)
    }
  }

  const MIN_SENTENCE_LENGTH: nat := 20
  const MAX_SENTENCE_LENGTH: nat := 500

  // ----- One sentence -----

  /** Where the next sentence ends, if the boundary found is accepted. */
  function NextCut(o: Oracles, s: string): (cut: Option<nat>)
    requires o.Valid()
    ensures cut.Some? ==> MIN_SENTENCE_LENGTH <= cut.value <= |s| && |Strip(s[..cut.value])| >= MIN_SENTENCE_LENGTH
  {
    if o.boundary(s).None? then None
    else
      var m := o.boundary(s).value;
      assert IsBoundary(s, m);
      var candidate := Strip(s[..m.end]);
      if |candidate| < MIN_SENTENCE_LENGTH then None
      else if o.urlEnd(s[..m.start]).Some? && o.urlEnd(s[..m.start]).value >= m.start then None
      else if o.isAbbreviated(candidate) then None
      else Some(m.end)
  }

  datatype Extraction = Extraction(sentences: seq<string>, remaining: string)

  /** All sentences up to the first boundary that is missing or not accepted. */
  function AtBoundaries(o: Oracles, s: string): (e: Extraction)
    requires o.Valid()
    decreases |s|
  {
    match NextCut(o, s)
    case None => Extraction([], s)
    case Some(cut) =>
      var rest := AtBoundaries(o, s[cut..]);
      Extraction([Strip(s[..cut])] + rest.sentences, rest.remaining)
  }

  // ----- Run-on sentences -----

  predicate OccursAt(s: string, part: string, i: nat) {
    i + |part| <= |s| && s[i..i + |part|] == part
  }

  /** The last occurrence that ends within the first n characters, or -1. */
  function LastOccurrence(s: string, part: string, n: nat): (i: int)
    ensures -1 <= i && (i >= 0 ==> OccursAt(s, part, i) && i + |part| <= n)
    ensures forall j: nat :: i < j && j + |part| <= n ==> !OccursAt(s, part, j)
    decreases n
  {
    if n < |part| then -1
    else if OccursAt(s, part, n - |part|) then n - |part|
    else if n == 0 then -1
    else LastOccurrence(s, part, n - 1)
  }

  /** The last comma, semicolon, dash or colon in front of a space within the limit. */
  function SplitPoint(s: string): int {
    Max(Max(LastOccurrence(s, ", ", MAX_SENTENCE_LENGTH), LastOccurrence(s, "; ", MAX_SENTENCE_LENGTH)),
        Max(LastOccurrence(s, " \U{2014} ", MAX_SENTENCE_LENGTH), LastOccurrence(s, ": ", MAX_SENTENCE_LENGTH)))
  }

  predicate IsForced(s: string) {
    |s| > MAX_SENTENCE_LENGTH && SplitPoint(s) > MIN_SENTENCE_LENGTH
  }

  function Extract(o: Oracles, buffer: string): Extraction
    requires o.Valid()
  {
    var e := AtBoundaries(o, buffer);
    if IsForced(e.remaining) then
      SplitPointIsInside(e.remaining);
      var at := SplitPoint(e.remaining) + 1;
      Extraction(e.sentences + [Strip(e.remaining[..at])], Strip(e.remaining[at..]))
    else e
  }

  lemma SpaceIsSpace()
    ensures IsSpace(' ')
  {
  }

  /** A forced split has whitespace on one side. */
  lemma SplitPointIsInside(s: string)
    requires IsForced(s)
    ensures SplitPoint(s) + 1 < |s| && CleanSeam(s[..SplitPoint(s) + 1], s[SplitPoint(s) + 1..])
  {
    hide LastOccurrence, IsSpace;
    SpaceIsSpace();
    var i := SplitPoint(s);
    if OccursAt(s, " \U{2014} ", i) {
      assert s[i] == s[i..i + 3][0] == ' ';
    } else {
      assert OccursAt(s, ", ", i) || OccursAt(s, "; ", i) || OccursAt(s, ": ", i);
      assert s[i + 1] == s[i..i + 2][1] == ' ';
    }
  }

  method ExtractCompleteSentences(o: Oracles, buffer: string) returns (sentences: seq<string>, remaining: string)
    requires o.Valid()
    ensures Extraction(sentences, remaining) == Extract(o, buffer)
    ensures IsExtraction(o, buffer, sentences, remaining)
  {
    hide AtBoundaries, LastOccurrence, Strip, IsExtraction;
    ExtractIs(o, buffer);
    sentences, remaining := TakeAtBoundaries(o, buffer);
    if |remaining| > MAX_SENTENCE_LENGTH {
      var splitPoint := SplitPoint(remaining);
      if splitPoint > MIN_SENTENCE_LENGTH {
        SplitPointIsInside(remaining);
        sentences := sentences + [Strip(remaining[..splitPoint + 1])];
        remaining := Strip(remaining[splitPoint + 1..]);
      }
    }
  }

  method TakeAtBoundaries(o: Oracles, buffer: string) returns (sentences: seq<string>, remaining: string)
    requires o.Valid()
    ensures Extraction(sentences, remaining) == AtBoundaries(o, buffer)
  {
    hide Strip, NextCut;
    sentences, remaining := [], buffer;
    while true
      invariant AtBoundaries(o, buffer).sentences == sentences + AtBoundaries(o, remaining).sentences
      invariant AtBoundaries(o, buffer).remaining == AtBoundaries(o, remaining).remaining
      decreases |remaining|
    {
      var cut := TryBoundary(o, remaining);
      if cut.None? {
        break;
      }
      sentences := sentences + [Strip(remaining[..cut.value])];
      remaining := remaining[cut.value..];
    }
  }

  /** The checks of one turn of the loop. */
  method TryBoundary(o: Oracles, remaining: string) returns (cut: Option<nat>)
    requires o.Valid()
    ensures cut == NextCut(o, remaining)
  {
    hide Strip;
    var found := o.boundary(remaining);
    if found.None? {
      return None;
    }
    var m := found.value;
    assert IsBoundary(remaining, m);
    var candidate := Strip(remaining[..m.end]);
    if |candidate| < MIN_SENTENCE_LENGTH {
      return None;
    }
    var url := o.urlEnd(remaining[..m.start]);
    if url.Some? && url.value >= m.start {
      return None;
    }
    if o.isAbbreviated(candidate) {
      return None;
    }
    return Some(m.end);
  }

  // ----- What one call returns, in the oracles' terms -----

  /** The text in front of the boundary m contains a URL that reaches it. */
  predicate UrlReaches(o: Oracles, s: string, m: Match) {
    m.start <= |s| && o.urlEnd(s[..m.start]).Some? && o.urlEnd(s[..m.start]).value >= m.start
  }

  /** A boundary is found that ends here, the text up to it has at least 20 characters without the whitespace around
      it, no URL reaches the boundary, and the text does not end with an abbreviation. */
  predicate Takes(o: Oracles, s: string, end: nat) {
    && o.boundary(s).Some? && o.boundary(s).value.end == end <= |s|
    && |Strip(s[..end])| >= 20 && !UrlReaches(o, s, o.boundary(s).value) && !o.isAbbreviated(Strip(s[..end]))
  }

  /** The four reasons to take no sentence. */
  predicate Stops(o: Oracles, s: string)
    requires o.Valid()
  {
    || o.boundary(s).None?
    || (assert IsBoundary(s, o.boundary(s).value);
        var m := o.boundary(s).value;
        |Strip(s[..m.end])| < 20 || UrlReaches(o, s, m) || o.isAbbreviated(Strip(s[..m.end])))
  }

  /** A call takes a sentence off the front exactly when all four conditions hold. */
  lemma TakenIff(o: Oracles, s: string)
    requires o.Valid()
    ensures Stops(o, s) <==> forall end: nat :: !Takes(o, s, end)
    ensures forall end: nat :: Takes(o, s, end) <==> NextCut(o, s) == Some(end)
  {
    hide Strip;
    if o.boundary(s).Some? {
      var m := o.boundary(s).value;
      assert IsBoundary(s, m);
      assert Stops(o, s) <==> !Takes(o, s, m.end);
    }
  }

  predicate IsTaken(o: Oracles, buffer: string, from: nat, to: nat, sentence: string) {
    from <= to <= |buffer| && Takes(o, buffer[from..], to - from) && sentence == Strip(buffer[from..to])
  }

  /** One sentence after the other is taken from position p on, until there is a reason to stop. */
  ghost predicate AreTaken(o: Oracles, buffer: string, p: nat, cuts: seq<nat>, sentences: seq<string>)
    requires o.Valid()
  {
    && |cuts| == |sentences| + 1 && cuts[0] == p
    && (forall k :: 0 <= k < |sentences| ==> IsTaken(o, buffer, cuts[k], cuts[k + 1], sentences[k]))
    && cuts[|sentences|] <= |buffer| && Stops(o, buffer[cuts[|sentences|]..])
  }

  /** Within the first 500 characters: a comma, semicolon or colon and a space, or a dash between spaces. */
  predicate MarkAt(s: string, i: nat) {
    || (i + 2 <= 500 && i + 2 <= |s| && s[i..i + 2] in [", ", "; ", ": "])
    || (i + 3 <= 500 && i + 3 <= |s| && s[i..i + 3] == " \U{2014} ")
  }

  /** More than 500 characters are left, and this is the last mark in the first 500, not in the first 20. */
  ghost predicate IsSplit(s: string, i: nat) {
    |s| > 500 && i > 20 && MarkAt(s, i) && forall j: nat :: j > i ==> !MarkAt(s, j)
  }

  /** What is left once no more sentence is taken is split once where it can be. */
  ghost predicate IsSplitUp(rest: string, last: seq<string>, remaining: string) {
    if exists i: nat :: IsSplit(rest, i) then
      exists i: nat :: IsSplit(rest, i) && last == [Strip(rest[..i + 1])] && remaining == Strip(rest[i + 1..])
    else last == [] && remaining == rest
  }

  ghost predicate IsExtraction(o: Oracles, buffer: string, sentences: seq<string>, remaining: string)
    requires o.Valid()
  {
    exists cuts, taken: seq<string>, last ::
      && sentences == taken + last && AreTaken(o, buffer, 0, cuts, taken)
      && IsSplitUp(buffer[cuts[|taken|]..], last, remaining)
  }

  lemma {:induction false} BoundariesAreTaken(o: Oracles, buffer: string, p: nat) returns (cuts: seq<nat>)
    requires o.Valid() && p <= |buffer|
    ensures
      var e := AtBoundaries(o, buffer[p..]);
      AreTaken(o, buffer, p, cuts, e.sentences) && e.remaining == buffer[cuts[|e.sentences|]..]
    decreases |buffer| - p
  {
    hide Strip, Takes, Stops, NextCut;
    TakenIff(o, buffer[p..]);
    match NextCut(o, buffer[p..])
    case None =>
      cuts := [p];
    case Some(cut) =>
      assert buffer[p..][cut..] == buffer[p + cut..] && buffer[p..][..cut] == buffer[p..p + cut];
      var rest := BoundariesAreTaken(o, buffer, p + cut);
      cuts := [p] + rest;
      TakenFirst(o, buffer, p, rest, Strip(buffer[p..p + cut]), AtBoundaries(o, buffer[p + cut..]).sentences);
  }

  lemma TakenFirst(o: Oracles, buffer: string, p: nat, cuts: seq<nat>, first: string, sentences: seq<string>)
    requires o.Valid() && cuts != [] && IsTaken(o, buffer, p, cuts[0], first)
    requires AreTaken(o, buffer, cuts[0], cuts, sentences)
    ensures AreTaken(o, buffer, p, [p] + cuts, [first] + sentences)
  {
    hide IsTaken, Stops;
    forall k | 0 <= k <= |sentences|
      ensures IsTaken(o, buffer, ([p] + cuts)[k], ([p] + cuts)[k + 1], ([first] + sentences)[k])
    {
      assert k > 0 ==> IsTaken(o, buffer, cuts[k - 1], cuts[k], sentences[k - 1]);
    }
  }

  lemma MarksAre(s: string, i: nat)
    ensures MarkAt(s, i) <==> exists mark :: mark in [", ", "; ", " \U{2014} ", ": "]
                                            && i + |mark| <= MAX_SENTENCE_LENGTH && OccursAt(s, mark, i)
  {
    var marks := [", ", "; ", " \U{2014} ", ": "];
    assert marks[0] in marks && marks[1] in marks && marks[2] in marks && marks[3] in marks;
    assert forall mark :: mark in marks <==>
      mark == marks[0] || mark == marks[1] || mark == marks[2] || mark == marks[3];
  }

  lemma SplitIff(s: string)
    ensures IsForced(s) ==> IsSplit(s, SplitPoint(s))
    ensures forall i: nat :: IsSplit(s, i) ==> IsForced(s) && SplitPoint(s) == i
  {
    hide LastOccurrence, OccursAt;
    var marks := [", ", "; ", " \U{2014} ", ": "];
    var i := SplitPoint(s);
    forall j: nat ensures MarkAt(s, j) ==> j <= i {
      MarksAre(s, j);
      if MarkAt(s, j) {
        var mark :| mark in marks && j + |mark| <= MAX_SENTENCE_LENGTH && OccursAt(s, mark, j);
        assert j <= LastOccurrence(s, mark, MAX_SENTENCE_LENGTH);
      }
    }
    if i >= 0 {
      MarksAre(s, i);
    }
  }

  /** What every call returns. */
  lemma ExtractIs(o: Oracles, buffer: string)
    requires o.Valid()
    ensures IsExtraction(o, buffer, Extract(o, buffer).sentences, Extract(o, buffer).remaining)
  {
    hide AtBoundaries, SplitPoint, IsSplit, AreTaken, Strip;
    var e := AtBoundaries(o, buffer);
    assert buffer[0..] == buffer;
    var cuts := BoundariesAreTaken(o, buffer, 0);
    SplitIff(e.remaining);
    LastCutIsInside(o, buffer, cuts, e.sentences);
    var last := Extract(o, buffer).sentences[|e.sentences|..];
    assert Extract(o, buffer).sentences == e.sentences + last;
    assert IsSplitUp(e.remaining, last, Extract(o, buffer).remaining);
  }

  lemma LastCutIsInside(o: Oracles, buffer: string, cuts: seq<nat>, sentences: seq<string>)
    requires o.Valid() && AreTaken(o, buffer, 0, cuts, sentences)
    ensures |cuts| == |sentences| + 1 && cuts[|sentences|] <= |buffer|
  {
  }

  /** No sentence cut at a boundary is short or ends with an abbreviation, and none has a URL reach its end. */
  lemma TakenAreSentences(o: Oracles, buffer: string, cuts: seq<nat>, sentences: seq<string>, k: nat)
    requires o.Valid() && AreTaken(o, buffer, 0, cuts, sentences) && k < |sentences|
    ensures |sentences[k]| >= 20 && !o.isAbbreviated(sentences[k])
    ensures cuts[k] < cuts[k + 1] <= |buffer| && o.boundary(buffer[cuts[k]..]).Some?
    ensures !UrlReaches(o, buffer[cuts[k]..], o.boundary(buffer[cuts[k]..]).value)
  {
    hide Strip, Stops;
    assert IsTaken(o, buffer, cuts[k], cuts[k + 1], sentences[k]);
    assert buffer[cuts[k]..][..cuts[k + 1] - cuts[k]] == buffer[cuts[k]..cuts[k + 1]];
  }

  /** The conditions leave no choice. */
  lemma {:induction false} TakenIsUnique(o: Oracles, buffer: string, p: nat, a: seq<nat>, xs: seq<string>, b: seq<nat>,
                                         ys: seq<string>)
    requires o.Valid() && AreTaken(o, buffer, p, a, xs) && AreTaken(o, buffer, p, b, ys)
    ensures a == b && xs == ys
    decreases |xs|
  {
    hide Strip, Takes, Stops;
    if p <= |buffer| {
      TakenIff(o, buffer[p..]);
    }
    assert xs != [] ==> IsTaken(o, buffer, a[0], a[1], xs[0]);
    assert ys != [] ==> IsTaken(o, buffer, b[0], b[1], ys[0]);
    if xs != [] && ys != [] {
      LaterTaken(o, buffer, a, xs);
      LaterTaken(o, buffer, b, ys);
      TakenIsUnique(o, buffer, a[1], a[1..], xs[1..], b[1..], ys[1..]);
      assert a == [p] + a[1..] && b == [p] + b[1..];
      assert xs == [xs[0]] + xs[1..] && ys == [ys[0]] + ys[1..];
    }
  }

  lemma LaterTaken(o: Oracles, buffer: string, cuts: seq<nat>, sentences: seq<string>)
    requires o.Valid() && sentences != [] && cuts != [] && AreTaken(o, buffer, cuts[0], cuts, sentences)
    ensures AreTaken(o, buffer, cuts[1], cuts[1..], sentences[1..])
  {
    hide IsTaken, Stops;
    forall k | 0 <= k < |sentences[1..]|
      ensures IsTaken(o, buffer, cuts[1..][k], cuts[1..][k + 1], sentences[1..][k])
    {
      assert IsTaken(o, buffer, cuts[k + 1], cuts[k + 2], sentences[k + 1]);
    }
  }

  // ----- One call loses nothing -----

  lemma NextCutIsClean(o: Oracles, s: string)
    requires o.Valid() && NextCut(o, s).Some?
    ensures CleanSeam(s[..NextCut(o, s).value], s[NextCut(o, s).value..])
  {
    var m := o.boundary(s).value;
    assert IsBoundary(s, m);
    if m.start < m.end {
      assert s[..m.end][m.end - 1] == s[m.start..m.end][m.end - 1 - m.start];
    }
  }

  /** Splitting a text at a clean seam and stripping the parts keeps its words. */
  lemma SplitKeepsWords(s: string, cut: nat)
    requires cut <= |s| && CleanSeam(s[..cut], s[cut..])
    ensures Words(s) == Words(Strip(s[..cut])) + Words(s[cut..])
  {
    WordsAppend(s[..cut], s[cut..]);
    WordsStrip(s[..cut]);
    Rejoin(s, cut);
  }

  lemma {:induction false} BoundariesKeepWords(o: Oracles, s: string)
    requires o.Valid()
    ensures AllWords(AtBoundaries(o, s).sentences) + Words(AtBoundaries(o, s).remaining) == Words(s)
    decreases |s|
  {
    hide Words, Strip, NextCut;
    match NextCut(o, s)
    case None =>
      assert AllWords([]) + Words(s) == Words(s);
    case Some(cut) =>
      var rest := AtBoundaries(o, s[cut..]);
      NextCutIsClean(o, s);
      SplitKeepsWords(s, cut);
      BoundariesKeepWords(o, s[cut..]);
      assert ([Strip(s[..cut])] + rest.sentences)[1..] == rest.sentences;
  }

  /** The words of the buffer are those of the sentences followed by those of the remainder. */
  lemma ExtractKeepsWords(o: Oracles, buffer: string)
    requires o.Valid()
    ensures AllWords(Extract(o, buffer).sentences) + Words(Extract(o, buffer).remaining) == Words(buffer)
  {
    hide Words, Strip, AtBoundaries, SplitPoint;
    BoundariesKeepWords(o, buffer);
    var e := AtBoundaries(o, buffer);
    if IsForced(e.remaining) {
      SplitPointIsInside(e.remaining);
      var at := SplitPoint(e.remaining) + 1;
      SplitKeepsWords(e.remaining, at);
      WordsStrip(e.remaining[at..]);
      AllWordsSnoc(e.sentences, Strip(e.remaining[..at]));
    }
  }

  /** Sentences cut at a boundary are long enough; at most the last one was forced. */
  lemma {:induction false} BoundarySentencesAreLong(o: Oracles, s: string)
    requires o.Valid()
    ensures forall i :: 0 <= i < |AtBoundaries(o, s).sentences| ==>
        |AtBoundaries(o, s).sentences[i]| >= MIN_SENTENCE_LENGTH
    ensures NextCut(o, AtBoundaries(o, s).remaining).None?
    decreases |s|
  {
    hide Strip;
    if NextCut(o, s).Some? {
      BoundarySentencesAreLong(o, s[NextCut(o, s).value..]);
    }
  }

  // ----- A stream of tokens -----

  lemma {:induction false} WordsDetermineNonBlank(s: string)
    ensures Concat(Words(s)) == NonBlank(s)
    decreases |s|
  {
    if s != "" {
      if IsSpace(s[0]) {
        WordsDetermineNonBlank(s[1..]);
      } else {
        var word, rest := s[..WordLength(s)], s[WordLength(s)..];
        WordsDetermineNonBlank(rest);
        Rejoin(s, |word|);
        NonBlankAppend(word, rest);
        NonBlankOfWord(word);
        assert ([word] + Words(rest))[1..] == Words(rest);
      }
    }
  }

  lemma {:induction false} NonBlankOfWord(word: string)
    requires forall i :: 0 <= i < |word| ==> !IsSpace(word[i])
    ensures NonBlank(word) == word
  {
    if word != "" {
      NonBlankOfWord(word[1..]);
      assert word == [word[0]] + word[1..];
    }
  }

  lemma {:induction false} NonBlankOfSentences(sentences: seq<string>)
    ensures Concat(AllWords(sentences)) == NonBlank(Concat(sentences))
  {
    if sentences != [] {
      NonBlankOfSentences(sentences[1..]);
      WordsDetermineNonBlank(sentences[0]);
      ConcatAppend(Words(sentences[0]), AllWords(sentences[1..]));
      NonBlankAppend(sentences[0], Concat(sentences[1..]));
    }
  }

  lemma ExtractKeepsNonBlank(o: Oracles, buffer: string)
    requires o.Valid()
    ensures NonBlank(Concat(Extract(o, buffer).sentences)) + NonBlank(Extract(o, buffer).remaining) == NonBlank(buffer)
  {
    hide Extract, Words;
    var e := Extract(o, buffer);
    ExtractKeepsWords(o, buffer);
    WordsDetermineNonBlank(buffer);
    WordsDetermineNonBlank(e.remaining);
    NonBlankOfSentences(e.sentences);
    ConcatAppend(AllWords(e.sentences), Words(e.remaining));
  }

  lemma FeedStep(o: Oracles, emitted: seq<string>, buffer: string, fed: string, token: string)
    requires o.Valid() && NonBlank(Concat(emitted)) + NonBlank(buffer) == NonBlank(fed)
    ensures
      var e := Extract(o, buffer + token);
      NonBlank(Concat(emitted + e.sentences)) + NonBlank(e.remaining) == NonBlank(fed + token)
  {
    hide NonBlank, Concat, Extract;
    var e := Extract(o, buffer + token);
    ExtractKeepsNonBlank(o, buffer + token);
    NonBlankAppend(buffer, token);
    NonBlankAppend(fed, token);
    ConcatAppend(emitted, e.sentences);
    NonBlankAppend(Concat(emitted), Concat(e.sentences));
    Exchange(NonBlank(Concat(emitted)), NonBlank(Concat(e.sentences)), NonBlank(e.remaining), NonBlank(buffer),
      NonBlank(token));
  }

  lemma Exchange(emitted: string, sentences: string, remaining: string, buffer: string, token: string)
    requires sentences + remaining == buffer + token
    ensures emitted + sentences + remaining == emitted + buffer + token
  {
    assert emitted + sentences + remaining == emitted + (sentences + remaining);
    assert emitted + buffer + token == emitted + (buffer + token);
  }

  /** All sentences emitted for these tokens, and the buffer that is left. */
  function Feed(o: Oracles, tokens: seq<string>): Extraction
    requires o.Valid()
  {
    if tokens == [] then Extraction([], "")
    else
      var before := Feed(o, tokens[..|tokens| - 1]);
      var e := Extract(o, before.remaining + tokens[|tokens| - 1]);
      Extraction(before.sentences + e.sentences, e.remaining)
  }

  lemma FeedOneMore(o: Oracles, tokens: seq<string>, i: nat)
    requires o.Valid() && i < |tokens|
    ensures
      var before := Feed(o, tokens[..i]);
      var e := Extract(o, before.remaining + tokens[i]);
      Feed(o, tokens[..i + 1]) == Extraction(before.sentences + e.sentences, e.remaining)
  {
    hide Extract;
    assert tokens[..i + 1][..i] == tokens[..i];
  }

  /** What the loop over the tokens keeps. */
  ghost predicate IsFed(o: Oracles, tokens: seq<string>, i: nat, emitted: seq<string>, buffer: string)
    requires o.Valid() && i <= |tokens|
  {
    && Extraction(emitted, buffer) == Feed(o, tokens[..i])
    && NonBlank(Concat(emitted)) + NonBlank(buffer) == NonBlank(Concat(tokens[..i]))
  }

  lemma FeedNext(o: Oracles, tokens: seq<string>, i: nat, emitted: seq<string>, buffer: string)
    requires o.Valid() && i < |tokens| && IsFed(o, tokens, i, emitted, buffer)
    ensures var e := Extract(o, buffer + tokens[i]); IsFed(o, tokens, i + 1, emitted + e.sentences, e.remaining)
  {
    hide NonBlank, Concat, Extract, Feed;
    FeedOneMore(o, tokens, i);
    assert tokens[..i + 1] == tokens[..i] + [tokens[i]];
    ConcatSnoc(tokens[..i], tokens[i]);
    FeedStep(o, emitted, buffer, Concat(tokens[..i]), tokens[i]);
  }

  /** Over a whole stream no visible character is lost, repeated or moved. */
  method FeedTokens(o: Oracles, tokens: seq<string>) returns (emitted: seq<string>, buffer: string)
    requires o.Valid()
    ensures Extraction(emitted, buffer) == Feed(o, tokens)
    ensures NonBlank(Concat(emitted)) + NonBlank(buffer) == NonBlank(Concat(tokens))
  {
    emitted, buffer := [], "";
    for i := 0 to |tokens|
      invariant IsFed(o, tokens, i, emitted, buffer)
    {
      hide *;
      FeedNext(o, tokens, i, emitted, buffer);
      buffer := buffer + tokens[i];
      var sentences, remaining := ExtractCompleteSentences(o, buffer);
      emitted := emitted + sentences;
      buffer := remaining;
    }
    assert tokens[..|tokens|] == tokens;
  }

  // ----- Two lists of words that have come apart never agree again -----

  predicate IsApartAt(xs: seq<string>, ys: seq<string>, k: nat) {
    k + 1 < |xs| && k < |ys| && |xs[k]| < |ys[k]|
  }

  /** Some word, no longer the last one in xs, is longer in ys. */
  ghost predicate AreApart(xs: seq<string>, ys: seq<string>) {
    exists k: nat :: IsApartAt(xs, ys, k)
  }

  lemma ApartStays(xs: seq<string>, xIsOpen: bool, ys: seq<string>, yIsOpen: bool, t: string)
    requires (xIsOpen ==> xs != []) && (yIsOpen ==> ys != []) && AreApart(xs, ys)
    ensures AreApart(JoinWords(xs, xIsOpen, t), JoinWords(ys, yIsOpen, t))
  {
    hide Words;
    var k: nat :| IsApartAt(xs, ys, k);
    assert IsApartAt(JoinWords(xs, xIsOpen, t), JoinWords(ys, yIsOpen, t), k);
  }

  lemma ComesApart(words: seq<string>, t: string)
    requires words != [] && !StartsFree(t)
    ensures AreApart(JoinWords(words, false, t), JoinWords(words, true, t))
  {
    assert Words(t) != [] && WordLength(t) > 0;
    hide Words;
    assert IsApartAt(JoinWords(words, false, t), JoinWords(words, true, t), |words| - 1);
  }

  // ----- When a stream keeps its words -----

  function WordsOf(e: Extraction): seq<string> {
    AllWords(e.sentences) + Words(e.remaining)
  }

  /** In front of token i the buffer ends with a word in progress exactly if the stream does, or the token starts with
      whitespace anyway. */
  predicate KeepsSeam(o: Oracles, tokens: seq<string>, i: nat)
    requires o.Valid() && i < |tokens|
  {
    StartsFree(tokens[i]) || EndsVisible(Feed(o, tokens[..i]).remaining) == EndsVisible(Concat(tokens[..i]))
  }

  predicate KeepsSeams(o: Oracles, tokens: seq<string>)
    requires o.Valid()
  {
    forall i :: 0 <= i < |tokens| ==> KeepsSeam(o, tokens, i)
  }

  lemma SeamsSnoc(o: Oracles, tokens: seq<string>)
    requires o.Valid() && tokens != []
    ensures KeepsSeams(o, tokens) <==> KeepsSeams(o, tokens[..|tokens| - 1]) && KeepsSeam(o, tokens, |tokens| - 1)
  {
    hide StartsFree, EndsVisible, Feed, Concat;
    var front := tokens[..|tokens| - 1];
    forall i | 0 <= i < |front| ensures KeepsSeam(o, front, i) <==> KeepsSeam(o, tokens, i) {
      assert front[..i] == tokens[..i] && front[i] == tokens[i];
    }
    hide KeepsSeam;
  }

  lemma EmittedGoOn(o: Oracles, before: Extraction, t: string)
    requires o.Valid()
    ensures EndsVisible(before.remaining) ==> WordsOf(before) != []
    ensures
      var e := Extract(o, before.remaining + t);
      WordsOf(Extraction(before.sentences + e.sentences, e.remaining))
      == JoinWords(WordsOf(before), EndsVisible(before.remaining), t)
  {
    hide Extract, Words, IsSpace, EndsVisible, WordLength;
    var e := Extract(o, before.remaining + t);
    var emitted, words := AllWords(before.sentences), Words(before.remaining);
    ExtractKeepsWords(o, before.remaining + t);
    WordsJoin(before.remaining, t);
    AllWordsAppend(before.sentences, e.sentences);
    JoinBehind(emitted, words, EndsVisible(before.remaining), t);
    assert emitted + AllWords(e.sentences) + Words(e.remaining)
        == emitted + (AllWords(e.sentences) + Words(e.remaining));
  }

  lemma JoinBehind(front: seq<string>, words: seq<string>, isOpen: bool, t: string)
    requires isOpen ==> words != []
    ensures JoinWords(front + words, isOpen, t) == front + JoinWords(words, isOpen, t)
  {
    hide Words, StartsFree;
    if isOpen && !StartsFree(t) {
      assert (front + words)[..|front + words| - 1] == front + words[..|words| - 1];
    }
  }

  ghost predicate SameOrApart(xs: seq<string>, ys: seq<string>, same: bool) {
    if same then xs == ys else AreApart(xs, ys) || AreApart(ys, xs)
  }

  /** One token further: equal lists stay equal exactly if they are both open or closed, or the token starts free. */
  lemma JoinBoth(xs: seq<string>, xIsOpen: bool, ys: seq<string>, yIsOpen: bool, t: string, same: bool)
    requires (xIsOpen ==> xs != []) && (yIsOpen ==> ys != []) && SameOrApart(xs, ys, same)
    ensures SameOrApart(JoinWords(xs, xIsOpen, t), JoinWords(ys, yIsOpen, t),
                        same && (StartsFree(t) || xIsOpen == yIsOpen))
  {
    hide AreApart, StartsFree, Words;
    if same {
      if !StartsFree(t) && xIsOpen != yIsOpen {
        ComesApart(xs, t);
      }
    } else if AreApart(xs, ys) {
      ApartStays(xs, xIsOpen, ys, yIsOpen, t);
    } else {
      ApartStays(ys, yIsOpen, xs, xIsOpen, t);
    }
  }

  lemma NoTokens(o: Oracles)
    requires o.Valid()
    ensures SameOrApart(WordsOf(Feed(o, [])), Words(Concat([])), KeepsSeams(o, []))
  {
    assert WordsOf(Feed(o, [])) == [];
  }

  /** As long as the seams are kept so are the words; from the first one on that is not they are apart for good. */
  lemma {:induction false} FedWordsAreSameOrApart(o: Oracles, tokens: seq<string>)
    requires o.Valid()
    ensures SameOrApart(WordsOf(Feed(o, tokens)), Words(Concat(tokens)), KeepsSeams(o, tokens))
  {
    hide *;
    if tokens == [] {
      NoTokens(o);
    } else {
      var front, t := tokens[..|tokens| - 1], tokens[|tokens| - 1];
      FedWordsAreSameOrApart(o, front);
      SeamsSnoc(o, tokens);
      SeamInFrontOfLast(o, tokens);
      FeedSnoc(o, tokens);
      EmittedGoOn(o, Feed(o, front), t);
      WordsJoin(Concat(front), t);
      assert tokens == front + [t];
      ConcatSnoc(front, t);
      JoinBoth(WordsOf(Feed(o, front)), EndsVisible(Feed(o, front).remaining), Words(Concat(front)),
               EndsVisible(Concat(front)), t, KeepsSeams(o, front));
    }
  }

  lemma FeedSnoc(o: Oracles, tokens: seq<string>)
    requires o.Valid() && tokens != []
    ensures
      var before := Feed(o, tokens[..|tokens| - 1]);
      var e := Extract(o, before.remaining + tokens[|tokens| - 1]);
      Feed(o, tokens) == Extraction(before.sentences + e.sentences, e.remaining)
  {
    hide Extract;
  }

  lemma SeamInFrontOfLast(o: Oracles, tokens: seq<string>)
    requires o.Valid() && tokens != []
    ensures
      var front, t := tokens[..|tokens| - 1], tokens[|tokens| - 1];
      KeepsSeam(o, tokens, |tokens| - 1) <==>
        StartsFree(t) || EndsVisible(Feed(o, front).remaining) == EndsVisible(Concat(front))
  {
  }

  lemma ApartIsDifferent(xs: seq<string>, ys: seq<string>)
    requires AreApart(xs, ys)
    ensures xs != ys
  {
  }

  /** For any tokens, the words of all sentences and the buffer are those of the stream exactly if every seam is
      kept. */
  lemma FeedKeepsWordsIffSeams(o: Oracles, tokens: seq<string>)
    requires o.Valid()
    ensures WordsOf(Feed(o, tokens)) == Words(Concat(tokens)) <==> KeepsSeams(o, tokens)
  {
    hide Words, WordsOf, Feed, Concat, KeepsSeams, AreApart;
    FedWordsAreSameOrApart(o, tokens);
    var emitted, fed := WordsOf(Feed(o, tokens)), Words(Concat(tokens));
    if AreApart(emitted, fed) {
      ApartIsDifferent(emitted, fed);
    } else if AreApart(fed, emitted) {
      ApartIsDifferent(fed, emitted);
    }
  }

  // ----- Which calls break a seam -----

  /** A call on s accepts a boundary at the very end, behind a visible character. */
  predicate CutsAtEnd(o: Oracles, s: string)
    requires o.Valid()
  {
    EndsVisible(s) && AtBoundaries(o, s).remaining == ""
  }

  /** A call on s makes a forced split and strips whitespace off the end of what is left. */
  predicate StripsEnd(o: Oracles, s: string)
    requires o.Valid()
  {
    var r := AtBoundaries(o, s).remaining;
    IsForced(r) && (SplitPointIsInside(r); var rest := r[SplitPoint(r) + 1..]; !IsBlank(rest) && !EndsVisible(rest))
  }

  lemma {:induction false} RemainderIsSuffix(o: Oracles, s: string)
    requires o.Valid()
    ensures var r := AtBoundaries(o, s).remaining; |r| <= |s| && s[|s| - |r|..] == r
    decreases |s|
  {
    hide Strip, NextCut;
    if NextCut(o, s).Some? {
      RemainderIsSuffix(o, s[NextCut(o, s).value..]);
    }
  }

  lemma StripEnd(s: string)
    ensures EndsVisible(Strip(s)) <==> !IsBlank(s)
  {
    StripIsEmpty(s);
  }

  lemma RemainderEnds(o: Oracles, s: string)
    requires o.Valid()
    ensures EndsVisible(Extract(o, s).remaining) == EndsVisible(s) <==> !CutsAtEnd(o, s) && !StripsEnd(o, s)
  {
    hide Strip, AtBoundaries, SplitPoint, IsSpace;
    var r := AtBoundaries(o, s).remaining;
    RemainderIsSuffix(o, s);
    if IsForced(r) {
      SplitPointIsInside(r);
      var rest := r[SplitPoint(r) + 1..];
      StripEnd(rest);
      assert r[|r| - 1] == rest[|rest| - 1] == s[|s| - 1];
    }
  }

  /** The buffer that the call for token i works on. */
  function Pending(o: Oracles, tokens: seq<string>, i: nat): string
    requires o.Valid() && i < |tokens|
  {
    Feed(o, tokens[..i]).remaining + tokens[i]
  }

  /** The call for the token in front of token i breaks the seam between them. */
  predicate BreaksSeam(o: Oracles, tokens: seq<string>, i: nat)
    requires o.Valid() && 0 < i < |tokens|
  {
    var s := Pending(o, tokens, i - 1);
    !StartsFree(tokens[i]) && (CutsAtEnd(o, s) || StripsEnd(o, s))
  }

  lemma SeamIsKeptIff(o: Oracles, tokens: seq<string>, i: nat)
    requires o.Valid() && 0 < i < |tokens| && tokens[i - 1] != ""
    ensures KeepsSeam(o, tokens, i) <==> !BreaksSeam(o, tokens, i)
  {
    hide Extract, CutsAtEnd, StripsEnd, Feed, Concat, StartsFree, IsSpace;
    FeedOneMore(o, tokens, i - 1);
    RemainderEnds(o, Pending(o, tokens, i - 1));
    assert tokens[..i] == tokens[..i - 1] + [tokens[i - 1]];
    ConcatSnoc(tokens[..i - 1], tokens[i - 1]);
  }

  /** Over any stream of non-empty tokens the words are kept exactly if no token that starts with a visible character
      comes behind a call that accepts a boundary at the end of its buffer or strips the end of a remainder. */
  lemma FeedKeepsWordsIff(o: Oracles, tokens: seq<string>)
    requires o.Valid() && forall i :: 0 <= i < |tokens| ==> tokens[i] != ""
    ensures WordsOf(Feed(o, tokens)) == Words(Concat(tokens)) <==>
              forall i :: 0 < i < |tokens| ==> !BreaksSeam(o, tokens, i)
  {
    hide Words, WordsOf, Feed, Concat, KeepsSeam, BreaksSeam;
    FeedKeepsWordsIffSeams(o, tokens);
    if tokens != [] {
      FirstSeam(o, tokens);
    }
    forall i | 0 < i < |tokens| ensures KeepsSeam(o, tokens, i) <==> !BreaksSeam(o, tokens, i) {
      SeamIsKeptIff(o, tokens, i);
    }
  }

  lemma FirstSeam(o: Oracles, tokens: seq<string>)
    requires o.Valid() && tokens != []
    ensures KeepsSeam(o, tokens, 0)
  {
    assert tokens[..0] == [];
  }

  /** Tokens as a response is cut into: a run of visible characters and the whitespace behind it.  Only the last one can
      do without whitespace. */
  predicate AreSpaced(tokens: seq<string>) {
    && (forall i :: 0 <= i < |tokens| ==> !StartsFree(tokens[i]))
    && (forall i :: 0 <= i < |tokens| - 1 ==> !EndsVisible(tokens[i]))
  }

  /** With such tokens only a forced split can change the words: they are kept exactly if no call but the last one
      strips the end of a remainder. */
  lemma SpacedTokensKeepWordsIff(o: Oracles, tokens: seq<string>)
    requires o.Valid() && AreSpaced(tokens)
    ensures WordsOf(Feed(o, tokens)) == Words(Concat(tokens)) <==>
              forall i :: 0 <= i < |tokens| - 1 ==> !StripsEnd(o, Pending(o, tokens, i))
  {
    hide Words, WordsOf, Feed, Concat, StripsEnd, Pending, AtBoundaries;
    FeedKeepsWordsIff(o, tokens);
    forall i | 0 < i < |tokens| ensures BreaksSeam(o, tokens, i) <==> StripsEnd(o, Pending(o, tokens, i - 1)) {
      SpacedPending(o, tokens, i - 1);
      assert !EndsVisible(tokens[i - 1]) && !StartsFree(tokens[i]);
    }
    forall i | 0 <= i < |tokens| - 1 ensures BreaksSeam(o, tokens, i + 1) <==> StripsEnd(o, Pending(o, tokens, i)) {
    }
  }

  lemma SpacedPending(o: Oracles, tokens: seq<string>, i: nat)
    requires o.Valid() && i < |tokens| && tokens[i] != ""
    ensures EndsVisible(Pending(o, tokens, i)) <==> EndsVisible(tokens[i])
  {
    hide Feed;
  }

  // ----- Streams that change their words -----

  /** A boundary at the end of one text and nowhere else, no URLs, no abbreviations. */
  function EndsSentence(text: string): (o: Oracles)
    requires text != ""
    ensures o.Valid()
  {
    Oracles(s => if s == text then Some(Match(|text|, |text|)) else None, _ => None, _ => false)
  }

  lemma TextIsCutAtEnd(text: string)
    requires |text| >= MIN_SENTENCE_LENGTH && !IsSpace(text[0]) && EndsVisible(text)
    ensures CutsAtEnd(EndsSentence(text), text)
  {
    var o := EndsSentence(text);
    assert StripLeft(text) == text && StripRight(text) == text;
    assert NextCut(o, text) == Some(|text|);
    assert text[..|text|] == text && text[|text|..] == "" && NextCut(o, "") == None;
    assert AtBoundaries(o, "").remaining == "";
  }

  lemma FirstCall(o: Oracles, text: string, token: string)
    requires o.Valid()
    ensures Pending(o, [text, token], 0) == text && (!StartsFree(token) ==> token != "")
  {
    hide Extract;
    assert [text, token][..0] == [] && "" + text == text;
  }

  lemma CallBreaksSeam(o: Oracles, tokens: seq<string>, s: string)
    requires o.Valid() && |tokens| == 2 && Pending(o, tokens, 0) == s && CutsAtEnd(o, s) && !StartsFree(tokens[1])
    ensures BreaksSeam(o, tokens, 1)
  {
  }

  /** Whatever ends like a sentence and goes on without a space is cut. */
  lemma GoingOnIsCut(text: string, token: string)
    requires text != "" && |text| >= MIN_SENTENCE_LENGTH && !IsSpace(text[0]) && EndsVisible(text) && !StartsFree(token)
    ensures var o := EndsSentence(text); WordsOf(Feed(o, [text, token])) != Words(Concat([text, token]))
  {
    hide *;
    var o, tokens := EndsSentence(text), [text, token];
    TextIsCutAtEnd(text);
    FirstCall(o, text, token);
    CallBreaksSeam(o, tokens, text);
    FeedKeepsWordsIff(o, tokens);
  }

  /** A version number that arrives in two tokens is cut at its point. */
  lemma VersionNumberIsCut()
    ensures
      var first := "please use the version 3.";
      var tokens := [first, "5 now"];
      WordsOf(Feed(EndsSentence(first), tokens)) != Words(Concat(tokens))
  {
    var first := "please use the version 3.";
    assert |first| == 25 && first[0] == 'p' && first[24] == '.' && "5 now"[0] == '5';
    hide WordsOf, Feed, Words, Concat;
    GoingOnIsCut(first, "5 now");
  }

  function Repeat(c: char, n: nat): (s: string)
    ensures |s| == n && forall i :: 0 <= i < n ==> s[i] == c
  {
    seq(n, i => c)
  }

  /** No boundary, no URL, no abbreviation anywhere. */
  function NoBoundaries(): (o: Oracles)
    ensures o.Valid()
  {
    Oracles(_ => None, _ => None, _ => false)
  }

  /** A word with a comma, and a long word. */
  function RunOn(): (s: string)
    ensures |s| == 513 && s[512] == ' '
    ensures forall i :: 0 <= i < 512 ==>
      s[i] == if i < 30 then 'a' else if i == 30 then ',' else if i == 31 then ' ' else 'b'
  {
    Repeat('a', 30) + ", " + Repeat('b', 480) + " "
  }

  lemma RunOnIsSplit()
    ensures SplitPoint(RunOn()) == 30 && IsForced(RunOn())
  {
    var s := RunOn();
    hide RunOn, LastOccurrence;
    assert s[30..32] == ", " by {
      assert s[30] == ',' && s[31] == ' ';
    }
    assert OccursAt(s, ", ", 30);
    OccursOnlyThere(s);
  }

  lemma OccursHas(s: string, part: string, i: nat, k: nat)
    requires k < |part|
    ensures OccursAt(s, part, i) ==> s[i + k] == part[k]
  {
    assert OccursAt(s, part, i) ==> s[i..i + |part|][k] == s[i + k];
  }

  lemma OccursOnlyThere(s: string)
    requires |s| == 513 && s[30] == ','
    requires forall i :: 0 <= i < 513 ==> s[i] in {'a', 'b', ' '} || (s[i] == ',' && i == 30)
    ensures forall i: nat :: OccursAt(s, ", ", i) ==> i == 30
    ensures forall i: nat :: !OccursAt(s, "; ", i) && !OccursAt(s, ": ", i)
    ensures forall i: nat :: !OccursAt(s, " \U{2014} ", i)
  {
    forall i: nat ensures OccursAt(s, ", ", i) ==> i == 30 {
      OccursHas(s, ", ", i, 0);
    }
    forall i: nat ensures !OccursAt(s, "; ", i) && !OccursAt(s, ": ", i) {
      OccursHas(s, "; ", i, 0);
      OccursHas(s, ": ", i, 0);
    }
    forall i: nat ensures !OccursAt(s, " \U{2014} ", i) {
      OccursHas(s, " \U{2014} ", i, 1);
    }
  }

  lemma RunOnIsStripped()
    ensures StripsEnd(NoBoundaries(), RunOn())
  {
    RunOnIsSplit();
    var s := RunOn();
    hide RunOn, SplitPoint;
    SplitPointIsInside(s);
    var rest := s[31..];
    assert rest[|rest| - 1] == s[512] && rest[1] == s[32] == 'b';
    assert !IsSpace('b');
  }

  /** Three tokens of a response whose words change without any boundary: the long word and the last one are glued. */
  lemma RunOnIsGlued()
    ensures
      var tokens := [Repeat('a', 30) + ", ", Repeat('b', 480) + " ", "x"];
      AreSpaced(tokens) && WordsOf(Feed(NoBoundaries(), tokens)) != Words(Concat(tokens))
  {
    var o, tokens := NoBoundaries(), [Repeat('a', 30) + ", ", Repeat('b', 480) + " ", "x"];
    assert AreSpaced(tokens) by {
      assert tokens[0][0] == 'a' && tokens[0][31] == ' ' && tokens[1][0] == 'b' && tokens[1][480] == ' ';
    }
    SecondCall(o, tokens);
    RunOnIsStripped();
    hide *;
    SpacedTokensKeepWordsIff(o, tokens);
  }

  lemma SecondCall(o: Oracles, tokens: seq<string>)
    requires o == NoBoundaries() && |tokens| == 3
    requires tokens[0] == Repeat('a', 30) + ", " && tokens[1] == Repeat('b', 480) + " "
    ensures Pending(o, tokens, 1) == RunOn()
  {
    assert tokens[..1] == [tokens[0]] && tokens[..1][..0] == [];
    assert Feed(o, []) == Extraction([], "") && "" + tokens[0] == tokens[0];
    assert AtBoundaries(o, tokens[0]) == Extraction([], tokens[0]);
    assert Extract(o, tokens[0]) == Extraction([], tokens[0]);
    assert tokens[0] + tokens[1] == RunOn();
  }

  /** Stripping a remainder r before the next token t arrives glues the last word of r to the first one
      of t exactly when r ended with whitespace and t starts a word. */
  predicate IsGlued(r: string, t: string) {
    !IsBlank(r) && IsSpace(r[|r| - 1]) && t != "" && !IsSpace(t[0])
  }

  lemma StripBeforeTokenKeepsWordsIff(r: string, t: string)
    ensures Words(Strip(r) + t) == Words(r + t) <==> !IsGlued(r, t)
  {
    hide Words, Strip;
    WordsJoin(Strip(r), t);
    WordsJoin(r, t);
    WordsStrip(r);
    StripEnd(r);
    if IsGlued(r, t) {
      ComesApart(Words(r), t);
      ApartIsDifferent(JoinWords(Words(r), false, t), JoinWords(Words(r), true, t));
    }
  }
}
