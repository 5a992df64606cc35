/** Chunks for speech synthesis (audio/audio_manager.py). */
module SpeechChunking {
  import opened Text
  import opened ChunkPacking

  // ----- The packing of sentences -----

  /** An over-long sentence is packed by words and then replaces the pending chunk. */
  function AddSentence(p: Packing, sentence: string, maxChars: int): Packing {
    if |sentence| > maxChars then
      var q := AddWords(Packing(p.chunks, ""), Words(sentence), maxChars);
      Packing(q.chunks, if q.current != "" then Strip(q.current) else p.current)
    else if |p.current| + |sentence| > maxChars then
      Packing(if p.current != "" then p.chunks + [p.current] else p.chunks, sentence)
    else Packing(p.chunks, p.current + sentence)
  }

  /** The first n sentences. */
  function AddSentences(sentences: seq<string>, n: nat, maxChars: int): Packing
    requires n <= |sentences|
  {
    if n == 0 then Packing([], "")
    else AddSentence(AddSentences(sentences, n - 1, maxChars), sentences[n - 1], maxChars)
  }

  function Close(p: Packing): seq<string> {
    if p.current != "" then p.chunks + [p.current] else p.chunks
  }

  function Chunks(text: string, sentences: seq<string>, maxChars: int): seq<string> {
    if |text| <= maxChars then [text]
    else
      var chunks := Close(AddSentences(sentences, |sentences|, maxChars));
      if chunks != [] then chunks else [text]
  }

  method ChunkTextForTts(text: string, pieces: seq<string>, maxChars: int) returns (result: seq<string>)
    requires IsSplit(text, pieces)
    ensures result == Chunks(text, Sentences(pieces), maxChars)
  {
    if |text| <= maxChars {
      return [text];
    }
    var chunks: seq<string> := [];
    var currentChunk := "";
    var combined := CombineSentences(pieces);
    for i := 0 to |combined|
      invariant Packing(chunks, currentChunk) == AddSentences(combined, i, maxChars)
    {
      var sentence := combined[i];
      if |sentence| > maxChars {
        var p := PackWords(chunks, sentence, maxChars);
        chunks := p.chunks;
        if p.current != "" {
          currentChunk := Strip(p.current);
        }
      } else if |currentChunk| + |sentence| > maxChars {
        if currentChunk != "" {
          chunks := chunks + [currentChunk];
        }
        currentChunk := sentence;
      } else {
        currentChunk := currentChunk + sentence;
      }
    }
    if currentChunk != "" {
      chunks := chunks + [currentChunk];
    }
    return if chunks != [] then chunks else [text];
  }

  // ----- Texts whose sentences fit -----

  predicate AllFit(parts: seq<string>, maxChars: int) {
    forall i :: 0 <= i < |parts| ==> |parts[i]| <= maxChars
  }

  /** The packing holds exactly this text, within the limit. */
  predicate Partitions(p: Packing, text: string, maxChars: int) {
    Concat(p.chunks) + p.current == text && AllFit(p.chunks, maxChars) && |p.current| <= maxChars
  }

  lemma AddFittingSentence(p: Packing, text: string, s: string, maxChars: int)
    requires Partitions(p, text, maxChars) && |s| <= maxChars
    ensures Partitions(AddSentence(p, s, maxChars), text + s, maxChars)
  {
    hide Concat;
    ConcatSnoc(p.chunks, p.current);
    assert Concat(p.chunks) + p.current + s == Concat(p.chunks) + (p.current + s);
  }

  lemma {:induction false} FittingSentencesArePartitioned(sentences: seq<string>, n: nat, maxChars: int)
    requires n <= |sentences| && AllFit(sentences, maxChars) && maxChars >= 0
    ensures Partitions(AddSentences(sentences, n, maxChars), Concat(sentences[..n]), maxChars)
  {
    if n > 0 {
      hide AddSentence, Partitions;
      assert sentences[..n] == sentences[..n - 1] + [sentences[n - 1]];
      FittingSentencesArePartitioned(sentences, n - 1, maxChars);
      ConcatSnoc(sentences[..n - 1], sentences[n - 1]);
      AddFittingSentence(AddSentences(sentences, n - 1, maxChars), Concat(sentences[..n - 1]), sentences[n - 1],
        maxChars);
    }
  }

  // ----- No split uses fewer chunks -----

  function Flatten(groups: seq<seq<string>>): seq<string> {
    if groups == [] then [] else Flatten(groups[..|groups| - 1]) + groups[|groups| - 1]
  }

  /** A split of the sentences into consecutive non-empty groups, each within the limit. */
  ghost predicate IsGrouping(groups: seq<seq<string>>, sentences: seq<string>, maxChars: int) {
    && Flatten(groups) == sentences
    && forall i :: 0 <= i < |groups| ==> groups[i] != [] && |Concat(groups[i])| <= maxChars
  }

  function Opened(p: Packing): nat {
    |p.chunks| + if p.current != "" then 1 else 0
  }

  /** A grouping of the same sentences has at least as many groups as the packing has chunks, and
      where it has no more, its last group is at least as long as the pending chunk. */
  ghost predicate StaysAhead(p: Packing, groups: seq<seq<string>>) {
    && |groups| >= Opened(p)
    && (|groups| == |p.chunks| + 1 ==> |Concat(groups[|groups| - 1])| >= |p.current|)
  }

  /** A grouping without its last sentence. */
  function Shortened(groups: seq<seq<string>>): seq<seq<string>>
    requires groups != [] && groups[|groups| - 1] != []
  {
    var last := |groups| - 1;
    var group := groups[last];
    if |group| == 1 then groups[..last] else groups[last := group[..|group| - 1]]
  }

  lemma ShortenedIsGrouping(sentences: seq<string>, n: nat, groups: seq<seq<string>>, maxChars: int)
    requires 0 < n <= |sentences| && IsGrouping(groups, sentences[..n], maxChars)
    ensures groups != [] && groups[|groups| - 1] != []
    ensures IsGrouping(Shortened(groups), sentences[..n - 1], maxChars)
    ensures
      var group := groups[|groups| - 1];
      |Concat(group)| == |Concat(group[..|group| - 1])| + |sentences[n - 1]| <= maxChars
  {
    assert groups != [];
    var last := |groups| - 1;
    var front, group := groups[..last], groups[last];
    var shorter := group[..|group| - 1];
    assert sentences[..n] == Flatten(front) + group;
    assert sentences[..n - 1] == Flatten(front) + shorter;
    assert group == shorter + [sentences[n - 1]];
    ConcatSnoc(shorter, sentences[n - 1]);
    if |group| == 1 {
      assert Flatten(front) + shorter == Flatten(front);
    } else {
      assert groups[last := shorter][..last] == front;
    }
  }

  lemma StaysAheadStep(p: Packing, s: string, groups: seq<seq<string>>, maxChars: int)
    requires groups != [] && groups[|groups| - 1] != [] && StaysAhead(p, Shortened(groups))
    requires |s| <= maxChars && |p.current| <= maxChars && (p.current == "" ==> p.chunks == [])
    requires
      var group := groups[|groups| - 1];
      |Concat(group)| == |Concat(group[..|group| - 1])| + |s| <= maxChars
    ensures StaysAhead(AddSentence(p, s, maxChars), groups)
  {
    var group := groups[|groups| - 1];
    assert |group| == 1 ==> group[..|group| - 1] == [];
  }

  /** The pending chunk fits, and it is empty only as long as nothing has been closed. */
  lemma {:induction false} PendingFits(sentences: seq<string>, n: nat, maxChars: int)
    requires n <= |sentences| && AllFit(sentences, maxChars) && maxChars >= 0
    ensures |AddSentences(sentences, n, maxChars).current| <= maxChars
    ensures AddSentences(sentences, n, maxChars).current == "" ==> AddSentences(sentences, n, maxChars).chunks == []
  {
    if n > 0 {
      PendingFits(sentences, n - 1, maxChars);
    }
  }

  lemma {:induction false} GreedyStaysAhead(sentences: seq<string>, n: nat, groups: seq<seq<string>>, maxChars: int)
    requires n <= |sentences| && AllFit(sentences, maxChars) && maxChars >= 0
    requires IsGrouping(groups, sentences[..n], maxChars)
    ensures StaysAhead(AddSentences(sentences, n, maxChars), groups)
    decreases n
  {
    if n > 0 {
      hide AddSentence, StaysAhead, Shortened, IsGrouping;
      ShortenedIsGrouping(sentences, n, groups, maxChars);
      GreedyStaysAhead(sentences, n - 1, Shortened(groups), maxChars);
      PendingFits(sentences, n - 1, maxChars);
      StaysAheadStep(AddSentences(sentences, n - 1, maxChars), sentences[n - 1], groups, maxChars);
    } else {
      EmptyGrouping(groups, sentences[..n], maxChars);
    }
  }

  lemma EmptyGrouping(groups: seq<seq<string>>, sentences: seq<string>, maxChars: int)
    requires IsGrouping(groups, sentences, maxChars)
    ensures groups == [] <==> sentences == []
  {
    if groups != [] {
      assert |sentences| >= |groups[|groups| - 1]| > 0;
    }
  }

  ghost predicate NoGroupingIsShorter(chunks: seq<string>, sentences: seq<string>, maxChars: int) {
    forall groups: seq<seq<string>> :: IsGrouping(groups, sentences, maxChars) ==> |groups| >= |chunks|
  }

  /** Texts whose sentences fit are cut into the fewest possible chunks without any loss. */
  lemma FittingTextIsCutOptimally(text: string, pieces: seq<string>, maxChars: int)
    requires IsSplit(text, pieces) && (|text| <= maxChars || AllFit(Sentences(pieces), maxChars))
    ensures
      var chunks := Chunks(text, Sentences(pieces), maxChars);
      Concat(chunks) == text && AllFit(chunks, maxChars) && NoGroupingIsShorter(chunks, Sentences(pieces), maxChars)
  {
    hide Sentences, AddSentences, IsGrouping;
    var sentences := Sentences(pieces);
    ConcatOfSentences(pieces);
    assert sentences[..|sentences|] == sentences;
    if |text| <= maxChars {
      forall groups: seq<seq<string>> | IsGrouping(groups, sentences, maxChars) ensures |groups| >= 1 {
        EmptyGrouping(groups, sentences, maxChars);
      }
      ConcatSnoc([], text);
      assert [] + [text] == [text];
    } else {
      assert |sentences[0]| <= maxChars;
      FittingSentencesArePartitioned(sentences, |sentences|, maxChars);
      var p := AddSentences(sentences, |sentences|, maxChars);
      ConcatSnoc(p.chunks, p.current);
      forall groups: seq<seq<string>> | IsGrouping(groups, sentences, maxChars) ensures |groups| >= |Close(p)| {
        GreedyStaysAhead(sentences, |sentences|, groups, maxChars);
      }
    }
  }

  // ----- Texts with an over-long sentence -----

  /** Characters needed for words with one space behind each. */
  function SpacedLength(words: seq<string>): nat {
    if words == [] then 0 else SpacedLength(words[..|words| - 1]) + |words[|words| - 1]| + 1
  }

  lemma {:induction false} SpacedLengthCons(word: string, words: seq<string>)
    ensures SpacedLength([word] + words) == |word| + 1 + SpacedLength(words)
  {
    if words == [] {
      assert [word] + words == [word];
      assert SpacedLength([word][..0]) == 0;
    } else {
      assert ([word] + words)[..|words|] == [word] + words[..|words| - 1];
      SpacedLengthCons(word, words[..|words| - 1]);
    }
  }

  lemma {:induction false} WordsAreNotLonger(s: string)
    ensures SpacedLength(Words(s)) <= |s| + if StartsFree(s) then 0 else 1
    decreases |s|
  {
    if s != "" {
      if IsSpace(s[0]) {
        WordsAreNotLonger(s[1..]);
      } else {
        var word, rest := s[..WordLength(s)], s[WordLength(s)..];
        SpacedLengthCons(word, Words(rest));
        WordsAreNotLonger(rest);
      }
    }
  }

  function TotalLength(parts: seq<string>): nat {
    |Concat(parts)|
  }

  lemma AddWordLength(p: Packing, word: string, maxChars: int)
    requires IsWordBuffer(p.current)
    ensures
      var q := AddWord(p, word, maxChars);
      && p.chunks <= q.chunks
      && TotalLength(q.chunks) + |q.current| + |q.chunks|
        == TotalLength(p.chunks) + |p.current| + |p.chunks| + |word| + 1
  {
    hide Concat, Strip;
    if p.current != "" {
      StripWordBuffer(p.current);
      ConcatSnoc(p.chunks, Strip(p.current));
    }
  }

  /** Each chunk closed between words loses a space. */
  lemma {:induction false} WordPackingLosesSpaces(chunks: seq<string>, words: seq<string>, maxChars: int)
    requires forall i :: 0 <= i < |words| ==> IsWord(words[i])
    ensures
      var q := AddWords(Packing(chunks, ""), words, maxChars);
      && chunks <= q.chunks
      && TotalLength(q.chunks) + |q.current| + |q.chunks| == TotalLength(chunks) + |chunks| + SpacedLength(words)
  {
    hide AddWord, TotalLength, IsWord;
    if words != [] {
      var front, word := words[..|words| - 1], words[|words| - 1];
      WordPackingLosesSpaces(chunks, front, maxChars);
      BufferStaysWordBuffer(Packing(chunks, ""), front, maxChars);
      AddWordLength(AddWords(Packing(chunks, ""), front, maxChars), word, maxChars);
    }
  }

  /** Something is missing or some chunk is over-long. */
  predicate Damaged(p: Packing, done: nat, maxChars: int) {
    TotalLength(p.chunks) + |p.current| < done || !AllFit(p.chunks, maxChars) || |p.current| > maxChars
  }

  lemma OverlongSentenceDamages(p: Packing, s: string, done: nat, maxChars: int)
    requires |s| > maxChars >= 0 && TotalLength(p.chunks) + |p.current| <= done
    ensures
      var next := AddSentence(p, s, maxChars);
      TotalLength(next.chunks) + |next.current| <= done + |s| && Damaged(next, done + |s|, maxChars)
  {
    hide AllFit, TotalLength, AddWords, IsSpace;
    var words := Words(s);
    WordsAreWords(s);
    WordsAreNotLonger(s);
    WordPackingLosesSpaces(p.chunks, words, maxChars);
    BufferStaysWordBuffer(Packing(p.chunks, ""), words, maxChars);
    var q := AddWords(Packing(p.chunks, ""), words, maxChars);
    NoWords(p.chunks, maxChars);
    if q.current != "" {
      StripWordBuffer(q.current);
      if |q.chunks| == |p.chunks| {
        assert q.chunks == p.chunks;
      }
    }
  }

  lemma NoWords(chunks: seq<string>, maxChars: int)
    ensures AddWords(Packing(chunks, ""), [], maxChars) == Packing(chunks, "")
  {
  }

  lemma FittingSentenceKeepsDamage(p: Packing, s: string, done: nat, maxChars: int)
    requires |s| <= maxChars && TotalLength(p.chunks) + |p.current| <= done
    ensures
      var next := AddSentence(p, s, maxChars);
      TotalLength(next.chunks) + |next.current| <= done + |s|
      && (Damaged(p, done, maxChars) ==> Damaged(next, done + |s|, maxChars))
  {
    ConcatSnoc(p.chunks, p.current);
    if !AllFit(p.chunks, maxChars) {
      var i :| 0 <= i < |p.chunks| && |p.chunks[i]| > maxChars;
      assert (p.chunks + [p.current])[i] == p.chunks[i];
    }
    assert (p.chunks + [p.current])[|p.chunks|] == p.current;
  }

  lemma {:induction false} DamageIsPermanent(sentences: seq<string>, n: nat, maxChars: int)
    requires n <= |sentences| && maxChars >= 0
    ensures
      var p := AddSentences(sentences, n, maxChars);
      TotalLength(p.chunks) + |p.current| <= TotalLength(sentences[..n])
      && (!AllFit(sentences[..n], maxChars) ==> Damaged(p, TotalLength(sentences[..n]), maxChars))
  {
    hide AddSentence, Damaged, AllFit;
    if n > 0 {
      var p, s := AddSentences(sentences, n - 1, maxChars), sentences[n - 1];
      var done := TotalLength(sentences[..n - 1]);
      DamageIsPermanent(sentences, n - 1, maxChars);
      assert sentences[..n] == sentences[..n - 1] + [s];
      ConcatSnoc(sentences[..n - 1], s);
      OneMoreFits(sentences, n, maxChars);
      if |s| > maxChars {
        OverlongSentenceDamages(p, s, done, maxChars);
      } else {
        FittingSentenceKeepsDamage(p, s, done, maxChars);
      }
    } else {
      NothingFits(sentences, maxChars);
    }
  }

  lemma OneMoreFits(sentences: seq<string>, n: nat, maxChars: int)
    requires 0 < n <= |sentences|
    ensures AllFit(sentences[..n], maxChars) <==> AllFit(sentences[..n - 1], maxChars) && |sentences[n - 1]| <= maxChars
  {
    assert sentences[..n] == sentences[..n - 1] + [sentences[n - 1]];
  }

  lemma NothingFits(sentences: seq<string>, maxChars: int)
    ensures AllFit(sentences[..0], maxChars)
  {
  }

  /** Chunking keeps the text and the limit exactly for texts that fit or whose sentences all fit. */
  lemma ChunkingIsExactIffSentencesFit(text: string, pieces: seq<string>, maxChars: int)
    requires IsSplit(text, pieces)
    ensures
      var chunks := Chunks(text, Sentences(pieces), maxChars);
      (Concat(chunks) == text && AllFit(chunks, maxChars)) <==>
        (|text| <= maxChars || AllFit(Sentences(pieces), maxChars))
  {
    var sentences := Sentences(pieces);
    var chunks := Chunks(text, sentences, maxChars);
    if |text| <= maxChars || AllFit(sentences, maxChars) {
      FittingTextIsCutOptimally(text, pieces, maxChars);
    } else if maxChars < 0 {
      assert chunks != [] && |chunks[0]| > maxChars;
    } else {
      OverlongTextIsDamaged(text, pieces, maxChars);
    }
  }

  lemma OverlongTextIsDamaged(text: string, pieces: seq<string>, maxChars: int)
    requires IsSplit(text, pieces) && |text| > maxChars >= 0 && !AllFit(Sentences(pieces), maxChars)
    ensures
      var chunks := Chunks(text, Sentences(pieces), maxChars);
      Concat(chunks) != text || !AllFit(chunks, maxChars)
  {
    hide AddSentences, Sentences;
    var sentences := Sentences(pieces);
    ConcatOfSentences(pieces);
    assert sentences[..|sentences|] == sentences;
    DamageIsPermanent(sentences, |sentences|, maxChars);
    var p := AddSentences(sentences, |sentences|, maxChars);
    ConcatSnoc(p.chunks, p.current);
    if !AllFit(p.chunks, maxChars) || |p.current| > maxChars {
      ClosingKeepsDamage(p, maxChars);
    }
    assert Close(p) == [] ==> |[text][0]| > maxChars;
  }

  lemma ClosingKeepsDamage(p: Packing, maxChars: int)
    requires maxChars >= 0 && (!AllFit(p.chunks, maxChars) || |p.current| > maxChars)
    ensures !AllFit(Close(p), maxChars)
  {
    if !AllFit(p.chunks, maxChars) {
      var i :| 0 <= i < |p.chunks| && |p.chunks[i]| > maxChars;
      assert Close(p)[i] == p.chunks[i];
    } else {
      assert Close(p)[|p.chunks|] == p.current;
    }
  }

  // ----- When the words survive -----

  /** An over-long sentence replaces a pending chunk that holds words, or a sentence that fits is appended to a stripped
      chunk without a space between them. */
  predicate HarmsWords(p: Packing, sentence: string, maxChars: int) {
    if |sentence| > maxChars then !IsBlank(sentence) && !IsBlank(p.current)
    else |p.current| + |sentence| <= maxChars && EndsVisible(p.current) && !StartsFree(sentence)
  }

  /** The words are kept so far, or some are missing for good. */
  ghost predicate KeepsOrLoses(packed: seq<string>, read: seq<string>, kept: bool) {
    if kept then packed == read else 0 < |packed| < |read|
  }

  lemma AddOverlongWords(p: Packing, sentence: string, maxChars: int)
    requires |sentence| > maxChars
    ensures
      var next := AddSentence(p, sentence, maxChars);
      PackedWords(next) == if Words(sentence) == [] then PackedWords(p) else AllWords(p.chunks) + Words(sentence)
  {
    hide Words, AllWords, IsSpace, Strip;
    var words := Words(sentence);
    WordsOfNothing();
    WordsAreWords(sentence);
    AddWordsKeepsWords(Packing(p.chunks, ""), words, maxChars);
    BufferStaysWordBuffer(Packing(p.chunks, ""), words, maxChars);
    NoWords(p.chunks, maxChars);
    WordsStrip(AddWords(Packing(p.chunks, ""), words, maxChars).current);
    assert AllWords(p.chunks) + [] == AllWords(p.chunks);
  }

  lemma AddFittingWords(p: Packing, sentence: string, maxChars: int)
    requires |sentence| <= maxChars
    ensures
      var next := PackedWords(AddSentence(p, sentence, maxChars));
      && (!HarmsWords(p, sentence, maxChars) ==> next == PackedWords(p) + Words(sentence))
      && (HarmsWords(p, sentence, maxChars) ==>
            PackedWords(p) != [] && Words(sentence) != [] && |next| == |PackedWords(p)| + |Words(sentence)| - 1)
  {
    hide Words, AllWords, IsSpace, WordLength;
    WordsOfNothing();
    AllWordsSnoc(p.chunks, p.current);
    if |p.current| + |sentence| <= maxChars {
      WordsJoin(p.current, sentence);
      if HarmsWords(p, sentence, maxChars) {
        SplitFirstWord(sentence);
      }
    }
  }

  lemma SplitFirstWord(s: string)
    requires !StartsFree(s)
    ensures Words(s) == [s[..WordLength(s)]] + Words(s[WordLength(s)..])
  {
  }

  lemma AddSentenceKeepsOrLoses(p: Packing, sentence: string, read: seq<string>, kept: bool, maxChars: int)
    requires KeepsOrLoses(PackedWords(p), read, kept)
    ensures KeepsOrLoses(PackedWords(AddSentence(p, sentence, maxChars)), read + Words(sentence),
                         kept && !HarmsWords(p, sentence, maxChars))
  {
    hide Words, AllWords, AddSentence, EndsVisible, StartsFree;
    WordsOfBlank(sentence);
    WordsOfBlank(p.current);
    if |sentence| > maxChars {
      AddOverlongWords(p, sentence, maxChars);
      assert read + [] == read;
    } else {
      AddFittingWords(p, sentence, maxChars);
    }
  }

  /** None of the first n sentences harms the words. */
  predicate AllHarmless(sentences: seq<string>, n: nat, maxChars: int)
    requires n <= |sentences|
  {
    forall i :: 0 <= i < n ==> !HarmsWords(AddSentences(sentences, i, maxChars), sentences[i], maxChars)
  }

  lemma {:induction false} PackingKeepsOrLoses(sentences: seq<string>, n: nat, maxChars: int)
    requires n <= |sentences| && EndWithSpace(sentences)
    ensures KeepsOrLoses(PackedWords(AddSentences(sentences, n, maxChars)), Words(Concat(sentences[..n])),
                         AllHarmless(sentences, n, maxChars))
    ensures n < |sentences| ==> EndsFree(Concat(sentences[..n]))
  {
    hide PackedWords, AddSentence, Words, IsSpace, KeepsOrLoses, HarmsWords;
    if n == 0 {
      NothingKept();
    } else {
      var s := sentences[n - 1];
      PackingKeepsOrLoses(sentences, n - 1, maxChars);
      assert AllHarmless(sentences, n, maxChars) <==>
        (AllHarmless(sentences, n - 1, maxChars) && !HarmsWords(AddSentences(sentences, n - 1, maxChars), s, maxChars));
      AddSentenceKeepsOrLoses(AddSentences(sentences, n - 1, maxChars), s, Words(Concat(sentences[..n - 1])),
                              AllHarmless(sentences, n - 1, maxChars), maxChars);
      assert sentences[..n] == sentences[..n - 1] + [s];
      ConcatSnoc(sentences[..n - 1], s);
      WordsAppend(Concat(sentences[..n - 1]), s);
    }
  }

  lemma NothingKept()
    ensures KeepsOrLoses(PackedWords(Packing([], "")), Words(""), true)
  {
  }

  /** The words of the chunks are those of the text exactly if the text fits or no sentence harms the words: none that
      is over-long meets a pending chunk with words, and none is glued to what is left of one. */
  lemma ChunkingKeepsWordsIff(text: string, pieces: seq<string>, maxChars: int)
    requires IsSplit(text, pieces)
    ensures
      var sentences := Sentences(pieces);
      AllWords(Chunks(text, sentences, maxChars)) == Words(text) <==>
        |text| <= maxChars || AllHarmless(sentences, |sentences|, maxChars)
  {
    hide Words, Sentences, AddSentences, AllHarmless;
    var sentences := Sentences(pieces);
    SentencesEndWithSpace(text, pieces);
    ConcatOfSentences(pieces);
    PackingKeepsOrLoses(sentences, |sentences|, maxChars);
    assert sentences[..|sentences|] == sentences;
    var p := AddSentences(sentences, |sentences|, maxChars);
    AllWordsSnoc(p.chunks, p.current);
    WordsOfNothing();
    AllWordsSnoc([], text);
    assert [] + [text] == [text] && AllWords(p.chunks) + [] == AllWords(p.chunks);
  }

  lemma AddOverlongWord(p: Packing, word: string, maxChars: int)
    requires IsWord(word) && |word| > maxChars
    ensures AddSentence(p, word, maxChars) == Packing(p.chunks, word)
  {
    hide IsSpace, Strip;
    WordOfWord(word);
    assert [word][..0] == [] && [word][0] == word;
    NoWords(p.chunks, maxChars);
    StripWordBuffer(word + " ");
    assert (word + " ")[..|word|] == word;
  }

  lemma FirstFits(sentence: string, maxChars: int)
    requires |sentence| <= maxChars
    ensures AddSentence(Packing([], ""), sentence, maxChars) == Packing([], sentence)
  {
    assert "" + sentence == sentence;
  }

  /** A sentence in front of one over-long word is lost. */
  lemma SentenceBeforeLongWordIsLost(sentence: string, word: string, maxChars: int)
    requires sentence != "" && |sentence| <= maxChars < |word| && IsWord(word)
    ensures Chunks(sentence + word, [sentence, word], maxChars) == [word]
  {
    hide AddSentence, IsWord;
    var sentences := [sentence, word];
    FirstFits(sentence, maxChars);
    AddOverlongWord(Packing([], sentence), word, maxChars);
    assert AddSentences(sentences, 1, maxChars)
        == AddSentence(AddSentences(sentences, 0, maxChars), sentence, maxChars);
    assert AddSentences(sentences, 2, maxChars) == Packing([], word);
  }
}
