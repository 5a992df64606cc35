/** Chunks for the local speech model (audio/qwen_tts.py). */
module QwenChunking {
  import opened Text
  import opened ChunkPacking
  import SpeechChunking

  const MAX_TEXT_LENGTH: nat := 500

  // ----- The packing of sentences -----

  /** The pending chunk is closed before an over-long sentence is packed by words. */
  function AddSentence(p: Packing, sentence: string, limit: nat): Packing {
    if |sentence| > limit then
      AddWords(Packing(if p.current != "" then p.chunks + [Strip(p.current)] else p.chunks, ""), Words(sentence), limit)
    else if |p.current| + |sentence| > limit then Packing(p.chunks + [Strip(p.current)], sentence)
    else Packing(p.chunks, p.current + sentence)
  }

  /** The first n sentences. */
  function AddSentences(sentences: seq<string>, n: nat, limit: nat): Packing
    requires n <= |sentences|
  {
    if n == 0 then Packing([], "") else AddSentence(AddSentences(sentences, n - 1, limit), sentences[n - 1], limit)
  }

  function Chunks(text: string, sentences: seq<string>, limit: nat): seq<string> {
    if |text| <= limit then [text]
    else
      var p := AddSentences(sentences, |sentences|, limit);
      var chunks := if Strip(p.current) != "" then p.chunks + [Strip(p.current)] else p.chunks;
      if chunks != [] then chunks else [text]
  }

  lemma NoSentence(sentences: seq<string>, limit: nat)
    ensures AddSentences(sentences, 0, limit) == Packing([], "")
  {
  }

  lemma AddOneSentence(sentences: seq<string>, i: nat, limit: nat)
    requires i < |sentences|
    ensures
      var p, s := AddSentences(sentences, i, limit), sentences[i];
      AddSentences(sentences, i + 1, limit) ==
        if |s| > limit then
          AddWords(Packing(if p.current != "" then p.chunks + [Strip(p.current)] else p.chunks, ""), Words(s), limit)
        else if |p.current| + |s| > limit then Packing(p.chunks + [Strip(p.current)], s)
        else Packing(p.chunks, p.current + s)
  {
    hide Strip, AddWords, Words, IsSpace;
  }

  method ChunkText(text: string, pieces: seq<string>, limit: nat := MAX_TEXT_LENGTH) returns (result: seq<string>)
    requires IsSplit(text, pieces)
    ensures result == Chunks(text, Sentences(pieces), limit)
  {
    hide Strip, AddWords, Words, IsSpace, Sentences, AddSentence;
    if |text| <= limit {
      return [text];
    }
    var chunks: seq<string> := [];
    var currentChunk := "";
    var combined := CombineSentences(pieces);
    NoSentence(combined, limit);
    for i := 0 to |combined|
      invariant Packing(chunks, currentChunk) == AddSentences(combined, i, limit)
    {
      hide AddSentences, Chunks;
      AddOneSentence(combined, i, limit);
      var sentence := combined[i];
      if |sentence| > limit {
        if currentChunk != "" {
          chunks := chunks + [Strip(currentChunk)];
        }
        currentChunk := "";
        var p := PackWords(chunks, sentence, limit);
        chunks, currentChunk := p.chunks, p.current;
      } else if |currentChunk| + |sentence| > limit {
        chunks := chunks + [Strip(currentChunk)];
        currentChunk := sentence;
      } else {
        currentChunk := currentChunk + sentence;
      }
    }
    hide AddSentences;
    var last := Strip(currentChunk);
    if last != "" {
      chunks := chunks + [last];
    }
    if chunks == [] {
      return [text];
    }
    return chunks;
  }

  // ----- The words -----

  lemma AddSentenceKeepsWords(p: Packing, s: string, limit: nat)
    requires EndsFree(p.current)
    ensures PackedWords(AddSentence(p, s, limit)) == PackedWords(p) + Words(s)
    ensures EndsFree(s) ==> EndsFree(AddSentence(p, s, limit).current)
  {
    hide Words, AllWords, AddWords, IsSpace, Strip;
    WordsOfNothing();
    CloseKeepsWords(p);
    if |s| > limit {
      var closed := Packing(if p.current != "" then p.chunks + [Strip(p.current)] else p.chunks, "");
      assert PackedWords(closed) == PackedWords(p);
      WordsAreWords(s);
      AddWordsKeepsWords(closed, Words(s), limit);
    } else if |p.current| + |s| <= limit {
      WordsAppend(p.current, s);
      assert p.current + "" == p.current;
    }
  }

  lemma {:induction false} PackingKeepsWords(sentences: seq<string>, n: nat, limit: nat)
    requires n <= |sentences| && EndWithSpace(sentences)
    ensures PackedWords(AddSentences(sentences, n, limit)) == Words(Concat(sentences[..n]))
    ensures n < |sentences| ==> EndsFree(AddSentences(sentences, n, limit).current) && EndsFree(Concat(sentences[..n]))
  {
    hide PackedWords, AddSentence, Words, IsSpace;
    if n == 0 {
      NothingPacked();
    } else {
      var s := sentences[n - 1];
      PackingKeepsWords(sentences, n - 1, limit);
      AddSentenceKeepsWords(AddSentences(sentences, n - 1, limit), s, limit);
      assert sentences[..n] == sentences[..n - 1] + [s];
      ConcatSnoc(sentences[..n - 1], s);
      WordsAppend(Concat(sentences[..n - 1]), s);
    }
  }

  lemma NothingPacked()
    ensures PackedWords(Packing([], "")) == Words("")
  {
  }

  /** The chunks hold the words of the text, in order: none is lost, cut, joined or moved. */
  lemma ChunksKeepWords(text: string, pieces: seq<string>, limit: nat)
    requires IsSplit(text, pieces)
    ensures AllWords(Chunks(text, Sentences(pieces), limit)) == Words(text)
  {
    hide Words, Sentences, AddSentences;
    var sentences := Sentences(pieces);
    SentencesEndWithSpace(text, pieces);
    ConcatOfSentences(pieces);
    PackingKeepsWords(sentences, |sentences|, limit);
    assert sentences[..|sentences|] == sentences;
    var p := AddSentences(sentences, |sentences|, limit);
    CloseKeepsWords(p);
    WordsStrip(p.current);
    WordsOfNothing();
    AllWordsSnoc([], text);
    assert [] + [text] == [text];
  }

  // ----- The sizes -----

  /** Within the limit, or a single word that is longer. */
  predicate IsGoodChunk(chunk: string, limit: nat) {
    |chunk| <= limit || IsWord(chunk)
  }

  predicate AreGoodChunks(chunks: seq<string>, limit: nat) {
    forall i :: 0 <= i < |chunks| ==> IsGoodChunk(chunks[i], limit)
  }

  predicate IsGoodBuffer(s: string, limit: nat) {
    |s| <= limit || (s[|s| - 1] == ' ' && IsWord(s[..|s| - 1]))
  }

  lemma CloseGoodBuffer(s: string, limit: nat)
    requires IsGoodBuffer(s, limit)
    ensures IsGoodChunk(Strip(s), limit)
  {
    hide Strip, IsSpace;
    if |s| > limit {
      var word := s[..|s| - 1];
      assert word[0] == s[0] && word[|word| - 1] == s[|s| - 2];
      StripWordBuffer(s);
    }
  }

  predicate IsGoodPacking(p: Packing, limit: nat) {
    AreGoodChunks(p.chunks, limit) && IsGoodBuffer(p.current, limit)
  }

  lemma {:induction false} AddWordsIsGood(p: Packing, words: seq<string>, limit: nat)
    requires IsGoodPacking(p, limit) && forall i :: 0 <= i < |words| ==> IsWord(words[i])
    ensures IsGoodPacking(AddWords(p, words, limit), limit)
  {
    hide Strip;
    if words != [] {
      var front, word := words[..|words| - 1], words[|words| - 1];
      AddWordsIsGood(p, front, limit);
      CloseGoodBuffer(AddWords(p, front, limit).current, limit);
      assert (word + " ")[..|word|] == word;
    }
  }

  lemma {:induction false} PackingIsGood(sentences: seq<string>, n: nat, limit: nat)
    requires n <= |sentences|
    ensures IsGoodPacking(AddSentences(sentences, n, limit), limit)
  {
    hide Strip, AddWords, Words, IsWord;
    if n > 0 {
      var p, s := AddSentences(sentences, n - 1, limit), sentences[n - 1];
      PackingIsGood(sentences, n - 1, limit);
      CloseGoodBuffer(p.current, limit);
      if |s| > limit {
        WordsAreWords(s);
        AddWordsIsGood(Packing(if p.current != "" then p.chunks + [Strip(p.current)] else p.chunks, ""), Words(s),
          limit);
      }
    }
  }

  /** A separator holds a punctuation character. */
  lemma SplitIsNotBlank(text: string, pieces: seq<string>)
    requires IsSplit(text, pieces)
    ensures |pieces| > 1 ==> !IsBlank(text)
  {
    if |pieces| > 1 {
      assert IsSeparator(pieces[1]) && pieces[1..][1..] == pieces[2..];
      assert text == pieces[0] + Concat(pieces[1..]);
      assert Concat(pieces[1..]) == pieces[1] + Concat(pieces[2..]);
      assert text[|pieces[0]|] == (pieces[1] + Concat(pieces[2..]))[0] == pieces[1][0];
      assert !IsSpace('.') && !IsSpace('!') && !IsSpace('?');
    }
  }

  lemma BlankIsReturned(text: string, pieces: seq<string>, limit: nat)
    requires IsSplit(text, pieces) && IsBlank(text) && |text| > limit
    ensures Chunks(text, Sentences(pieces), limit) == [text]
  {
    SplitIsNotBlank(text, pieces);
    assert Concat(pieces) == pieces[0] + Concat(pieces[1..]) && pieces[0] == text;
    WordsOfBlank(text);
    assert Sentences(pieces) == [text];
    assert AddSentences([text], 1, limit) == AddSentence(AddSentences([text], 0, limit), text, limit)
        == Packing([], "");
  }

  lemma NonBlankIsPacked(text: string, pieces: seq<string>, limit: nat)
    requires IsSplit(text, pieces) && !IsBlank(text)
    ensures
      var p := AddSentences(Sentences(pieces), |Sentences(pieces)|, limit);
      p.chunks != [] || Strip(p.current) != ""
  {
    hide Words, Sentences, AddSentences;
    var sentences := Sentences(pieces);
    SentencesEndWithSpace(text, pieces);
    ConcatOfSentences(pieces);
    PackingKeepsWords(sentences, |sentences|, limit);
    assert sentences[..|sentences|] == sentences;
    var p := AddSentences(sentences, |sentences|, limit);
    WordsOfBlank(text);
    WordsOfBlank(p.current);
    StripIsEmpty(p.current);
  }

  /** The sizes are right except for a blank text beyond the limit, which comes back as it is. */
  lemma ChunksAreGoodIff(text: string, pieces: seq<string>, limit: nat)
    requires IsSplit(text, pieces)
    ensures AreGoodChunks(Chunks(text, Sentences(pieces), limit), limit) <==> |text| <= limit || !IsBlank(text)
  {
    hide Sentences, AddSentences, Strip;
    var sentences := Sentences(pieces);
    var p := AddSentences(sentences, |sentences|, limit);
    if |text| > limit {
      if IsBlank(text) {
        BlankIsReturned(text, pieces, limit);
        assert IsSpace(text[0]);
        assert !IsGoodChunk([text][0], limit);
      } else {
        PackingIsGood(sentences, |sentences|, limit);
        CloseGoodBuffer(p.current, limit);
        NonBlankIsPacked(text, pieces, limit);
      }
    }
  }

  // ----- What goes into one chunk -----

  /** A sentence within the limit is not cut; a longer one goes into its words. */
  function UnitsOf(sentence: string, limit: nat): seq<Unit> {
    if |sentence| <= limit then [Unit(sentence, false)] else WordUnits(Words(sentence))
  }

  function Units(sentences: seq<string>, n: nat, limit: nat): seq<Unit>
    requires n <= |sentences|
  {
    if n == 0 then [] else Units(sentences, n - 1, limit) + UnitsOf(sentences[n - 1], limit)
  }

  /** The packing holds these units, each in the chunk of the one before it exactly if it joins. */
  ghost predicate Holds(p: Packing, groups: seq<seq<Unit>>, units: seq<Unit>, limit: nat) {
    && IsGreedy(groups, limit) && Flat(groups) == units && IsPending([], p, groups)
    && (groups != [] ==> !IsBlank(p.current))
  }

  lemma FittingSentenceJoins(p: Packing, groups: seq<seq<Unit>>, units: seq<Unit>, s: string, limit: nat)
    requires Holds(p, groups, units, limit) && |s| <= limit
    ensures IsPending([], AddSentence(p, s, limit), Grouped(groups, Unit(s, false), limit))
    ensures AddSentence(p, s, limit).current == s || AddSentence(p, s, limit).current == p.current + s
  {
    hide Strip, IsBlank, IsGreedy;
    GroupedIsPending([], p, groups, Unit(s, false), limit);
    assert "" + s == s;
  }

  lemma GreedyConcat(groups: seq<seq<Unit>>, more: seq<seq<Unit>>, limit: nat)
    requires IsGreedy(groups, limit) && IsGreedy(more, limit)
    requires more != [] && more[0] != [] ==> more[0][0].opens
    ensures IsGreedy(groups + more, limit)
  {
    hide IsFilled;
    var all := groups + more;
    forall g | 0 < g < |all| ensures all[g] != [] && !Joins(all[g - 1], all[g][0], limit) {
      if g < |groups| {
        assert all[g] == groups[g] && all[g - 1] == groups[g - 1];
      } else if g > |groups| {
        assert all[g] == more[g - |groups|] && all[g - 1] == more[g - |groups| - 1];
      } else {
        FirstIsFilled(more, limit);
      }
    }
  }

  lemma FirstIsFilled(groups: seq<seq<Unit>>, limit: nat)
    requires IsGreedy(groups, limit) && groups != []
    ensures groups[0] != []
  {
  }

  lemma {:induction false} FlatConcat(groups: seq<seq<Unit>>, more: seq<seq<Unit>>)
    ensures Flat(groups + more) == Flat(groups) + Flat(more)
  {
    if more == [] {
      assert groups + more == groups;
    } else {
      assert (groups + more)[..|groups + more| - 1] == groups + more[..|more| - 1];
      FlatConcat(groups, more[..|more| - 1]);
      var front, last := Flat(more[..|more| - 1]), more[|more| - 1];
      assert Flat(groups) + front + last == Flat(groups) + (front + last);
    }
  }

  lemma {:induction false} FirstOfFlat(groups: seq<seq<Unit>>, limit: nat)
    requires IsGreedy(groups, limit) && groups != []
    ensures Flat(groups) != [] && groups[0] != [] && Flat(groups)[0] == groups[0][0]
  {
    FirstIsFilled(groups, limit);
    if |groups| == 1 {
      assert groups[..0] == [] && Flat(groups) == [] + groups[0];
    } else {
      FirstOfFlat(groups[..|groups| - 1], limit);
    }
  }

  lemma FittingSentenceInGroups(p: Packing, groups: seq<seq<Unit>>, units: seq<Unit>, s: string, limit: nat)
      returns (all: seq<seq<Unit>>)
    requires Holds(p, groups, units, limit) && |s| <= limit
    ensures IsGreedy(all, limit) && Flat(all) == units + UnitsOf(s, limit) && all != []
    ensures IsPending([], AddSentence(p, s, limit), all)
    ensures !IsBlank(s) ==> Holds(AddSentence(p, s, limit), all, units + UnitsOf(s, limit), limit)
  {
    hide Strip, IsBlank, IsGreedy, Flat, IsPending, AddSentence;
    var u := Unit(s, false);
    all := Grouped(groups, u, limit);
    GroupedIsGreedy(groups, u, limit);
    GroupedAddsOne(groups, u, limit);
    FittingSentenceJoins(p, groups, units, s, limit);
    if !IsBlank(s) {
      VisibleBehind(p.current, s);
    }
  }

  lemma VisibleBehind(front: string, s: string)
    requires !IsBlank(s)
    ensures !IsBlank(front + s)
  {
    assert forall i :: 0 <= i < |s| ==> (front + s)[|front| + i] == s[i];
  }

  lemma LongSentenceInGroups(p: Packing, groups: seq<seq<Unit>>, units: seq<Unit>, s: string, limit: nat)
      returns (all: seq<seq<Unit>>)
    requires Holds(p, groups, units, limit) && |s| > limit && !IsBlank(s)
    ensures all != [] && Holds(AddSentence(p, s, limit), all, units + UnitsOf(s, limit), limit)
  {
    hide Strip, IsWord, IsGreedy, Flat, AddWords, Words;
    var closed := ClosedPending(p, groups, units, limit);
    var words := Words(s);
    WordsAreWords(s);
    WordsOfBlank(s);
    var more := AddWordsInGroups(Stripped(groups), words, limit);
    all := groups + more;
    FirstOfFlat(more, limit);
    assert more[0][0] == WordUnits(words)[0];
    GreedyConcat(groups, more, limit);
    FlatConcat(groups, more);
    BufferStaysWordBuffer(closed, words, limit);
    var q := AddWords(closed, words, limit);
    assert IsWordBuffer(q.current) && q.current != "" && !IsBlank(q.current);
    assert all[..|all| - 1] == groups + more[..|more| - 1];
    assert Stripped(all[..|all| - 1]) == Stripped(groups) + Stripped(more[..|more| - 1]);
  }

  lemma ClosedPending(p: Packing, groups: seq<seq<Unit>>, units: seq<Unit>, limit: nat) returns (closed: Packing)
    requires Holds(p, groups, units, limit)
    ensures closed == Packing(if p.current != "" then p.chunks + [Strip(p.current)] else p.chunks, "")
    ensures closed.chunks == Stripped(groups)
  {
    hide Strip, IsGreedy, Flat;
    closed := Packing(if p.current != "" then p.chunks + [Strip(p.current)] else p.chunks, "");
    if groups != [] {
      var n := |groups| - 1;
      assert p.current != "";
      assert [] + Stripped(groups[..n]) == Stripped(groups[..n]);
      assert Stripped(groups) == Stripped(groups[..n]) + [Strip(TextOf(groups[n]))];
    }
  }

  lemma {:induction false} SentencesInGroups(sentences: seq<string>, n: nat, limit: nat)
      returns (groups: seq<seq<Unit>>)
    requires n <= |sentences| && forall i :: 0 <= i < n ==> !IsBlank(sentences[i])
    ensures Holds(AddSentences(sentences, n, limit), groups, Units(sentences, n, limit), limit)
  {
    hide AddSentence, Holds, UnitsOf, IsBlank;
    if n == 0 {
      groups := [];
      NothingHeld(limit);
    } else {
      var p, s := AddSentences(sentences, n - 1, limit), sentences[n - 1];
      var before := SentencesInGroups(sentences, n - 1, limit);
      if |s| <= limit {
        groups := FittingSentenceInGroups(p, before, Units(sentences, n - 1, limit), s, limit);
      } else {
        groups := LongSentenceInGroups(p, before, Units(sentences, n - 1, limit), s, limit);
      }
    }
  }

  lemma NothingHeld(limit: nat)
    ensures Holds(Packing([], ""), [], [], limit)
  {
  }

  lemma FrontSentenceIsVisible(text: string, pieces: seq<string>, i: nat)
    requires IsSplit(text, pieces) && 2 * i + 1 < |pieces|
    ensures !IsBlank(Sentences(pieces)[i])
  {
    hide Sentences, Concat;
    SentencesAt(pieces, i);
    SeparatorIsVisible(pieces[2 * i], pieces[2 * i + 1]);
  }

  lemma SeparatorIsVisible(front: string, separator: string)
    requires IsSeparator(separator)
    ensures !IsBlank(front + separator)
  {
    assert (front + separator)[|front|] == separator[0];
    assert !IsSpace('.') && !IsSpace('!') && !IsSpace('?');
  }

  /** The groups without a blank one at the end. */
  function Spoken(groups: seq<seq<Unit>>): seq<seq<Unit>> {
    if groups != [] && IsBlank(TextOf(groups[|groups| - 1])) then groups[..|groups| - 1] else groups
  }

  /** The chunks are the stripped groups of the uncut pieces of the text.  No piece at the start of a chunk would have
      fitted into the chunk in front of it, unless an over-long sentence starts with it. */
  lemma ChunksAreFilled(text: string, pieces: seq<string>, limit: nat) returns (groups: seq<seq<Unit>>)
    requires IsSplit(text, pieces) && |text| > limit && !IsBlank(text)
    ensures IsGreedy(groups, limit) && Flat(groups) == Units(Sentences(pieces), |Sentences(pieces)|, limit)
    ensures Chunks(text, Sentences(pieces), limit) == Stripped(Spoken(groups))
  {
    var sentences := Sentences(pieces);
    var n := |sentences| - 1;
    hide *;
    forall i | 0 <= i < n ensures !IsBlank(sentences[i]) {
      FrontSentenceIsVisible(text, pieces, i);
    }
    var before := SentencesInGroups(sentences, n, limit);
    NonBlankIsPacked(text, pieces, limit);
    ChunksAre(text, sentences, limit);
    groups := LastSentenceInGroups(AddSentences(sentences, n, limit), before, Units(sentences, n, limit), sentences[n],
                                   limit);
  }

  lemma ChunksAre(text: string, sentences: seq<string>, limit: nat)
    requires |text| > limit && sentences != []
    ensures
      var n := |sentences| - 1;
      && Units(sentences, n + 1, limit) == Units(sentences, n, limit) + UnitsOf(sentences[n], limit)
      && AddSentences(sentences, n + 1, limit) == AddSentence(AddSentences(sentences, n, limit), sentences[n], limit)
    ensures
      var q := AddSentences(sentences, |sentences|, limit);
      (q.chunks != [] || Strip(q.current) != "") ==>
        Chunks(text, sentences, limit) == if Strip(q.current) != "" then q.chunks + [Strip(q.current)] else q.chunks
  {
    hide Strip, AddSentence, UnitsOf;
  }

  lemma LastSentenceInGroups(p: Packing, before: seq<seq<Unit>>, units: seq<Unit>, s: string, limit: nat)
      returns (groups: seq<seq<Unit>>)
    requires Holds(p, before, units, limit)
    ensures IsGreedy(groups, limit) && Flat(groups) == units + UnitsOf(s, limit)
    ensures
      var q := AddSentence(p, s, limit);
      (if Strip(q.current) != "" then q.chunks + [Strip(q.current)] else q.chunks) == Stripped(Spoken(groups))
  {
    hide Words, Strip, IsBlank, IsGreedy, Flat, AddWords;
    var q := AddSentence(p, s, limit);
    StripIsEmpty(q.current);
    WordsOfBlank(s);
    if |s| > limit && IsBlank(s) {
      var closed := ClosedPending(p, before, units, limit);
      groups := before;
      NoWordsAdded(closed, limit);
      BlankIsStripped();
    } else {
      if |s| <= limit {
        groups := FittingSentenceInGroups(p, before, units, s, limit);
      } else {
        groups := LongSentenceInGroups(p, before, units, s, limit);
      }
      hide AddSentence;
      PendingIsSpoken(q, groups);
    }
  }

  lemma NoWordsAdded(p: Packing, limit: nat)
    ensures AddWords(p, [], limit) == p
  {
  }

  lemma BlankIsStripped()
    ensures Strip("") == "" && IsBlank("")
  {
  }

  lemma PendingIsSpoken(q: Packing, groups: seq<seq<Unit>>)
    requires groups != [] && IsPending([], q, groups)
    ensures (if Strip(q.current) != "" then q.chunks + [Strip(q.current)] else q.chunks) == Stripped(Spoken(groups))
  {
    hide Strip, IsBlank;
    var n := |groups| - 1;
    StripIsEmpty(q.current);
    assert [] + Stripped(groups[..n]) == Stripped(groups[..n]);
    assert Stripped(groups) == Stripped(groups[..n]) + [Strip(TextOf(groups[n]))];
  }

  // ----- No split uses fewer chunks -----

  /** With fitting sentences the two chunkers differ in the stripping alone. */
  lemma {:induction false} SameAsSpeech(sentences: seq<string>, n: nat, limit: nat)
    requires n <= |sentences| && SpeechChunking.AllFit(sentences, limit)
    ensures
      var p, q := AddSentences(sentences, n, limit), SpeechChunking.AddSentences(sentences, n, limit);
      && p.current == q.current && |p.chunks| == |q.chunks|
      && (forall i :: 0 <= i < |p.chunks| ==> p.chunks[i] == Strip(q.chunks[i]))
  {
    hide Strip;
    if n > 0 {
      SameAsSpeech(sentences, n - 1, limit);
    }
  }

  /** A text whose sentences fit is cut into the fewest chunks: no split of the sentences into consecutive groups
      within the limit has fewer groups. */
  lemma FittingTextNeedsNoFewer(text: string, pieces: seq<string>, limit: nat)
    requires IsSplit(text, pieces) && (|text| <= limit || SpeechChunking.AllFit(Sentences(pieces), limit))
    ensures SpeechChunking.NoGroupingIsShorter(Chunks(text, Sentences(pieces), limit), Sentences(pieces), limit)
  {
    hide Sentences, AddSentences, SpeechChunking.AddSentences, Strip, SpeechChunking.IsGrouping;
    var sentences := Sentences(pieces);
    var n := |sentences|;
    assert sentences[..n] == sentences;
    forall groups: seq<seq<string>> | SpeechChunking.IsGrouping(groups, sentences, limit)
      ensures |groups| >= |Chunks(text, sentences, limit)|
    {
      SpeechChunking.EmptyGrouping(groups, sentences, limit);
      if |text| > limit {
        SameAsSpeech(sentences, n, limit);
        SpeechChunking.GreedyStaysAhead(sentences, n, groups, limit);
        NothingIsStripped(AddSentences(sentences, n, limit).current);
      }
    }
  }

  lemma NothingIsStripped(s: string)
    ensures Strip(s) != "" ==> s != ""
  {
    StripIsEmpty(s);
  }
}
