/** The parts the two text chunkers share: sentences and greedy packing of words
    (audio/audio_manager.py, audio/qwen_tts.py). */
module ChunkPacking {
  import opened Text

  // ----- Sentences -----

  /** A run of sentence punctuation and the whitespace behind it. */
  predicate IsSeparator(s: string) {
    && |s| >= 2 && s[0] in {'.', '!', '?'} && IsSpace(s[|s| - 1])
  }

  /** The pieces of a split that captures its separators: texts and separators alternate. */
  predicate IsSplit(text: string, pieces: seq<string>) {
    && |pieces| % 2 == 1
    && Concat(pieces) == text
    && forall i :: 0 <= i < |pieces| && i % 2 == 1 ==> IsSeparator(pieces[i])
  }

  /** Each text with its separator. */
  function Sentences(pieces: seq<string>): (sentences: seq<string>)
    requires |pieces| % 2 == 1
    ensures |sentences| == |pieces| / 2 + 1
  {
    if |pieces| == 1 then [pieces[0]] else [pieces[0] + pieces[1]] + Sentences(pieces[2..])
  }

  lemma {:induction false} SentencesAt(pieces: seq<string>, i: nat)
    requires |pieces| % 2 == 1 && 2 * i + 1 < |pieces|
    ensures Sentences(pieces)[i] == pieces[2 * i] + pieces[2 * i + 1]
  {
    if i > 0 {
      SentencesAt(pieces[2..], i - 1);
    }
  }

  lemma {:induction false} LastSentence(pieces: seq<string>)
    requires |pieces| % 2 == 1
    ensures Sentences(pieces)[|pieces| / 2] == pieces[|pieces| - 1]
  {
    if |pieces| > 1 {
      LastSentence(pieces[2..]);
    }
  }

  lemma {:induction false} ConcatOfSentences(pieces: seq<string>)
    requires |pieces| % 2 == 1
    ensures Concat(Sentences(pieces)) == Concat(pieces)
  {
    if |pieces| == 1 {
      assert Sentences(pieces) == pieces;
    } else {
      ConcatOfSentences(pieces[2..]);
      assert pieces[1..][1..] == pieces[2..];
      assert Concat(pieces) == pieces[0] + (pieces[1] + Concat(pieces[2..]));
      assert Concat(Sentences(pieces)) == pieces[0] + pieces[1] + Concat(pieces[2..]);
    }
  }

  /** Every sentence but the last ends with whitespace. */
  predicate EndWithSpace(sentences: seq<string>) {
    forall i :: 0 <= i < |sentences| - 1 ==> sentences[i] != "" && IsSpace(sentences[i][|sentences[i]| - 1])
  }

  lemma SentencesEndWithSpace(text: string, pieces: seq<string>)
    requires IsSplit(text, pieces)
    ensures EndWithSpace(Sentences(pieces))
  {
    forall i | 0 <= i < |Sentences(pieces)| - 1
      ensures Sentences(pieces)[i] != "" && IsSpace(Sentences(pieces)[i][|Sentences(pieces)[i]| - 1])
    {
      SentencesAt(pieces, i);
      assert IsSeparator(pieces[2 * i + 1]);
    }
  }

  method CombineSentences(pieces: seq<string>) returns (combined: seq<string>)
    requires |pieces| % 2 == 1
    ensures combined == Sentences(pieces)
  {
    combined := [];
    var i := 0;
    while i < |pieces| - 1
      invariant 0 <= i < |pieces| && i % 2 == 0
      invariant combined == Sentences(pieces)[..i / 2]
    {
      SentencesAt(pieces, i / 2);
      combined := combined + [pieces[i] + pieces[i + 1]];
      i := i + 2;
    }
    LastSentence(pieces);
    combined := combined + [pieces[|pieces| - 1]];
  }

  // ----- Packing words -----

  /** The chunks closed so far and the one being filled. */
  datatype Packing = Packing(chunks: seq<string>, current: string)

  function AddWord(p: Packing, word: string, maxChars: int): Packing {
    if |p.current| + |word| + 1 <= maxChars then Packing(p.chunks, p.current + word + " ")
    else Packing(if p.current != "" then p.chunks + [Strip(p.current)] else p.chunks, word + " ")
  }

  function AddWords(p: Packing, words: seq<string>, maxChars: int): Packing {
    if words == [] then p
    else AddWord(AddWords(p, words[..|words| - 1], maxChars), words[|words| - 1], maxChars)
  }

  method PackWords(chunks: seq<string>, sentence: string, maxChars: int) returns (p: Packing)
    ensures p == AddWords(Packing(chunks, ""), Words(sentence), maxChars)
    ensures IsPacked(chunks, sentence, p, maxChars)
  {
    hide IsPacked;
    WordsArePacked(chunks, sentence, maxChars);
    var newChunks, tempChunk := chunks, "";
    var words := Words(sentence);
    for i := 0 to |words|
      invariant Packing(newChunks, tempChunk) == AddWords(Packing(chunks, ""), words[..i], maxChars)
    {
      var word := words[i];
      assert words[..i + 1][..|words[..i + 1]| - 1] == words[..i];
      if |tempChunk| + |word| + 1 <= maxChars {
        tempChunk := tempChunk + word + " ";
      } else {
        if tempChunk != "" {
          newChunks := newChunks + [Strip(tempChunk)];
        }
        tempChunk := word + " ";
      }
    }
    assert words[..|words|] == words;
    p := Packing(newChunks, tempChunk);
  }

  /** Either nothing, or words each followed by one space. */
  predicate IsWordBuffer(s: string) {
    s == "" || (|s| >= 2 && !IsSpace(s[0]) && s[|s| - 1] == ' ' && !IsSpace(s[|s| - 2]))
  }

  lemma StripWordBuffer(s: string)
    requires IsWordBuffer(s) && s != ""
    ensures Strip(s) == s[..|s| - 1]
  {
    assert StripLeft(s) == s;
    var r := s[..|s| - 1];
    assert StripRight(r) == r;
  }

  lemma {:induction false} BufferStaysWordBuffer(p: Packing, words: seq<string>, maxChars: int)
    requires IsWordBuffer(p.current) && forall i :: 0 <= i < |words| ==> IsWord(words[i])
    ensures IsWordBuffer(AddWords(p, words, maxChars).current)
    ensures words != [] ==> AddWords(p, words, maxChars).current != ""
  {
    if words != [] {
      BufferStaysWordBuffer(p, words[..|words| - 1], maxChars);
    }
  }

  // ----- The words of a packing -----

  /** All words packed so far. */
  function PackedWords(p: Packing): seq<string> {
    AllWords(p.chunks) + Words(p.current)
  }

  predicate EndsFree(s: string) {
    s == "" || IsSpace(s[|s| - 1])
  }

  lemma CloseKeepsWords(p: Packing)
    ensures AllWords(p.chunks + [Strip(p.current)]) == PackedWords(p)
  {
    WordsStrip(p.current);
    AllWordsSnoc(p.chunks, Strip(p.current));
  }

  lemma WordsOfSpaced(s: string, word: string)
    requires EndsFree(s) && IsWord(word)
    ensures Words(s + word + " ") == Words(s) + [word] && EndsFree(s + word + " ")
  {
    hide Words;
    FirstWord(word, " ");
    WordsOfBlank(" ");
    WordsAppend(s, word + " ");
    assert s + word + " " == s + (word + " ");
  }

  lemma AddWordKeepsWords(p: Packing, word: string, limit: int)
    requires EndsFree(p.current) && IsWord(word)
    ensures PackedWords(AddWord(p, word, limit)) == PackedWords(p) + [word]
    ensures EndsFree(AddWord(p, word, limit).current)
  {
    hide Words, AllWords, IsWord, IsSpace, Strip;
    WordsOfSpaced(p.current, word);
    WordsOfSpaced("", word);
    assert "" + word + " " == word + " ";
    WordsOfNothing();
    CloseKeepsWords(p);
    assert AllWords(p.chunks) + [] == AllWords(p.chunks);
  }

  lemma WordsOfNothing()
    ensures Words("") == []
  {
  }

  lemma {:induction false} AddWordsKeepsWords(p: Packing, words: seq<string>, limit: int)
    requires EndsFree(p.current) && forall i :: 0 <= i < |words| ==> IsWord(words[i])
    ensures PackedWords(AddWords(p, words, limit)) == PackedWords(p) + words
    ensures EndsFree(AddWords(p, words, limit).current)
  {
    hide PackedWords, AddWord, EndsFree, IsWord;
    if words == [] {
      assert PackedWords(p) + words == PackedWords(p);
    } else {
      var front, word := words[..|words| - 1], words[|words| - 1];
      AddWordsKeepsWords(p, front, limit);
      AddWordKeepsWords(AddWords(p, front, limit), word, limit);
      assert PackedWords(p) + front + [word] == PackedWords(p) + words;
    }
  }

  // ----- What goes into one chunk -----

  /** A piece of text that is not cut further; some have to open a chunk. */
  datatype Unit = Unit(text: string, opens: bool)

  function TextOf(units: seq<Unit>): string {
    if units == [] then "" else TextOf(units[..|units| - 1]) + units[|units| - 1].text
  }

  function Flat(groups: seq<seq<Unit>>): seq<Unit> {
    if groups == [] then [] else Flat(groups[..|groups| - 1]) + groups[|groups| - 1]
  }

  /** The unit joins the group: with a space behind it, if it is a word, the text still fits. */
  predicate Joins(group: seq<Unit>, u: Unit, limit: int) {
    !u.opens && |TextOf(group)| + |u.text| <= limit
  }

  /** In a group each further unit still fits; behind a group comes a unit that does not fit or has to open one. */
  ghost predicate IsGreedy(groups: seq<seq<Unit>>, limit: int) {
    && (forall g :: 0 <= g < |groups| ==> IsFilled(groups[g], limit))
    && forall g :: 0 < g < |groups| ==> groups[g] != [] && !Joins(groups[g - 1], groups[g][0], limit)
  }

  ghost predicate IsFilled(group: seq<Unit>, limit: int) {
    group != [] && forall i :: 0 < i < |group| ==> Joins(group[..i], group[i], limit)
  }

  /** The words of an over-long sentence, each with a space; the first one opens a chunk. */
  function WordUnits(words: seq<string>): (r: seq<Unit>)
    ensures |r| == |words| && forall i :: 0 <= i < |r| ==> r[i] == Unit(words[i] + " ", i == 0)
  {
    seq(|words|, i requires 0 <= i < |words| => Unit(words[i] + " ", i == 0))
  }

  function Stripped(groups: seq<seq<Unit>>): (r: seq<string>)
    ensures |r| == |groups| && forall g :: 0 <= g < |r| ==> r[g] == Strip(TextOf(groups[g]))
  {
    seq(|groups|, g requires 0 <= g < |groups| => Strip(TextOf(groups[g])))
  }

  /** Behind the chunks in front, all groups but the last are closed. */
  predicate IsPending(front: seq<string>, p: Packing, groups: seq<seq<Unit>>) {
    var n := |groups|;
    if n == 0 then p == Packing(front, "")
    else p == Packing(front + Stripped(groups[..n - 1]), TextOf(groups[n - 1]))
  }

  /** The groups with one more unit. */
  function Grouped(groups: seq<seq<Unit>>, u: Unit, limit: int): seq<seq<Unit>> {
    var n := |groups|;
    if n > 0 && Joins(groups[n - 1], u, limit) then groups[..n - 1] + [groups[n - 1] + [u]] else groups + [[u]]
  }

  lemma GroupedIsGreedy(groups: seq<seq<Unit>>, u: Unit, limit: int)
    requires IsGreedy(groups, limit)
    ensures IsGreedy(Grouped(groups, u, limit), limit)
  {
    hide Joins;
    var n, all := |groups|, Grouped(groups, u, limit);
    if n > 0 && Joins(groups[n - 1], u, limit) {
      FilledSnoc(groups[n - 1], u, limit);
    } else {
      assert IsFilled([u], limit);
    }
  }

  lemma FilledSnoc(group: seq<Unit>, u: Unit, limit: int)
    requires IsFilled(group, limit) && Joins(group, u, limit)
    ensures IsFilled(group + [u], limit)
  {
    hide Joins;
    forall i | 0 < i < |group + [u]| ensures Joins((group + [u])[..i], (group + [u])[i], limit) {
      assert (group + [u])[..i] == group[..i];
      assert i == |group| ==> group[..i] == group;
    }
  }

  lemma GroupedAddsOne(groups: seq<seq<Unit>>, u: Unit, limit: int)
    ensures Flat(Grouped(groups, u, limit)) == Flat(groups) + [u]
  {
    hide Joins;
    var n, all := |groups|, Grouped(groups, u, limit);
    assert all[..|all| - 1] == if n > 0 && Joins(groups[n - 1], u, limit) then groups[..n - 1] else groups;
    if n > 0 {
      assert Flat(groups[..n - 1]) + groups[n - 1] + [u] == Flat(groups[..n - 1]) + (groups[n - 1] + [u]);
    }
  }

  lemma TextSnoc(units: seq<Unit>, u: Unit)
    ensures TextOf(units + [u]) == TextOf(units) + u.text
  {
    assert (units + [u])[..|units|] == units;
  }

  /** One more unit is appended to the pending chunk if it joins, and closes it if it does not. */
  lemma GroupedIsPending(front: seq<string>, p: Packing, groups: seq<seq<Unit>>, u: Unit, limit: int)
    requires IsPending(front, p, groups)
    ensures
      IsPending(front,
                if groups != [] && Joins(groups[|groups| - 1], u, limit) then Packing(p.chunks, p.current + u.text)
                else Packing(if groups != [] then p.chunks + [Strip(p.current)] else p.chunks, u.text),
                Grouped(groups, u, limit))
  {
    hide Joins, Strip;
    var n, all := |groups|, Grouped(groups, u, limit);
    TextSnoc([], u);
    assert [] + [u] == [u];
    if n > 0 {
      TextSnoc(groups[n - 1], u);
      assert all[..|all| - 1] == if Joins(groups[n - 1], u, limit) then groups[..n - 1] else groups;
      assert Stripped(groups) == Stripped(groups[..n - 1]) + [Strip(TextOf(groups[n - 1]))];
    } else {
      assert all[..0] == [] && front + Stripped([]) == front;
    }
  }

  /** The words of one sentence in groups. */
  lemma {:induction false} AddWordsInGroups(front: seq<string>, words: seq<string>, limit: int)
      returns (groups: seq<seq<Unit>>)
    requires forall i :: 0 <= i < |words| ==> IsWord(words[i])
    ensures IsGreedy(groups, limit) && Flat(groups) == WordUnits(words)
    ensures IsPending(front, AddWords(Packing(front, ""), words, limit), groups)
    ensures (groups == [] <==> words == []) && (groups != [] ==> TextOf(groups[|groups| - 1]) != "")
  {
    hide Joins, IsWord, Strip, IsGreedy, Flat, Grouped, AddWord, WordUnits, IsPending;
    NoWordsInGroups(front, limit);
    if words == [] {
      groups := [];
    } else {
      var n := |words| - 1;
      var before := AddWordsInGroups(front, words[..n], limit);
      var u := Unit(words[n] + " ", n == 0);
      OneMoreWord(words);
      groups := Grouped(before, u, limit);
      GroupedIsGreedy(before, u, limit);
      GroupedAddsOne(before, u, limit);
      WordJoins(front, words[..n], before, words[n], limit);
    }
  }

  lemma NoWordsInGroups(front: seq<string>, limit: int)
    ensures IsGreedy([], limit) && Flat([]) == WordUnits([]) && WordUnits([]) == []
    ensures IsPending(front, AddWords(Packing(front, ""), [], limit), [])
  {
  }

  lemma OneMoreWord(words: seq<string>)
    requires words != []
    ensures
      var n := |words| - 1;
      WordUnits(words) == WordUnits(words[..n]) + [Unit(words[n] + " ", n == 0)]
  {
  }

  /** Each word stands in the same chunk as the one before it exactly if it still fits there. */
  ghost predicate IsPacked(chunks: seq<string>, sentence: string, p: Packing, limit: int) {
    exists groups ::
      IsGreedy(groups, limit) && Flat(groups) == WordUnits(Words(sentence)) && IsPending(chunks, p, groups)
  }

  lemma WordsArePacked(chunks: seq<string>, sentence: string, limit: int)
    ensures IsPacked(chunks, sentence, AddWords(Packing(chunks, ""), Words(sentence), limit), limit)
  {
    hide Words, AddWords, IsWord, IsGreedy, IsPending, WordUnits;
    WordsAreWords(sentence);
    var groups := AddWordsInGroups(chunks, Words(sentence), limit);
  }

  lemma WordJoins(front: seq<string>, words: seq<string>, groups: seq<seq<Unit>>, word: string, limit: int)
    requires groups == [] <==> words == []
    requires groups != [] ==> TextOf(groups[|groups| - 1]) != ""
    requires IsPending(front, AddWords(Packing(front, ""), words, limit), groups)
    ensures
      var u := Unit(word + " ", words == []);
      && IsPending(front, AddWord(AddWords(Packing(front, ""), words, limit), word, limit), Grouped(groups, u, limit))
      && Grouped(groups, u, limit) != []
      && TextOf(Grouped(groups, u, limit)[|Grouped(groups, u, limit)| - 1]) != ""
  {
    hide Strip, AddWords;
    var p := AddWords(Packing(front, ""), words, limit);
    var u := Unit(word + " ", words == []);
    GroupedIsPending(front, p, groups, u, limit);
    assert p.current + word + " " == p.current + (word + " ");
    assert "" + word + " " == word + " ";
  }
}
