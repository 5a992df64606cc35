/** Strings as the modelled program sees them: whitespace, stripping, splitting into words. */
module Text {

  /** The characters for which `str.isspace` holds. */
  predicate IsSpace(c: char) {
    || 9 as char <= c <= 13 as char
    || 28 as char <= c <= 32 as char
    || c == 0x85 as char || c == 0xA0 as char || c == 0x1680 as char
    || 0x2000 as char <= c <= 0x200A as char
    || c == 0x2028 as char || c == 0x2029 as char || c == 0x202F as char
    || c == 0x205F as char || c == 0x3000 as char
  }

  predicate IsBlank(s: string) {
    forall i :: 0 <= i < |s| ==> IsSpace(s[i])
  }

  function Concat(parts: seq<string>): string {
    if parts == [] then "" else parts[0] + Concat(parts[1..])
  }

  lemma {:induction false} ConcatAppend(parts: seq<string>, more: seq<string>)
    ensures Concat(parts + more) == Concat(parts) + Concat(more)
  {
    if parts == [] {
      assert parts + more == more;
    } else {
      assert (parts + more)[1..] == parts[1..] + more;
      ConcatAppend(parts[1..], more);
    }
  }

  lemma ConcatSnoc(parts: seq<string>, last: string)
    ensures Concat(parts + [last]) == Concat(parts) + last
  {
    ConcatAppend(parts, [last]);
    assert Concat([last]) == last + Concat([]);
  }

  // ----- Stripping -----

  lemma OneMoreOnLeft(s: string, r: string)
    requires s != "" && IsSpace(s[0]) && |r| < |s|
    requires r == s[1..][|s| - 1 - |r|..] && IsBlank(s[1..][..|s| - 1 - |r|])
    ensures r == s[|s| - |r|..] && IsBlank(s[..|s| - |r|])
  {
    hide IsSpace;
    assert s[..|s| - |r|] == [s[0]] + s[1..][..|s| - 1 - |r|];
  }

  lemma OneMoreOnRight(s: string, r: string)
    requires s != "" && IsSpace(s[|s| - 1]) && |r| < |s|
    requires r == s[..|s| - 1][..|r|] && IsBlank(s[..|s| - 1][|r|..])
    ensures r == s[..|r|] && IsBlank(s[|r|..])
  {
    hide IsSpace;
    assert s[|r|..] == s[..|s| - 1][|r|..] + [s[|s| - 1]];
  }

  function StripLeft(s: string): (r: string)
    ensures |r| <= |s| && r == s[|s| - |r|..] && IsBlank(s[..|s| - |r|])
    ensures r != "" ==> !IsSpace(r[0])
  {
    if s != "" && IsSpace(s[0]) then
      var r := StripLeft(s[1..]);
      OneMoreOnLeft(s, r);
      r
    else s
  }

  function StripRight(s: string): (r: string)
    ensures |r| <= |s| && r == s[..|r|] && IsBlank(s[|r|..])
    ensures r != "" ==> !IsSpace(r[|r| - 1])
  {
    if s != "" && IsSpace(s[|s| - 1]) then
      var r := StripRight(s[..|s| - 1]);
      OneMoreOnRight(s, r);
      r
    else s
  }

  function Strip(s: string): (r: string)
    ensures |r| <= |s|
    ensures r != "" ==> !IsSpace(r[0]) && !IsSpace(r[|r| - 1])
  {
    StripRight(StripLeft(s))
  }

  /** What is stripped off is blank. */
  lemma StripParts(s: string) returns (left: string, right: string)
    ensures s == left + Strip(s) + right && IsBlank(left) && IsBlank(right)
  {
    hide IsSpace, StripRight, StripLeft;
    var rest := StripLeft(s);
    left, right := s[..|s| - |rest|], rest[|StripRight(rest)|..];
    Rejoin(s, |s| - |rest|);
    Rejoin(rest, |StripRight(rest)|);
    assert s == left + (Strip(s) + right);
    assert left + (Strip(s) + right) == left + Strip(s) + right;
  }

  lemma Rejoin(s: string, i: nat)
    requires i <= |s|
    ensures s == s[..i] + s[i..]
  {
  }

  lemma StripIsEmpty(s: string)
    ensures Strip(s) == "" <==> IsBlank(s)
  {
    var left, right := StripParts(s);
    if Strip(s) != "" {
      assert s[|left|] == Strip(s)[0];
    }
  }

  // ----- The characters that are not whitespace -----

  function NonBlank(s: string): string {
    if s == "" then "" else (if IsSpace(s[0]) then "" else [s[0]]) + NonBlank(s[1..])
  }

  lemma {:induction false} NonBlankAppend(s: string, t: string)
    ensures NonBlank(s + t) == NonBlank(s) + NonBlank(t)
  {
    if s == "" {
      assert s + t == t;
    } else {
      assert (s + t)[1..] == s[1..] + t;
      NonBlankAppend(s[1..], t);
    }
  }

  // ----- Words -----

  function WordLength(s: string): (n: nat)
    ensures n <= |s| && (n < |s| ==> IsSpace(s[n]))
    ensures forall i :: 0 <= i < n ==> !IsSpace(s[i])
    ensures s != "" && !IsSpace(s[0]) ==> n > 0
  {
    if s == "" || IsSpace(s[0]) then 0 else 1 + WordLength(s[1..])
  }

  /** The maximal runs of characters that are not whitespace, as `str.split` returns them. */
  function Words(s: string): seq<string>
    decreases |s|
  {
    if s == "" then []
    else if IsSpace(s[0]) then Words(s[1..])
    else [s[..WordLength(s)]] + Words(s[WordLength(s)..])
  }

  /** No word of s + t reaches over the seam. */
  predicate CleanSeam(s: string, t: string) {
    s == "" || t == "" || IsSpace(s[|s| - 1]) || IsSpace(t[0])
  }

  lemma WordLengthIs(s: string, n: nat)
    requires n <= |s| && (n < |s| ==> IsSpace(s[n]))
    requires forall i :: 0 <= i < n ==> !IsSpace(s[i])
    ensures WordLength(s) == n
  {
  }

  predicate IsWord(s: string) {
    s != "" && forall i :: 0 <= i < |s| ==> !IsSpace(s[i])
  }

  lemma FirstWord(w: string, rest: string)
    requires IsWord(w) && StartsFree(rest)
    ensures Words(w + rest) == [w] + Words(rest)
  {
    WordLengthIs(w + rest, |w|);
    assert (w + rest)[..|w|] == w && (w + rest)[|w|..] == rest;
  }

  predicate StartsFree(s: string) {
    s == "" || IsSpace(s[0])
  }

  lemma SeamAfterWord(word: string, rest: string, t: string)
    requires IsWord(word) && StartsFree(rest) && CleanSeam(word + rest, t)
    ensures StartsFree(rest + t)
  {
    if rest == "" {
      assert word + rest == word && rest + t == t;
    }
  }

  lemma AfterFirstWord(word: string, rest: string, t: string)
    requires IsWord(word) && StartsFree(rest) && StartsFree(rest + t)
    requires Words(rest + t) == Words(rest) + Words(t)
    ensures Words(word + rest + t) == Words(word + rest) + Words(t)
  {
    hide Words, IsSpace;
    FirstWord(word, rest);
    FirstWord(word, rest + t);
    assert word + rest + t == word + (rest + t);
  }

  lemma {:induction false} WordsAppend(s: string, t: string)
    requires CleanSeam(s, t)
    ensures Words(s + t) == Words(s) + Words(t)
    decreases |s|
  {
    if s == "" {
      assert s + t == t;
    } else if IsSpace(s[0]) {
      assert (s + t)[1..] == s[1..] + t;
      WordsAppend(s[1..], t);
    } else {
      var word, rest := s[..WordLength(s)], s[WordLength(s)..];
      assert s == word + rest;
      WordsAppend(rest, t);
      SeamAfterWord(word, rest, t);
      AfterFirstWord(word, rest, t);
    }
  }

  lemma {:induction false} WordsOfBlank(s: string)
    ensures Words(s) == [] <==> IsBlank(s)
    decreases |s|
  {
    if s != "" && IsSpace(s[0]) {
      WordsOfBlank(s[1..]);
      assert IsBlank(s) <==> IsBlank(s[1..]) by {
        assert s == [s[0]] + s[1..];
      }
    }
  }

  lemma WordsStrip(s: string)
    ensures Words(Strip(s)) == Words(s)
  {
    var left, right := StripParts(s);
    WordsOfBlank(left);
    WordsOfBlank(right);
    WordsAppend(left + Strip(s), right);
    WordsAppend(left, Strip(s));
  }

  lemma {:induction false} WordsAreWords(s: string)
    ensures forall w :: w in Words(s) ==> IsWord(w)
    decreases |s|
  {
    if s != "" {
      WordsAreWords(if IsSpace(s[0]) then s[1..] else s[WordLength(s)..]);
    }
  }

  lemma WordOfWord(w: string)
    requires IsWord(w)
    ensures Words(w) == [w]
  {
    FirstWord(w, "");
    assert w + "" == w;
  }

  /** All words of a list of texts, in order. */
  function AllWords(parts: seq<string>): seq<string> {
    if parts == [] then [] else Words(parts[0]) + AllWords(parts[1..])
  }

  lemma {:induction false} AllWordsSnoc(parts: seq<string>, last: string)
    ensures AllWords(parts + [last]) == AllWords(parts) + Words(last)
  {
    if parts == [] {
      assert parts + [last] == [last];
      assert AllWords([last]) == Words(last) + AllWords([]);
    } else {
      assert (parts + [last])[1..] == parts[1..] + [last];
      AllWordsSnoc(parts[1..], last);
    }
  }

  lemma {:induction false} AllWordsAppend(parts: seq<string>, more: seq<string>)
    ensures AllWords(parts + more) == AllWords(parts) + AllWords(more)
  {
    if parts == [] {
      assert parts + more == more;
    } else {
      assert (parts + more)[1..] == parts[1..] + more;
      AllWordsAppend(parts[1..], more);
    }
  }

  // ----- A text that goes on -----

  predicate EndsVisible(s: string) {
    s != "" && !IsSpace(s[|s| - 1])
  }

  /** The words of a text followed by t; if the text is open, its last word goes on in t. */
  function JoinWords(words: seq<string>, isOpen: bool, t: string): seq<string>
    requires isOpen ==> words != []
  {
    if isOpen && !StartsFree(t) then
      var last := |words| - 1;
      words[..last] + [words[last] + t[..WordLength(t)]] + Words(t[WordLength(t)..])
    else words + Words(t)
  }

  lemma WordPrefix(word: string, t: string)
    requires IsWord(word)
    ensures IsWord(word + t[..WordLength(t)]) && StartsFree(t[WordLength(t)..])
  {
  }

  lemma JoinOne(word: string, t: string)
    requires !StartsFree(t)
    ensures JoinWords([word], true, t) == [word + t[..WordLength(t)]] + Words(t[WordLength(t)..])
  {
    hide Words, WordLength, StartsFree;
    assert [word][..0] + [word + t[..WordLength(t)]] == [word + t[..WordLength(t)]];
  }

  lemma OpenWordGoesOn(word: string, t: string)
    requires IsWord(word) && !StartsFree(t)
    ensures Words(word) != [] && Words(word + t) == JoinWords(Words(word), true, t)
  {
    hide *;
    WordPrefix(word, t);
    WordOfWord(word);
    JoinOne(word, t);
    FirstWord(word + t[..WordLength(t)], t[WordLength(t)..]);
    assert word + t[..WordLength(t)] + t[WordLength(t)..] == word + t;
  }

  lemma SpaceInFront(s: string)
    requires s != "" && IsSpace(s[0])
    ensures Words(s) == Words(s[1..])
  {
  }

  lemma {:induction false} OpenTextGoesOn(s: string, t: string)
    requires EndsVisible(s) && !StartsFree(t)
    ensures Words(s) != [] && Words(s + t) == JoinWords(Words(s), true, t)
    decreases |s|
  {
    hide Words, JoinWords;
    if IsSpace(s[0]) {
      assert (s + t)[1..] == s[1..] + t;
      SpaceInFront(s);
      SpaceInFront(s + t);
      OpenTextGoesOn(s[1..], t);
    } else {
      var word, rest := s[..WordLength(s)], s[WordLength(s)..];
      Rejoin(s, |word|);
      if rest == "" {
        assert s == word;
        OpenWordGoesOn(word, t);
      } else {
        OpenTextGoesOn(rest, t);
        OpenRestGoesOn(word, rest, t);
      }
    }
  }

  lemma OpenRestGoesOn(word: string, rest: string, t: string)
    requires IsWord(word) && rest != "" && IsSpace(rest[0]) && Words(rest) != [] && !StartsFree(t)
    requires Words(rest + t) == JoinWords(Words(rest), true, t)
    ensures Words(word + rest) != [] && Words(word + rest + t) == JoinWords(Words(word + rest), true, t)
  {
    hide Words, IsSpace;
    FirstWord(word, rest);
    FirstWord(word, rest + t);
    assert word + rest + t == word + (rest + t);
    var last := |Words(rest)| - 1;
    assert ([word] + Words(rest))[..last + 1] == [word] + Words(rest)[..last];
  }

  lemma WordsJoin(s: string, t: string)
    ensures EndsVisible(s) ==> Words(s) != []
    ensures Words(s + t) == JoinWords(Words(s), EndsVisible(s), t)
  {
    hide Words;
    if EndsVisible(s) && !StartsFree(t) {
      OpenTextGoesOn(s, t);
    } else {
      WordsAppend(s, t);
    }
    if EndsVisible(s) {
      WordsOfBlank(s);
    }
  }
}
