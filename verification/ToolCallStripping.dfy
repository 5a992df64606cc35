/** Finding tool calls in a model's text and cutting them out again (ai/prompt_tools.py).

    Regular-expression matches are given as ranges of positions and the JSON decoder as a function
    from a position to the decoded value and the position behind it. */
module ToolCallStripping {
  import opened Prelude
  import opened Sorting
  import opened Text

  /** Positions start, start + 1, .., end - 1. */
  datatype Range = Range(start: nat, end: nat)

  predicate InRange(p: nat, r: Range) {
    r.start <= p < r.end
  }

  predicate InRanges(p: nat, ranges: seq<Range>) {
    exists i :: 0 <= i < |ranges| && InRange(p, ranges[i])
  }

  predicate InBounds(ranges: seq<Range>, n: nat) {
    forall i :: 0 <= i < |ranges| ==> ranges[i].start <= ranges[i].end <= n
  }

  // ----- Merging the ranges -----

  /** Pairs compare by start, then by end. */
  predicate RangeLeq(a: Range, b: Range) {
    a.start < b.start || (a.start == b.start && a.end <= b.end)
  }

  /** Sorted, with at least one position of text between neighbours. */
  predicate Separated(ranges: seq<Range>) {
    && (forall i :: 0 <= i < |ranges| ==> ranges[i].start <= ranges[i].end)
    && (forall i, j :: 0 <= i < j < |ranges| ==> ranges[i].end < ranges[j].start)
  }

  ghost predicate SameUnion(a: seq<Range>, b: seq<Range>) {
    forall p: nat :: InRanges(p, a) <==> InRanges(p, b)
  }

  lemma InRangesSnoc(ranges: seq<Range>, last: Range, p: nat)
    ensures InRanges(p, ranges + [last]) <==> InRanges(p, ranges) || InRange(p, last)
  {
    if InRanges(p, ranges) {
      var i :| 0 <= i < |ranges| && InRange(p, ranges[i]);
      assert (ranges + [last])[i] == ranges[i];
    }
    if InRange(p, last) {
      assert (ranges + [last])[|ranges|] == last;
    }
  }

  lemma SortKeepsUnion(ranges: seq<Range>, n: nat)
    requires InBounds(ranges, n)
    ensures SameUnion(Sort(ranges, RangeLeq), ranges) && InBounds(Sort(ranges, RangeLeq), n)
  {
    hide Sort;
    var sorted := Sort(ranges, RangeLeq);
    SameElements(sorted, ranges);
    forall p: nat ensures InRanges(p, sorted) <==> InRanges(p, ranges) {
      if InRanges(p, sorted) {
        var i :| 0 <= i < |sorted| && InRange(p, sorted[i]);
        assert sorted[i] in ranges;
      }
      if InRanges(p, ranges) {
        var i :| 0 <= i < |ranges| && InRange(p, ranges[i]);
        assert ranges[i] in sorted;
      }
    }
    forall i | 0 <= i < |sorted| ensures sorted[i].start <= sorted[i].end <= n {
      assert sorted[i] in ranges;
    }
  }

  /** The next range in order widens the last merged range or is appended. */
  function Absorb(merged: seq<Range>, r: Range): seq<Range> {
    if merged != [] && r.start <= merged[|merged| - 1].end then
      var last := merged[|merged| - 1];
      merged[|merged| - 1 := Range(last.start, if last.end < r.end then r.end else last.end)]
    else merged + [r]
  }

  lemma AbsorbKeepsSeparated(merged: seq<Range>, r: Range, n: nat)
    requires Separated(merged) && InBounds(merged, n) && r.start <= r.end <= n
    requires merged != [] ==> merged[|merged| - 1].start <= r.start
    ensures Separated(Absorb(merged, r)) && InBounds(Absorb(merged, r), n)
    ensures Absorb(merged, r) != [] && Absorb(merged, r)[|Absorb(merged, r)| - 1].start <= r.start
  {
  }

  lemma AbsorbAddsToUnion(merged: seq<Range>, r: Range, done: seq<Range>)
    requires merged != [] ==>
        merged[|merged| - 1].start <= r.start && merged[|merged| - 1].start <= merged[|merged| - 1].end
    requires r.start <= r.end && SameUnion(merged, done)
    ensures SameUnion(Absorb(merged, r), done + [r])
  {
    forall p: nat ensures InRanges(p, Absorb(merged, r)) <==> InRanges(p, done + [r]) {
      InRangesSnoc(done, r, p);
      if merged != [] && r.start <= merged[|merged| - 1].end {
        var front, last := merged[..|merged| - 1], merged[|merged| - 1];
        var wide := Range(last.start, if last.end < r.end then r.end else last.end);
        assert merged == front + [last] && Absorb(merged, r) == front + [wide];
        InRangesSnoc(front, last, p);
        InRangesSnoc(front, wide, p);
      } else {
        InRangesSnoc(merged, r, p);
      }
    }
  }

  method MergeRanges(ranges: seq<Range>, n: nat) returns (merged: seq<Range>)
    requires InBounds(ranges, n)
    ensures Separated(merged) && InBounds(merged, n) && SameUnion(merged, ranges)
  {
    hide Sort, IsMergeOf, Separated, SameUnion, IsSorted;
    var sorted := Sort(ranges, RangeLeq);
    SortIsSorted(ranges, RangeLeq);
    SortKeepsUnion(ranges, n);
    merged := [];
    NothingMerged(n);
    assert sorted[..0] == [];
    for i := 0 to |sorted|
      invariant IsMergeOf(merged, sorted[..i], n)
    {
      AbsorbStep(merged, sorted, i, n);
      var r := sorted[i];
      if merged != [] && r.start <= merged[|merged| - 1].end {
        var last := merged[|merged| - 1];
        merged := merged[|merged| - 1 := Range(last.start, if last.end < r.end then r.end else last.end)];
      } else {
        merged := merged + [r];
      }
    }
    assert sorted[..|sorted|] == sorted;
    AllMerged(merged, sorted, ranges, n);
  }

  lemma NothingMerged(n: nat)
    ensures IsMergeOf([], [], n)
  {
  }

  lemma AllMerged(merged: seq<Range>, sorted: seq<Range>, ranges: seq<Range>, n: nat)
    requires IsMergeOf(merged, sorted, n) && SameUnion(sorted, ranges)
    ensures Separated(merged) && InBounds(merged, n) && SameUnion(merged, ranges)
  {
  }

  ghost predicate IsMergeOf(merged: seq<Range>, done: seq<Range>, n: nat) {
    && Separated(merged) && InBounds(merged, n) && SameUnion(merged, done)
    && (merged != [] ==> done != [] && merged[|merged| - 1].start <= done[|done| - 1].start)
  }

  lemma AbsorbStep(merged: seq<Range>, sorted: seq<Range>, i: nat, n: nat)
    requires i < |sorted| && InBounds(sorted, n) && IsSorted(sorted, RangeLeq)
    requires IsMergeOf(merged, sorted[..i], n)
    ensures IsMergeOf(Absorb(merged, sorted[i]), sorted[..i + 1], n)
  {
    hide Absorb, Separated;
    assert i > 0 ==> RangeLeq(sorted[i - 1], sorted[i]);
    AbsorbKeepsSeparated(merged, sorted[i], n);
    AbsorbAddsToUnion(merged, sorted[i], sorted[..i]);
    assert sorted[..i + 1] == sorted[..i] + [sorted[i]];
  }

  // ----- Rebuilding the text -----

  /** The characters at positions below n that lie in none of the ranges, in order. */
  ghost function Kept(content: string, ranges: seq<Range>, n: nat): string
    requires n <= |content|
  {
    if n == 0 then ""
    else Kept(content, ranges, n - 1) + if InRanges(n - 1, ranges) then "" else [content[n - 1]]
  }

  lemma {:induction false} KeptOutside(content: string, ranges: seq<Range>, a: nat, b: nat)
    requires a <= b <= |content| && forall p: nat :: a <= p < b ==> !InRanges(p, ranges)
    ensures Kept(content, ranges, b) == Kept(content, ranges, a) + content[a..b]
  {
    if a < b {
      KeptOutside(content, ranges, a, b - 1);
      assert content[a..b] == content[a..b - 1] + [content[b - 1]];
    }
  }

  lemma {:induction false} KeptInside(content: string, ranges: seq<Range>, a: nat, b: nat)
    requires a <= b <= |content| && forall p: nat :: a <= p < b ==> InRanges(p, ranges)
    ensures Kept(content, ranges, b) == Kept(content, ranges, a)
  {
    if a < b {
      KeptInside(content, ranges, a, b - 1);
    }
  }

  lemma {:induction false} KeptDependsOnUnion(content: string, a: seq<Range>, b: seq<Range>, n: nat)
    requires n <= |content| && SameUnion(a, b)
    ensures Kept(content, a, n) == Kept(content, b, n)
  {
    if n > 0 {
      KeptDependsOnUnion(content, a, b, n - 1);
    }
  }

  function GapStart(merged: seq<Range>, i: nat): nat
    requires i <= |merged|
  {
    if i == 0 then 0 else merged[i - 1].end
  }

  function GapEnd(merged: seq<Range>, i: nat, n: nat): nat
    requires i <= |merged|
  {
    if i == |merged| then n else merged[i].start
  }

  lemma GapIsOutside(merged: seq<Range>, i: nat, n: nat)
    requires Separated(merged) && InBounds(merged, n) && i <= |merged|
    ensures GapStart(merged, i) <= GapEnd(merged, i, n) <= n
    ensures forall p: nat :: GapStart(merged, i) <= p < GapEnd(merged, i, n) ==> !InRanges(p, merged)
  {
    forall p: nat, k | GapStart(merged, i) <= p < GapEnd(merged, i, n) && 0 <= k < |merged|
      ensures !InRange(p, merged[k])
    {
      if k + 1 < i {
        assert merged[k].end < merged[i - 1].start;
      } else if k > i {
        assert merged[i].end < merged[k].start;
      }
    }
  }

  /** Between the end of one merged range and the start of the next nothing is removed. */
  lemma GapIsKept(content: string, merged: seq<Range>, i: nat)
    requires Separated(merged) && InBounds(merged, |content|) && i <= |merged|
    ensures GapStart(merged, i) <= GapEnd(merged, i, |content|) <= |content|
    ensures Kept(content, merged, GapEnd(merged, i, |content|))
         == Kept(content, merged, GapStart(merged, i)) + content[GapStart(merged, i)..GapEnd(merged, i, |content|)]
  {
    hide Kept, GapStart, GapEnd, InRanges;
    GapIsOutside(merged, i, |content|);
    KeptOutside(content, merged, GapStart(merged, i), GapEnd(merged, i, |content|));
  }

  method RemoveRanges(content: string, ranges: seq<Range>) returns (clean: string)
    requires InBounds(ranges, |content|)
    ensures clean == Kept(content, ranges, |content|)
  {
    var merged := MergeRanges(ranges, |content|);
    var cleanParts: seq<string> := [];
    var prevEnd := 0;
    for i := 0 to |merged|
      invariant prevEnd == if i == 0 then 0 else merged[i - 1].end
      invariant prevEnd <= |content| && Concat(cleanParts) == Kept(content, merged, prevEnd)
    {
      GapIsKept(content, merged, i);
      var r := merged[i];
      if r.start > prevEnd {
        ConcatSnoc(cleanParts, content[prevEnd..r.start]);
        cleanParts := cleanParts + [content[prevEnd..r.start]];
      }
      assert Concat(cleanParts) == Kept(content, merged, r.start);
      assert forall p: nat :: r.start <= p < r.end ==> InRange(p, merged[i]);
      KeptInside(content, merged, r.start, r.end);
      prevEnd := r.end;
    }
    GapIsKept(content, merged, |merged|);
    if prevEnd < |content| {
      ConcatSnoc(cleanParts, content[prevEnd..]);
      cleanParts := cleanParts + [content[prevEnd..]];
    }
    clean := Concat(cleanParts);
    KeptDependsOnUnion(content, merged, ranges, |content|);
  }

  // ----- Decoded JSON -----

  /** What the handler looks at in a decoded value. */
  datatype Json = Dict(name: Option<string>, hasArguments: bool) | NotDict

  datatype Decoded = Decoded(json: Json, end: nat)

  /** Decoding succeeds only inside the text and always consumes something. */
  ghost predicate ValidDecoder(content: string, decode: nat -> Option<Decoded>) {
    forall i: nat :: i < |content| && decode(i).Some? ==> i < decode(i).value.end <= |content|
  }

  // ----- Tagged calls -----

  function SkipSpace(content: string, p: nat): (q: nat)
    requires p <= |content|
    ensures p <= q <= |content| && (q < |content| ==> !IsSpace(content[q]))
    ensures forall i :: p <= i < q ==> IsSpace(content[i])
    decreases |content| - p
  {
    if p < |content| && IsSpace(content[p]) then SkipSpace(content, p + 1) else p
  }

  method SkipSpaceLoop(content: string, p: nat) returns (q: nat)
    requires p <= |content|
    ensures q == SkipSpace(content, p)
  {
    q := p;
    while q < |content| && IsSpace(content[q])
      invariant p <= q <= |content| && SkipSpace(content, q) == SkipSpace(content, p)
    {
      q := q + 1;
    }
  }

  /** Where the JSON object behind an opening tag starts, if one can be decoded there. */
  function JsonBehind(content: string, decode: nat -> Option<Decoded>, opener: Range): Option<nat>
    requires opener.end <= |content|
  {
    var p := SkipSpace(content, opener.end);
    if p < |content| && content[p] == '{' && decode(p).Some? then Some(p) else None
  }

  const CLOSER: string := "</tool_call>"

  function LowerAscii(c: char): char {
    if 'A' <= c <= 'Z' then c - 'A' + 'a' else c
  }

  predicate StartsWithCloser(s: string) {
    |s| >= |CLOSER| && forall i :: 0 <= i < |CLOSER| ==> LowerAscii(s[i]) == CLOSER[i]
  }

  /** The closing tag is looked for behind whitespace in the 20 characters after the JSON object. */
  function EndWithCloser(content: string, jsonEnd: nat): (end: nat)
    requires jsonEnd <= |content|
    ensures jsonEnd <= end <= |content|
  {
    var remaining := content[jsonEnd..if jsonEnd + 20 <= |content| then jsonEnd + 20 else |content|];
    var stripped := StripLeft(remaining);
    if StartsWithCloser(stripped) then jsonEnd + (|remaining| - |stripped|) + |CLOSER| else jsonEnd
  }

  /** What is removed for one opening tag. */
  function TagRange(content: string, decode: nat -> Option<Decoded>, opener: Range): Range
    requires opener.end <= |content| && ValidDecoder(content, decode)
  {
    match JsonBehind(content, decode, opener)
    case Some(p) => Range(opener.start, EndWithCloser(content, decode(p).value.end))
    case None => opener
  }

  lemma TagRangeIs(content: string, decode: nat -> Option<Decoded>, opener: Range)
    requires opener.end <= |content| && ValidDecoder(content, decode)
    ensures
      var p := SkipSpace(content, opener.end);
      if p >= |content| || content[p] != '{' || decode(p).None? then TagRange(content, decode, opener) == opener
      else
        decode(p).value.end <= |content|
        && TagRange(content, decode, opener) == Range(opener.start, EndWithCloser(content, decode(p).value.end))
  {
    hide SkipSpace, EndWithCloser;
  }

  method CollectTagRanges(content: string, openers: seq<Range>, decode: nat -> Option<Decoded>)
      returns (ranges: seq<Range>)
    requires InBounds(openers, |content|) && ValidDecoder(content, decode)
    ensures |ranges| == |openers|
    ensures forall i :: 0 <= i < |ranges| ==> ranges[i] == TagRange(content, decode, openers[i])
  {
    hide TagRange, ValidDecoder;
    ranges := [];
    for i := 0 to |openers|
      invariant |ranges| == i
      invariant forall k :: 0 <= k < i ==> ranges[k] == TagRange(content, decode, openers[k])
    {
      var r := FindTagRange(content, openers[i], decode);
      ranges := ranges + [r];
    }
  }

  /** The body of the loop over the opening tags. */
  method FindTagRange(content: string, opener: Range, decode: nat -> Option<Decoded>) returns (r: Range)
    requires opener.end <= |content| && ValidDecoder(content, decode)
    ensures r == TagRange(content, decode, opener)
  {
    hide SkipSpace, EndWithCloser, TagRange, ValidDecoder, JsonBehind, IsSpace;
    TagRangeIs(content, decode, opener);
    var jsonStart := SkipSpaceLoop(content, opener.end);
    if jsonStart >= |content| || content[jsonStart] != '{' {
      return opener;
    }
    match decode(jsonStart)
    case Some(decoded) => return Range(opener.start, EndWithCloser(content, decoded.end));
    case None => return opener;
  }

  /** A parsed call with the span of its raw text. */
  datatype Call = Call(name: string, span: Range)

  /** The calls behind the first n opening tags: dictionaries with a non-empty name. */
  function TaggedCalls(content: string, openers: seq<Range>, decode: nat -> Option<Decoded>, n: nat): seq<Call>
    requires n <= |openers| && InBounds(openers, |content|)
  {
    if n == 0 then [] else
      TaggedCalls(content, openers, decode, n - 1) +
      match JsonBehind(content, decode, openers[n - 1])
      case None => []
      case Some(p) =>
        match decode(p)
        case Some(Decoded(Dict(Some(name), _), end)) => if name != "" then [Call(name, Range(p, end))] else []
        case _ => []
  }

  /** Behind position p and whitespace stands a dictionary with this call's name and span. */
  predicate Reads(content: string, decode: nat -> Option<Decoded>, p: nat, call: Call) {
    var q := call.span.start;
    && p <= q < |content| && (forall i :: p <= i < q ==> IsSpace(content[i])) && content[q] == '{'
    && decode(q).Some? && decode(q).value.end == call.span.end
    && decode(q).value.json.Dict? && decode(q).value.json.name == Some(call.name) && call.name != ""
  }

  lemma ReadsOne(content: string, decode: nat -> Option<Decoded>, p: nat, a: Call, b: Call)
    requires Reads(content, decode, p, a) && Reads(content, decode, p, b)
    ensures a == b
  {
    assert a.span.start == b.span.start;
  }

  predicate Increasing(positions: seq<nat>) {
    forall i, j :: 0 <= i < j < |positions| ==> positions[i] < positions[j]
  }

  /** Call k is read behind opening tag number origins[k], and every tag that a call can be read behind has one. */
  ghost predicate HaveOrigins(content: string, openers: seq<Range>, decode: nat -> Option<Decoded>, n: nat,
                              calls: seq<Call>, origins: seq<nat>)
  {
    && |origins| == |calls| && n <= |openers| && Increasing(origins)
    && (forall k :: 0 <= k < |calls| ==> origins[k] < n && Reads(content, decode, openers[origins[k]].end, calls[k]))
    && forall i: nat, call :: i < n && Reads(content, decode, openers[i].end, call) ==> i in origins
  }

  /** The calls are those behind the first n opening tags, in the order of the tags, one for each. */
  ghost predicate IsReadOff(content: string, openers: seq<Range>, decode: nat -> Option<Decoded>, n: nat,
                            calls: seq<Call>)
  {
    exists origins :: HaveOrigins(content, openers, decode, n, calls, origins)
  }

  /** What one more opening tag adds. */
  lemma OneMoreOpener(content: string, openers: seq<Range>, decode: nat -> Option<Decoded>, n: nat)
      returns (more: seq<Call>)
    requires 0 < n <= |openers| && InBounds(openers, |content|)
    ensures TaggedCalls(content, openers, decode, n) == TaggedCalls(content, openers, decode, n - 1) + more
    ensures |more| <= 1 && forall call :: Reads(content, decode, openers[n - 1].end, call) <==> call in more
  {
    var p := SkipSpace(content, openers[n - 1].end);
    more := match JsonBehind(content, decode, openers[n - 1])
      case None => []
      case Some(q) =>
        match decode(q)
        case Some(Decoded(Dict(Some(name), _), end)) => if name != "" then [Call(name, Range(q, end))] else []
        case _ => [];
    forall call ensures Reads(content, decode, openers[n - 1].end, call) <==> call in more {
      if Reads(content, decode, openers[n - 1].end, call) {
        assert p == call.span.start;
      }
    }
  }

  lemma {:induction false} CallPerOpener(content: string, openers: seq<Range>, decode: nat -> Option<Decoded>, n: nat)
      returns (origins: seq<nat>)
    requires n <= |openers| && InBounds(openers, |content|)
    ensures HaveOrigins(content, openers, decode, n, TaggedCalls(content, openers, decode, n), origins)
  {
    origins := [];
    if n > 0 {
      var before := CallPerOpener(content, openers, decode, n - 1);
      var more := OneMoreOpener(content, openers, decode, n);
      origins := before + if more == [] then [] else [n - 1];
      OneMoreOrigin(content, openers, decode, n, TaggedCalls(content, openers, decode, n - 1), before, more);
    }
  }

  lemma OneMoreOrigin(content: string, openers: seq<Range>, decode: nat -> Option<Decoded>, n: nat, calls: seq<Call>,
                      origins: seq<nat>, more: seq<Call>)
    requires 0 < n <= |openers| && HaveOrigins(content, openers, decode, n - 1, calls, origins)
    requires |more| <= 1 && forall call :: Reads(content, decode, openers[n - 1].end, call) <==> call in more
    ensures HaveOrigins(content, openers, decode, n, calls + more, origins + if more == [] then [] else [n - 1])
  {
    hide Reads;
    var newOrigins: seq<nat> := origins + if more == [] then [] else [n - 1];
    if more != [] {
      assert more[0] in more && newOrigins[|calls|] == n - 1;
    }
    forall i: nat, call | i < n && Reads(content, decode, openers[i].end, call) ensures i in newOrigins {
      assert i == n - 1 ==> call in more;
    }
    forall k | 0 <= k < |newOrigins|
      ensures newOrigins[k] < n && Reads(content, decode, openers[newOrigins[k]].end, (calls + more)[k])
    {
      if k < |calls| {
        assert newOrigins[k] == origins[k] && (calls + more)[k] == calls[k];
      } else {
        assert (calls + more)[k] == more[0];
      }
    }
  }

  method ParseWithJsonDecoder(content: string, openers: seq<Range>, decode: nat -> Option<Decoded>)
      returns (calls: seq<Call>)
    requires InBounds(openers, |content|)
    ensures calls == TaggedCalls(content, openers, decode, |openers|)
    ensures IsReadOff(content, openers, decode, |openers|, calls)
  {
    hide IsReadOff;
    calls := [];
    for i := 0 to |openers|
      invariant calls == TaggedCalls(content, openers, decode, i)
    {
      hide TaggedCalls, SkipSpace;
      OneMoreCall(content, openers, decode, i);
      var startPos := SkipSpaceLoop(content, openers[i].end);
      if startPos >= |content| || content[startPos] != '{' {
        continue;
      }
      var decoded := decode(startPos);
      if decoded.Some? && decoded.value.json.Dict? {
        var name := decoded.value.json.name;
        if name.Some? && name.value != "" {
          calls := calls + [Call(name.value, Range(startPos, decoded.value.end))];
        }
      }
    }
    TaggedCallsAreReadOff(content, openers, decode);
  }

  lemma OneMoreCall(content: string, openers: seq<Range>, decode: nat -> Option<Decoded>, i: nat)
    requires i < |openers| && InBounds(openers, |content|)
    ensures
      var p := SkipSpace(content, openers[i].end);
      TaggedCalls(content, openers, decode, i + 1)
      == TaggedCalls(content, openers, decode, i)
         + if p < |content| && content[p] == '{' && decode(p).Some? && decode(p).value.json.Dict?
              && decode(p).value.json.name.Some? && decode(p).value.json.name.value != ""
           then [Call(decode(p).value.json.name.value, Range(p, decode(p).value.end))] else []
  {
  }

  lemma TaggedCallsAreReadOff(content: string, openers: seq<Range>, decode: nat -> Option<Decoded>)
    requires InBounds(openers, |content|)
    ensures IsReadOff(content, openers, decode, |openers|, TaggedCalls(content, openers, decode, |openers|))
  {
    hide HaveOrigins;
    var origins := CallPerOpener(content, openers, decode, |openers|);
  }

  // ----- Bare JSON -----

  function FindBrace(content: string, pos: nat): (b: nat)
    requires pos <= |content|
    ensures pos <= b <= |content| && (b < |content| ==> content[b] == '{')
    ensures forall i :: pos <= i < b ==> content[i] != '{'
    decreases |content| - pos
  {
    if pos < |content| && content[pos] != '{' then FindBrace(content, pos + 1) else pos
  }

  /** One opening brace at which decoding was attempted. */
  datatype Attempt = Attempt(at: nat, decoded: Option<Decoded>) {
    /** Where the scan goes on. */
    function Next(): nat {
      if decoded.Some? then decoded.value.end else at + 1
    }

    predicate IsToolCall() {
      decoded.Some? && decoded.value.json.Dict? && decoded.value.json.name.Some? && decoded.value.json.hasArguments
    }
  }

  /** The attempts of a scan from position `pos`. */
  function Scan(content: string, decode: nat -> Option<Decoded>, pos: nat): seq<Attempt>
    requires pos <= |content| && ValidDecoder(content, decode)
    decreases |content| - pos
  {
    var b := FindBrace(content, pos);
    if b == |content| then []
    else
      var attempt := Attempt(b, decode(b));
      [attempt] + Scan(content, decode, attempt.Next())
  }

  lemma ScanUnfolds(content: string, decode: nat -> Option<Decoded>, pos: nat)
    requires pos <= |content| && ValidDecoder(content, decode)
    ensures
      var b := FindBrace(content, pos);
      var attempt := Attempt(b, decode(b));
      if b == |content| then Scan(content, decode, pos) == []
      else
        attempt.Next() <= |content|
        && Scan(content, decode, pos) == [attempt] + Scan(content, decode, attempt.Next())
        && Scan(content, decode, pos)[1..] == Scan(content, decode, attempt.Next())
  {
  }

  predicate Tried(scan: seq<Attempt>, p: nat) {
    exists i :: 0 <= i < |scan| && scan[i].at == p
  }

  /** p lies strictly inside a decoded value. */
  predicate Swallowed(scan: seq<Attempt>, p: nat) {
    exists i :: 0 <= i < |scan| && scan[i].decoded.Some? && scan[i].at < p < scan[i].Next()
  }

  /** Attempts go strictly forward and decoded spans are disjoint. */
  lemma {:induction false} ScanGoesForward(content: string, decode: nat -> Option<Decoded>, pos: nat)
    requires pos <= |content| && ValidDecoder(content, decode)
    ensures forall i :: 0 <= i < |Scan(content, decode, pos)| ==>
      var a := Scan(content, decode, pos)[i];
      pos <= a.at < a.Next() <= |content| && a.decoded == decode(a.at)
    ensures forall i, j :: 0 <= i < j < |Scan(content, decode, pos)| ==>
      Scan(content, decode, pos)[i].Next() <= Scan(content, decode, pos)[j].at
    decreases |content| - pos
  {
    var b := FindBrace(content, pos);
    if b < |content| {
      ScanGoesForward(content, decode, Attempt(b, decode(b)).Next());
    }
  }

  lemma TriedCons(first: Attempt, rest: seq<Attempt>, p: nat)
    ensures Tried([first] + rest, p) <==> first.at == p || Tried(rest, p)
    ensures Swallowed([first] + rest, p) <==>
      (first.decoded.Some? && first.at < p < first.Next()) || Swallowed(rest, p)
  {
    var all := [first] + rest;
    assert all[0] == first && forall i :: 0 <= i < |rest| ==> all[i + 1] == rest[i];
    assert forall i :: 0 < i < |all| ==> all[i] == rest[i - 1];
  }

  /** An opening brace is tried exactly when no earlier decoded value contains it. */
  lemma {:induction false} ScanTriesEveryBrace(content: string, decode: nat -> Option<Decoded>, pos: nat, p: nat)
    requires pos <= p < |content| && ValidDecoder(content, decode)
    ensures Tried(Scan(content, decode, pos), p) <==> content[p] == '{' && !Swallowed(Scan(content, decode, pos), p)
    decreases |content| - pos
  {
    var b := FindBrace(content, pos);
    if b < |content| {
      var attempt := Attempt(b, decode(b));
      var rest := Scan(content, decode, attempt.Next());
      ScanGoesForward(content, decode, attempt.Next());
      TriedCons(attempt, rest, p);
      if p >= attempt.Next() {
        ScanTriesEveryBrace(content, decode, attempt.Next(), p);
      }
    }
  }

  /** The tool calls among the attempts. */
  function BareCalls(scan: seq<Attempt>): seq<Call> {
    if scan == [] then []
    else
      (if scan[0].IsToolCall() then [Call(scan[0].decoded.value.json.name.value, Range(scan[0].at, scan[0].Next()))]
       else [])
      + BareCalls(scan[1..])
  }

  lemma BareCallsOfNone()
    ensures BareCalls([]) == []
  {
  }

  lemma BareCallsCons(first: Attempt, rest: seq<Attempt>)
    ensures BareCalls([first] + rest) ==
      (if first.IsToolCall() then [Call(first.decoded.value.json.name.value, Range(first.at, first.Next()))] else [])
      + BareCalls(rest)
  {
    assert ([first] + rest)[1..] == rest;
  }

  /** A brace is tried exactly when no value decoded at an earlier tried brace holds it. */
  ghost predicate AreTried(content: string, decode: nat -> Option<Decoded>, tried: seq<nat>) {
    && Increasing(tried)
    && forall p: nat :: p in tried <==> p < |content| && content[p] == '{' && !IsHeld(decode, tried, p)
  }

  ghost predicate IsHeld(decode: nat -> Option<Decoded>, tried: seq<nat>, p: nat) {
    exists q: nat :: q in tried && decode(q).Some? && q < p < decode(q).value.end
  }

  /** At q a dictionary with a name and arguments decodes. */
  predicate ReadsBare(decode: nat -> Option<Decoded>, q: nat) {
    && decode(q).Some? && decode(q).value.json.Dict? && decode(q).value.json.name.Some?
    && decode(q).value.json.hasArguments
  }

  /** One call for every tried brace at which a tool call decodes, in order. */
  ghost predicate ArePicked(decode: nat -> Option<Decoded>, tried: seq<nat>, calls: seq<Call>, picked: seq<nat>) {
    && Increasing(picked) && |picked| == |calls|
    && (forall p: nat :: p in picked <==> p in tried && ReadsBare(decode, p))
    && forall k :: 0 <= k < |calls| ==>
         ReadsBare(decode, picked[k])
         && calls[k] == Call(decode(picked[k]).value.json.name.value, Range(picked[k], decode(picked[k]).value.end))
  }

  ghost predicate IsReadBare(content: string, decode: nat -> Option<Decoded>, calls: seq<Call>) {
    exists tried, picked :: AreTried(content, decode, tried) && ArePicked(decode, tried, calls, picked)
  }

  function Places(scan: seq<Attempt>): (r: seq<nat>)
    ensures |r| == |scan| && forall i :: 0 <= i < |r| ==> r[i] == scan[i].at
  {
    seq(|scan|, i requires 0 <= i < |scan| => scan[i].at)
  }

  lemma PlacesTried(scan: seq<Attempt>, decode: nat -> Option<Decoded>, p: nat)
    requires forall i :: 0 <= i < |scan| ==> scan[i].decoded == decode(scan[i].at)
    ensures p in Places(scan) <==> Tried(scan, p)
    ensures IsHeld(decode, Places(scan), p) <==> Swallowed(scan, p)
  {
    var places := Places(scan);
    assert forall i :: 0 <= i < |scan| ==> places[i] in places;
    if Tried(scan, p) {
      var i :| 0 <= i < |scan| && scan[i].at == p;
      assert places[i] == p;
    }
    if IsHeld(decode, places, p) {
      var q: nat :| q in places && decode(q).Some? && q < p < decode(q).value.end;
      var i :| 0 <= i < |places| && places[i] == q;
      assert scan[i].decoded.Some? && scan[i].at < p < scan[i].Next();
    }
    if Swallowed(scan, p) {
      var i :| 0 <= i < |scan| && scan[i].decoded.Some? && scan[i].at < p < scan[i].Next();
      assert places[i] in places && decode(places[i]).Some? && places[i] < p < decode(places[i]).value.end;
    }
  }

  lemma ScanTries(content: string, decode: nat -> Option<Decoded>)
    requires ValidDecoder(content, decode)
    ensures AreTried(content, decode, Places(Scan(content, decode, 0)))
  {
    hide Scan, Tried, Swallowed, IsHeld;
    var scan := Scan(content, decode, 0);
    ScanGoesForward(content, decode, 0);
    forall p: nat
      ensures p in Places(scan) <==> p < |content| && content[p] == '{' && !IsHeld(decode, Places(scan), p)
    {
      PlacesTried(scan, decode, p);
      if p < |content| {
        ScanTriesEveryBrace(content, decode, 0, p);
      }
    }
  }

  lemma {:induction false} ScanPicks(scan: seq<Attempt>, decode: nat -> Option<Decoded>) returns (picked: seq<nat>)
    requires forall i :: 0 <= i < |scan| ==> scan[i].decoded == decode(scan[i].at)
    requires Increasing(Places(scan))
    ensures ArePicked(decode, Places(scan), BareCalls(scan), picked)
  {
    if scan == [] {
      picked := [];
    } else {
      assert Places(scan)[1..] == Places(scan[1..]);
      var rest := ScanPicks(scan[1..], decode);
      assert ReadsBare(decode, scan[0].at) <==> scan[0].IsToolCall();
      picked := (if scan[0].IsToolCall() then [scan[0].at] else []) + rest;
      assert Places(scan) == [scan[0].at] + Places(scan[1..]);
      PickedCons(decode, scan[0], Places(scan[1..]), BareCalls(scan[1..]), rest);
    }
  }

  lemma PickedCons(decode: nat -> Option<Decoded>, first: Attempt, tried: seq<nat>, calls: seq<Call>, picked: seq<nat>)
    requires first.decoded == decode(first.at) && ArePicked(decode, tried, calls, picked)
    requires Increasing([first.at] + tried)
    ensures ArePicked(decode, [first.at] + tried,
                      (if first.IsToolCall() then [Call(first.decoded.value.json.name.value,
                                                        Range(first.at, first.Next()))] else []) + calls,
                      (if first.IsToolCall() then [first.at] else []) + picked)
  {
    var allTried := [first.at] + tried;
    assert forall p: nat :: p in allTried <==> p == first.at || p in tried;
    forall k | 0 <= k < |picked| ensures picked[k] > first.at {
      assert picked[k] in picked;
      var i :| 0 <= i < |tried| && tried[i] == picked[k];
      assert allTried[0] < allTried[i + 1];
    }
  }

  lemma ScanReadsBare(content: string, decode: nat -> Option<Decoded>)
    requires ValidDecoder(content, decode)
    ensures IsReadBare(content, decode, BareCalls(Scan(content, decode, 0)))
  {
    hide Scan, BareCalls, ArePicked;
    var scan := Scan(content, decode, 0);
    ScanGoesForward(content, decode, 0);
    ScanTries(content, decode);
    var picked := ScanPicks(scan, decode);
  }

  method ParseBareJson(cleaned: string, decode: nat -> Option<Decoded>) returns (calls: seq<Call>)
    requires ValidDecoder(cleaned, decode)
    ensures calls == BareCalls(Scan(cleaned, decode, 0)) && IsReadBare(cleaned, decode, calls)
  {
    hide Scan, BareCalls, IsReadBare;
    ScanReadsBare(cleaned, decode);
    calls := [];
    BareCallsOfNone();
    var pos := 0;
    ScanUnfolds(cleaned, decode, |cleaned|);
    while pos < |cleaned|
      invariant pos <= |cleaned|
      invariant calls + BareCalls(Scan(cleaned, decode, pos)) == BareCalls(Scan(cleaned, decode, 0))
    {
      ScanUnfolds(cleaned, decode, pos);
      var bracePos := FindBrace(cleaned, pos);
      if bracePos == |cleaned| {
        break;
      }
      var attempt := Attempt(bracePos, decode(bracePos));
      BareCallsCons(attempt, Scan(cleaned, decode, attempt.Next()));
      if attempt.IsToolCall() {
        calls := calls + [Call(attempt.decoded.value.json.name.value, Range(bracePos, attempt.Next()))];
      }
      pos := attempt.Next();
    }
  }

  /** What is removed for an embedded call: its span with the backticks around it. */
  function WithBackticks(content: string, a: Attempt): Range
    requires a.Next() <= |content|
  {
    Range(if 0 < a.at <= |content| && content[a.at - 1] == '`' then a.at - 1 else a.at,
          if a.Next() < |content| && content[a.Next()] == '`' then a.Next() + 1 else a.Next())
  }

  ghost predicate IsEmbeddedRange(content: string, decode: nat -> Option<Decoded>, r: Range)
    requires ValidDecoder(content, decode)
  {
    exists i :: 0 <= i < |Scan(content, decode, 0)| && Scan(content, decode, 0)[i].IsToolCall()
      && Scan(content, decode, 0)[i].Next() <= |content| && r == WithBackticks(content, Scan(content, decode, 0)[i])
  }

  // ----- Collecting everything to remove -----

  /** The matches of the handler's patterns in one text. */
  datatype Matches = Matches(
    openers: seq<Range>, closers: seq<Range>, kimiSections: seq<Range>, kimiCalls: seq<Range>,
    altPatterns: seq<Range>, callHeaders: seq<Range>, orphanHeaders: seq<Range>, bareJson: seq<Range>)
  {
    predicate InBoundsOf(n: nat) {
      && InBounds(openers, n) && InBounds(closers, n) && InBounds(kimiSections, n) && InBounds(kimiCalls, n)
      && InBounds(altPatterns, n) && InBounds(callHeaders, n) && InBounds(orphanHeaders, n) && InBounds(bareJson, n)
    }

    /** Removed wherever they match. */
    function Always(): seq<Range> {
      kimiSections + altPatterns + callHeaders + bareJson
    }

    /** Removed unless an earlier range covers their first position. */
    function IfUncovered(): seq<Range> {
      closers + kimiCalls + orphanHeaders
    }
  }

  ghost predicate ContainsAll(ranges: seq<Range>, wanted: seq<Range>) {
    forall r: Range :: r in wanted ==> r in ranges
  }

  /** Every match is in the list or starts inside one of the ranges. */
  ghost predicate Covers(ranges: seq<Range>, matches: seq<Range>) {
    forall r: Range :: r in matches ==> r in ranges || InRanges(r.start, ranges)
  }

  ghost predicate IsTagRange(content: string, m: Matches, decode: nat -> Option<Decoded>, r: Range)
    requires m.InBoundsOf(|content|) && ValidDecoder(content, decode)
  {
    exists i :: 0 <= i < |m.openers| && r == TagRange(content, decode, m.openers[i])
  }

  /** The ranges the handler removes: all of these and no others. */
  ghost predicate IsCollection(content: string, m: Matches, decode: nat -> Option<Decoded>, ranges: seq<Range>)
    requires m.InBoundsOf(|content|) && ValidDecoder(content, decode)
  {
    && InBounds(ranges, |content|)
    && (forall r: Range :: IsTagRange(content, m, decode, r) || IsEmbeddedRange(content, decode, r) ==> r in ranges)
    && ContainsAll(ranges, m.Always())
    && Covers(ranges, m.IfUncovered())
    && forall r: Range :: r in ranges ==>
      || IsTagRange(content, m, decode, r) || IsEmbeddedRange(content, decode, r)
      || r in m.Always() || r in m.IfUncovered()
  }

  /** Position p lies in a range of the list, written out. */
  ghost predicate IsInside(p: nat, ranges: seq<Range>) {
    exists k :: 0 <= k < |ranges| && ranges[k].start <= p < ranges[k].end
  }

  /** Match number i starts inside a range there was before or inside an added match in front of it. */
  ghost predicate StartsInside(before: seq<Range>, matches: seq<Range>, added: seq<nat>, i: nat)
    requires i < |matches|
  {
    || IsInside(matches[i].start, before)
    || exists j: nat :: j in added && j < i && matches[j].start <= matches[i].start < matches[j].end
  }

  /** The matches with these numbers are added: of the first n exactly those that do not start inside another. */
  ghost predicate AddsThese(before: seq<Range>, matches: seq<Range>, n: nat, more: seq<Range>, added: seq<nat>) {
    && n <= |matches| && |more| == |before| + |added| && before <= more && Increasing(added)
    && (forall i: nat :: i in added <==> i < n && !StartsInside(before, matches, added, i))
    && forall k :: 0 <= k < |added| ==> added[k] < n && more[|before| + k] == matches[added[k]]
  }

  ghost predicate AddsUncovered(before: seq<Range>, matches: seq<Range>, more: seq<Range>) {
    exists added :: AddsThese(before, matches, |matches|, more, added)
  }

  lemma IsCoveredIff(before: seq<Range>, matches: seq<Range>, more: seq<Range>, added: seq<nat>, i: nat)
    requires i < |matches| && AddsThese(before, matches, i, more, added)
    ensures InRanges(matches[i].start, more) <==> StartsInside(before, matches, added, i)
  {
    var p := matches[i].start;
    if InRanges(p, more) {
      var k :| 0 <= k < |more| && InRange(p, more[k]);
      if k < |before| {
        assert before[k] == more[k];
      } else {
        assert added[k - |before|] in added && more[|before| + (k - |before|)] == matches[added[k - |before|]];
      }
    }
    if IsInside(p, before) {
      var k :| 0 <= k < |before| && before[k].start <= p < before[k].end;
      assert InRange(p, more[k]);
    }
    if j: nat :| j in added && j < i && matches[j].start <= p < matches[j].end {
      var k :| 0 <= k < |added| && added[k] == j;
      assert InRange(p, more[|before| + k]);
    }
  }

  lemma SameBelow(before: seq<Range>, matches: seq<Range>, added: seq<nat>, n: nat, i: nat)
    requires i <= n < |matches|
    ensures StartsInside(before, matches, added, i) <==> StartsInside(before, matches, added + [n], i)
  {
    assert forall j: nat :: j in added + [n] <==> j in added || j == n;
  }

  lemma AddsNext(before: seq<Range>, matches: seq<Range>, i: nat, more: seq<Range>, added: seq<nat>)
    requires i < |matches| && AddsThese(before, matches, i, more, added)
    ensures StartsInside(before, matches, added, i) ==> AddsThese(before, matches, i + 1, more, added)
    ensures !StartsInside(before, matches, added, i) ==>
        AddsThese(before, matches, i + 1, more + [matches[i]], added + [i])
  {
    hide StartsInside;
    if !StartsInside(before, matches, added, i) {
      forall k: nat ensures k in added + [i] <==> k < i + 1 && !StartsInside(before, matches, added + [i], k) {
        if k <= i {
          SameBelow(before, matches, added, i, k);
        }
        assert k in added + [i] <==> k in added || k == i;
      }
      forall j, k | 0 <= j < k < |added + [i]| ensures (added + [i])[j] < (added + [i])[k] {
        assert added[j] < i;
      }
    }
  }

  method AddUncovered(ranges: seq<Range>, matches: seq<Range>, n: nat) returns (more: seq<Range>)
    requires InBounds(ranges, n) && InBounds(matches, n)
    ensures ranges <= more && InBounds(more, n) && Covers(more, matches)
    ensures forall r: Range :: r in ranges ==> r in more
    ensures forall r: Range :: r in more ==> r in ranges || r in matches
    ensures AddsUncovered(ranges, matches, more)
  {
    more := ranges;
    ghost var added: seq<nat> := [];
    for i := 0 to |matches|
      invariant ranges <= more && InBounds(more, n) && Covers(more, matches[..i])
      invariant forall r: Range :: r in ranges ==> r in more
      invariant forall r: Range :: r in more ==> r in ranges || r in matches
      invariant AddsThese(ranges, matches, i, more, added)
    {
      hide AddsThese, StartsInside;
      ghost var before := more;
      IsCoveredIff(ranges, matches, more, added, i);
      AddsNext(ranges, matches, i, more, added);
      var isCovered := exists k :: 0 <= k < |more| && InRange(matches[i].start, more[k]);
      if !isCovered {
        more := more + [matches[i]];
        added := added + [i];
      }
      CoversMore(before, more, matches[..i]);
      assert matches[..i + 1] == matches[..i] + [matches[i]];
    }
    assert matches[..|matches|] == matches;
  }

  lemma CoversMore(ranges: seq<Range>, more: seq<Range>, matches: seq<Range>)
    requires Covers(ranges, matches) && ranges <= more
    ensures Covers(more, matches)
  {
    forall r: Range | r in matches ensures r in more || InRanges(r.start, more) {
      if InRanges(r.start, ranges) {
        var k :| 0 <= k < |ranges| && InRange(r.start, ranges[k]);
        assert InRange(r.start, more[k]);
      }
    }
  }

  method CollectEmbedded(content: string, decode: nat -> Option<Decoded>) returns (ranges: seq<Range>)
    requires ValidDecoder(content, decode)
    ensures InBounds(ranges, |content|)
    ensures forall r: Range :: r in ranges <==> IsEmbeddedRange(content, decode, r)
  {
    hide Scan;
    ranges := [];
    ScanUnfolds(content, decode, |content|);
    ghost var scan := Scan(content, decode, 0);
    ghost var done := 0;
    ScanGoesForward(content, decode, 0);
    var pos := 0;
    while pos < |content|
      invariant pos <= |content| && done <= |scan| && scan[done..] == Scan(content, decode, pos)
      invariant InBounds(ranges, |content|)
      invariant forall r: Range :: r in ranges <==>
        exists i :: 0 <= i < done && scan[i].IsToolCall() && r == WithBackticks(content, scan[i])
    {
      ScanUnfolds(content, decode, pos);
      var bracePos := FindBrace(content, pos);
      if bracePos == |content| {
        break;
      }
      var attempt := Attempt(bracePos, decode(bracePos));
      assert scan[done] == scan[done..][0] == attempt;
      assert scan[done + 1..] == scan[done..][1..] == Scan(content, decode, attempt.Next());
      if attempt.IsToolCall() {
        ranges := ranges + [WithBackticks(content, attempt)];
      }
      pos := attempt.Next();
      done := done + 1;
    }
  }

  lemma TagRangesAreAll(content: string, m: Matches, decode: nat -> Option<Decoded>, tags: seq<Range>)
    requires m.InBoundsOf(|content|) && ValidDecoder(content, decode) && |tags| == |m.openers|
    requires forall i :: 0 <= i < |tags| ==> tags[i] == TagRange(content, decode, m.openers[i])
    ensures forall r: Range :: r in tags <==> IsTagRange(content, m, decode, r)
  {
    hide TagRange;
  }

  /** The span of an embedded call with a backtick directly in front of it and one directly behind it. */
  ghost predicate IsEmbeddedText(content: string, decode: nat -> Option<Decoded>, r: Range) {
    exists tried, q: nat :: AreTried(content, decode, tried) && q in tried && ReadsBare(decode, q) &&
                            IsTicked(content, q, decode(q).value.end, r)
  }

  predicate IsTicked(content: string, from: nat, to: nat, r: Range) {
    && from <= |content|
    && (if from > 0 && content[from - 1] == '`' then r.start + 1 == from else r.start == from)
    && (if to < |content| && content[to] == '`' then r.end == to + 1 else r.end == to)
  }

  lemma TriedIsUnique(content: string, decode: nat -> Option<Decoded>, a: seq<nat>, b: seq<nat>, p: nat)
    requires AreTried(content, decode, a) && AreTried(content, decode, b)
    ensures p in a <==> p in b
  {
    forall q: nat | q < p ensures q in a <==> q in b {
      TriedIsUnique(content, decode, a, b, q);
    }
    assert IsHeld(decode, a, p) <==> IsHeld(decode, b, p);
  }

  lemma TickedIff(content: string, a: Attempt, r: Range)
    requires a.at < a.Next() <= |content|
    ensures r == WithBackticks(content, a) <==> IsTicked(content, a.at, a.Next(), r)
  {
  }

  lemma EmbeddedThere(content: string, decode: nat -> Option<Decoded>, r: Range)
    requires ValidDecoder(content, decode) && IsEmbeddedRange(content, decode, r)
    ensures IsEmbeddedText(content, decode, r)
  {
    hide Scan, AreTried, WithBackticks, IsTicked;
    var scan := Scan(content, decode, 0);
    var places := Places(scan);
    ScanGoesForward(content, decode, 0);
    ScanTries(content, decode);
    var i :| 0 <= i < |scan| && scan[i].IsToolCall() && r == WithBackticks(content, scan[i]);
    TickedIff(content, scan[i], r);
    assert places[i] in places && ReadsBare(decode, places[i]);
  }

  lemma EmbeddedBack(content: string, decode: nat -> Option<Decoded>, r: Range)
    requires ValidDecoder(content, decode) && IsEmbeddedText(content, decode, r)
    ensures IsEmbeddedRange(content, decode, r)
  {
    hide Scan, AreTried, WithBackticks, IsTicked;
    var scan := Scan(content, decode, 0);
    var places := Places(scan);
    ScanGoesForward(content, decode, 0);
    ScanTries(content, decode);
    var tried, q: nat :| AreTried(content, decode, tried) && q in tried && ReadsBare(decode, q)
      && IsTicked(content, q, decode(q).value.end, r);
    TriedIsUnique(content, decode, tried, places, q);
    var i :| 0 <= i < |places| && places[i] == q;
    TickedIff(content, scan[i], r);
    assert scan[i].IsToolCall();
  }

  lemma EmbeddedTextIs(content: string, decode: nat -> Option<Decoded>, r: Range)
    requires ValidDecoder(content, decode)
    ensures IsEmbeddedRange(content, decode, r) <==> IsEmbeddedText(content, decode, r)
  {
    hide IsEmbeddedText, IsEmbeddedRange;
    if IsEmbeddedRange(content, decode, r) {
      EmbeddedThere(content, decode, r);
    }
    if IsEmbeddedText(content, decode, r) {
      EmbeddedBack(content, decode, r);
    }
  }

  /** All that is removed, part by part in the order the handler looks for it. */
  ghost predicate IsAllFound(content: string, m: Matches, decode: nat -> Option<Decoded>, ranges: seq<Range>)
    requires ValidDecoder(content, decode)
  {
    exists tags: seq<Range>, afterClosers, afterCalls, afterOrphans, embedded ::
      && |tags| == |m.openers|
      && (forall i :: 0 <= i < |tags| ==> IsTagText(content, decode, m.openers[i], tags[i].start, tags[i].end))
      && AddsUncovered(tags, m.closers, afterClosers)
      && AddsUncovered(afterClosers + m.kimiSections, m.kimiCalls, afterCalls)
      && AddsUncovered(afterCalls + m.altPatterns + m.callHeaders, m.orphanHeaders, afterOrphans)
      && (forall r: Range :: r in embedded <==> IsEmbeddedText(content, decode, r))
      && ranges == afterOrphans + m.bareJson + embedded
  }

  /** The ranges in the order the handler collects them. */
  method CollectRanges(content: string, m: Matches, decode: nat -> Option<Decoded>) returns (ranges: seq<Range>)
    requires m.InBoundsOf(|content|) && ValidDecoder(content, decode)
    ensures IsCollection(content, m, decode, ranges)
    ensures IsAllFound(content, m, decode, ranges)
  {
    hide TagRange, Scan, IsTagRange, IsEmbeddedRange, InRanges, AddsUncovered, IsTagText, IsEmbeddedText;
    var n := |content|;
    var tags := CollectTagRanges(content, m.openers, decode);
    TagRangesInBounds(content, m.openers, decode, tags);
    TagRangesAreAll(content, m, decode, tags);
    var afterClosers := AddUncovered(tags, m.closers, n);
    var afterSections := afterClosers + m.kimiSections;
    var afterCalls := AddUncovered(afterSections, m.kimiCalls, n);
    var afterHeaders := afterCalls + m.altPatterns + m.callHeaders;
    var afterOrphans := AddUncovered(afterHeaders, m.orphanHeaders, n);
    var embedded := CollectEmbedded(content, decode);
    ranges := afterOrphans + m.bareJson + embedded;
    CoversMore(afterClosers, ranges, m.closers);
    CoversMore(afterCalls, ranges, m.kimiCalls);
    CoversMore(afterOrphans, ranges, m.orphanHeaders);
    assert forall r: Range :: r in ranges <==> r in afterOrphans || r in m.bareJson || r in embedded;
    assert Covers(ranges, m.IfUncovered());
    assert ContainsAll(ranges, m.Always());
    TagTextsAre(content, m.openers, decode, tags);
    forall r: Range ensures r in embedded <==> IsEmbeddedText(content, decode, r) {
      EmbeddedTextIs(content, decode, r);
    }
  }

  lemma TagTextsAre(content: string, openers: seq<Range>, decode: nat -> Option<Decoded>, tags: seq<Range>)
    requires InBounds(openers, |content|) && ValidDecoder(content, decode) && |tags| == |openers|
    requires forall i :: 0 <= i < |tags| ==> tags[i] == TagRange(content, decode, openers[i])
    ensures forall i :: 0 <= i < |tags| ==> IsTagText(content, decode, openers[i], tags[i].start, tags[i].end)
  {
    hide TagRange, IsTagText;
    forall i | 0 <= i < |tags| ensures IsTagText(content, decode, openers[i], tags[i].start, tags[i].end) {
      TagTextIs(content, decode, openers[i]);
    }
  }

  lemma TagRangesInBounds(content: string, openers: seq<Range>, decode: nat -> Option<Decoded>, tags: seq<Range>)
    requires InBounds(openers, |content|) && ValidDecoder(content, decode) && |tags| == |openers|
    requires forall i :: 0 <= i < |tags| ==> tags[i] == TagRange(content, decode, openers[i])
    ensures InBounds(tags, |content|)
  {
  }

  /** The text without its tool calls, before runs of newlines are squeezed and the ends stripped. */
  method ExtractContent(content: string, m: Matches, decode: nat -> Option<Decoded>)
      returns (clean: string, ghost removed: seq<Range>)
    requires m.InBoundsOf(|content|) && ValidDecoder(content, decode)
    ensures IsCollection(content, m, decode, removed) && IsAllFound(content, m, decode, removed)
    ensures clean == Kept(content, removed, |content|)
  {
    var ranges := CollectRanges(content, m, decode);
    removed := ranges;
    clean := RemoveRanges(content, ranges);
  }

  // ----- Nothing that was parsed is left in the text -----

  ghost predicate IsRemoved(span: Range, removed: seq<Range>) {
    forall p: nat :: InRange(p, span) ==> InRanges(p, removed)
  }

  lemma RemovedWithin(span: Range, r: Range, removed: seq<Range>)
    requires r in removed && r.start <= span.start && span.end <= r.end
    ensures IsRemoved(span, removed)
  {
    var k :| 0 <= k < |removed| && removed[k] == r;
    assert forall p: nat :: InRange(p, span) ==> InRange(p, removed[k]);
  }

  lemma {:induction false} TaggedCallHasOpener(content: string, openers: seq<Range>, decode: nat -> Option<Decoded>,
                                               n: nat, call: Call)
    requires n <= |openers| && InBounds(openers, |content|)
    requires call in TaggedCalls(content, openers, decode, n)
    ensures decode(call.span.start).Some? && decode(call.span.start).value.end == call.span.end
    ensures exists i :: 0 <= i < n && JsonBehind(content, decode, openers[i]) == Some(call.span.start)
  {
    if call in TaggedCalls(content, openers, decode, n - 1) {
      TaggedCallHasOpener(content, openers, decode, n - 1, call);
    } else {
      assert JsonBehind(content, decode, openers[n - 1]) == Some(call.span.start);
    }
  }

  lemma TaggedCallsAreRemoved(content: string, m: Matches, decode: nat -> Option<Decoded>, removed: seq<Range>,
                              call: Call)
    requires m.InBoundsOf(|content|) && ValidDecoder(content, decode) && IsCollection(content, m, decode, removed)
    requires call in TaggedCalls(content, m.openers, decode, |m.openers|)
    ensures IsRemoved(call.span, removed)
  {
    hide TaggedCalls, TagRange, SkipSpace, EndWithCloser, IsRemoved, Covers, ContainsAll, IsEmbeddedRange;
    TaggedCallHasOpener(content, m.openers, decode, |m.openers|, call);
    var i :| 0 <= i < |m.openers| && JsonBehind(content, decode, m.openers[i]) == Some(call.span.start);
    TagRangeIs(content, decode, m.openers[i]);
    var r := TagRange(content, decode, m.openers[i]);
    assert IsTagRange(content, m, decode, r);
    RemovedWithin(call.span, r, removed);
  }

  lemma {:induction false} BareCallHasAttempt(scan: seq<Attempt>, call: Call)
    requires call in BareCalls(scan)
    ensures exists i :: 0 <= i < |scan| && scan[i].IsToolCall() && call.span == Range(scan[i].at, scan[i].Next())
  {
    if call in BareCalls(scan[1..]) {
      BareCallHasAttempt(scan[1..], call);
      var i :| 0 <= i < |scan[1..]| && scan[1..][i].IsToolCall()
        && call.span == Range(scan[1..][i].at, scan[1..][i].Next());
      assert scan[i + 1] == scan[1..][i];
    }
  }

  /** For a text that the preparing substitutions of the bare parser leave as it is. */
  lemma BareCallsAreRemoved(content: string, m: Matches, decode: nat -> Option<Decoded>, removed: seq<Range>,
                            call: Call)
    requires m.InBoundsOf(|content|) && ValidDecoder(content, decode) && IsCollection(content, m, decode, removed)
    requires call in BareCalls(Scan(content, decode, 0))
    ensures IsRemoved(call.span, removed)
  {
    hide Scan, BareCalls;
    var scan := Scan(content, decode, 0);
    ScanGoesForward(content, decode, 0);
    BareCallHasAttempt(scan, call);
    var i :| 0 <= i < |scan| && scan[i].IsToolCall() && call.span == Range(scan[i].at, scan[i].Next());
    var r := WithBackticks(content, scan[i]);
    assert IsEmbeddedRange(content, decode, r);
    RemovedWithin(call.span, r, removed);
  }

  // ----- Which positions are removed -----

  /** Behind position p and whitespace a closing tag in any case ends within 20 characters. */
  predicate ClosesAt(content: string, p: nat, q: nat) {
    && p <= q && q + 12 <= |content| && q + 12 <= p + 20 && (forall i :: p <= i < q ==> IsSpace(content[i]))
    && forall i :: 0 <= i < 12 ==> content[q + i] == "</tool_call>"[i] || content[q + i] == "</TOOL_CALL>"[i]
  }

  lemma CloserIff(s: string)
    ensures StartsWithCloser(s) <==>
      |s| >= 12 && forall i :: 0 <= i < 12 ==> s[i] == "</tool_call>"[i] || s[i] == "</TOOL_CALL>"[i]
  {
    assert |CLOSER| == 12;
    forall i | 0 <= i < 12 && i < |s|
      ensures LowerAscii(s[i]) == CLOSER[i] <==> s[i] == "</tool_call>"[i] || s[i] == "</TOOL_CALL>"[i]
    {
    }
  }

  /** Where the closing tag would have to start. */
  function CloserStart(content: string, p: nat): (q: nat)
    requires p <= |content|
    ensures p <= q <= |content| && q <= p + 20
    ensures forall i :: p <= i < q ==> IsSpace(content[i])
    ensures q < |content| && q < p + 20 ==> !IsSpace(content[q])
  {
    if p < |content| then Min(SkipSpace(content, p), p + 20) else p
  }

  lemma CloserStartIs(content: string, p: nat) returns (to: nat)
    requires p <= |content|
    ensures to == Min(p + 20, |content|) && CloserStart(content, p) <= to
    ensures EndWithCloser(content, p) ==
      if StartsWithCloser(content[CloserStart(content, p)..to]) then CloserStart(content, p) + 12 else p
  {
    hide IsSpace, StartsWithCloser, CloserStart, StripLeft;
    to := Min(p + 20, |content|);
    var remaining := content[p..to];
    var stripped := StripLeft(remaining);
    var start := p + (|remaining| - |stripped|);
    assert |CLOSER| == 12;
    assert stripped == content[start..to];
    SpacesInFront(content, p, to, start);
    assert stripped != "" ==> stripped[0] == content[start];
  }

  lemma SpacesInFront(content: string, p: nat, to: nat, start: nat)
    requires p <= start <= to == Min(p + 20, |content|) && IsBlank(content[p..to][..start - p])
    requires start < to ==> !IsSpace(content[start])
    ensures start == CloserStart(content, p)
  {
    hide IsSpace, CloserStart;
    forall i | p <= i < start ensures IsSpace(content[i]) {
      assert content[i] == content[p..to][..start - p][i - p];
    }
  }

  lemma ClosesAtStart(content: string, p: nat, to: nat)
    requires p <= |content| && to == Min(p + 20, |content|)
    ensures StartsWithCloser(content[CloserStart(content, p)..to]) <==> ClosesAt(content, p, CloserStart(content, p))
  {
    hide IsSpace, CloserStart, StartsWithCloser;
    var q := CloserStart(content, p);
    CloserIff(content[q..to]);
  }

  /** The removed text goes on to the end of such a closing tag and else ends with the JSON object. */
  lemma EndsWithCloserIff(content: string, p: nat)
    requires p <= |content|
    ensures EndWithCloser(content, p) != p <==> exists q: nat :: ClosesAt(content, p, q)
    ensures forall q: nat :: ClosesAt(content, p, q) ==> EndWithCloser(content, p) == q + 12
  {
    hide EndWithCloser, ClosesAt, CloserStart, StartsWithCloser;
    var to := CloserStartIs(content, p);
    ClosesAtStart(content, p, to);
    forall q: nat | ClosesAt(content, p, q) ensures q == CloserStart(content, p) {
      CloserIsFirst(content, p, q);
    }
  }

  lemma CloserIsFirst(content: string, p: nat, q: nat)
    requires p <= |content| && ClosesAt(content, p, q)
    ensures q == CloserStart(content, p)
  {
    hide CloserStart;
    assert "</tool_call>"[0] == '<' && "</TOOL_CALL>"[0] == '<';
    assert content[q + 0] == '<';
  }

  /** The text from `from` up to `to` belongs to this opening tag: the tag alone, or with its object and closing tag. */
  ghost predicate IsTagText(content: string, decode: nat -> Option<Decoded>, opener: Range, from: nat, to: nat)
    requires ValidDecoder(content, decode)
  {
    && from == opener.start
    && if exists q: nat :: IsObjectBehind(content, decode, opener.end, q) then
         exists q: nat :: IsObjectBehind(content, decode, opener.end, q) && EndsTag(content, decode(q).value.end, to)
       else to == opener.end
  }

  predicate IsObjectBehind(content: string, decode: nat -> Option<Decoded>, p: nat, q: nat) {
    && p <= q < |content| && (forall i :: p <= i < q ==> IsSpace(content[i])) && content[q] == '{'
    && decode(q).Some?
  }

  ghost predicate EndsTag(content: string, end: nat, to: nat) {
    if exists q: nat :: ClosesAt(content, end, q) then exists q: nat :: ClosesAt(content, end, q) && to == q + 12
    else to == end
  }

  lemma TagTextIs(content: string, decode: nat -> Option<Decoded>, opener: Range)
    requires opener.end <= |content| && ValidDecoder(content, decode)
    ensures
      var r := TagRange(content, decode, opener);
      forall from, to :: IsTagText(content, decode, opener, from, to) <==> from == r.start && to == r.end
  {
    hide EndWithCloser, SkipSpace, TagRange, EndsTag;
    TagRangeIs(content, decode, opener);
    var p := SkipSpace(content, opener.end);
    forall q: nat ensures IsObjectBehind(content, decode, opener.end, q) <==>
                          q == p && p < |content| && content[p] == '{' && decode(p).Some? {
      ObjectIsFirst(content, decode, opener.end, q);
    }
    if p < |content| && content[p] == '{' && decode(p).Some? {
      EndsTagIff(content, decode(p).value.end);
      assert IsObjectBehind(content, decode, opener.end, p);
    }
  }

  lemma EndsTagIff(content: string, end: nat)
    requires end <= |content|
    ensures forall to: nat :: EndsTag(content, end, to) <==> to == EndWithCloser(content, end)
  {
    hide EndWithCloser, ClosesAt;
    EndsWithCloserIff(content, end);
  }

  lemma ObjectIsFirst(content: string, decode: nat -> Option<Decoded>, end: nat, q: nat)
    requires end <= |content|
    ensures
      var p := SkipSpace(content, end);
      IsObjectBehind(content, decode, end, q) <==> q == p && p < |content| && content[p] == '{' && decode(p).Some?
  {
    hide SkipSpace;
  }
}
