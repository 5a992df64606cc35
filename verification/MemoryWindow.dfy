/** The recent blocks put into a context (ai/reasoner.py).

    A chain is what loading block 0, 1, .. gives: a block, or nothing where loading fails. */
module MemoryWindow {
  import opened Prelude
  import opened Sorting

  /** `covers` is absent where the content of a summary cannot be read. */
  datatype Kind = Genesis | Summary(covers: Option<seq<nat>>) | Other

  datatype Block = Block(number: nat, kind: Kind)

  type Chain = seq<Option<Block>>

  /** Block i is stored under number i. */
  predicate IsNumbered(chain: Chain) {
    forall i :: 0 <= i < |chain| && chain[i].Some? ==> chain[i].value.number == i
  }

  predicate IsSummaryAt(chain: Chain, i: nat) {
    i < |chain| && chain[i].Some? && chain[i].value.kind.Summary?
  }

  predicate CoversAt(chain: Chain, i: nat, number: nat) {
    IsSummaryAt(chain, i) && chain[i].value.kind.covers.Some? && number in chain[i].value.kind.covers.value
  }

  predicate IsCovered(chain: Chain, number: nat) {
    exists i: nat :: i < |chain| && CoversAt(chain, i, number)
  }

  /** A block of its own right that no summary stands for. */
  predicate IsUncoveredAt(chain: Chain, i: nat) {
    i < |chain| && chain[i].Some? && chain[i].value.kind.Other? && !IsCovered(chain, i)
  }

  predicate IsMemorableAt(chain: Chain, i: nat) {
    IsSummaryAt(chain, i) || IsUncoveredAt(chain, i)
  }

  // ----- Three lists of blocks, oldest first -----

  function Summaries(chain: Chain, hi: nat): seq<Block>
    requires hi <= |chain|
  {
    if hi == 0 then [] else Summaries(chain, hi - 1) + if IsSummaryAt(chain, hi - 1) then [chain[hi - 1].value] else []
  }

  function Uncovered(chain: Chain, lo: nat, hi: nat): seq<Block>
    requires lo <= hi <= |chain|
    decreases hi - lo
  {
    if lo == hi then []
    else Uncovered(chain, lo, hi - 1) + if IsUncoveredAt(chain, hi - 1) then [chain[hi - 1].value] else []
  }

  /** Every summary and every uncovered block. */
  function Memorable(chain: Chain, lo: nat, hi: nat): seq<Block>
    requires lo <= hi <= |chain|
    decreases hi - lo
  {
    if lo == hi then []
    else Memorable(chain, lo, hi - 1) + if IsMemorableAt(chain, hi - 1) then [chain[hi - 1].value] else []
  }

  /** The slice from -n on, which keeps everything for n = 0. */
  function SliceFromEnd<T>(xs: seq<T>, n: nat): seq<T> {
    if n == 0 then xs else LastOf(xs, n)
  }

  // ----- How the lists relate -----

  lemma {:induction false} MemorableSplits(chain: Chain, lo: nat, mid: nat, hi: nat)
    requires lo <= mid <= hi <= |chain|
    ensures Memorable(chain, lo, hi) == Memorable(chain, lo, mid) + Memorable(chain, mid, hi)
    decreases hi - mid
  {
    if mid < hi {
      MemorableSplits(chain, lo, mid, hi - 1);
    }
  }

  lemma AddToBoth<T>(a: seq<T>, b: seq<T>, c: seq<T>, d: seq<T>, x: T)
    requires multiset(a) + multiset(b) == multiset(c) + multiset(d)
    ensures multiset(a) + multiset(b + [x]) == multiset(c + [x]) + multiset(d)
    ensures multiset(a) + multiset(b + [x]) == multiset(c) + multiset(d + [x])
  {
    assert multiset(a) + multiset(b + [x]) == multiset(a) + multiset(b) + multiset{x};
    assert multiset(c + [x]) + multiset(d) == multiset(c) + multiset(d) + multiset{x};
    assert multiset(c) + multiset(d + [x]) == multiset(c) + multiset(d) + multiset{x};
  }

  lemma {:induction false} SummariesAndUncoveredAreMemorable(chain: Chain, lo: nat, hi: nat)
    requires lo <= hi <= |chain|
    ensures multiset(Summaries(chain, lo)) + multiset(Memorable(chain, lo, hi))
         == multiset(Summaries(chain, hi)) + multiset(Uncovered(chain, lo, hi))
    ensures |Uncovered(chain, lo, hi)| <= |Memorable(chain, lo, hi)|
    decreases hi - lo
  {
    if lo < hi {
      hide IsCovered, IsSummaryAt, IsUncoveredAt;
      SummariesAndUncoveredAreMemorable(chain, lo, hi - 1);
      OneMoreBlock(chain, lo, hi);
      hide Summaries, Uncovered, Memorable;
      var m, s, u := Memorable(chain, lo, hi - 1), Summaries(chain, hi - 1), Uncovered(chain, lo, hi - 1);
      if IsMemorableAt(chain, hi - 1) {
        AddToBoth(Summaries(chain, lo), m, s, u, chain[hi - 1].value);
      }
    }
  }

  lemma OneMoreBlock(chain: Chain, lo: nat, hi: nat)
    requires lo < hi <= |chain|
    ensures
      var m, s, u := Memorable(chain, lo, hi - 1), Summaries(chain, hi - 1), Uncovered(chain, lo, hi - 1);
      if IsSummaryAt(chain, hi - 1) then
        var b := chain[hi - 1].value;
        Memorable(chain, lo, hi) == m + [b] && Summaries(chain, hi) == s + [b] && Uncovered(chain, lo, hi) == u
      else if IsUncoveredAt(chain, hi - 1) then
        var b := chain[hi - 1].value;
        Memorable(chain, lo, hi) == m + [b] && Summaries(chain, hi) == s && Uncovered(chain, lo, hi) == u + [b]
      else Memorable(chain, lo, hi) == m && Summaries(chain, hi) == s && Uncovered(chain, lo, hi) == u
  {
    hide IsCovered;
    assert forall xs: seq<Block> :: xs + [] == xs;
  }

  /** The next older block in front of the uncovered ones. */
  lemma {:induction false} UncoveredFromOlder(chain: Chain, lo: nat, hi: nat)
    requires lo < hi <= |chain|
    ensures Uncovered(chain, lo, hi)
        == (if IsUncoveredAt(chain, lo) then [chain[lo].value] else []) + Uncovered(chain, lo + 1, hi)
    decreases hi - lo
  {
    if lo + 1 < hi {
      UncoveredFromOlder(chain, lo, hi - 1);
    } else {
      assert Uncovered(chain, lo, lo) == [];
    }
  }

  predicate InOrder(blocks: seq<Block>, lo: nat, hi: nat) {
    && (forall i :: 0 <= i < |blocks| ==> lo <= blocks[i].number < hi)
    && (forall i, j :: 0 <= i < j < |blocks| ==> blocks[i].number < blocks[j].number)
  }

  predicate FromChain(blocks: seq<Block>, chain: Chain) {
    forall b :: b in blocks ==> b.number < |chain| && chain[b.number] == Some(b)
  }

  /** `more` is the list or the list with the next block of the chain behind it. */
  predicate IsNext(blocks: seq<Block>, more: seq<Block>, chain: Chain, hi: nat)
    requires hi < |chain|
  {
    more == blocks || (chain[hi].Some? && more == blocks + [chain[hi].value])
  }

  lemma InOrderNext(blocks: seq<Block>, more: seq<Block>, lo: nat, hi: nat, chain: Chain)
    requires lo <= hi < |chain| && IsNumbered(chain) && InOrder(blocks, lo, hi) && FromChain(blocks, chain)
    requires IsNext(blocks, more, chain, hi)
    ensures InOrder(more, lo, hi + 1) && FromChain(more, chain)
  {
  }

  lemma SummariesNext(chain: Chain, hi: nat)
    requires 0 < hi <= |chain|
    ensures IsNext(Summaries(chain, hi - 1), Summaries(chain, hi), chain, hi - 1)
  {
    assert Summaries(chain, hi - 1) + [] == Summaries(chain, hi - 1);
  }

  lemma {:induction false} SummariesInOrder(chain: Chain, hi: nat)
    requires hi <= |chain| && IsNumbered(chain)
    ensures InOrder(Summaries(chain, hi), 0, hi) && FromChain(Summaries(chain, hi), chain)
  {
    if hi > 0 {
      hide *;
      SummariesInOrder(chain, hi - 1);
      SummariesNext(chain, hi);
      InOrderNext(Summaries(chain, hi - 1), Summaries(chain, hi), 0, hi - 1, chain);
    } else {
      assert Summaries(chain, 0) == [];
    }
  }

  lemma MemorableNext(chain: Chain, lo: nat, hi: nat)
    requires lo < hi <= |chain|
    ensures IsNext(Memorable(chain, lo, hi - 1), Memorable(chain, lo, hi), chain, hi - 1)
  {
    hide IsCovered;
    assert Memorable(chain, lo, hi - 1) + [] == Memorable(chain, lo, hi - 1);
  }

  lemma {:induction false} MemorableInOrder(chain: Chain, lo: nat, hi: nat)
    requires lo <= hi <= |chain| && IsNumbered(chain)
    ensures InOrder(Memorable(chain, lo, hi), lo, hi) && FromChain(Memorable(chain, lo, hi), chain)
    decreases hi - lo
  {
    if lo < hi {
      hide *;
      MemorableInOrder(chain, lo, hi - 1);
      MemorableNext(chain, lo, hi);
      InOrderNext(Memorable(chain, lo, hi - 1), Memorable(chain, lo, hi), lo, hi - 1, chain);
    } else {
      assert Memorable(chain, lo, hi) == [];
    }
  }

  predicate ByNumber(a: Block, b: Block) {
    a.number <= b.number
  }

  /** Sorting the summaries together with the newest uncovered blocks. */
  lemma SortedSelection(chain: Chain, lo: nat, uncovered: seq<Block>)
    requires lo <= |chain| && IsNumbered(chain) && multiset(uncovered) == multiset(Uncovered(chain, lo, |chain|))
    ensures Sort(Summaries(chain, |chain|) + uncovered, ByNumber)
        == Summaries(chain, lo) + Memorable(chain, lo, |chain|)
  {
    hide Summaries, Memorable, Uncovered, Sort;
    var n := |chain|;
    var found := Summaries(chain, n) + uncovered;
    var wanted := Summaries(chain, lo) + Memorable(chain, lo, n);
    SummariesAndUncoveredAreMemorable(chain, lo, n);
    assert multiset(found) == multiset(Summaries(chain, n)) + multiset(uncovered);
    assert multiset(found) == multiset(wanted);
    SummariesInOrder(chain, lo);
    MemorableInOrder(chain, lo, n);
    SortIsSorted(found, ByNumber);
    assert IsSorted(wanted, ByNumber);
    SameElements(Sort(found, ByNumber), wanted);
    SortedIsUnique(Sort(found, ByNumber), wanted, ByNumber);
  }

  /** Stopping the scan early loses nothing of the window. */
  lemma EarlyStopIsHarmless(chain: Chain, lo: nat, limit: nat)
    requires lo <= |chain| && (lo == 0 || |Uncovered(chain, lo, |chain|)| >= limit)
    ensures LastOf(Summaries(chain, lo) + Memorable(chain, lo, |chain|), limit)
        == LastOf(Memorable(chain, 0, |chain|), limit)
  {
    var n := |chain|;
    SummariesAndUncoveredAreMemorable(chain, lo, n);
    MemorableSplits(chain, 0, lo, n);
    if lo == 0 {
      assert Summaries(chain, 0) == [] && Memorable(chain, 0, 0) == [];
      assert [] + Memorable(chain, 0, n) == Memorable(chain, 0, n);
    } else {
      LastOfAppend(Summaries(chain, lo), Memorable(chain, lo, n), limit);
      LastOfAppend(Memorable(chain, 0, lo), Memorable(chain, lo, n), limit);
    }
  }

  lemma LastOfAppend<T>(front: seq<T>, xs: seq<T>, n: nat)
    requires |xs| >= n
    ensures LastOf(front + xs, n) == LastOf(xs, n)
  {
  }

  // ----- The window, block by block -----

  /** A summary among the blocks says that it covers this number. */
  predicate IsSummedUp(chain: Chain, number: nat) {
    exists j :: 0 <= j < |chain| && chain[j].Some? && chain[j].value.kind.Summary? && chain[j].value.kind.covers.Some?
                && number in chain[j].value.kind.covers.value
  }

  /** The block is there, and it is a summary or another block than the first one that no summary covers. */
  predicate Counts(chain: Chain, b: Block) {
    && b.number < |chain| && chain[b.number] == Some(b)
    && (b.kind.Summary? || (!b.kind.Genesis? && !IsSummedUp(chain, b.number)))
  }

  /** The newest blocks that count, oldest first and at most `limit`; what is left out is older than all of them. */
  ghost predicate IsWindow(chain: Chain, limit: nat, window: seq<Block>) {
    && |window| <= limit && (forall b <- window :: Counts(chain, b))
    && (forall i, j :: 0 <= i < j < |window| ==> window[i].number < window[j].number)
    && forall c: Block | Counts(chain, c) && c !in window ::
         |window| == limit && forall b <- window :: c.number < b.number
  }

  lemma CountsIff(chain: Chain, b: Block)
    requires IsNumbered(chain)
    ensures Counts(chain, b) <==> b.number < |chain| && chain[b.number] == Some(b) && IsMemorableAt(chain, b.number)
  {
    if IsSummedUp(chain, b.number) {
      var j :| 0 <= j < |chain| && chain[j].Some? && chain[j].value.kind.Summary? && chain[j].value.kind.covers.Some?
        && b.number in chain[j].value.kind.covers.value;
      assert CoversAt(chain, j, b.number);
    }
  }

  lemma {:induction false} MemorableIff(chain: Chain, hi: nat, b: Block)
    requires IsNumbered(chain) && hi <= |chain|
    ensures b in Memorable(chain, 0, hi) <==>
      b.number < hi && chain[b.number] == Some(b) && IsMemorableAt(chain, b.number)
  {
    if hi > 0 {
      hide IsMemorableAt;
      MemorableIff(chain, hi - 1, b);
      MemorableSome(chain, hi - 1);
    }
  }

  lemma MemorableSome(chain: Chain, i: nat)
    requires i < |chain|
    ensures IsMemorableAt(chain, i) ==> chain[i].Some?
  {
  }

  lemma NewestAreWindow(chain: Chain, limit: nat)
    requires IsNumbered(chain)
    ensures IsWindow(chain, limit, LastOf(Memorable(chain, 0, |chain|), limit))
  {
    hide Memorable, IsMemorableAt, FromChain, IsNumbered, Counts;
    var all := Memorable(chain, 0, |chain|);
    var window := LastOf(all, limit);
    MemorableInOrder(chain, 0, |chain|);
    forall b: Block ensures b in all <==> Counts(chain, b) {
      MemorableIff(chain, |chain|, b);
      CountsIff(chain, b);
    }
    assert forall b :: b in window ==> b in all;
    forall c: Block | Counts(chain, c) && c !in window
      ensures |window| == limit && forall b <- window :: c.number < b.number
    {
      forall b | b in window ensures c.number < b.number && |window| == limit {
        CutIsOlder(all, limit, |chain|, b, c);
      }
      assert |window| < |all| && |window| == limit;
    }
  }

  /** A window of size 0 is empty. */
  lemma EmptyWindow(chain: Chain)
    ensures forall window :: IsWindow(chain, 0, window) ==> window == []
  {
  }

  lemma {:induction false} SummariesAreNone(chain: Chain, hi: nat)
    requires hi <= |chain|
    ensures Summaries(chain, hi) == [] <==>
      forall i :: 0 <= i < hi && chain[i].Some? ==> !chain[i].value.kind.Summary?
  {
    if hi > 0 {
      SummariesAreNone(chain, hi - 1);
    }
  }

  // ----- The selection -----

  method CollectSummaries(chain: Chain) returns (summaryBlocks: seq<Block>, covered: set<nat>)
    ensures summaryBlocks == Summaries(chain, |chain|)
    ensures forall number: nat :: number in covered <==> IsCovered(chain, number)
  {
    summaryBlocks, covered := [], {};
    for blockNum := 0 to |chain|
      invariant summaryBlocks == Summaries(chain, blockNum)
      invariant forall number: nat :: number in covered <==> exists i: nat :: i < blockNum && CoversAt(chain, i, number)
    {
      assert forall number: nat :: CoversAt(chain, blockNum, number) <==>
        IsSummaryAt(chain, blockNum) && chain[blockNum].value.kind.covers.Some?
          && number in chain[blockNum].value.kind.covers.value;
      assert forall number: nat, i: nat :: i < blockNum + 1 && CoversAt(chain, i, number) ==>
        i == blockNum || i < blockNum;
      if chain[blockNum].Some? && chain[blockNum].value.kind.Summary? {
        summaryBlocks := summaryBlocks + [chain[blockNum].value];
        var covers := chain[blockNum].value.kind.covers;
        if covers.Some? {
          covered := covered + set number | number in covers.value;
        }
      }
    }
  }

  /** The backward scan: it goes down to block `stop`, the last one looked at. */
  method ScanUncovered(chain: Chain, covered: set<nat>, scanLimit: nat)
      returns (uncoveredBlocks: seq<Block>, ghost stop: nat)
    requires IsNumbered(chain) && forall number: nat :: number in covered <==> IsCovered(chain, number)
    ensures stop <= |chain| && multiset(uncoveredBlocks) == multiset(Uncovered(chain, stop, |chain|))
    ensures stop == 0 || |uncoveredBlocks| >= scanLimit
    ensures scanLimit == 0 ==> uncoveredBlocks == []
  {
    hide IsCovered;
    uncoveredBlocks := [];
    var blockNum := |chain|;
    while blockNum > 0 && |uncoveredBlocks| < scanLimit
      invariant scanLimit == 0 ==> uncoveredBlocks == []
      invariant 0 <= blockNum <= |chain| && multiset(uncoveredBlocks) == multiset(Uncovered(chain, blockNum, |chain|))
    {
      blockNum := blockNum - 1;
      UncoveredFromOlder(chain, blockNum, |chain|);
      if chain[blockNum].None? {
        continue;
      }
      var block := chain[blockNum].value;
      if block.kind.Genesis? || block.kind.Summary? {
        continue;
      }
      if block.number !in covered {
        uncoveredBlocks := uncoveredBlocks + [block];
      }
    }
    stop := blockNum;
  }

  method GetRecentPermanentBlocks(chain: Chain, limit: nat) returns (result: seq<Block>)
    requires IsNumbered(chain)
    ensures limit > 0 ==> result == LastOf(Memorable(chain, 0, |chain|), limit)
    ensures IsWindow(chain, limit, result) <==>
      limit > 0 || forall i :: 0 <= i < |chain| && chain[i].Some? ==> !chain[i].value.kind.Summary?
    ensures result == LastOf(Memorable(chain, 0, |chain|), limit) <==> limit > 0 || Summaries(chain, |chain|) == []
  {
    hide IsWindow, Summaries;
    NewestAreWindow(chain, limit);
    EmptyWindow(chain);
    SummariesAreNone(chain, |chain|);
    if |chain| == 0 {
      return [];
    }
    var summaryBlocks, covered := CollectSummaries(chain);
    ghost var stop;
    var uncoveredBlocks;
    uncoveredBlocks, stop := ScanUncovered(chain, covered, limit * 3);
    var resultBlocks := Sort(summaryBlocks + uncoveredBlocks, ByNumber);
    result := SliceFromEnd(resultBlocks, limit);
    if limit == 0 {
      SummariesAlone(chain);
      assert summaryBlocks + [] == summaryBlocks;
    } else {
      SortedSelection(chain, stop, uncoveredBlocks);
      SameElements(uncoveredBlocks, Uncovered(chain, stop, |chain|));
      EarlyStopIsHarmless(chain, stop, limit);
    }
  }

  lemma SummariesAlone(chain: Chain)
    requires IsNumbered(chain)
    ensures Sort(Summaries(chain, |chain|), ByNumber) == Summaries(chain, |chain|)
  {
    SortedSelection(chain, |chain|, []);
    assert Summaries(chain, |chain|) + [] == Summaries(chain, |chain|);
  }

  // ----- What the window remembers -----

  lemma {:induction false} MemorableHolds(chain: Chain, i: nat, hi: nat)
    requires i < hi <= |chain|
    requires IsSummaryAt(chain, i) || IsUncoveredAt(chain, i)
    ensures chain[i].value in Memorable(chain, 0, hi)
  {
    if i < hi - 1 {
      MemorableHolds(chain, i, hi - 1);
    }
  }

  /** Where nothing is cut off, every block but the genesis block is in the window or covered by a
      summary in it. */
  lemma UncutWindowRemembersAll(chain: Chain, limit: nat, i: nat)
    requires |Memorable(chain, 0, |chain|)| <= limit && IsNumbered(chain)
    requires i < |chain| && chain[i].Some? && !chain[i].value.kind.Genesis?
    ensures
      var window := LastOf(Memorable(chain, 0, |chain|), limit);
      chain[i].value in window
      || exists j: nat :: j < |chain| && CoversAt(chain, j, i) && chain[j].value in window
  {
    if IsSummaryAt(chain, i) || IsUncoveredAt(chain, i) {
      MemorableHolds(chain, i, |chain|);
    } else {
      var j: nat :| j < |chain| && CoversAt(chain, j, i);
      MemorableHolds(chain, j, |chain|);
    }
  }

  /** What is memorable but cut off is older than everything in the window, which is then full. */
  lemma WindowIsNewest(chain: Chain, limit: nat, b: Block, c: Block)
    requires IsNumbered(chain) && b in LastOf(Memorable(chain, 0, |chain|), limit)
    requires c in Memorable(chain, 0, |chain|) && c !in LastOf(Memorable(chain, 0, |chain|), limit)
    ensures c.number < b.number
    ensures |LastOf(Memorable(chain, 0, |chain|), limit)| == limit
  {
    hide Memorable, IsNumbered, FromChain;
    MemorableInOrder(chain, 0, |chain|);
    CutIsOlder(Memorable(chain, 0, |chain|), limit, |chain|, b, c);
  }

  lemma CutIsOlder(all: seq<Block>, limit: nat, n: nat, b: Block, c: Block)
    requires InOrder(all, 0, n) && b in LastOf(all, limit) && c in all && c !in LastOf(all, limit)
    ensures c.number < b.number && |LastOf(all, limit)| == limit
  {
    var cut := |all| - limit;
    forall i | cut <= i < |all| && 0 <= cut ensures all[i] in all[cut..] {
      assert all[cut..][i - cut] == all[i];
    }
    var k :| 0 <= k < |all| && all[k] == c;
    var j :| 0 <= j < limit && all[cut..][j] == b;
    assert b == all[cut + j];
  }
}
