/** Nearest-name search of the model registry (ai/model_registry.py).

    The reference notion is a chain of rewrites: `Reaches(s, t, n)` says that n single-character
    insertions, deletions and replacements, at any positions, turn s into t.  The two-row dynamic
    program is proved to compute the least such n. */
module EditDistance {
  import opened Prelude

  // ----- Rewriting one string into another -----

  ghost predicate Inserts(s: string, t: string) {
    exists i: nat, c: char :: i <= |s| && t == s[..i] + [c] + s[i..]
  }

  ghost predicate Replaces(s: string, t: string) {
    exists i: nat, c: char :: i < |s| && t == s[..i] + [c] + s[i + 1..]
  }

  /** t is s after one insertion, deletion or replacement of a character. */
  ghost predicate Rewrites(s: string, t: string) {
    Inserts(s, t) || Inserts(t, s) || Replaces(s, t)
  }

  ghost predicate Reaches(s: string, t: string, n: nat)
    decreases n
  {
    if n == 0 then s == t else exists m: string :: Rewrites(s, m) && Reaches(m, t, n - 1)
  }

  // ----- The recurrence behind the table -----

  function Min3(a: nat, b: nat, c: nat): (m: nat)
    ensures m <= a && m <= b && m <= c && (m == a || m == b || m == c)
  {
    if a <= b && a <= c then a else if b <= c then b else c
  }

  function Init(s: string): string
    requires s != ""
  {
    s[..|s| - 1]
  }

  function Last(s: string): char
    requires s != ""
  {
    s[|s| - 1]
  }

  /** Cost of keeping or replacing a character. */
  function Mismatch(a: char, b: char): nat {
    if a != b then 1 else 0
  }

  function Distance(s: string, t: string): nat
    decreases |s| + |t|
  {
    if s == "" then |t|
    else if t == "" then |s|
    else Min3(Distance(Init(s), t) + 1, Distance(s, Init(t)) + 1,
              Distance(Init(s), Init(t)) + Mismatch(Last(s), Last(t)))
  }

  lemma {:induction false} DistanceIsSymmetric(s: string, t: string)
    ensures Distance(s, t) == Distance(t, s)
    decreases |s| + |t|
  {
    if s != "" && t != "" {
      DistanceIsSymmetric(Init(s), t);
      DistanceIsSymmetric(s, Init(t));
      DistanceIsSymmetric(Init(s), Init(t));
    }
  }

  lemma {:induction false} DistanceCoversLengths(s: string, t: string)
    ensures |s| <= |t| + Distance(s, t) && |t| <= |s| + Distance(s, t)
    decreases |s| + |t|
  {
    if s != "" && t != "" {
      DistanceCoversLengths(Init(s), t);
      DistanceCoversLengths(s, Init(t));
      DistanceCoversLengths(Init(s), Init(t));
    }
  }

  lemma {:induction false} TriangleInequality(s: string, t: string, u: string)
    ensures Distance(s, u) <= Distance(s, t) + Distance(t, u)
    decreases |s| + |t| + |u|
  {
    hide Distance;
    if s == "" || t == "" || u == "" {
      TriangleWithEmpty(s, t, u);
    } else {
      TriangleInequality(Init(s), t, u);
      TriangleInequality(s, t, Init(u));
      TriangleInequality(s, Init(t), u);
      TriangleInequality(s, Init(t), Init(u));
      TriangleInequality(Init(s), Init(t), u);
      TriangleInequality(Init(s), Init(t), Init(u));
      DistanceOfNonempty(s, t);
      DistanceOfNonempty(t, u);
      DistanceOfNonempty(s, u);
    }
  }

  lemma DistanceOfNonempty(s: string, t: string)
    requires s != "" && t != ""
    ensures Distance(s, t) == Min3(Distance(Init(s), t) + 1, Distance(s, Init(t)) + 1,
                                   Distance(Init(s), Init(t)) + Mismatch(Last(s), Last(t)))
  {
    hide Init, Last, Mismatch, Min3;
  }

  lemma TriangleWithEmpty(s: string, t: string, u: string)
    requires s == "" || t == "" || u == ""
    ensures Distance(s, u) <= Distance(s, t) + Distance(t, u)
  {
    DistanceCoversLengths(s, t);
    DistanceCoversLengths(t, u);
    AtMostRewriteAll(s, u);
  }

  lemma {:induction false} AtMostRewriteAll(s: string, t: string)
    ensures Distance(s, t) <= |s| + |t|
    decreases |s|
  {
    if s != "" && t != "" {
      AtMostRewriteAll(Init(s), t);
    }
  }

  // ----- No chain of rewrites is shorter than the distance -----

  lemma {:induction false} CommonSuffix(s: string, t: string, suffix: string)
    ensures Distance(s + suffix, t + suffix) <= Distance(s, t)
    decreases |suffix|
  {
    if suffix == "" {
      assert s + suffix == s && t + suffix == t;
    } else {
      CommonSuffix(s, t, Init(suffix));
      assert Init(s + suffix) == s + Init(suffix);
      assert Init(t + suffix) == t + Init(suffix);
    }
  }

  lemma {:induction false} SelfDistance(s: string)
    ensures Distance(s, s) == 0
  {
    CommonSuffix("", "", s);
    assert "" + s == s;
  }

  lemma AppendCostsOne(prefix: string, c: char)
    ensures Distance(prefix, prefix + [c]) <= 1
  {
    assert Init(prefix + [c]) == prefix;
    SelfDistance(prefix);
  }

  lemma InsertionCostsOne(s: string, t: string)
    requires Inserts(s, t)
    ensures Distance(s, t) <= 1
  {
    hide Distance;
    var i: nat, c: char :| i <= |s| && t == s[..i] + [c] + s[i..];
    AppendCostsOne(s[..i], c);
    CommonSuffix(s[..i], s[..i] + [c], s[i..]);
    assert s == s[..i] + s[i..];
  }

  lemma LastReplacementCostsOne(prefix: string, c: char, d: char)
    ensures Distance(prefix + [c], prefix + [d]) <= 1
  {
    assert Init(prefix + [c]) == prefix && Init(prefix + [d]) == prefix;
    SelfDistance(prefix);
  }

  lemma ReplacementCostsOne(s: string, t: string)
    requires Replaces(s, t)
    ensures Distance(s, t) <= 1
  {
    hide Distance;
    var i: nat, c: char :| i < |s| && t == s[..i] + [c] + s[i + 1..];
    var a, b := s[..i] + [s[i]], s[..i] + [c];
    LastReplacementCostsOne(s[..i], s[i], c);
    CommonSuffix(a, b, s[i + 1..]);
    assert s == a + s[i + 1..] && t == b + s[i + 1..];
  }

  lemma {:induction false} NoShorterChain(s: string, t: string, n: nat)
    requires Reaches(s, t, n)
    ensures Distance(s, t) <= n
    decreases n
  {
    hide Distance;
    if n == 0 {
      SelfDistance(s);
    } else {
      var m: string :| Rewrites(s, m) && Reaches(m, t, n - 1);
      if Inserts(s, m) {
        InsertionCostsOne(s, m);
      } else if Inserts(m, s) {
        InsertionCostsOne(m, s);
        DistanceIsSymmetric(m, s);
      } else {
        ReplacementCostsOne(s, m);
      }
      NoShorterChain(m, t, n - 1);
      TriangleInequality(s, m, t);
    }
  }

  // ----- Some chain of rewrites is as short as the distance -----

  lemma {:induction false} ChainThenRewrite(s: string, m: string, t: string, n: nat)
    requires Reaches(s, m, n) && Rewrites(m, t)
    ensures Reaches(s, t, n + 1)
    decreases n
  {
    if n == 0 {
      assert Rewrites(s, t) && Reaches(t, t, 0);
    } else {
      var next: string :| Rewrites(s, next) && Reaches(next, m, n - 1);
      ChainThenRewrite(next, m, t, n - 1);
    }
  }

  lemma RewriteBeforeCharacter(s: string, t: string, c: char)
    requires Rewrites(s, t)
    ensures Rewrites(s + [c], t + [c])
  {
    if Inserts(s, t) {
      InsertBeforeCharacter(s, t, c);
    } else if Inserts(t, s) {
      InsertBeforeCharacter(t, s, c);
    } else {
      var i: nat, d: char :| i < |s| && t == s[..i] + [d] + s[i + 1..];
      var longer := s + [c];
      assert longer[..i] == s[..i] && longer[i + 1..] == s[i + 1..] + [c];
      assert t + [c] == longer[..i] + [d] + longer[i + 1..];
    }
  }

  lemma InsertBeforeCharacter(s: string, t: string, c: char)
    requires Inserts(s, t)
    ensures Inserts(s + [c], t + [c])
  {
    var i: nat, d: char :| i <= |s| && t == s[..i] + [d] + s[i..];
    var longer := s + [c];
    assert longer[..i] == s[..i] && longer[i..] == s[i..] + [c];
    assert t + [c] == longer[..i] + [d] + longer[i..];
  }

  lemma {:induction false} ChainBeforeCharacter(s: string, t: string, n: nat, c: char)
    requires Reaches(s, t, n)
    ensures Reaches(s + [c], t + [c], n)
    decreases n
  {
    hide Rewrites;
    if n > 0 {
      var m: string :| Rewrites(s, m) && Reaches(m, t, n - 1);
      RewriteBeforeCharacter(s, m, c);
      ChainBeforeCharacter(m, t, n - 1, c);
    }
  }

  lemma AppendIsInsertion(t: string)
    requires t != ""
    ensures Inserts(Init(t), t)
  {
    var s := Init(t);
    assert s[..|s|] == s && s[|s|..] == "";
    assert t == s[..|s|] + [Last(t)] + s[|s|..];
  }

  lemma {:induction false} SomeChain(s: string, t: string)
    ensures Reaches(s, t, Distance(s, t))
    decreases |s| + |t|
  {
    if s == "" && t == "" {
    } else if s != "" && (t == "" || Distance(s, t) == Distance(Init(s), t) + 1) {
      AppendIsInsertion(s);
      SomeChain(Init(s), t);
      assert t == "" ==> Distance(Init(s), t) == |s| - 1;
      assert Rewrites(s, Init(s)) && Reaches(Init(s), t, Distance(s, t) - 1);
    } else if s == "" || Distance(s, t) == Distance(s, Init(t)) + 1 {
      AppendIsInsertion(t);
      SomeChain(s, Init(t));
      assert Rewrites(Init(t), t);
      ChainThenRewrite(s, Init(t), t, Distance(s, Init(t)));
    } else {
      SomeChain(Init(s), Init(t));
      ChainKeepingLast(s, t, Distance(Init(s), Init(t)));
    }
  }

  lemma ChainKeepingLast(s: string, t: string, n: nat)
    requires s != "" && t != "" && Reaches(Init(s), Init(t), n)
    ensures Reaches(s, t, n + Mismatch(Last(s), Last(t)))
  {
    ChainThenLast(Init(s), Init(t), Last(s), Last(t), n);
    assert s == Init(s) + [Last(s)] && t == Init(t) + [Last(t)];
  }

  lemma ChainThenLast(s: string, t: string, c: char, d: char, n: nat)
    requires Reaches(s, t, n)
    ensures Reaches(s + [c], t + [d], n + Mismatch(c, d))
  {
    ChainBeforeCharacter(s, t, n, c);
    if c != d {
      ReplaceLast(t, c, d);
      ChainThenRewrite(s + [c], t + [c], t + [d], n);
    }
  }

  lemma ReplaceLast(prefix: string, c: char, d: char)
    ensures Replaces(prefix + [c], prefix + [d])
  {
    var s, i := prefix + [c], |prefix|;
    assert s[..i] == prefix && s[i + 1..] == "";
    assert prefix + [d] == s[..i] + [d] + s[i + 1..];
  }

  /** The distance is the least length of a chain of rewrites. */
  lemma DistanceIsFewestRewrites(s: string, t: string)
    ensures Reaches(s, t, Distance(s, t))
    ensures forall n: nat :: Reaches(s, t, n) ==> Distance(s, t) <= n
  {
    SomeChain(s, t);
    forall n: nat | Reaches(s, t, n) ensures Distance(s, t) <= n {
      NoShorterChain(s, t, n);
    }
  }

  // ----- The two-row dynamic program -----

  /** One cell of the table from its three neighbours. */
  lemma TableCell(s: string, t: string, i: nat, j: nat)
    requires i < |s| && j < |t|
    ensures Distance(s[..i + 1], t[..j + 1])
         == Min3(Distance(s[..i], t[..j + 1]) + 1, Distance(s[..i + 1], t[..j]) + 1,
                 Distance(s[..i], t[..j]) + Mismatch(s[i], t[j]))
  {
    assert Init(s[..i + 1]) == s[..i] && Init(t[..j + 1]) == t[..j];
  }

  method Levenshtein(s1: string, s2: string) returns (d: nat)
    ensures d == Distance(s1, s2)
    decreases if |s1| < |s2| then 1 else 0
  {
    if |s1| < |s2| {
      d := Levenshtein(s2, s1);
      DistanceIsSymmetric(s1, s2);
      return;
    }
    if |s2| == 0 {
      return |s1|;
    }
    var prevRow := RowOfEmptyPrefix(s1, s2);
    for i := 0 to |s1|
      invariant |prevRow| == |s2| + 1 && IsRow(prevRow, s1[..i], s2)
    {
      var currRow: seq<nat> := [i + 1];
      for j := 0 to |s2|
        invariant |currRow| == j + 1 && IsRow(currRow, s1[..i + 1], s2)
      {
        var insertions := prevRow[j + 1] + 1;
        var deletions := currRow[j] + 1;
        var substitutions := prevRow[j] + Mismatch(s1[i], s2[j]);
        ExtendRow(prevRow, currRow, s1, s2, i, j);
        currRow := currRow + [Min3(insertions, deletions, substitutions)];
      }
      prevRow := currRow;
    }
    assert s1[..|s1|] == s1 && s2[..|s2|] == s2;
    return prevRow[|prevRow| - 1];
  }

  lemma ExtendRow(prev: seq<nat>, curr: seq<nat>, s: string, t: string, i: nat, j: nat)
    requires i < |s| && j < |t| && |prev| == |t| + 1 && |curr| == j + 1
    requires IsRow(prev, s[..i], t) && IsRow(curr, s[..i + 1], t)
    ensures IsRow(curr + [Min3(prev[j + 1] + 1, curr[j] + 1, prev[j] + Mismatch(s[i], t[j]))], s[..i + 1], t)
  {
    hide Distance;
    TableCell(s, t, i, j);
  }

  function RowOfEmptyPrefix(s: string, t: string): (row: seq<nat>)
    ensures |row| == |t| + 1 && IsRow(row, s[..0], t)
  {
    seq(|t| + 1, (j: nat) => j)
  }

  /** A leading part of the table row that belongs to s. */
  ghost predicate IsRow(row: seq<nat>, s: string, t: string) {
    |row| <= |t| + 1 && forall j :: 0 <= j < |row| ==> row[j] == Distance(s, t[..j])
  }

  // ----- The nearest registered name -----

  /** Distances of 4 and above are never considered. */
  const DISTANCE_CUTOFF: nat := 4

  /** The distance of every registered name from the request. */
  ghost function NameDistances(request: string, names: seq<string>, lower: string -> string): (ds: seq<nat>)
    ensures |ds| == |names| && forall i :: 0 <= i < |ds| ==> ds[i] == Distance(request, lower(names[i]))
  {
    seq(|names|, i requires 0 <= i < |names| => Distance(request, lower(names[i])))
  }

  /** `k` is the first position of the least distance. */
  ghost predicate IsFirstLeast(ds: seq<nat>, k: nat) {
    && k < |ds|
    && (forall i :: 0 <= i < |ds| ==> ds[k] <= ds[i])
    && (forall i :: 0 <= i < k ==> ds[k] < ds[i])
  }

  ghost predicate AllTooFar(ds: seq<nat>) {
    forall i :: 0 <= i < |ds| ==> ds[i] >= DISTANCE_CUTOFF
  }

  ghost predicate IsBestOf(ds: seq<nat>, best: Option<nat>, bestDistance: nat) {
    match best
    case None => bestDistance == DISTANCE_CUTOFF && AllTooFar(ds)
    case Some(k) => IsFirstLeast(ds, k) && bestDistance == ds[k] < DISTANCE_CUTOFF
  }

  lemma BestOfOneMore(ds: seq<nat>, i: nat, best: Option<nat>, bestDistance: nat)
    requires i < |ds| && IsBestOf(ds[..i], best, bestDistance)
    ensures if ds[i] < bestDistance then IsBestOf(ds[..i + 1], Some(i), ds[i])
            else IsBestOf(ds[..i + 1], best, bestDistance)
  {
    assert ds[..i + 1] == ds[..i] + [ds[i]];
  }

  /** The closing strategy of the fuzzy match.  An empty registered name counts as no match
      even when it is the nearest one, because an empty string is false. */
  method FindNearest(request: string, names: seq<string>, lower: string -> string) returns (match_: Option<string>)
    ensures AllTooFar(NameDistances(request, names, lower)) ==> match_ == None
    ensures forall k: nat ::
      IsFirstLeast(NameDistances(request, names, lower), k) && NameDistances(request, names, lower)[k] < DISTANCE_CUTOFF
      ==> match_ == if names[k] == "" then None else Some(names[k])
  {
    hide Distance;
    ghost var ds := NameDistances(request, names, lower);
    var bestMatch: Option<string> := None;
    var bestDistance := DISTANCE_CUTOFF;
    ghost var best: Option<nat> := None;
    for i := 0 to |names|
      invariant IsBestOf(ds[..i], best, bestDistance)
      invariant bestMatch == if best.None? then None else Some(names[best.value])
    {
      var dist := Levenshtein(request, lower(names[i]));
      BestOfOneMore(ds, i, best, bestDistance);
      if dist < bestDistance {
        bestDistance := dist;
        bestMatch := Some(names[i]);
        best := Some(i);
      }
    }
    assert ds[..|names|] == ds;
    if bestMatch.Some? && bestMatch.value != "" {
      return bestMatch;
    }
    return None;
  }

  /** A registry has exactly one first nearest name, so the answer is determined. */
  lemma {:induction false} OneFirstLeast(ds: seq<nat>)
    requires ds != []
    ensures exists k: nat :: IsFirstLeast(ds, k)
    ensures forall k: nat, l: nat :: IsFirstLeast(ds, k) && IsFirstLeast(ds, l) ==> k == l
  {
    var last := |ds| - 1;
    if last == 0 {
      assert IsFirstLeast(ds, 0);
    } else {
      OneFirstLeast(ds[..last]);
      var k: nat :| IsFirstLeast(ds[..last], k);
      assert IsFirstLeast(ds, if ds[last] < ds[k] then last else k);
    }
  }

  /** Being too far is needing more than three rewrites. */
  lemma TooFarMeansFourRewrites(request: string, names: seq<string>, lower: string -> string)
    ensures AllTooFar(NameDistances(request, names, lower)) <==>
      forall i: nat, n: nat {:trigger Reaches(request, lower(names[i]), n)} ::
        i < |names| && Reaches(request, lower(names[i]), n) ==> n > 3
  {
    hide Distance, Reaches;
    var ds := NameDistances(request, names, lower);
    if !AllTooFar(ds) {
      var i: nat :| i < |names| && ds[i] < DISTANCE_CUTOFF;
      SomeChain(request, lower(names[i]));
      assert Reaches(request, lower(names[i]), ds[i]) && !(ds[i] > 3);
    }
    forall i: nat, n: nat | AllTooFar(ds) && i < |names| && Reaches(request, lower(names[i]), n)
      ensures n > 3
    {
      NoShorterChain(request, lower(names[i]), n);
    }
  }
}
