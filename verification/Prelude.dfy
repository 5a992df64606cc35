/** Notions the modules share. */
module Prelude {

  datatype Option<+T> = None | Some(value: T)

  function Max(a: int, b: int): int {
    if a >= b then a else b
  }

  function Min(a: nat, b: nat): nat {
    if a <= b then a else b
  }

  /** The last n elements. */
  function LastOf<T>(xs: seq<T>, n: nat): (r: seq<T>)
    ensures |r| == Min(|xs|, n)
  {
    if |xs| <= n then xs else xs[|xs| - n..]
  }

  // ----- A sequence put together from parts -----

  predicate LiesAt<T(==)>(part: seq<T>, whole: seq<T>, from: nat, to: nat) {
    from <= to <= |whole| && whole[from..to] == part
  }

  /** The parts lie behind one another between these cuts and fill the whole. */
  predicate Cut<T(==)>(whole: seq<T>, parts: seq<seq<T>>, cuts: seq<nat>) {
    && |cuts| == |parts| + 1 && cuts[0] == 0 && cuts[|parts|] == |whole|
    && forall k :: 0 <= k < |parts| ==> LiesAt(parts[k], whole, cuts[k], cuts[k + 1])
  }

  ghost predicate IsMadeOf<T>(whole: seq<T>, parts: seq<seq<T>>) {
    exists cuts :: Cut(whole, parts, cuts)
  }

  lemma MadeOfNothing<T>()
    ensures IsMadeOf<T>([], [])
  {
    assert Cut<T>([], [], [0]);
  }

  lemma MadeOfOneMore<T>(whole: seq<T>, parts: seq<seq<T>>, part: seq<T>)
    requires IsMadeOf(whole, parts)
    ensures IsMadeOf(whole + part, parts + [part])
  {
    var cuts: seq<nat> :| Cut(whole, parts, cuts);
    var more: seq<nat> := cuts + [|whole + part|];
    assert |more| == |parts| + 2;
    forall k | 0 <= k <= |parts| ensures LiesAt((parts + [part])[k], whole + part, more[k], more[k + 1]) {
      if k < |parts| {
        assert LiesAt(parts[k], whole, cuts[k], cuts[k + 1]);
        assert (whole + part)[cuts[k]..cuts[k + 1]] == whole[cuts[k]..cuts[k + 1]];
      }
    }
    assert Cut(whole + part, parts + [part], more);
  }

  /** The parts determine the whole. */
  lemma {:induction false} OneWhole<T>(a: seq<T>, b: seq<T>, parts: seq<seq<T>>)
    requires IsMadeOf(a, parts) && IsMadeOf(b, parts)
    ensures a == b
  {
    var ca: seq<nat> :| Cut(a, parts, ca);
    var cb: seq<nat> :| Cut(b, parts, cb);
    SameCuts(a, b, parts, ca, cb, |parts|);
    assert a[..ca[|parts|]] == a && b[..cb[|parts|]] == b;
  }

  lemma {:induction false} SameCuts<T>(a: seq<T>, b: seq<T>, parts: seq<seq<T>>, ca: seq<nat>, cb: seq<nat>, k: nat)
    requires Cut(a, parts, ca) && Cut(b, parts, cb) && k <= |parts|
    ensures ca[k] == cb[k] && ca[k] <= |a| && cb[k] <= |b| && a[..ca[k]] == b[..cb[k]]
  {
    if k > 0 {
      SameCuts(a, b, parts, ca, cb, k - 1);
      assert LiesAt(parts[k - 1], a, ca[k - 1], ca[k]) && LiesAt(parts[k - 1], b, cb[k - 1], cb[k]);
      assert a[..ca[k]] == a[..ca[k - 1]] + a[ca[k - 1]..ca[k]];
      assert b[..cb[k]] == b[..cb[k - 1]] + b[cb[k - 1]..cb[k]];
    }
  }
}
