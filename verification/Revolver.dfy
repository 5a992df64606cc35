/** Trying one model per provider until one answers (ai/reasoner.py). */
module Revolver {
  import opened Prelude

  datatype Candidate = Candidate(provider: string, model: string)

  predicate HasKey(c: Candidate, keys: set<string>) {
    c.provider == "ollama" || c.provider in keys
  }

  /** Candidate i is called if everything before it fails: its model is new and its provider has a key. */
  predicate IsEligible(primary: string, candidates: seq<Candidate>, keys: set<string>, i: nat)
    requires i < |candidates|
  {
    && candidates[i].model != primary
    && (forall j :: 0 <= j < i ==> candidates[j].model != candidates[i].model)
    && HasKey(candidates[i], keys)
  }

  /** The models of the eligible ones among the first n candidates, in order. */
  function EligibleModels(primary: string, candidates: seq<Candidate>, keys: set<string>, n: nat): seq<string>
    requires n <= |candidates|
  {
    if n == 0 then []
    else
      var before := EligibleModels(primary, candidates, keys, n - 1);
      if IsEligible(primary, candidates, keys, n - 1) then before + [candidates[n - 1].model] else before
  }

  /** No eligible one among the first n candidates answers. */
  ghost predicate AllFail<R>(primary: string, candidates: seq<Candidate>, keys: set<string>,
                             generate: string -> Option<R>, n: nat)
    requires n <= |candidates|
  {
    forall i: nat :: i < n && IsEligible(primary, candidates, keys, i) ==> generate(candidates[i].model).None?
  }

  datatype Answer<+R> = Answer(response: R, model: string)

  /** Candidate i is the first eligible one that answers. */
  ghost predicate AnswersFirst<R>(primary: string, candidates: seq<Candidate>, keys: set<string>,
                                  generate: string -> Option<R>, i: nat, answer: Answer<R>)
  {
    && i < |candidates| && IsEligible(primary, candidates, keys, i) && AllFail(primary, candidates, keys, generate, i)
    && answer.model == candidates[i].model && generate(answer.model) == Some(answer.response)
  }

  /** The models tried so far: the primary one and those of the first n candidates. */
  ghost predicate AreTried(tried: set<string>, primary: string, candidates: seq<Candidate>, n: nat)
    requires n <= |candidates|
  {
    forall m: string :: m in tried <==> m == primary || exists j :: 0 <= j < n && candidates[j].model == m
  }

  lemma TriedNext(tried: set<string>, primary: string, candidates: seq<Candidate>, keys: set<string>, n: nat)
    requires n < |candidates| && AreTried(tried, primary, candidates, n)
    ensures AreTried(tried + {candidates[n].model}, primary, candidates, n + 1)
    ensures IsEligible(primary, candidates, keys, n) <==> candidates[n].model !in tried && HasKey(candidates[n], keys)
  {
  }

  lemma EligibleNext<R>(primary: string, candidates: seq<Candidate>, keys: set<string>, generate: string -> Option<R>,
                        n: nat)
    requires n < |candidates| && AllFail(primary, candidates, keys, generate, n)
    ensures
      var before := EligibleModels(primary, candidates, keys, n);
      if IsEligible(primary, candidates, keys, n) then
        && EligibleModels(primary, candidates, keys, n + 1) == before + [candidates[n].model]
        && (generate(candidates[n].model).None? ==> AllFail(primary, candidates, keys, generate, n + 1))
      else
        EligibleModels(primary, candidates, keys, n + 1) == before
          && AllFail(primary, candidates, keys, generate, n + 1)
  {
    hide IsEligible;
  }

  /** What the loop over the candidates keeps. */
  ghost predicate IsTrying<R>(tried: set<string>, calls: seq<string>, primary: string, candidates: seq<Candidate>,
                              keys: set<string>, generate: string -> Option<R>, n: nat)
    requires n <= |candidates|
  {
    && AreTried(tried, primary, candidates, n) && AllFail(primary, candidates, keys, generate, n)
    && calls == EligibleModels(primary, candidates, keys, n)
  }

  lemma NothingTried<R>(primary: string, candidates: seq<Candidate>, keys: set<string>, generate: string -> Option<R>)
    ensures IsTrying({primary}, [], primary, candidates, keys, generate, 0)
  {
  }

  lemma TryNext<R>(tried: set<string>, calls: seq<string>, primary: string, candidates: seq<Candidate>,
                   keys: set<string>, generate: string -> Option<R>, n: nat)
    requires n < |candidates| && IsTrying(tried, calls, primary, candidates, keys, generate, n)
    ensures
      var c := candidates[n];
      if c.model in tried || !HasKey(c, keys) then
        IsTrying(tried + {c.model}, calls, primary, candidates, keys, generate, n + 1)
      else if generate(c.model).None? then
        IsTrying(tried + {c.model}, calls + [c.model], primary, candidates, keys, generate, n + 1)
      else
        AnswersFirst(primary, candidates, keys, generate, n, Answer(generate(c.model).value, c.model))
  {
    hide AreTried, HasKey, IsEligible, AllFail, EligibleModels;
    EligibleNext(primary, candidates, keys, generate, n);
    TriedNext(tried, primary, candidates, keys, n);
  }

  method TryCandidates<R>(primary: string, candidates: seq<Candidate>, keys: set<string>, generate: string -> Option<R>)
      returns (answer: Option<Answer<R>>, index: nat, calls: seq<string>)
    ensures index <= |candidates| && AllFail(primary, candidates, keys, generate, index)
    ensures answer.None? ==> index == |candidates| && calls == EligibleModels(primary, candidates, keys, index)
    ensures answer.Some? ==> AnswersFirst(primary, candidates, keys, generate, index, answer.value)
    ensures answer.Some? ==> calls == EligibleModels(primary, candidates, keys, index) + [answer.value.model]
  {
    hide AreTried, HasKey, AnswersFirst, AllFail, EligibleModels;
    calls, index, answer := [], 0, None;
    var triedProviders := {primary};
    NothingTried(primary, candidates, keys, generate);
    while index < |candidates|
      invariant index <= |candidates| && answer.None?
      invariant IsTrying(triedProviders, calls, primary, candidates, keys, generate, index)
    {
      var c := candidates[index];
      TryNext(triedProviders, calls, primary, candidates, keys, generate, index);
      var isNew := c.model !in triedProviders;
      triedProviders := triedProviders + {c.model};
      if isNew && HasKey(c, keys) {
        calls := calls + [c.model];
        var response := generate(c.model);
        if response.Some? {
          answer := Some(Answer(response.value, c.model));
          return;
        }
      }
      index := index + 1;
    }
  }

  // ----- One call after another -----

  /** Neither the primary model nor that of an earlier candidate, and the provider is local or has a key. */
  predicate CanBeTried(primary: string, candidates: seq<Candidate>, keys: set<string>, i: nat) {
    && i < |candidates| && candidates[i].model != primary
    && (candidates[i].provider == "ollama" || candidates[i].provider in keys)
    && forall j :: 0 <= j < i ==> candidates[j].model != candidates[i].model
  }

  /** The models are those of the candidates below n that can be tried, in order. */
  predicate AreModelsBelow(primary: string, candidates: seq<Candidate>, keys: set<string>, n: nat, tried: seq<nat>,
                           models: seq<string>)
  {
    && n <= |candidates| && |models| == |tried|
    && (forall i, j :: 0 <= i < j < |tried| ==> tried[i] < tried[j])
    && (forall k: nat :: k < n ==> (k in tried <==> CanBeTried(primary, candidates, keys, k)))
    && forall i :: 0 <= i < |tried| ==> tried[i] < n && models[i] == candidates[tried[i]].model
  }

  lemma {:induction false} EligibleModelsAreBelow(primary: string, candidates: seq<Candidate>, keys: set<string>,
                                                  n: nat)
      returns (tried: seq<nat>)
    requires n <= |candidates|
    ensures AreModelsBelow(primary, candidates, keys, n, tried, EligibleModels(primary, candidates, keys, n))
  {
    hide AreModelsBelow, IsEligible;
    tried := [];
    NoModels(primary, candidates, keys);
    if n > 0 {
      tried := EligibleModelsAreBelow(primary, candidates, keys, n - 1);
      OneMoreModel(primary, candidates, keys, n - 1, tried, EligibleModels(primary, candidates, keys, n - 1));
      tried := if IsEligible(primary, candidates, keys, n - 1) then tried + [n - 1] else tried;
    }
  }

  lemma NoModels(primary: string, candidates: seq<Candidate>, keys: set<string>)
    ensures AreModelsBelow(primary, candidates, keys, 0, [], [])
  {
  }

  lemma OneMoreModel(primary: string, candidates: seq<Candidate>, keys: set<string>, n: nat, tried: seq<nat>,
                     models: seq<string>)
    requires n < |candidates| && AreModelsBelow(primary, candidates, keys, n, tried, models)
    ensures
      if IsEligible(primary, candidates, keys, n) then
        AreModelsBelow(primary, candidates, keys, n + 1, tried + [n], models + [candidates[n].model])
      else AreModelsBelow(primary, candidates, keys, n + 1, tried, models)
  {
    assert IsEligible(primary, candidates, keys, n) <==> CanBeTried(primary, candidates, keys, n);
    hide CanBeTried, IsEligible;
    assert forall k: nat :: k in tried + [n] <==> k in tried || k == n;
    assert forall k: nat :: k in tried ==> k < n;
  }

  /** The models called one after the other, each but an answering last one raising. */
  ghost predicate IsRevolverRun<R>(primary: string, candidates: seq<Candidate>, keys: set<string>,
                                   generate: string -> Option<R>, answer: Option<Answer<R>>, models: seq<string>)
  {
    if answer.None? then
      && (exists tried :: AreModelsBelow(primary, candidates, keys, |candidates|, tried, models))
      && forall i :: 0 <= i < |models| ==> generate(models[i]).None?
    else
      && (exists n: nat, tried :: AreModelsBelow(primary, candidates, keys, n, tried, models))
      && models != [] && answer.value.model == models[|models| - 1]
      && generate(answer.value.model) == Some(answer.value.response)
      && forall i :: 0 <= i < |models| - 1 ==> generate(models[i]).None?
  }

  lemma AllModelsFail<R>(primary: string, candidates: seq<Candidate>, keys: set<string>,
                         generate: string -> Option<R>, n: nat, tried: seq<nat>, models: seq<string>)
    requires AreModelsBelow(primary, candidates, keys, n, tried, models)
    requires AllFail(primary, candidates, keys, generate, n)
    ensures forall i :: 0 <= i < |models| ==> generate(models[i]).None?
  {
    forall i | 0 <= i < |models| ensures generate(models[i]).None? {
      assert tried[i] in tried && CanBeTried(primary, candidates, keys, tried[i]);
      assert IsEligible(primary, candidates, keys, tried[i]);
    }
  }

  lemma AllFailedRun<R>(primary: string, candidates: seq<Candidate>, keys: set<string>,
                        generate: string -> Option<R>)
    requires AllFail(primary, candidates, keys, generate, |candidates|)
    ensures IsRevolverRun(primary, candidates, keys, generate, None,
                          EligibleModels(primary, candidates, keys, |candidates|))
  {
    hide AreModelsBelow, AllFail;
    var tried := EligibleModelsAreBelow(primary, candidates, keys, |candidates|);
    AllModelsFail(primary, candidates, keys, generate, |candidates|, tried,
                  EligibleModels(primary, candidates, keys, |candidates|));
  }

  lemma AnsweredRun<R>(primary: string, candidates: seq<Candidate>, keys: set<string>, generate: string -> Option<R>,
                       n: nat, answer: Answer<R>)
    requires AnswersFirst(primary, candidates, keys, generate, n, answer)
    ensures IsRevolverRun(primary, candidates, keys, generate, Some(answer),
                          EligibleModels(primary, candidates, keys, n) + [answer.model])
  {
    hide AreModelsBelow, AllFail, IsEligible;
    var tried := EligibleModelsAreBelow(primary, candidates, keys, n);
    AllModelsFail(primary, candidates, keys, generate, n, tried, EligibleModels(primary, candidates, keys, n));
    OneMoreModel(primary, candidates, keys, n, tried, EligibleModels(primary, candidates, keys, n));
    assert AreModelsBelow(primary, candidates, keys, n + 1, tried + [n],
                          EligibleModels(primary, candidates, keys, n) + [answer.model]);
  }

  /** `candidates` is absent where listing the providers raises.  `calls` are the models called, in order. */
  method GenerateWithRevolverRetry<R>(primary: string, candidates: Option<seq<Candidate>>, keys: set<string>,
                                      generate: string -> Option<R>)
      returns (answer: Option<Answer<R>>, index: nat, calls: seq<string>)
    ensures generate(primary).Some? ==> answer == Some(Answer(generate(primary).value, primary)) && calls == [primary]
    ensures generate(primary).None? && candidates.None? ==> answer.None? && calls == [primary]
    ensures generate(primary).None? && candidates.Some? && answer.None? ==>
      && AllFail(primary, candidates.value, keys, generate, |candidates.value|)
      && calls == [primary] + EligibleModels(primary, candidates.value, keys, |candidates.value|)
    ensures generate(primary).None? && candidates.Some? && answer.Some? ==>
      && AnswersFirst(primary, candidates.value, keys, generate, index, answer.value)
      && calls == [primary] + EligibleModels(primary, candidates.value, keys, index) + [answer.value.model]
    ensures generate(primary).None? && candidates.Some? ==>
      && calls != [] && calls[0] == primary
      && IsRevolverRun(primary, candidates.value, keys, generate, answer, calls[1..])
  {
    hide IsRevolverRun, AllFail, AnswersFirst, EligibleModels;
    if generate(primary).Some? {
      return Some(Answer(generate(primary).value, primary)), 0, [primary];
    }
    if candidates.None? {
      return None, 0, [primary];
    }
    answer, index, calls := TryCandidates(primary, candidates.value, keys, generate);
    if answer.None? {
      AllFailedRun(primary, candidates.value, keys, generate);
    } else {
      AnsweredRun(primary, candidates.value, keys, generate, index, answer.value);
    }
    calls := [primary] + calls;
  }

  predicate AreDistinct(models: seq<string>) {
    forall i, j :: 0 <= i < j < |models| ==> models[i] != models[j]
  }

  lemma {:induction false} EligibleModelsAreCandidates(primary: string, candidates: seq<Candidate>, keys: set<string>,
                                                       n: nat)
    requires n <= |candidates|
    ensures forall m: string :: m in EligibleModels(primary, candidates, keys, n) ==>
      m != primary && exists j :: 0 <= j < n && candidates[j].model == m
  {
    if n > 0 {
      EligibleModelsAreCandidates(primary, candidates, keys, n - 1);
    }
  }

  /** No model is called twice. */
  lemma {:induction false} CallsAreDistinct(primary: string, candidates: seq<Candidate>, keys: set<string>, n: nat)
    requires n <= |candidates|
    ensures AreDistinct([primary] + EligibleModels(primary, candidates, keys, n))
  {
    if n > 0 {
      hide IsEligible, AreDistinct;
      var before := EligibleModels(primary, candidates, keys, n - 1);
      CallsAreDistinct(primary, candidates, keys, n - 1);
      if IsEligible(primary, candidates, keys, n - 1) {
        EligibleIsNew(primary, candidates, keys, n - 1);
        DistinctSnoc([primary] + before, candidates[n - 1].model);
        assert [primary] + (before + [candidates[n - 1].model]) == [primary] + before + [candidates[n - 1].model];
      }
    } else {
      assert [primary] + EligibleModels(primary, candidates, keys, 0) == [primary];
    }
  }

  lemma EligibleIsNew(primary: string, candidates: seq<Candidate>, keys: set<string>, n: nat)
    requires n < |candidates| && IsEligible(primary, candidates, keys, n)
    ensures candidates[n].model !in [primary] + EligibleModels(primary, candidates, keys, n)
  {
    EligibleModelsAreCandidates(primary, candidates, keys, n);
  }

  lemma DistinctSnoc(models: seq<string>, model: string)
    requires AreDistinct(models) && model !in models
    ensures AreDistinct(models + [model])
  {
  }

  /** The candidates offer no model twice. */
  predicate OffersAreDistinct(candidates: seq<Candidate>) {
    forall i, j :: 0 <= i < j < |candidates| ==> candidates[i].model != candidates[j].model
  }

  /** Then all candidates fail exactly when every one with a key, other than the primary model, does. */
  lemma DistinctOffersAreAllTried<R>(primary: string, candidates: seq<Candidate>, keys: set<string>,
                                     generate: string -> Option<R>)
    requires OffersAreDistinct(candidates) && generate(primary).None?
    ensures AllFail(primary, candidates, keys, generate, |candidates|) <==>
      forall i :: 0 <= i < |candidates| && HasKey(candidates[i], keys) ==> generate(candidates[i].model).None?
  {
    assert forall i :: 0 <= i < |candidates| ==>
      (IsEligible(primary, candidates, keys, i) <==> HasKey(candidates[i], keys) && candidates[i].model != primary);
  }

  /** The listing offers one model per provider, under the provider the registry has for it; so no model is offered
      twice. */
  lemma ListedOffersAreDistinct(candidates: seq<Candidate>, providerOf: string -> Option<string>)
    requires forall i, j :: 0 <= i < j < |candidates| ==> candidates[i].provider != candidates[j].provider
    requires forall i :: 0 <= i < |candidates| ==> providerOf(candidates[i].model) == Some(candidates[i].provider)
    ensures OffersAreDistinct(candidates)
  {
    forall i, j | 0 <= i < j < |candidates| ensures candidates[i].model != candidates[j].model {
      assert providerOf(candidates[i].model) != providerOf(candidates[j].model);
    }
  }

  // ----- Selecting the model of the next response -----

  /** The offers of other providers than the one used last. */
  function Avoiding(offers: seq<Candidate>, last: string): seq<Candidate> {
    if offers == [] then []
    else (if offers[0].provider != last then [offers[0]] else []) + Avoiding(offers[1..], last)
  }

  predicate AllFrom(offers: seq<Candidate>, provider: string) {
    forall o :: o in offers ==> o.provider == provider
  }

  /** What the random choice is made from. */
  function Selectable(offers: seq<Candidate>, last: Option<string>): seq<Candidate> {
    if last.None? || Avoiding(offers, last.value) == [] then offers else Avoiding(offers, last.value)
  }

  lemma {:induction false} AvoidingIff(offers: seq<Candidate>, last: string, o: Candidate)
    ensures o in Avoiding(offers, last) <==> o in offers && o.provider != last
  {
    if offers != [] {
      AvoidingIff(offers[1..], last, o);
    }
  }

  /** Every offer of another provider can come next, and one of the same provider only if there is no other. */
  lemma SelectableIff(offers: seq<Candidate>, last: string, o: Candidate)
    ensures o in Selectable(offers, Some(last)) <==> o in offers && (o.provider != last || AllFrom(offers, last))
  {
    AvoidingIff(offers, last, o);
    if Avoiding(offers, last) == [] {
      forall other | other in offers ensures other.provider == last {
        AvoidingIff(offers, last, other);
      }
    } else {
      AvoidingIff(offers, last, Avoiding(offers, last)[0]);
    }
  }

  /** `pick(n)` is the position drawn from n possible ones; `last` is the provider used last, if it is known. */
  method ApplyRevolverMode(isEnabled: bool, offers: seq<Candidate>, last: Option<string>, pick: nat -> nat)
      returns (selected: Option<Candidate>)
    requires forall n: nat :: n > 0 ==> pick(n) < n
    ensures selected.None? <==> !isEnabled || offers == []
    ensures selected.Some? ==> selected.value == Selectable(offers, last)[pick(|Selectable(offers, last)|)]
    ensures selected.Some? && last.Some? ==> (selected.value.provider == last.value <==> AllFrom(offers, last.value))
  {
    if !isEnabled || offers == [] {
      return None;
    }
    var available := offers;
    if |offers| == 1 {
      assert offers == [offers[0]] && Avoiding(offers[1..], if last.Some? then last.value else "") == [];
      selected := Some(offers[0]);
    } else {
      if last.Some? {
        available := Avoiding(offers, last.value);
        if available == [] {
          available := offers;
        }
      }
      selected := Some(available[pick(|available|)]);
    }
    if last.Some? {
      SelectableIff(offers, last.value, selected.value);
    }
  }
}
