/** Choosing a provider: dynamic scores, the guarded provider list, and the usage count that each guard keeps. */
module ProviderSelection {
  import opened Wrappers

  type ProviderId = string

  /** A pool mirror. Initial scores are compared by latency only: total time less the name lookup. */
  datatype Provider = Provider(id: ProviderId, latency: nat)

  function IdOf(p: Provider): ProviderId {
    p.id
  }

  datatype Metrics = Metrics(numUsages: u32, numFailures: u32)

  /** Scores are compared lexicographically, and a smaller score is better. A score that leaves a component
      out gives it the same value for every provider. */
  datatype Score = Score(failures: nat, usages: nat, latency: nat)

  predicate Less(a: Score, b: Score) {
    || a.failures < b.failures
    || (a.failures == b.failures && a.usages < b.usages)
    || (a.failures == b.failures && a.usages == b.usages && a.latency < b.latency)
  }

  datatype ProviderChoice = Include(score: Score) | Exclude

  /** Decides on a provider, given how often it is currently in use. */
  type Rating = (Provider, nat) -> ProviderChoice

  function FailuresOf(metrics: map<ProviderId, Metrics>, id: ProviderId): u32 {
    if id in metrics then metrics[id].numFailures else 0
  }

  /** Cacheable orders spread over the mirrors: the load comes before the latency. */
  function RateCacheable(metrics: map<ProviderId, Metrics>, excluded: set<ProviderId>): Rating {
    (p: Provider, usages: nat) =>
      if p.id in excluded then Exclude else Include(Score(FailuresOf(metrics, p.id), usages, p.latency))
  }

  /** Uncacheable orders stick to one mirror: the load is left out. */
  function RateUncacheable(metrics: map<ProviderId, Metrics>, excluded: set<ProviderId>): Rating {
    (p: Provider, usages: nat) =>
      if p.id in excluded then Exclude else Include(Score(FailuresOf(metrics, p.id), 0, p.latency))
  }

  function Rate(cacheable: bool, metrics: map<ProviderId, Metrics>, excluded: set<ProviderId>): Rating {
    if cacheable then RateCacheable(metrics, excluded) else RateUncacheable(metrics, excluded)
  }

  function RateInitially(): Rating {
    (p: Provider, usages: nat) => Include(Score(0, 0, p.latency))
  }

  /** Provider number c is the first one with the smallest score among those included. */
  ghost predicate IsChoice(providers: seq<Provider>, strong: seq<nat>, rate: Rating, c: nat)
    requires |strong| == |providers|
  {
    && c < |providers|
    && rate(providers[c], strong[c]).Include?
    && forall j :: 0 <= j < |providers| && rate(providers[j], strong[j]).Include? ==>
         var mine, other := rate(providers[c], strong[c]).score, rate(providers[j], strong[j]).score;
         if j < c then Less(mine, other) else !Less(other, mine)
  }

  /** The first i providers that are left, by number and in list order. */
  function Candidates(providers: seq<Provider>, strong: seq<nat>, rate: Rating, i: nat): (r: seq<nat>)
    requires |strong| == |providers| && i <= |providers|
    ensures forall k :: 0 <= k < |r| ==> r[k] < i && rate(providers[r[k]], strong[r[k]]).Include?
  {
    if i == 0 then []
    else
      var rest := Candidates(providers, strong, rate, i - 1);
      if rate(providers[i - 1], strong[i - 1]).Include? then rest + [i - 1] else rest
  }

  /** Nobody is left out, and the order of the list is kept. */
  lemma {:induction false} CandidatesAreComplete(providers: seq<Provider>, strong: seq<nat>, rate: Rating, i: nat)
    requires |strong| == |providers| && i <= |providers|
    ensures var r := Candidates(providers, strong, rate, i);
            && (forall j :: 0 <= j < i && rate(providers[j], strong[j]).Include? ==> j in r)
            && (forall k, l :: 0 <= k < l < |r| ==> r[k] < r[l])
  {
    if i > 0 {
      CandidatesAreComplete(providers, strong, rate, i - 1);
    }
  }

  /** The position of the first smallest score. */
  function MinByKey(scores: seq<Score>): (k: nat)
    requires scores != []
    ensures k < |scores|
    ensures forall l :: 0 <= l < |scores| ==> if l < k then Less(scores[k], scores[l]) else !Less(scores[l], scores[k])
  {
    var last := |scores| - 1;
    if last == 0 then 0
    else
      var k := MinByKey(scores[..last]);
      assert forall l :: 0 <= l < last ==> scores[..last][l] == scores[l];
      if Less(scores[last], scores[k]) then last else k
  }

  /** The pool of providers. strong[i] is the reference count of the i-th guard: one for the pool, one for each holder. */
  class ProviderGuards {
    const providers: seq<Provider>
    var strong: seq<nat>

    ghost predicate Valid()
      reads this
    {
      |strong| == |providers| && forall i :: 0 <= i < |strong| ==> strong[i] >= 1
    }

    constructor (items: seq<Provider>)
      ensures Valid() && providers == items
      ensures forall i :: 0 <= i < |items| ==> strong[i] == 1
    {
      providers := items;
      strong := seq(|items|, i => 1);
    }

    /** Takes a guard on the best candidate and tells how many candidates there were. The list of candidates
        must not be empty. */
    method GetProviderGuard(rate: Rating) returns (chosen: nat, numCandidates: nat)
      requires Valid()
      requires exists i :: 0 <= i < |providers| && rate(providers[i], strong[i]).Include?
      modifies this
      ensures Valid() && IsChoice(providers, old(strong), rate, chosen)
      ensures numCandidates == |Candidates(providers, old(strong), rate, |providers|)|
      ensures strong == old(strong)[chosen := old(strong)[chosen] + 1]
    {
      var guards, scores := CandidatesWithScores(rate);
      CandidatesAreComplete(providers, strong, rate, |providers|);
      MinimumIsChoice(providers, strong, rate, scores);
      chosen := guards[MinByKey(scores)];
      numCandidates := |guards|;
      strong := strong[chosen := strong[chosen] + 1];
    }

    method CandidatesWithScores(rate: Rating) returns (guards: seq<nat>, scores: seq<Score>)
      requires Valid()
      ensures guards == Candidates(providers, strong, rate, |providers|) && |scores| == |guards|
      ensures forall k :: 0 <= k < |guards| ==> scores[k] == rate(providers[guards[k]], strong[guards[k]]).score
    {
      guards, scores := [], [];
      for i := 0 to |providers|
        invariant guards == Candidates(providers, strong, rate, i)
        invariant |scores| == |guards|
        invariant forall k :: 0 <= k < |guards| ==> scores[k] == rate(providers[guards[k]], strong[guards[k]]).score
      {
        var choice := rate(providers[i], strong[i]);
        if choice.Include? {
          guards, scores := guards + [i], scores + [choice.score];
        }
      }
    }

    /** Dropping a guard does not take the mutex. */
    method Drop(i: nat)
      requires Valid() && i < |providers| && strong[i] >= 2
      modifies this
      ensures Valid() && strong == old(strong)[i := old(strong)[i] - 1]
    {
      strong := strong[i := strong[i] - 1];
    }
  }

  /** The first minimum over the candidates is the first minimum over the pool. */
  lemma MinimumIsChoice(providers: seq<Provider>, strong: seq<nat>, rate: Rating, scores: seq<Score>)
    requires |strong| == |providers|
    requires var guards := Candidates(providers, strong, rate, |providers|);
             && guards != [] && |scores| == |guards|
             && forall k :: 0 <= k < |guards| ==> scores[k] == rate(providers[guards[k]], strong[guards[k]]).score
    ensures IsChoice(providers, strong, rate, Candidates(providers, strong, rate, |providers|)[MinByKey(scores)])
  {
    CandidatesAreComplete(providers, strong, rate, |providers|);
    FirstMinimumIsChoice(providers, strong, rate, scores, Candidates(providers, strong, rate, |providers|), MinByKey(scores));
  }

  lemma FirstMinimumIsChoice(providers: seq<Provider>, strong: seq<nat>, rate: Rating, scores: seq<Score>,
                             guards: seq<nat>, k: nat)
    requires |strong| == |providers| && k < |scores| == |guards|
    requires forall l :: 0 <= l < |guards| ==>
      && guards[l] < |providers| && rate(providers[guards[l]], strong[guards[l]]).Include?
      && scores[l] == rate(providers[guards[l]], strong[guards[l]]).score
    requires forall j :: 0 <= j < |providers| && rate(providers[j], strong[j]).Include? ==> j in guards
    requires forall l, m :: 0 <= l < m < |guards| ==> guards[l] < guards[m]
    requires forall l :: 0 <= l < |scores| ==> if l < k then Less(scores[k], scores[l]) else !Less(scores[l], scores[k])
    ensures IsChoice(providers, strong, rate, guards[k])
  {
    forall j | 0 <= j < |providers| && rate(providers[j], strong[j]).Include?
      ensures var mine, other := scores[k], rate(providers[j], strong[j]).score;
              if j < guards[k] then Less(mine, other) else !Less(other, mine)
    {
      var l :| 0 <= l < |guards| && guards[l] == j;
    }
  }

  /** As soon as one provider is included, there is a choice. */
  lemma ChoiceExists(providers: seq<Provider>, strong: seq<nat>, rate: Rating, i: nat) returns (c: nat)
    requires |strong| == |providers| && i < |providers| && rate(providers[i], strong[i]).Include?
    ensures IsChoice(providers, strong, rate, c)
  {
    var left := Candidates(providers, strong, rate, |providers|);
    CandidatesAreComplete(providers, strong, rate, |providers|);
    assert i in left;
    var scores := seq(|left|, j requires 0 <= j < |left| => rate(providers[left[j]], strong[left[j]]).score);
    MinimumIsChoice(providers, strong, rate, scores);
    c := left[MinByKey(scores)];
  }

  /** The rule determines the provider. */
  lemma ChoiceIsUnique(providers: seq<Provider>, strong: seq<nat>, rate: Rating, c: nat, d: nat)
    requires |strong| == |providers|
    requires IsChoice(providers, strong, rate, c) && IsChoice(providers, strong, rate, d)
    ensures c == d
  {
    assert rate(providers[c], strong[c]).Include? && rate(providers[d], strong[d]).Include?;
  }

  /** What the choice means: nobody who may be chosen has failed less often; among those who have failed as often,
      a cacheable order goes to one with the least load, and then the least latency, an uncacheable order to one
      with the least latency. */
  lemma ChoiceIsTheBest(providers: seq<Provider>, strong: seq<nat>, cacheable: bool, metrics: map<ProviderId, Metrics>,
                        excluded: set<ProviderId>, c: nat, j: nat)
    requires |strong| == |providers| && IsChoice(providers, strong, Rate(cacheable, metrics, excluded), c)
    requires j < |providers| && providers[j].id !in excluded
    ensures providers[c].id !in excluded
    ensures FailuresOf(metrics, providers[c].id) <= FailuresOf(metrics, providers[j].id)
    ensures FailuresOf(metrics, providers[c].id) == FailuresOf(metrics, providers[j].id) ==>
              if cacheable then
                strong[c] <= strong[j] && (strong[c] == strong[j] ==> providers[c].latency <= providers[j].latency)
              else providers[c].latency <= providers[j].latency
  {
    assert Rate(cacheable, metrics, excluded)(providers[j], strong[j]).Include?;
  }

  /** Stickiness: uncacheable orders that know the same failures and exclusions agree on the provider,
      whatever the two loads are. */
  lemma UncacheableOrdersStick(providers: seq<Provider>, strong: seq<nat>, strong': seq<nat>,
                               metrics: map<ProviderId, Metrics>, metrics': map<ProviderId, Metrics>,
                               excluded: set<ProviderId>, c: nat, c': nat)
    requires |strong| == |strong'| == |providers|
    requires forall id :: FailuresOf(metrics, id) == FailuresOf(metrics', id)
    requires IsChoice(providers, strong, RateUncacheable(metrics, excluded), c)
    requires IsChoice(providers, strong', RateUncacheable(metrics', excluded), c')
    ensures c == c'
  {
    assert RateUncacheable(metrics, excluded)(providers[c], strong[c]).Include?;
    assert RateUncacheable(metrics, excluded)(providers[c'], strong[c']).Include?;
    assert RateUncacheable(metrics', excluded)(providers[c], strong'[c]).Include?;
    assert RateUncacheable(metrics', excluded)(providers[c'], strong'[c']).Include?;
  }

  // ---- Balanced allocation ----

  /** A run of first attempts of cacheable orders: nothing is excluded, all providers have failed equally often,
      and no guard is dropped. */
  ghost predicate AcquisitionRun(providers: seq<Provider>, metrics: map<ProviderId, Metrics>, run: seq<seq<nat>>) {
    && |run| >= 1
    && |run[0]| == |providers|
    && EquallyFailed(providers, metrics)
    && (forall i :: 0 <= i < |run[0]| ==> run[0][i] == 1)
    && (forall k :: 0 <= k < |run| - 1 ==> Acquired(providers, metrics, run[k], run[k + 1]))
  }

  ghost predicate EquallyFailed(providers: seq<Provider>, metrics: map<ProviderId, Metrics>) {
    forall i, j :: 0 <= i < j < |providers| ==>
      FailuresOf(metrics, providers[i].id) == FailuresOf(metrics, providers[j].id)
  }

  ghost predicate Acquired(providers: seq<Provider>, metrics: map<ProviderId, Metrics>, strong: seq<nat>, strong': seq<nat>) {
    && |strong| == |providers|
    && exists c: nat :: IsChoice(providers, strong, RateCacheable(metrics, {}), c) && strong' == strong[c := strong[c] + 1]
  }

  ghost predicate Level(strong: seq<nat>) {
    forall i, j :: 0 <= i < |strong| && 0 <= j < |strong| ==> strong[i] <= strong[j] + 1
  }

  ghost function Sum(s: seq<nat>): nat {
    if s == [] then 0 else s[0] + Sum(s[1..])
  }

  lemma {:induction false} SumOfUpdate(s: seq<nat>, c: nat)
    requires c < |s|
    ensures Sum(s[c := s[c] + 1]) == Sum(s) + 1
  {
    if c == 0 {
      assert s[c := s[c] + 1][1..] == s[1..];
    } else {
      SumOfUpdate(s[1..], c - 1);
      assert s[c := s[c] + 1][1..] == s[1..][c - 1 := s[1..][c - 1] + 1];
    }
  }

  /** Bounds on a sum of numbers from {low, low + 1}, sharp as soon as both occur. */
  lemma {:induction false} SumBounds(s: seq<nat>, low: nat)
    requires forall i :: 0 <= i < |s| ==> low <= s[i] <= low + 1
    ensures Times(|s|, low) <= Sum(s) <= Times(|s|, low + 1)
    ensures low in s ==> Sum(s) < Times(|s|, low + 1)
    ensures low + 1 in s ==> Times(|s|, low) < Sum(s)
  {
    if s != [] {
      SumBounds(s[1..], low);
      assert s == [s[0]] + s[1..];
    }
  }

  lemma {:induction false} RunKeepsLevel(providers: seq<Provider>, metrics: map<ProviderId, Metrics>, run: seq<seq<nat>>)
    requires providers != [] && AcquisitionRun(providers, metrics, run)
    ensures var last := run[|run| - 1];
            && |last| == |providers| && Level(last)
            && (forall i :: 0 <= i < |last| ==> last[i] >= 1)
            && Sum(last) == |providers| + |run| - 1
    decreases |run|
  {
    if |run| == 1 {
      SumOfOnes(run[0]);
    } else {
      var before, last := run[|run| - 2], run[|run| - 1];
      assert AcquisitionRun(providers, metrics, run[..|run| - 1]) by {
        var shorter := run[..|run| - 1];
        forall k | 0 <= k < |shorter| - 1
          ensures Acquired(providers, metrics, shorter[k], shorter[k + 1])
        {
          assert shorter[k] == run[k] && shorter[k + 1] == run[k + 1];
        }
      }
      RunKeepsLevel(providers, metrics, run[..|run| - 1]);
      assert Acquired(providers, metrics, run[|run| - 2], run[|run| - 2 + 1]);
      AcquisitionKeepsLevel(providers, metrics, before, last);
    }
  }

  lemma AcquisitionKeepsLevel(providers: seq<Provider>, metrics: map<ProviderId, Metrics>, strong: seq<nat>, strong': seq<nat>)
    requires EquallyFailed(providers, metrics) && Acquired(providers, metrics, strong, strong') && Level(strong)
    ensures |strong'| == |strong| && Level(strong') && Sum(strong') == Sum(strong) + 1
    ensures forall i :: 0 <= i < |strong| ==> strong'[i] >= strong[i]
  {
    var c: nat :| IsChoice(providers, strong, RateCacheable(metrics, {}), c) && strong' == strong[c := strong[c] + 1];
    SumOfUpdate(strong, c);
    forall j | 0 <= j < |strong|
      ensures strong[c] <= strong[j]
    {
      assert RateCacheable(metrics, {})(providers[j], strong[j]).Include?;
      assert j < c ==> FailuresOf(metrics, providers[j].id) == FailuresOf(metrics, providers[c].id);
      assert c < j ==> FailuresOf(metrics, providers[c].id) == FailuresOf(metrics, providers[j].id);
    }
  }

  lemma {:induction false} SumOfOnes(s: seq<nat>)
    requires forall i :: 0 <= i < |s| ==> s[i] == 1
    ensures Sum(s) == |s|
  {
    if s != [] {
      SumOfOnes(s[1..]);
    }
  }

  /** Balanced allocation: after m acquisitions over n providers, each provider is held
      either floor(m / n) or ceil(m / n) times, in addition to the reference of the pool itself. */
  lemma BalancedAllocation(providers: seq<Provider>, metrics: map<ProviderId, Metrics>, run: seq<seq<nat>>, i: nat)
    requires AcquisitionRun(providers, metrics, run) && i < |providers|
    ensures |run[|run| - 1]| == |providers|
    ensures
      var m, n, strong := |run| - 1, |providers|, run[|run| - 1];
      strong[i] == 1 + m / n || strong[i] == 1 + (m + n - 1) / n
  {
    RunKeepsLevel(providers, metrics, run);
    var last := run[|run| - 1];
    LevelMeansFloorOrCeiling(last, i);
  }

  lemma LevelMeansFloorOrCeiling(strong: seq<nat>, i: nat)
    requires Level(strong) && i < |strong| && forall j :: 0 <= j < |strong| ==> strong[j] >= 1
    ensures
      var n, held := |strong|, strong[i] - 1;
      var m := Sum(strong) - n;
      held == m / n || held == (m + n - 1) / n
  {
    var n, held := |strong|, strong[i] - 1;
    if low :| 0 <= low < n && strong[low] < strong[i] {
      assert strong[low] == held;
      SumBounds(strong, held);
      Sandwich(Sum(strong) - 1, n, held);
    } else {
      SumBounds(strong, held + 1);
      assert Times(n, held + 1) == Times(n, held) + n && Times(n, held + 2) == Times(n, held + 1) + n by {
        TimesDistributes(n, held);
        TimesDistributes(n, held + 1);
      }
      Sandwich(Sum(strong) - n, n, held);
    }
  }

  lemma {:induction false} TimesDistributes(n: nat, k: nat)
    ensures Times(n, k + 1) == Times(n, k) + n
  {
    if n > 0 {
      TimesDistributes(n - 1, k);
    }
  }

  lemma Sandwich(a: int, n: nat, q: nat)
    requires n >= 1 && Times(n, q) <= a < Times(n, q + 1)
    ensures a / n == q
  {
    TimesIsProduct(n, q);
    TimesDistributes(n, q);
    QuotientIsUnique(a, n, q, a - n * q);
  }

  lemma QuotientIsUnique(a: int, n: int, q: int, r: int)
    requires n >= 1 && a == n * q + r && 0 <= r < n
    ensures a / n == q
  {
    var d := a / n - q;
    assert n * (q + d) == n * q + n * d;
    assert d >= 1 ==> n * d >= n;
    assert d <= -1 ==> n * d <= -n;
  }
}
