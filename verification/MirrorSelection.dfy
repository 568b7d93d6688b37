/** From the list of all mirrors to the providers in use: duplicates are dropped, the list is sorted by score, filtered
    and cut, every mirror that is left is probed, and those that answer are sorted by latency. */
module MirrorSelection {
  import opened Wrappers
  import opened ProviderSelection
  import opened OrderLog
  import opened Failover

  const SCORE_SCALE: real := 1_000_000_000_000_000.0
  const LATENCY_TEST_NUM_ATTEMPTS: nat := 5

  datatype Protocol = Http | Https | Rsync | Ftp

  datatype Mirror = Mirror(url: string, protocol: Protocol, score: nat, country: string, ipv4: bool, ipv6: bool)

  datatype Settings = Settings(httpsRequired: bool, ipv4: bool, ipv6: bool, maxScore: real, blacklist: set<string>)

  /** The latency of a mirror, or nothing if the probe fails. */
  type Probe = string -> Option<nat>

  // ---- Dropping duplicates ----

  predicate HasUrl(mirrors: seq<Mirror>, url: string) {
    exists i :: 0 <= i < |mirrors| && mirrors[i].url == url
  }

  function UrlOf(m: Mirror): string {
    m.url
  }

  /** Mirror i is the first one with its URL. */
  ghost predicate IsFirst(mirrors: seq<Mirror>, i: nat) {
    i < |mirrors| && !HasUrl(mirrors[..i], mirrors[i].url)
  }

  lemma OneMore(mirrors: seq<Mirror>, m: Mirror)
    ensures forall url :: HasUrl(mirrors + [m], url) <==> HasUrl(mirrors, url) || url == m.url
  {
    forall url
      ensures HasUrl(mirrors + [m], url) <==> HasUrl(mirrors, url) || url == m.url
    {
      if HasUrl(mirrors, url) {
        var i :| 0 <= i < |mirrors| && mirrors[i].url == url;
        assert (mirrors + [m])[i].url == url;
      }
      assert (mirrors + [m])[|mirrors|] == m;
    }
  }

  /** The kept mirrors come from the given places in the list, in the order of the list. */
  ghost predicate KeepsOrder(urls: seq<Mirror>, mirrors: seq<Mirror>, places: seq<nat>) {
    && |places| == |mirrors|
    && (forall k, l :: 0 <= k < l < |places| ==> places[k] < places[l])
    && (forall k :: 0 <= k < |places| ==> IsFirst(urls, places[k]) && urls[places[k]] == mirrors[k])
  }

  /** Keeps the first mirror with each URL, in the order of the list, and nothing else. */
  method Deduplicate(urls: seq<Mirror>) returns (mirrors: seq<Mirror>)
    ensures Distinct(mirrors, UrlOf)
    ensures exists places :: KeepsOrder(urls, mirrors, places)
    ensures forall i: nat :: IsFirst(urls, i) ==> urls[i] in mirrors
  {
    mirrors := [];
    ghost var places: seq<nat> := [];
    for k := 0 to |urls|
      invariant KeepsOrder(urls, mirrors, places) && forall l :: 0 <= l < |places| ==> places[l] < k
      invariant Distinct(mirrors, UrlOf)
      invariant forall i: nat :: i < k && IsFirst(urls, i) ==> urls[i] in mirrors
      invariant forall url :: HasUrl(mirrors, url) <==> HasUrl(urls[..k], url)
    {
      OneMore(urls[..k], urls[k]);
      assert urls[..k + 1] == urls[..k] + [urls[k]];
      if !HasUrl(mirrors, urls[k].url) {
        assert IsFirst(urls, k);
        OneMore(mirrors, urls[k]);
        mirrors, places := mirrors + [urls[k]], places + [k];
      }
    }
  }

  // ---- Sorting ----

  function ScoreOf(m: Mirror): nat {
    m.score
  }

  function LatencyOf(p: Provider): nat {
    p.latency
  }

  ghost predicate Ascending<T>(s: seq<T>, key: T -> nat) {
    forall i, j :: 0 <= i < j < |s| ==> key(s[i]) <= key(s[j])
  }

  /** Puts x behind everything that is not larger. */
  function Insert<T>(s: seq<T>, x: T, key: T -> nat): seq<T> {
    if s == [] || key(s[|s| - 1]) <= key(x) then s + [x]
    else Insert(s[..|s| - 1], x, key) + [s[|s| - 1]]
  }

  /** A stable sort. */
  function SortByKey<T>(s: seq<T>, key: T -> nat): seq<T> {
    if s == [] then [] else Insert(SortByKey(s[..|s| - 1], key), s[|s| - 1], key)
  }

  lemma {:induction false} InsertAddsOne<T>(s: seq<T>, x: T, key: T -> nat)
    ensures multiset(Insert(s, x, key)) == multiset(s) + multiset{x}
  {
    if s != [] && key(s[|s| - 1]) > key(x) {
      InsertAddsOne(s[..|s| - 1], x, key);
      assert s == s[..|s| - 1] + [s[|s| - 1]];
    }
  }

  lemma {:induction false} InsertKeepsOrder<T>(s: seq<T>, x: T, key: T -> nat)
    requires Ascending(s, key)
    ensures Ascending(Insert(s, x, key), key)
  {
    if s != [] && key(s[|s| - 1]) > key(x) {
      var front, last := s[..|s| - 1], s[|s| - 1];
      InsertKeepsOrder(front, x, key);
      InsertAddsOne(front, x, key);
      var r := Insert(front, x, key);
      forall i | 0 <= i < |r|
        ensures key(r[i]) <= key(last)
      {
        assert r[i] in multiset(r);
        assert r[i] in front || r[i] == x;
      }
    }
  }

  lemma {:induction false} SortAscends<T>(s: seq<T>, key: T -> nat)
    ensures Ascending(SortByKey(s, key), key)
  {
    if s != [] {
      SortAscends(s[..|s| - 1], key);
      InsertKeepsOrder(SortByKey(s[..|s| - 1], key), s[|s| - 1], key);
    }
  }

  lemma MultisetOfAppend<T>(s: seq<T>, x: T)
    ensures multiset(s + [x]) == multiset(s) + multiset{x}
  {
  }

  lemma {:induction false} SortPermutes<T>(s: seq<T>, key: T -> nat)
    ensures multiset(SortByKey(s, key)) == multiset(s)
  {
    if s != [] {
      var front, last := s[..|s| - 1], s[|s| - 1];
      SortPermutes(front, key);
      InsertAddsOne(SortByKey(front, key), last, key);
      MultisetOfAppend(front, last);
      assert s == front + [last];
    }
  }

  /** Sorting gives an ascending permutation. */
  lemma SortIsRight<T>(s: seq<T>, key: T -> nat)
    ensures Ascending(SortByKey(s, key), key)
    ensures multiset(SortByKey(s, key)) == multiset(s)
  {
    SortAscends(s, key);
    SortPermutes(s, key);
  }

  function WithKey<T>(s: seq<T>, key: T -> nat, k: nat): seq<T> {
    if s == [] then []
    else WithKey(s[..|s| - 1], key, k) + if key(s[|s| - 1]) == k then [s[|s| - 1]] else []
  }

  function OneWithKey<T>(x: T, key: T -> nat, k: nat): seq<T> {
    if key(x) == k then [x] else []
  }

  lemma WithKeyOfAppend<T>(s: seq<T>, x: T, key: T -> nat, k: nat)
    ensures WithKey(s + [x], key, k) == WithKey(s, key, k) + OneWithKey(x, key, k)
  {
    assert (s + [x])[..|s|] == s;
  }

  lemma {:induction false} InsertIsStable<T>(s: seq<T>, x: T, key: T -> nat, k: nat)
    ensures WithKey(Insert(s, x, key), key, k) == WithKey(s, key, k) + OneWithKey(x, key, k)
  {
    WithKeyOfAppend(s, x, key, k);
    if s != [] && key(s[|s| - 1]) > key(x) {
      var front, last := s[..|s| - 1], s[|s| - 1];
      InsertIsStable(front, x, key, k);
      WithKeyOfAppend(Insert(front, x, key), last, key, k);
      WithKeyOfAppend(front, last, key, k);
      assert s == front + [last];
      OneOrTheOther(WithKey(front, key, k), OneWithKey(x, key, k), OneWithKey(last, key, k));
    }
  }

  lemma OneOrTheOther<T>(s: seq<T>, a: seq<T>, b: seq<T>)
    requires a == [] || b == []
    ensures s + a + b == s + b + a
  {
    assert s + a + b == s + (a + b) && s + b + a == s + (b + a);
  }

  /** Mirrors with the same score stay in the order of the list. */
  lemma {:induction false} SortIsStable<T>(s: seq<T>, key: T -> nat, k: nat)
    ensures WithKey(SortByKey(s, key), key, k) == WithKey(s, key, k)
  {
    if s != [] {
      var front, last := s[..|s| - 1], s[|s| - 1];
      SortIsStable(front, key, k);
      InsertIsStable(SortByKey(front, key), last, key, k);
      WithKeyOfAppend(front, last, key, k);
      assert s == front + [last];
    }
  }

  /** What the sort of the standard library promises. */
  ghost predicate IsStableSort<T>(sorted: seq<T>, s: seq<T>, key: T -> nat) {
    && multiset(sorted) == multiset(s)
    && Ascending(sorted, key)
    && SameByKey(sorted, s, key)
  }

  ghost predicate SameByKey<T>(a: seq<T>, b: seq<T>, key: T -> nat) {
    forall k :: WithKey(a, key, k) == WithKey(b, key, k)
  }

  /** In an ascending list, no key is larger than the last one. */
  lemma {:induction false} LastIsLargest<T>(s: seq<T>, x: T, key: T -> nat, k: nat)
    requires Ascending(s + [x], key) && WithKey(s + [x], key, k) != []
    ensures k <= key(x)
  {
    WithKeyOfAppend(s, x, key, k);
    if key(x) != k {
      var front, last := s[..|s| - 1], s[|s| - 1];
      assert s == front + [last];
      assert (s + [x])[|s| - 1] == last && (s + [x])[|s|] == x;
      assert Ascending(front + [last], key) by {
        assert forall i :: 0 <= i < |s| ==> (s + [x])[i] == s[i];
      }
      LastIsLargest(front, last, key, k);
    }
  }

  lemma SameSuffix<T>(s: seq<T>, t: seq<T>, x: T, y: T)
    requires s + [x] == t + [y]
    ensures s == t && x == y
  {
    assert (s + [x])[|s|] == x && (t + [y])[|t|] == y;
    assert s == (s + [x])[..|s|] == (t + [y])[..|t|] == t;
  }

  lemma SameLast<T>(a: seq<T>, x: T, b: seq<T>, y: T, key: T -> nat)
    requires Ascending(a + [x], key) && Ascending(b + [y], key) && SameByKey(a + [x], b + [y], key)
    ensures x == y && SameByKey(a, b, key)
  {
    WithKeyOfAppend(a, x, key, key(x));
    WithKeyOfAppend(b, y, key, key(y));
    LastIsLargest(b, y, key, key(x));
    LastIsLargest(a, x, key, key(y));
    SameSuffix(WithKey(a, key, key(x)), WithKey(b, key, key(x)), x, y);
    forall k
      ensures WithKey(a, key, k) == WithKey(b, key, k)
    {
      WithKeyOfAppend(a, x, key, k);
      WithKeyOfAppend(b, y, key, k);
      if key(x) == k {
        SameSuffix(WithKey(a, key, k), WithKey(b, key, k), x, y);
      } else {
        assert WithKey(a, key, k) + [] == WithKey(a, key, k) && WithKey(b, key, k) + [] == WithKey(b, key, k);
      }
    }
  }

  /** A stable sort determines the result, so that it does not matter how the library sorts. */
  lemma {:induction false} StableSortIsUnique<T>(a: seq<T>, b: seq<T>, key: T -> nat)
    requires Ascending(a, key) && Ascending(b, key) && |a| == |b| && SameByKey(a, b, key)
    ensures a == b
  {
    if a != [] {
      var x, y := a[|a| - 1], b[|b| - 1];
      assert a == a[..|a| - 1] + [x] && b == b[..|b| - 1] + [y];
      SameLast(a[..|a| - 1], x, b[..|b| - 1], y, key);
      StableSortIsUnique(a[..|a| - 1], b[..|b| - 1], key);
    }
  }

  /** Stands for the sort of the standard library: whatever keeps its promise has the same result. */
  method SortByScore(mirrors: seq<Mirror>) returns (sorted: seq<Mirror>)
    ensures IsStableSort(sorted, mirrors, ScoreOf)
  {
    sorted := SortByKey(mirrors, ScoreOf);
    SortKeepsPromise(mirrors, ScoreOf);
  }

  lemma SortKeepsPromise<T>(s: seq<T>, key: T -> nat)
    ensures IsStableSort(SortByKey(s, key), s, key)
  {
    SortIsRight(s, key);
    forall k
      ensures WithKey(SortByKey(s, key), key, k) == WithKey(s, key, k)
    {
      SortIsStable(s, key, k);
    }
  }

  lemma AnyStableSortIsTheSame<T>(sorted: seq<T>, s: seq<T>, key: T -> nat)
    requires IsStableSort(sorted, s, key)
    ensures sorted == SortByKey(s, key)
  {
    SortKeepsPromise(s, key);
    assert |sorted| == |multiset(sorted)| == |SortByKey(s, key)| by {
      assert |multiset(SortByKey(s, key))| == |SortByKey(s, key)|;
    }
    StableSortIsUnique(sorted, SortByKey(s, key), key);
  }

  // ---- Filtering ----

  predicate FilterPredicate(m: Mirror, settings: Settings) {
    !(|| (settings.httpsRequired && m.protocol != Https)
      || (settings.ipv4 && !m.ipv4)
      || (settings.ipv6 && !m.ipv6)
      || settings.maxScore < m.score as real / SCORE_SCALE
      || m.url in settings.blacklist)
  }

  predicate Eligible(m: Mirror, settings: Settings, countries: Option<set<string>>) {
    && (m.protocol == Http || m.protocol == Https)
    && FilterPredicate(m, settings)
    && (countries.Some? ==> m.country in countries.value)
  }

  function Filtered(mirrors: seq<Mirror>, settings: Settings, countries: Option<set<string>>): seq<Mirror> {
    if mirrors == [] then []
    else
      var m := mirrors[|mirrors| - 1];
      Filtered(mirrors[..|mirrors| - 1], settings, countries) + if Eligible(m, settings, countries) then [m] else []
  }

  function Take(mirrors: seq<Mirror>, limit: Option<nat>): seq<Mirror> {
    if limit.Some? && limit.value < |mirrors| then mirrors[..limit.value] else mirrors
  }

  /** The mirrors that are probed. */
  function Considered(mirrors: seq<Mirror>, settings: Settings, countries: Option<set<string>>, limit: Option<nat>): seq<Mirror> {
    Take(Filtered(SortByKey(mirrors, ScoreOf), settings, countries), limit)
  }

  lemma {:induction false} FilteredAreEligible(mirrors: seq<Mirror>, settings: Settings, countries: Option<set<string>>)
    ensures forall m :: m in Filtered(mirrors, settings, countries) <==> m in mirrors && Eligible(m, settings, countries)
    ensures multiset(Filtered(mirrors, settings, countries)) <= multiset(mirrors)
  {
    if mirrors != [] {
      var front, last := mirrors[..|mirrors| - 1], mirrors[|mirrors| - 1];
      FilteredAreEligible(front, settings, countries);
      assert mirrors == front + [last];
    }
  }

  lemma {:induction false} FilteredAreAscending(mirrors: seq<Mirror>, settings: Settings, countries: Option<set<string>>)
    requires Ascending(mirrors, ScoreOf)
    ensures Ascending(Filtered(mirrors, settings, countries), ScoreOf)
  {
    if mirrors != [] {
      var front, last := mirrors[..|mirrors| - 1], mirrors[|mirrors| - 1];
      FilteredAreAscending(front, settings, countries);
      FilteredAreEligible(front, settings, countries);
      forall i | 0 <= i < |Filtered(front, settings, countries)|
        ensures ScoreOf(Filtered(front, settings, countries)[i]) <= ScoreOf(last)
      {
        assert Filtered(front, settings, countries)[i] in front;
      }
    }
  }

  /** Only eligible mirrors are probed, at most as many as the limit says, and one that is eligible but not probed has lost
      to as many mirrors as the limit allows, none of which has a higher score. */
  lemma ConsideredAreTheBest(mirrors: seq<Mirror>, settings: Settings, countries: Option<set<string>>, limit: Option<nat>,
                             m: Mirror)
    ensures
      var considered := Considered(mirrors, settings, countries, limit);
      && (m in considered ==> m in mirrors && Eligible(m, settings, countries))
      && (limit.Some? ==> |considered| <= limit.value)
      && (m in mirrors && Eligible(m, settings, countries) && m !in considered ==>
            limit == Some(|considered|) && forall c :: c in considered ==> c.score <= m.score)
  {
    var sorted := SortByKey(mirrors, ScoreOf);
    SortIsRight(mirrors, ScoreOf);
    FilteredAreEligible(sorted, settings, countries);
    FilteredAreAscending(sorted, settings, countries);
    SameElements(sorted, mirrors);
    if m in Filtered(sorted, settings, countries) {
      TakeTheFirst(Filtered(sorted, settings, countries), limit, m);
    }
  }

  lemma TakeTheFirst(filtered: seq<Mirror>, limit: Option<nat>, m: Mirror)
    requires Ascending(filtered, ScoreOf) && m in filtered
    ensures var considered := Take(filtered, limit);
            && (forall c :: c in considered ==> c in filtered)
            && (limit.Some? ==> |considered| <= limit.value)
            && (m !in considered ==> limit == Some(|considered|) && forall c :: c in considered ==> c.score <= m.score)
  {
    var considered := Take(filtered, limit);
    var k :| 0 <= k < |filtered| && filtered[k] == m;
    assert k < |considered| ==> considered[k] == m;
    forall c | c in considered && m !in considered
      ensures c.score <= m.score
    {
      var l :| 0 <= l < |considered| && considered[l] == c;
      assert ScoreOf(filtered[l]) <= ScoreOf(filtered[k]);
    }
  }

  lemma SameElements<T>(s: seq<T>, t: seq<T>)
    requires multiset(s) == multiset(t)
    ensures forall x :: x in s <==> x in t
  {
    forall x
      ensures x in s <==> x in t
    {
      assert x in s <==> x in multiset(s);
    }
  }

  // ---- Probing ----

  /** The mirrors that answer the probe, with their latencies. */
  function Answering(mirrors: seq<Mirror>, probe: Probe): seq<Provider> {
    if mirrors == [] then []
    else
      var m := mirrors[|mirrors| - 1];
      Answering(mirrors[..|mirrors| - 1], probe)
      + match probe(m.url) case Some(latency) => [Provider(m.url, latency)] case None => []
  }

  /** The result of the selection: the answering mirrors among those considered, the fastest first. The sort
      leaves open in which order equally fast ones come. */
  ghost predicate IsRated(providers: seq<Provider>, considered: seq<Mirror>, probe: Probe) {
    && multiset(providers) == multiset(Answering(considered, probe))
    && Ascending(providers, LatencyOf)
  }

  method SortUnstableByLatency(s: seq<Provider>) returns (r: seq<Provider>)
    ensures multiset(r) == multiset(s) && Ascending(r, LatencyOf)
  {
    SortIsRight(s, LatencyOf);
    r := SortByKey(s, LatencyOf);
  }

  method RatedProviders(mirrors: seq<Mirror>, settings: Settings, countries: Option<set<string>>, limit: Option<nat>,
                        probe: Probe)
    returns (providers: seq<Provider>)
    ensures IsRated(providers, Considered(mirrors, settings, countries, limit), probe)
  {
    var sorted := SortByScore(mirrors);
    AnyStableSortIsTheSame(sorted, mirrors, ScoreOf);
    var considered := Take(Filtered(sorted, settings, countries), limit);
    var withLatencies: seq<Provider> := [];
    for i := 0 to |considered|
      invariant withLatencies == Answering(considered[..i], probe)
    {
      assert considered[..i + 1][..i] == considered[..i];
      match probe(considered[i].url)
      case None =>
      case Some(latency) => withLatencies := withLatencies + [Provider(considered[i].url, latency)];
    }
    assert considered[..|considered|] == considered;
    providers := SortUnstableByLatency(withLatencies);
  }

  function Relax(settings: Settings): Settings {
    settings.(maxScore := settings.maxScore + 3.0)
  }

  /** The settings of the k-th run: all runs but the first are relaxed, by the same amount. */
  function SettingsOfRun(settings: Settings, k: nat): Settings {
    if k == 0 then settings else Relax(settings)
  }

  /** Nobody answers in the k-th run. */
  ghost predicate RunIsInVain(mirrors: seq<Mirror>, settings: Settings, countries: Option<set<string>>, limit: Option<nat>,
                              probes: nat -> Probe, k: nat) {
    Answering(Considered(mirrors, SettingsOfRun(settings, k), countries, limit), probes(k)) == []
  }

  lemma NoProvidersMeansInVain(considered: seq<Mirror>, probe: Probe)
    requires IsRated([], considered, probe)
    ensures Answering(considered, probe) == []
  {
    var answering := Answering(considered, probe);
    assert |answering| == |multiset(answering)| == 0;
  }

  /** The k-th run finds the given providers. */
  ghost predicate RunFinds(mirrors: seq<Mirror>, settings: Settings, countries: Option<set<string>>, limit: Option<nat>,
                           probes: nat -> Probe, k: nat, providers: seq<Provider>) {
    IsRated(providers, Considered(mirrors, SettingsOfRun(settings, k), countries, limit), probes(k))
  }

  /** The k-th run: all runs but the first have relaxed settings. */
  method RatedProvidersOnce(mirrors: seq<Mirror>, settings: Settings, countries: Option<set<string>>, limit: Option<nat>,
                            probes: nat -> Probe, k: nat)
    returns (providers: seq<Provider>)
    ensures RunFinds(mirrors, settings, countries, limit, probes, k, providers)
    ensures providers == [] ==> RunIsInVain(mirrors, settings, countries, limit, probes, k)
  {
    var relaxed := if k == 0 then settings else Relax(settings);
    providers := RatedProviders(mirrors, relaxed, countries, limit, probes(k));
    if providers == [] {
      NoProvidersMeansInVain(Considered(mirrors, relaxed, countries, limit), probes(k));
    }
  }

  /** Makes up to five runs, until one finds a provider. */
  method RatedProvidersRetry(mirrors: seq<Mirror>, settings: Settings, countries: Option<set<string>>, limit: Option<nat>,
                             probes: nat -> Probe)
    returns (providers: seq<Provider>, runs: nat)
    ensures runs <= 5 && (providers == [] <==> runs == 5)
    ensures providers != [] ==> RunFinds(mirrors, settings, countries, limit, probes, runs, providers)
    ensures forall k :: 0 <= k < runs ==> RunIsInVain(mirrors, settings, countries, limit, probes, k)
  {
    for i := 0 to LATENCY_TEST_NUM_ATTEMPTS
      invariant forall k :: 0 <= k < i ==> RunIsInVain(mirrors, settings, countries, limit, probes, k)
    {
      var found := RatedProvidersOnce(mirrors, settings, countries, limit, probes, i);
      if found != [] {
        return found, i;
      }
    }
    return [], LATENCY_TEST_NUM_ATTEMPTS;
  }

  // ---- The selection as a whole ----

  lemma {:induction false} AnsweringAreProbed(mirrors: seq<Mirror>, probe: Probe)
    ensures forall p :: p in Answering(mirrors, probe) <==>
              exists m :: m in mirrors && m.url == p.id && probe(m.url) == Some(p.latency)
    ensures Distinct(mirrors, UrlOf) ==> DistinctIds(Answering(mirrors, probe))
  {
    if mirrors != [] {
      var front, last := mirrors[..|mirrors| - 1], mirrors[|mirrors| - 1];
      AnsweringAreProbed(front, probe);
      assert mirrors == front + [last];
      if Distinct(mirrors, UrlOf) {
        assert Distinct(front, UrlOf);
        forall i | 0 <= i < |Answering(front, probe)|
          ensures Answering(front, probe)[i].id != last.url
        {
          assert Answering(front, probe)[i] in Answering(front, probe);
        }
      }
    }
  }

  /** A provider in use is an eligible mirror of the list that has answered. */
  lemma ProvidersAreEligible(mirrors: seq<Mirror>, settings: Settings, countries: Option<set<string>>, limit: Option<nat>,
                             probe: Probe, providers: seq<Provider>, p: Provider)
    returns (m: Mirror)
    requires IsRated(providers, Considered(mirrors, settings, countries, limit), probe) && p in providers
    ensures m in mirrors && Eligible(m, settings, countries) && m.url == p.id && probe(m.url) == Some(p.latency)
  {
    var considered := Considered(mirrors, settings, countries, limit);
    AnsweringAreProbed(considered, probe);
    SameElements(providers, Answering(considered, probe));
    m :| m in considered && m.url == p.id && probe(m.url) == Some(p.latency);
    ConsideredAreTheBest(mirrors, settings, countries, limit, m);
  }

  /** Without a limit, every eligible mirror of the list that has answered is a provider in use. */
  lemma EligibleAreProviders(mirrors: seq<Mirror>, settings: Settings, countries: Option<set<string>>, probe: Probe,
                             providers: seq<Provider>, m: Mirror, latency: nat)
    requires IsRated(providers, Considered(mirrors, settings, countries, None), probe)
    requires m in mirrors && Eligible(m, settings, countries) && probe(m.url) == Some(latency)
    ensures Provider(m.url, latency) in providers
  {
    var considered := Considered(mirrors, settings, countries, None);
    AnsweringAreProbed(considered, probe);
    SameElements(providers, Answering(considered, probe));
    ConsideredAreTheBest(mirrors, settings, countries, None, m);
    assert m in considered;
  }

  // ---- No duplicates ----

  ghost predicate Unique<T(!new)>(s: multiset<T>, id: T -> string) {
    && (forall x, y :: x in s && y in s && id(x) == id(y) ==> x == y)
    && (forall x :: s[x] <= 1)
  }

  lemma UniqueGrows<T(!new)>(s: multiset<T>, x: T, id: T -> string)
    ensures Unique(s + multiset{x}, id) <==> Unique(s, id) && forall y :: y in s ==> id(y) != id(x)
  {
    var more := s + multiset{x};
    assert forall y :: more[y] == s[y] + if y == x then 1 else 0;
    if Unique(more, id) {
      forall y | y in s
        ensures id(y) != id(x)
      {
        assert y in more && x in more && more[x] <= 1;
      }
      assert forall y :: s[y] <= more[y];
    }
  }

  lemma DistinctGrows<T>(s: seq<T>, x: T, id: T -> string)
    ensures Distinct(s + [x], id) <==> Distinct(s, id) && forall y :: y in s ==> id(y) != id(x)
  {
    var more := s + [x];
    if Distinct(more, id) {
      forall i, j | 0 <= i < j < |s|
        ensures id(s[i]) != id(s[j])
      {
        assert more[i] == s[i] && more[j] == s[j];
      }
      forall y | y in s
        ensures id(y) != id(x)
      {
        var i :| 0 <= i < |s| && s[i] == y;
        assert more[i] == y && more[|s|] == x;
      }
    }
  }

  /** Distinctness does not depend on the order. */
  lemma {:induction false} DistinctAsMultiset<T(!new)>(s: seq<T>, id: T -> string)
    ensures Distinct(s, id) <==> Unique(multiset(s), id)
  {
    if s != [] {
      var front, last := s[..|s| - 1], s[|s| - 1];
      assert s == front + [last] && multiset(s) == multiset(front) + multiset{last};
      DistinctAsMultiset(front, id);
      UniqueGrows(multiset(front), last, id);
      DistinctGrows(front, last, id);
      ElementsAgree(front);
    }
  }

  lemma ElementsAgree<T>(s: seq<T>)
    ensures forall y :: y in s <==> y in multiset(s)
  {
  }

  lemma UniqueShrinks<T(!new)>(s: multiset<T>, t: multiset<T>, id: T -> string)
    requires s <= t && Unique(t, id)
    ensures Unique(s, id)
  {
  }

  lemma ConsideredAreDistinct(mirrors: seq<Mirror>, settings: Settings, countries: Option<set<string>>, limit: Option<nat>)
    requires Distinct(mirrors, UrlOf)
    ensures Distinct(Considered(mirrors, settings, countries, limit), UrlOf)
  {
    var sorted := SortByKey(mirrors, ScoreOf);
    var filtered := Filtered(sorted, settings, countries);
    DistinctAsMultiset(mirrors, UrlOf);
    SortIsRight(mirrors, ScoreOf);
    FilteredAreEligible(sorted, settings, countries);
    UniqueShrinks(multiset(filtered), multiset(mirrors), UrlOf);
    DistinctAsMultiset(filtered, UrlOf);
  }

  /** If the list has no duplicates, then neither have the providers, however the mirrors are rated. */
  lemma ProvidersAreDistinct(mirrors: seq<Mirror>, settings: Settings, countries: Option<set<string>>, limit: Option<nat>,
                             probe: Probe, providers: seq<Provider>)
    requires Distinct(mirrors, UrlOf) && IsRated(providers, Considered(mirrors, settings, countries, limit), probe)
    ensures DistinctIds(providers)
  {
    var considered := Considered(mirrors, settings, countries, limit);
    ConsideredAreDistinct(mirrors, settings, countries, limit);
    AnsweringAreProbed(considered, probe);
    DistinctAsMultiset(Answering(considered, probe), IdOf);
    DistinctAsMultiset(providers, IdOf);
  }

  /** What is asked of a mirror in the given run, in terms of the settings: from the second run on, the score may be higher. */
  predicate MeetsSettings(m: Mirror, settings: Settings, countries: Option<set<string>>, run: nat) {
    && m.url !in settings.blacklist
    && (m.protocol == Http || m.protocol == Https) && (settings.httpsRequired ==> m.protocol == Https)
    && (settings.ipv4 ==> m.ipv4) && (settings.ipv6 ==> m.ipv6)
    && (countries.Some? ==> m.country in countries.value)
    && m.score as real / 1_000_000_000_000_000.0 <= if run == 0 then settings.maxScore else settings.maxScore + 3.0
  }

  lemma EligibleExactlyWhen(m: Mirror, settings: Settings, countries: Option<set<string>>, run: nat)
    ensures Eligible(m, SettingsOfRun(settings, run), countries) <==> MeetsSettings(m, settings, countries, run)
  {
  }

  /** The provider is the first mirror with its URL, meets the settings, and has answered in the given run. */
  ghost predicate ComesFrom(p: Provider, urls: seq<Mirror>, i: nat, settings: Settings, countries: Option<set<string>>,
                            probes: nat -> Probe, run: nat) {
    && IsFirst(urls, i) && urls[i].url == p.id && MeetsSettings(urls[i], settings, countries, run)
    && probes(run)(p.id) == Some(p.latency)
  }

  /** A provider found in the given run over the kept mirrors is a first mirror that meets the settings and answers. */
  lemma FoundComesFrom(urls: seq<Mirror>, mirrors: seq<Mirror>, places: seq<nat>, settings: Settings,
                       countries: Option<set<string>>, limit: Option<nat>, probes: nat -> Probe, run: nat,
                       providers: seq<Provider>, p: Provider)
    returns (i: nat)
    requires KeepsOrder(urls, mirrors, places) && RunFinds(mirrors, settings, countries, limit, probes, run, providers)
    requires p in providers
    ensures ComesFrom(p, urls, i, settings, countries, probes, run)
  {
    var m := ProvidersAreEligible(mirrors, SettingsOfRun(settings, run), countries, limit, probes(run), providers, p);
    var k :| 0 <= k < |mirrors| && mirrors[k] == m;
    EligibleExactlyWhen(mirrors[k], settings, countries, run);
    i := places[k];
  }

  /** Without a limit, each first mirror that meets the settings and answers is found. */
  lemma AllAreFound(urls: seq<Mirror>, mirrors: seq<Mirror>, settings: Settings, countries: Option<set<string>>,
                    probes: nat -> Probe, run: nat, providers: seq<Provider>, p: Provider, i: nat)
    requires RunFinds(mirrors, settings, countries, None, probes, run, providers)
    requires ComesFrom(p, urls, i, settings, countries, probes, run) && urls[i] in mirrors
    ensures p in providers
  {
    EligibleExactlyWhen(urls[i], settings, countries, run);
    EligibleAreProviders(mirrors, SettingsOfRun(settings, run), countries, probes(run), providers, urls[i], p.latency);
  }

  /** The automatic selection, from the downloaded list to the providers of the job context: each provider is the first mirror
      with its URL, meets the settings of the run that found it, and has answered; without a limit, the providers are all of
      these, and the runs before have found none. The fastest comes first, and the check for duplicate providers never fires. */
  method SelectAutomatically(urls: seq<Mirror>, settings: Settings, countries: Option<set<string>>, limit: Option<nat>,
                             probes: nat -> Probe)
    returns (providers: seq<Provider>, runs: nat, unique: bool)
    ensures unique && DistinctIds(providers)
    ensures forall i, j :: 0 <= i < j < |providers| ==> providers[i].latency <= providers[j].latency
    ensures runs <= 5 && (providers == [] <==> runs == 5)
    ensures forall p :: p in providers ==> exists i: nat :: ComesFrom(p, urls, i, settings, countries, probes, runs)
    ensures limit == None && runs < 5 ==>
      forall p, i: nat :: ComesFrom(p, urls, i, settings, countries, probes, runs) ==> p in providers
    ensures limit == None ==>
      forall p, i: nat, k: nat :: k < runs ==> !ComesFrom(p, urls, i, settings, countries, probes, k)
  {
    var mirrors := Deduplicate(urls);
    ghost var places :| KeepsOrder(urls, mirrors, places);
    providers, runs := RatedProvidersRetry(mirrors, settings, countries, limit, probes);
    if providers != [] {
      ProvidersAreDistinct(mirrors, SettingsOfRun(settings, runs), countries, limit, probes(runs), providers);
      forall p | p in providers
        ensures exists i: nat :: ComesFrom(p, urls, i, settings, countries, probes, runs)
      {
        var i := FoundComesFrom(urls, mirrors, places, settings, countries, limit, probes, runs, providers, p);
      }
      forall p, i: nat | limit == None && ComesFrom(p, urls, i, settings, countries, probes, runs)
        ensures p in providers
      {
        AllAreFound(urls, mirrors, settings, countries, probes, runs, providers, p, i);
      }
    }
    forall p, i: nat, k: nat | k < runs && limit == None
      ensures !ComesFrom(p, urls, i, settings, countries, probes, k)
    {
      assert RunIsInVain(mirrors, settings, countries, limit, probes, k);
      if ComesFrom(p, urls, i, settings, countries, probes, k) {
        AllAreFound(urls, mirrors, settings, countries, probes, k, [], p, i);
      }
    }
    unique := CheckDuplicates(providers);
  }
}
