/** The record of one order: which providers are tried, what is reported to the client, what becomes of the
    package file, and what happens to the shared counters. */
module OrderLog {
  import opened Wrappers
  import opened CompleteFileSize
  import opened ProviderSelection
  import opened ProviderMetrics
  import opened CacheState
  import opened Download

  const NUM_MAX_ATTEMPTS: nat := 25

  datatype Order = Order(cacheable: bool, retryable: bool)

  datatype Attempt = Attempt(provider: ProviderId, lastChance: bool, result: JobResult, sent: seq<FlexoProgress>, disk: Disk)

  /** The attempts in order, starting from what is on disk. */
  datatype Log = Begin(start: Disk) | Then(earlier: Log, last: Attempt)

  predicate IsRetried(r: JobResult) {
    r.Partial? || r.Error? || r == JobResult.Unavailable
  }

  /** A provider that does not have the file is not to blame. */
  predicate IsPunished(r: JobResult) {
    r.Partial? || r.Error?
  }

  ghost function Ids(providers: seq<Provider>): set<ProviderId> {
    set p | p in providers :: p.id
  }

  /** No two providers share an identifier. */
  ghost predicate DistinctIds(providers: seq<Provider>) {
    Distinct(providers, IdOf)
  }

  /** The providers an order may be served from. */
  ghost function Pool(providers: seq<Provider>, custom: Option<Provider>): set<ProviderId> {
    match custom case None => Ids(providers) case Some(p) => {p.id}
  }

  /** At most one candidate is left exactly if every provider is excluded or chosen. */
  lemma CandidatesLeft(providers: seq<Provider>, strong: seq<nat>, cacheable: bool, metrics: Ledger,
                       excluded: set<ProviderId>, chosen: nat)
    requires |strong| == |providers|
    requires IsChoice(providers, strong, Rate(cacheable, metrics, excluded), chosen)
    ensures DistinctIds(providers) ==>
      (|Candidates(providers, strong, Rate(cacheable, metrics, excluded), |providers|)| <= 1
       <==> Ids(providers) <= excluded + {providers[chosen].id})
  {
    var rate := Rate(cacheable, metrics, excluded);
    var left := Candidates(providers, strong, rate, |providers|);
    CandidatesAreComplete(providers, strong, rate, |providers|);
    assert chosen in left;
    if |left| <= 1 {
      OthersAreExcluded(providers, strong, rate, excluded, chosen, left);
    } else if DistinctIds(providers) {
      var other := if left[0] == chosen then left[1] else left[0];
      assert other in left && other != chosen;
      assert rate(providers[other], strong[other]).Include?;
      var i, j := Min(other, chosen), Max(other, chosen);
      assert providers[i].id != providers[j].id;
      assert providers[other] in providers && providers[other].id in Ids(providers);
    }
  }

  lemma OthersAreExcluded(providers: seq<Provider>, strong: seq<nat>, rate: Rating, excluded: set<ProviderId>, chosen: nat,
                          left: seq<nat>)
    requires |strong| == |providers| && chosen < |providers| && chosen in left && |left| == 1
    requires forall j: nat :: j < |providers| && providers[j].id !in excluded ==> rate(providers[j], strong[j]).Include?
    requires forall j: nat :: j < |providers| && rate(providers[j], strong[j]).Include? ==> j in left
    ensures Ids(providers) <= excluded + {providers[chosen].id}
  {
    forall id | id in Ids(providers)
      ensures id in excluded || id == providers[chosen].id
    {
      var p :| p in providers && p.id == id;
      var j: nat :| j < |providers| && providers[j] == p;
      if id !in excluded {
        assert rate(providers[j], strong[j]).Include?;
        assert left[0] == j == chosen;
      }
    }
  }

  function Length(log: Log): nat {
    match log case Begin(_) => 0 case Then(earlier, _) => Length(earlier) + 1
  }

  function Tried(log: Log): set<ProviderId> {
    match log case Begin(_) => {} case Then(earlier, a) => Tried(earlier) + {a.provider}
  }

  function PunishedBy(log: Log): seq<ProviderId> {
    match log
    case Begin(_) => []
    case Then(earlier, a) => PunishedBy(earlier) + if IsPunished(a.result) then [a.provider] else []
  }

  function Messages(log: Log): seq<FlexoProgress> {
    match log case Begin(_) => [] case Then(earlier, a) => Messages(earlier) + a.sent
  }

  function DiskAfter(log: Log): Disk {
    match log case Begin(disk) => disk case Then(_, a) => a.disk
  }

  /** What an attempt does to the shared counters. */
  function OperationsOfAttempt(a: Attempt, fromPool: bool): seq<Operation> {
    (if fromPool then [Used(a.provider)] else []) + (if IsPunished(a.result) then [Punished(a.provider)] else [])
  }

  function OperationsOfAttempts(log: Log, fromPool: bool): seq<Operation> {
    match log
    case Begin(_) => []
    case Then(earlier, a) => OperationsOfAttempts(earlier, fromPool) + OperationsOfAttempt(a, fromPool)
  }

  /** An order that does not succeed in the end takes back all that it has blamed on providers. */
  function OperationsAtEnd(log: Log): seq<Operation> {
    if log.Then? && log.last.result.Complete? then [] else [Pardoned(PunishedBy(log))]
  }

  function OperationsOf(log: Log, fromPool: bool): seq<Operation> {
    OperationsOfAttempts(log, fromPool) + OperationsAtEnd(log)
  }

  // ---- The rules of a single attempt ----

  predicate IsFinalWord(m: FlexoProgress) {
    m == FlexoProgress.Unavailable || m == OrderError
  }

  ghost predicate Open(sent: seq<FlexoProgress>) {
    forall i :: 0 <= i < |sent| ==> !IsFinalWord(sent[i])
  }

  /** What one attempt may report, given its result and the size of the content. */
  ghost predicate RightTrace(sent: seq<FlexoProgress>, lastChance: bool, r: JobResult, size: nat) {
    && RightSizes(sent, size)
    && (|| (AttemptMessages(sent, lastChance) && (r.Complete? || IsRetried(r))
            && (r.Complete? ==> Open(sent) && sent != [] && sent[0].JobSize?))
        || (sent == [OrderError] && (r == ClientError || r == UnexpectedInternalError)))
  }

  /** Between two attempts: the file is the beginning of the content, and a non-empty file has its size recorded. */
  ghost predicate Sound(disk: Disk, content: seq<bv8>, cacheable: bool) {
    && Bytes(disk) <= content
    && (cacheable && Bytes(disk) != [] ==> disk.cfs == Some(Print(|content|)))
  }

  /** The file keeps what it had and stays sound; it is complete when the attempt says so. */
  ghost predicate RightDisk(before: Disk, a: Attempt, content: seq<bv8>, cacheable: bool) {
    && Sound(a.disk, content, cacheable)
    && Bytes(before) <= Bytes(a.disk)
    && (a.result.Complete? || Completed in a.sent ==> Bytes(a.disk) == content)
  }

  /** The provider has not been tried before, and it is the last chance exactly at the 25th attempt, with the last
      provider, or if the order must not be retried. */
  ghost predicate RightProvider(earlier: Log, a: Attempt, order: Order, pool: set<ProviderId>) {
    && a.provider in pool - Tried(earlier)
    && (a.lastChance <==>
          Length(earlier) + 1 >= NUM_MAX_ATTEMPTS || pool <= Tried(earlier) + {a.provider} || !order.retryable)
  }

  ghost predicate RightAttempt(earlier: Log, a: Attempt, order: Order, pool: set<ProviderId>, content: seq<bv8>) {
    && RightProvider(earlier, a, order, pool)
    && RightTrace(a.sent, a.lastChance, a.result, |content|)
    && RightDisk(DiskAfter(earlier), a, content, order.cacheable)
  }

  /** None of the attempts so far has ended the order. */
  ghost predicate Running(log: Log, order: Order, pool: set<ProviderId>, content: seq<bv8>) {
    match log
    case Begin(disk) => Sound(disk, content, order.cacheable)
    case Then(earlier, a) =>
      && Running(earlier, order, pool, content)
      && RightAttempt(earlier, a, order, pool, content)
      && IsRetried(a.result) && !a.lastChance
  }

  /** The last attempt has ended the order: it succeeded, it failed for good, or it was the last chance. */
  ghost predicate Finished(log: Log, order: Order, pool: set<ProviderId>, content: seq<bv8>) {
    match log
    case Begin(_) => false
    case Then(earlier, a) =>
      && Running(earlier, order, pool, content)
      && RightAttempt(earlier, a, order, pool, content)
      && (IsRetried(a.result) ==> a.lastChance)
  }

  // ---- Termination and completeness ----

  /** An order that goes on has a provider left that it has not tried. */
  lemma {:induction false} RunningHasNext(log: Log, order: Order, pool: set<ProviderId>, content: seq<bv8>)
    requires Running(log, order, pool, content) && pool != {}
    ensures |Tried(log)| == Length(log) < NUM_MAX_ATTEMPTS && Tried(log) < pool
    ensures log.Then? ==> order.retryable
  {
    match log
    case Begin(_) =>
    case Then(earlier, a) => RunningHasNext(earlier, order, pool, content);
  }

  /** An order ends after at most 25 attempts, no more than there are providers, and no provider is tried twice. */
  lemma EveryProviderAtMostOnce(log: Log, order: Order, pool: set<ProviderId>, content: seq<bv8>)
    requires Finished(log, order, pool, content)
    ensures |Tried(log)| == Length(log) && Tried(log) <= pool
    ensures 1 <= Length(log) <= Min(25, |pool|)
  {
    assert log.last.provider in pool;
    RunningHasNext(log.earlier, order, pool, content);
    SubsetSize(Tried(log), pool);
  }

  function ResultAt(log: Log, id: ProviderId): Option<JobResult> {
    match log
    case Begin(_) => None
    case Then(earlier, a) => if a.provider == id then Some(a.result) else ResultAt(earlier, id)
  }

  lemma {:induction false} TriedHaveFailed(log: Log, order: Order, pool: set<ProviderId>, content: seq<bv8>, id: ProviderId)
    requires Running(log, order, pool, content)
    ensures id in Tried(log) ==> ResultAt(log, id).Some? && IsRetried(ResultAt(log, id).value)
  {
    match log
    case Begin(_) =>
    case Then(earlier, _) => TriedHaveFailed(earlier, order, pool, content, id);
  }

  /** A retryable order with at most 25 providers fails with a retryable error only if every provider has failed it. */
  lemma FailureMeansEverywhere(log: Log, order: Order, pool: set<ProviderId>, content: seq<bv8>, id: ProviderId)
    requires Finished(log, order, pool, content) && order.retryable && |pool| <= 25
    requires IsRetried(log.last.result) && id in pool
    ensures ResultAt(log, id).Some? && IsRetried(ResultAt(log, id).value)
  {
    EveryProviderAtMostOnce(log, order, pool, content);
    SubsetSize(Tried(log), pool);
    TriedHaveFailed(log.earlier, order, pool, content, id);
  }

  // ---- The package file over a whole order ----

  lemma {:induction false} RunningKeepsFile(log: Log, order: Order, pool: set<ProviderId>, content: seq<bv8>, start: Disk)
    requires Running(log, order, pool, content) && start == StartOf(log)
    ensures Sound(DiskAfter(log), content, order.cacheable) && Bytes(start) <= Bytes(DiskAfter(log))
  {
    match log
    case Begin(_) =>
    case Then(earlier, _) => RunningKeepsFile(earlier, order, pool, content, start);
  }

  function StartOf(log: Log): Disk {
    match log case Begin(disk) => disk case Then(earlier, _) => StartOf(earlier)
  }

  /** Across all attempts of an order with honest mirrors, wherever they break off or fail, the package file only grows,
      stays the beginning of the true content, and has its true size recorded; it is whole if the order succeeds. */
  lemma OrderKeepsFile(log: Log, order: Order, pool: set<ProviderId>, content: seq<bv8>)
    requires Finished(log, order, pool, content)
    ensures Sound(DiskAfter(log), content, order.cacheable) && Bytes(StartOf(log)) <= Bytes(DiskAfter(log))
    ensures log.last.result.Complete? ==> Bytes(DiskAfter(log)) == content
  {
    RunningKeepsFile(log.earlier, order, pool, content, StartOf(log));
  }

  // ---- The messages over a whole order ----

  /** The first message is never progress, progress follows directly on the size or on other progress of the same
      attempt, a final word is the last message, and every announced size is right. */
  ghost predicate Protocol(sent: seq<FlexoProgress>, size: nat) {
    && (forall i :: 0 <= i < |sent| && sent[i].Progress? ==> i > 0 && (sent[i - 1].JobSize? || sent[i - 1].Progress?))
    && (forall i :: 0 <= i < |sent| && IsFinalWord(sent[i]) ==> i == |sent| - 1)
    && RightSizes(sent, size)
  }

  lemma ProtocolGoesOn(sent: seq<FlexoProgress>, more: seq<FlexoProgress>, lastChance: bool, r: JobResult, size: nat)
    requires Protocol(sent, size) && Open(sent) && RightTrace(more, lastChance, r, size)
    ensures Protocol(sent + more, size)
    ensures r.Complete? || (IsRetried(r) && !lastChance) ==> Open(sent + more)
  {
    var all := sent + more;
    forall i | 0 <= i < |all| && all[i].Progress?
      ensures i > 0 && (all[i - 1].JobSize? || all[i - 1].Progress?)
    {
      if i > |sent| {
        assert all[i - 1] == more[i - 1 - |sent|];
      }
    }
  }

  lemma {:induction false} RunningKeepsProtocol(log: Log, order: Order, pool: set<ProviderId>, content: seq<bv8>)
    requires Running(log, order, pool, content)
    ensures Protocol(Messages(log), |content|) && Open(Messages(log))
  {
    match log
    case Begin(_) =>
    case Then(earlier, a) =>
      RunningKeepsProtocol(earlier, order, pool, content);
      ProtocolGoesOn(Messages(earlier), a.sent, a.lastChance, a.result, |content|);
  }

  /** The messages of a whole order keep to the protocol, so the thread that waits for the content length never sees
      progress first. A final word comes last of all, and an order that succeeds sends none. */
  lemma OrderKeepsProtocol(log: Log, order: Order, pool: set<ProviderId>, content: seq<bv8>)
    requires Finished(log, order, pool, content)
    ensures Protocol(Messages(log), |content|)
    ensures log.last.result.Complete? ==>
      Open(Messages(log)) && Messages(log) != [] && (Messages(log)[0] == JobSize(|content|) || Messages(log)[0] == Completed)
    ensures Messages(log) != [] ==> !Messages(log)[0].Progress?
  {
    RunningKeepsProtocol(log.earlier, order, pool, content);
    ProtocolGoesOn(Messages(log.earlier), log.last.sent, log.last.lastChance, log.last.result, |content|);
  }

  // ---- The counters over a whole order ----

  /** The first punishment of a provider without an entry only creates the entry. An order on pool providers has
      recorded a usage before that. */
  predicate IsMissed(m: Ledger, fromPool: bool, punished: seq<ProviderId>, id: ProviderId) {
    !fromPool && id !in m && id in punished
  }

  /** The counters of one provider after the attempts of an order, starting from m. */
  ghost predicate CountersAfter(m: Ledger, m': Ledger, fromPool: bool, tried: set<ProviderId>, punished: seq<ProviderId>,
                                id: ProviderId) {
    && FailuresOf(m', id)
         == Shifted(FailuresOf(m, id), multiset(punished)[id], if IsMissed(m, fromPool, punished, id) then 1 else 0)
    && (id in m' <==> id in m || (fromPool && id in tried) || id in punished)
  }

  lemma UseOnCounters(m: Ledger, m1: Ledger, tried: set<ProviderId>, punished: seq<ProviderId>, p: ProviderId, id: ProviderId)
    requires CountersAfter(m, m1, true, tried, punished, id)
    ensures CountersAfter(m, AfterUse(m1, p), true, tried + {p}, punished, id)
  {
  }

  lemma PunishmentOnCounters(m: Ledger, m1: Ledger, fromPool: bool, tried: set<ProviderId>, punished: seq<ProviderId>,
                             p: ProviderId, id: ProviderId)
    requires CountersAfter(m, m1, fromPool, tried, punished, id) && p in tried
    ensures CountersAfter(m, AfterPunishment(m1, p), fromPool, tried, punished + [p], id)
  {
    assert multiset(punished + [p])[id] == multiset(punished)[id] + if p == id then 1 else 0;
    if p == id && id in m1 {
      IncrementAdds(FailuresOf(m, id) + multiset(punished)[id] - if IsMissed(m, fromPool, punished, id) then 1 else 0);
    } else if p == id {
      assert multiset(punished)[id] == 0;
    }
  }

  lemma AttemptOnCounters(m: Ledger, m1: Ledger, fromPool: bool, tried: set<ProviderId>, punished: seq<ProviderId>,
                          a: Attempt, id: ProviderId)
    requires CountersAfter(m, m1, fromPool, tried, punished, id)
    ensures CountersAfter(m, Apply(m1, OperationsOfAttempt(a, fromPool)), fromPool, tried + {a.provider},
                          punished + if IsPunished(a.result) then [a.provider] else [], id)
  {
    var used, blamed := if fromPool then [Used(a.provider)] else [], if IsPunished(a.result) then [Punished(a.provider)] else [];
    var m2 := if fromPool then AfterUse(m1, a.provider) else m1;
    ApplyToOne(m1, Used(a.provider));
    ApplyInTwoParts(m1, used, blamed);
    if fromPool {
      UseOnCounters(m, m1, tried, punished, a.provider, id);
    }
    ApplyToOne(m2, Punished(a.provider));
    if IsPunished(a.result) {
      PunishmentOnCounters(m, m2, fromPool, tried + {a.provider}, punished, a.provider, id);
    } else {
      assert punished + [] == punished;
    }
  }

  lemma {:induction false} AttemptsOnCounters(m: Ledger, log: Log, fromPool: bool, id: ProviderId)
    ensures CountersAfter(m, Apply(m, OperationsOfAttempts(log, fromPool)), fromPool, Tried(log), PunishedBy(log), id)
  {
    match log
    case Begin(_) => assert multiset(PunishedBy(log))[id] == 0;
    case Then(earlier, a) =>
      var before := OperationsOfAttempts(earlier, fromPool);
      AttemptsOnCounters(m, earlier, fromPool, id);
      AttemptOnCounters(m, Apply(m, before), fromPool, Tried(earlier), PunishedBy(earlier), a, id);
      ApplyInTwoParts(m, before, OperationsOfAttempt(a, fromPool));
  }

  /** The provider has broken off, or given an error. */
  predicate IsBlamed(log: Log, id: ProviderId) {
    ResultAt(log, id).Some? && (ResultAt(log, id).value.Partial? || ResultAt(log, id).value.Error?)
  }

  /** Punished are exactly the providers that have broken off or given an error, each once. */
  lemma {:induction false} PunishedOnce(log: Log, order: Order, pool: set<ProviderId>, content: seq<bv8>, id: ProviderId)
    requires Running(log, order, pool, content) || Finished(log, order, pool, content)
    ensures id in PunishedBy(log) <==>
      ResultAt(log, id) == Some(Error) || exists n :: ResultAt(log, id) == Some(Partial(n))
    ensures id in PunishedBy(log) <==> IsBlamed(log, id)
    ensures id in Tried(log) <==> ResultAt(log, id).Some?
    ensures multiset(PunishedBy(log))[id] <= 1
  {
    match log
    case Begin(_) =>
    case Then(earlier, a) => PunishedOnce(earlier, order, pool, content, id);
  }

  /** The number of failures that an order leaves behind on the counter of a provider. */
  function LeftBehind(log: Log, id: ProviderId): nat {
    if log.Then? && log.last.result.Complete? && IsBlamed(log, id) then 1 else 0
  }

  /** The number of failures of an order that have never been counted. */
  function Missed(m: Ledger, log: Log, fromPool: bool, id: ProviderId): nat {
    if !fromPool && id !in m && IsBlamed(log, id) then 1 else 0
  }

  /** What an order does to the failure counter of a provider, whatever the counters are before: one that succeeds leaves one
      failure behind for each provider that broke off or gave an error on the way, and any other leaves nothing behind. But
      the first punishment of a custom provider without an entry is missed, although it is pardoned later. */
  lemma NetEffectOfOrder(m: Ledger, log: Log, order: Order, pool: set<ProviderId>, content: seq<bv8>, fromPool: bool,
                         id: ProviderId)
    requires Finished(log, order, pool, content)
    ensures FailuresOf(Apply(m, OperationsOf(log, fromPool)), id)
         == Shifted(FailuresOf(m, id), LeftBehind(log, id), Missed(m, log, fromPool, id))
  {
    BlameIsCounted(log, order, pool, content, id);
    CountersAtEnd(m, log, fromPool, id, LeftBehind(log, id), Missed(m, log, fromPool, id));
  }

  lemma BlameIsCounted(log: Log, order: Order, pool: set<ProviderId>, content: seq<bv8>, id: ProviderId)
    requires Finished(log, order, pool, content)
    ensures log.Then? && multiset(PunishedBy(log))[id] == if IsBlamed(log, id) then 1 else 0
    ensures id in PunishedBy(log) <==> IsBlamed(log, id)
  {
    PunishedOnce(log, order, pool, content, id);
    assert id !in PunishedBy(log) ==> multiset(PunishedBy(log))[id] == 0;
  }

  lemma CountersAtEnd(m: Ledger, log: Log, fromPool: bool, id: ProviderId, left: nat, missed: nat)
    requires log.Then? && left == if log.last.result.Complete? then multiset(PunishedBy(log))[id] else 0
    requires missed == if IsMissed(m, fromPool, PunishedBy(log), id) then 1 else 0
    ensures FailuresOf(Apply(m, OperationsOf(log, fromPool)), id) == Shifted(FailuresOf(m, id), left, missed)
  {
    var m1 := Apply(m, OperationsOfAttempts(log, fromPool));
    AttemptsOnCounters(m, log, fromPool, id);
    ApplyInTwoParts(m, OperationsOfAttempts(log, fromPool), OperationsAtEnd(log));
    if log.last.result.Complete? {
      assert Apply(m, OperationsOf(log, fromPool)) == m1;
    } else {
      assert OperationsAtEnd(log) == [Pardoned(PunishedBy(log))] && left == 0;
      ApplyToOne(m1, Pardoned(PunishedBy(log)));
      PardonOnCounters(m, m1, fromPool, Tried(log), PunishedBy(log), id);
    }
  }

  lemma PardonOnCounters(m: Ledger, m1: Ledger, fromPool: bool, tried: set<ProviderId>, punished: seq<ProviderId>,
                         id: ProviderId)
    requires CountersAfter(m, m1, fromPool, tried, punished, id)
    ensures FailuresOf(AfterPardon(m1, punished), id)
         == Shifted(FailuresOf(m, id), 0, if IsMissed(m, fromPool, punished, id) then 1 else 0)
  {
    var missed := if IsMissed(m, fromPool, punished, id) then 1 else 0;
    PardonSubtracts(m1, punished, id);
    if id in m1 {
      ShiftedBack(FailuresOf(m, id), multiset(punished)[id], missed);
    } else {
      assert multiset(punished)[id] == 0;
    }
  }

  lemma ShiftedBack(n: u32, up: nat, down: nat)
    ensures (Shifted(n, up, down) - up) % U32_LIMIT == Shifted(n, 0, down)
  {
  }

  /** An order on pool providers that does not succeed leaves every failure counter as it was. */
  lemma FailedOrderRestoresCounters(m: Ledger, log: Log, order: Order, pool: set<ProviderId>, content: seq<bv8>, id: ProviderId)
    requires Finished(log, order, pool, content) && !log.last.result.Complete?
    ensures FailuresOf(Apply(m, OperationsOf(log, true)), id) == FailuresOf(m, id)
  {
    NetEffectOfOrder(m, log, order, pool, content, true, id);
  }

  /** A custom order that does not succeed leaves the counter of its provider as it was, exactly if it has not blamed it or
      there was an entry for it; otherwise, the counter ends at its maximum. */
  lemma CustomOrderRestoresExactlyWhen(m: Ledger, log: Log, order: Order, content: seq<bv8>, id: ProviderId)
    requires Finished(log, order, {id}, content) && !log.last.result.Complete?
    ensures var m' := Apply(m, OperationsOf(log, false));
            && (FailuresOf(m', id) == FailuresOf(m, id) <==> PunishedBy(log) == [] || id in m)
            && (FailuresOf(m', id) != FailuresOf(m, id) ==> FailuresOf(m', id) == U32_MAX)
  {
    NetEffectOfOrder(m, log, order, {id}, content, false, id);
    OnlyOneIsBlamed(log, order, content, id);
    FromFewFailures(FailuresOf(m, id));
  }

  lemma OnlyOneIsBlamed(log: Log, order: Order, content: seq<bv8>, id: ProviderId)
    requires Finished(log, order, {id}, content)
    ensures PunishedBy(log) == [] <==> !IsBlamed(log, id)
  {
    BlameIsCounted(log, order, {id}, content, id);
    if PunishedBy(log) != [] {
      PunishedOnce(log, order, {id}, content, PunishedBy(log)[0]);
      EveryProviderAtMostOnce(log, order, {id}, content);
    }
  }

  lemma FromFewFailures(n: u32)
    ensures Shifted(n, 0, 0) == n
    ensures Shifted(0, 0, 1) == U32_MAX != 0
  {
  }

  lemma UsagesAfterAttempt(m: Ledger, a: Attempt, id: ProviderId)
    ensures UsagesOf(Apply(m, OperationsOfAttempt(a, true)), id)
         == if id == a.provider then Increment(UsagesOf(m, id)) else UsagesOf(m, id)
  {
    var used, blamed := Used(a.provider), Punished(a.provider);
    ApplyToOne(m, used);
    ApplyInTwoParts(m, [used], if IsPunished(a.result) then [blamed] else []);
    ApplyToOne(AfterUse(m, a.provider), blamed);
  }

  lemma {:induction false} UsagesAfterAttempts(m: Ledger, log: Log, order: Order, pool: set<ProviderId>, content: seq<bv8>,
                                               id: ProviderId)
    requires Running(log, order, pool, content) || Finished(log, order, pool, content)
    ensures UsagesOf(Apply(m, OperationsOfAttempts(log, true)), id)
         == if id in Tried(log) then Increment(UsagesOf(m, id)) else UsagesOf(m, id)
  {
    match log
    case Begin(_) =>
    case Then(earlier, a) =>
      var before := OperationsOfAttempts(earlier, true);
      UsagesAfterAttempts(m, earlier, order, pool, content, id);
      ApplyInTwoParts(m, before, OperationsOfAttempt(a, true));
      UsagesAfterAttempt(Apply(m, before), a, id);
  }

  /** An order on pool providers adds one usage to each provider that it has tried, and none to any other; a pardon does not
      take that back. */
  lemma UsagesAfterOrder(m: Ledger, log: Log, order: Order, pool: set<ProviderId>, content: seq<bv8>, id: ProviderId)
    requires Finished(log, order, pool, content)
    ensures UsagesOf(Apply(m, OperationsOf(log, true)), id)
         == if id in Tried(log) then Increment(UsagesOf(m, id)) else UsagesOf(m, id)
  {
    var m1 := Apply(m, OperationsOfAttempts(log, true));
    UsagesAfterAttempts(m, log, order, pool, content, id);
    ApplyInTwoParts(m, OperationsOfAttempts(log, true), OperationsAtEnd(log));
    ApplyToOne(m1, Pardoned(PunishedBy(log)));
    PardonSubtracts(m1, PunishedBy(log), id);
  }
}
