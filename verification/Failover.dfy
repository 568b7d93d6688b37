/** Trying one provider after another until an order succeeds, while other orders interfere at every step. */
module Failover {
  import opened Wrappers
  import opened CompleteFileSize
  import opened ProviderSelection
  import opened ProviderMetrics
  import opened CacheState
  import opened Download
  import opened MirrorReplies
  import opened OrderLog
  import opened Attempts

  method CheckDuplicates(providers: seq<Provider>) returns (unique: bool)
    ensures unique <==> DistinctIds(providers)
  {
    var identifiers: set<ProviderId> := {};
    for i := 0 to |providers|
      invariant DistinctIds(providers[..i])
      invariant forall id :: id in identifiers <==> exists k :: 0 <= k < i && providers[k].id == id
    {
      if providers[i].id in identifiers {
        return false;
      }
      identifiers := identifiers + {providers[i].id};
    }
    assert providers[..|providers|] == providers;
    return true;
  }

  datatype ContentLengthResult = ContentLength(size: nat) | AlreadyCached
  datatype ContentLengthError = TimedOut | Disconnected | Missing | InvalidOrder

  /** What a receive with a timeout yields. */
  datatype Received = Message(message: FlexoProgress) | NothingInTime | Closed

  /** What the thread that serves the client learns from the first message; progress as the first message
      would be a panic. */
  method ReceiveContentLength(rx: Received) returns (r: Result<ContentLengthResult, ContentLengthError>)
    requires rx.Message? ==> !rx.message.Progress?
    ensures r == Err(TimedOut) <==> rx == NothingInTime
    ensures r == Err(Disconnected) <==> rx == Closed
    ensures r == Err(Missing) <==> rx == Message(FlexoProgress.Unavailable)
    ensures r == Err(InvalidOrder) <==> rx == Message(OrderError)
    ensures r == Ok(AlreadyCached) <==> rx == Message(Completed)
    ensures r.Ok? && r.value.ContentLength? <==> rx.Message? && rx.message.JobSize?
    ensures r.Ok? && r.value.ContentLength? ==> rx == Message(JobSize(r.value.size))
  {
    match rx
    case NothingInTime => r := Err(TimedOut);
    case Closed => r := Err(Disconnected);
    case Message(JobSize(size)) => r := Ok(ContentLength(size));
    case Message(Completed) => r := Ok(AlreadyCached);
    case Message(Unavailable) => r := Err(Missing);
    case Message(OrderError) => r := Err(InvalidOrder);
  }

  // ---- One attempt ----

  /** A new handle, or one that earlier jobs have used, whatever range they have left on it. */
  method GetChannel(state: DownloadState) returns (channel: DownloadChannel)
    ensures fresh(channel) && channel.state == state && channel.rangeStart == None
  {
    channel := new DownloadChannel(state);
    var reused: bool := *;
    if reused {
      channel.rangeStart := *;
      channel.Reuse(state);
    }
  }

  /** Opens a channel and serves the order over it. */
  method RunAttempt(entry: CacheEntry, order: Order, p: ProviderId, lastChance: bool, parse: HeaderParser, mirror: Mirror,
                    opening: Opening, ghost content: seq<bv8>)
    returns (a: Attempt)
    requires 0 < |content| < U64_LIMIT && Sound(entry.State(), content, order.cacheable)
    requires Settled(parse) && HonestMirror(parse, mirror, content)
    modifies entry
    ensures a.provider == p && a.lastChance == lastChance && a.disk == entry.State()
    ensures Happened(old(entry.State()), a, order.cacheable, parse, mirror, opening)
  {
    if !opening.Opens? {
      var error := if opening.PathNotFound? then ClientError else UnexpectedInternalError;
      return Attempt(p, lastChance, error, [OrderError], entry.State());
    }
    ghost var before := entry.State();
    OpenedIsFresh(before, content, order.cacheable);
    var state := new DownloadState(entry, order.cacheable, lastChance);
    var channel := GetChannel(state);
    var outcome := ServeFromProvider(channel, parse, mirror);
    ghost var t, reply := state.Value(), mirror(channel.rangeStart);
    HonestAttempt(parse, Opened(before), order.cacheable, lastChance, reply, t, outcome, content);
    state.ReleaseJobResources();
    a := Attempt(p, lastChance, outcome.result, state.tx, entry.State());
    assert Served(Opened(before), order.cacheable, a.lastChance, parse, reply, t, Returned(a.result));
  }

  /** Other orders use, punish and pardon providers, and take and drop guards; our own guard stays ours. */
  method OtherOrders(guards: ProviderGuards, metrics: SharedMetrics, held: Option<nat>)
    requires guards.Valid() && (held.Some? ==> held.value < |guards.strong| && guards.strong[held.value] >= 2)
    modifies guards, metrics`entries
    ensures guards.Valid() && (held.Some? ==> guards.strong[held.value] >= 2)
  {
    metrics.Interfere();
    var strong: seq<nat> :|
      && |strong| == |guards.strong|
      && (forall i :: 0 <= i < |strong| ==> strong[i] >= 1)
      && (held.Some? ==> strong[held.value] >= 2);
    guards.strong := strong;
  }

  /** Picks a provider that is not excluded, and tells whether it is the last one. */
  method SelectProvider(order: Order, guards: ProviderGuards, metrics: SharedMetrics, custom: Option<Provider>,
                        excluded: set<ProviderId>)
    returns (p: Provider, held: Option<nat>, isLast: bool)
    requires guards.Valid() && (custom == None ==> Ids(guards.providers) - excluded != {})
    modifies guards, metrics
    ensures guards.Valid()
    ensures match custom
            case Some(c) => p == c && held == None && isLast && unchanged(guards) && unchanged(metrics)
            case None => (
              && held.Some? && held.value < |guards.providers| && p == guards.providers[held.value]
              && guards.strong[held.value] >= 2
              && p.id !in excluded
              && (DistinctIds(guards.providers) ==> (isLast <==> Ids(guards.providers) <= excluded + {p.id}))
              && IsChoice(guards.providers, old(guards.strong), Rate(order.cacheable, old(metrics.entries), excluded), held.value)
              && metrics.entries == AfterUse(old(metrics.entries), p.id)
              && metrics.operations == old(metrics.operations) + [Used(p.id)])
  {
    match custom
    case Some(c) => return c, None, true;
    case None =>
      var rate := Rate(order.cacheable, metrics.entries, excluded);
      ghost var strong := guards.strong;
      assert exists i :: 0 <= i < |guards.providers| && rate(guards.providers[i], strong[i]).Include? by {
        var id :| id in Ids(guards.providers) - excluded;
        var q :| q in guards.providers && q.id == id;
        var i :| 0 <= i < |guards.providers| && guards.providers[i] == q;
        assert rate(guards.providers[i], strong[i]).Include?;
      }
      var chosen, numRemaining := guards.GetProviderGuard(rate);
      p, held, isLast := guards.providers[chosen], Some(chosen), numRemaining <= 1;
      CandidatesLeft(guards.providers, strong, order.cacheable, metrics.entries, excluded, chosen);
      metrics.RecordUsage(p.id);
  }

  /** The end of the loop body: a provider that is to blame is punished, and the guard on it is dropped. */
  method Conclude(a: Attempt, guards: ProviderGuards, metrics: SharedMetrics, held: Option<nat>)
    requires guards.Valid() && (held.Some? ==> held.value < |guards.strong| && guards.strong[held.value] >= 2)
    modifies guards, metrics
    ensures guards.Valid()
    ensures metrics.operations == old(metrics.operations) + OperationsOfAttempt(a, false)
  {
    if IsPunished(a.result) {
      OtherOrders(guards, metrics, held);
      metrics.Punish(a.provider);
    }
    OtherOrders(guards, metrics, held);
    if held.Some? {
      guards.Drop(held.value);
    }
  }

  lemma OperationsOfPool(before: seq<Operation>, a: Attempt, fromPool: bool)
    ensures before + (if fromPool then [Used(a.provider)] else []) + OperationsOfAttempt(a, false)
         == before + OperationsOfAttempt(a, fromPool)
  {
  }

  /** The body of the retry loop: select a provider, try it, punish it if it is to blame, and drop its guard. */
  method TryOnce(order: Order, guards: ProviderGuards, metrics: SharedMetrics, custom: Option<Provider>,
                 entry: CacheEntry, numAttempt: nat, unsuccessful: set<ProviderId>, parse: HeaderParser, mirrors: Mirrors,
                 openings: Openings, ghost content: seq<bv8>, ghost log: Log)
    returns (a: Attempt)
    requires guards.Valid() && DistinctIds(guards.providers)
    requires unsuccessful == Tried(log) < Pool(guards.providers, custom) && numAttempt == Length(log) + 1
    requires 0 < |content| < U64_LIMIT && Sound(entry.State(), content, order.cacheable) && entry.State() == DiskAfter(log)
    requires HonestMirrors(parse, mirrors, content)
    modifies guards, metrics, entry
    ensures guards.Valid() && entry.State() == a.disk
    ensures RightAttempt(log, a, order, Pool(guards.providers, custom), content)
    ensures Happened(DiskAfter(log), a, order.cacheable, parse, mirrors(a.provider), openings(a.provider))
    ensures metrics.operations == old(metrics.operations) + OperationsOfAttempt(a, custom == None)
  {
    ghost var operations := metrics.operations;
    OtherOrders(guards, metrics, None);
    ghost var next :| next in Pool(guards.providers, custom) && next !in unsuccessful;
    assert next in Pool(guards.providers, custom) - unsuccessful;
    var p, held, isLastProvider := SelectProvider(order, guards, metrics, custom, unsuccessful);
    assert held.Some? ==> p in guards.providers;
    assert metrics.operations == operations + if custom == None then [Used(p.id)] else [];
    var lastChance := numAttempt >= NUM_MAX_ATTEMPTS || isLastProvider || !order.retryable;
    OtherOrders(guards, metrics, held);
    a := RunAttempt(entry, order, p.id, lastChance, parse, mirrors(p.id), openings(p.id), content);
    AttemptIsRight(DiskAfter(log), a, order.cacheable, parse, mirrors(p.id), openings(p.id), content);
    OperationsOfPool(operations, a, custom == None);
    Conclude(a, guards, metrics, held);
  }

  lemma OneAttemptMore(log: Log, a: Attempt, before: seq<Operation>, fromPool: bool)
    ensures PunishedBy(Then(log, a))
         == if a.result.Partial? || a.result.Error? then PunishedBy(log) + [a.provider] else PunishedBy(log)
    ensures before + OperationsOfAttempts(Then(log, a), fromPool)
         == before + OperationsOfAttempts(log, fromPool) + OperationsOfAttempt(a, fromPool)
  {
    Associative(before, OperationsOfAttempts(log, fromPool), OperationsOfAttempt(a, fromPool));
  }

  /** The retry loop. The log lists the attempts, and sent the messages to the thread that serves the client. */
  method TryProviders(order: Order, guards: ProviderGuards, metrics: SharedMetrics, custom: Option<Provider>,
                      entry: CacheEntry, parse: HeaderParser, mirrors: Mirrors, openings: Openings, ghost content: seq<bv8>)
    returns (log: Log, sent: seq<FlexoProgress>, punishedProviders: seq<ProviderId>)
    requires guards.Valid() && guards.providers != [] && DistinctIds(guards.providers)
    requires 0 < |content| < U64_LIMIT && Sound(entry.State(), content, order.cacheable) && HonestMirrors(parse, mirrors, content)
    modifies guards, metrics, entry
    ensures Finished(log, order, Pool(guards.providers, custom), content)
    ensures AllHappened(log, order.cacheable, parse, mirrors, openings)
    ensures StartOf(log) == old(entry.State()) && entry.State() == DiskAfter(log)
    ensures sent == Messages(log) && punishedProviders == PunishedBy(log)
    ensures metrics.operations == old(metrics.operations) + OperationsOfAttempts(log, custom == None)
  {
    ghost var pool, operations := Pool(guards.providers, custom), metrics.operations;
    assert guards.providers[0] in guards.providers;
    assert (if custom == None then guards.providers[0].id else custom.value.id) in pool;
    var numAttempt := 0;
    var unsuccessfulProviders: set<ProviderId> := {};
    log, sent, punishedProviders := Begin(entry.State()), [], [];
    while true
      invariant guards.Valid() && numAttempt == Length(log)
      invariant Running(log, order, pool, content) && AllHappened(log, order.cacheable, parse, mirrors, openings)
      invariant StartOf(log) == old(entry.State()) && entry.State() == DiskAfter(log)
      invariant unsuccessfulProviders == Tried(log) && sent == Messages(log) && punishedProviders == PunishedBy(log)
      invariant metrics.operations == operations + OperationsOfAttempts(log, custom == None)
      decreases NUM_MAX_ATTEMPTS - Length(log)
    {
      numAttempt := numAttempt + 1;
      RunningHasNext(log, order, pool, content);
      RunningKeepsFile(log, order, pool, content, StartOf(log));
      var a := TryOnce(order, guards, metrics, custom, entry, numAttempt, unsuccessfulProviders, parse, mirrors, openings,
                       content, log);
      OneAttemptMore(log, a, operations, custom == None);
      log, sent := Then(log, a), sent + a.sent;
      if IsPunished(a.result) {
        punishedProviders := punishedProviders + [a.provider];
      }
      if a.result == ClientError || a.result == UnexpectedInternalError || a.result.Complete? || a.lastChance {
        return;
      }
      unsuccessfulProviders := unsuccessfulProviders + {a.provider};
      RunningHasNext(log, order, pool, content);
    }
  }

  /** An order that does not succeed pardons the providers it has punished. */
  method TryUntilSuccess(order: Order, guards: ProviderGuards, metrics: SharedMetrics, custom: Option<Provider>,
                         entry: CacheEntry, parse: HeaderParser, mirrors: Mirrors, openings: Openings,
                         ghost content: seq<bv8>)
    returns (result: JobResult, sent: seq<FlexoProgress>, log: Log)
    requires guards.Valid() && guards.providers != [] && DistinctIds(guards.providers)
    requires 0 < |content| < U64_LIMIT && Sound(entry.State(), content, order.cacheable) && HonestMirrors(parse, mirrors, content)
    modifies guards, metrics, entry
    ensures Finished(log, order, Pool(guards.providers, custom), content) && result == log.last.result
    ensures AllHappened(log, order.cacheable, parse, mirrors, openings)
    ensures StartOf(log) == old(entry.State()) && entry.State() == DiskAfter(log) && sent == Messages(log)
    ensures result.Complete? <==> LastIsDelivered(log, parse, mirrors, openings, content)
    ensures forall p :: p in Tried(log) && AlwaysDelivers(parse, mirrors(p), content) && openings(p).Opens? ==> result.Complete?
    ensures metrics.operations == old(metrics.operations) + OperationsOf(log, custom == None)
  {
    var punishedProviders;
    ghost var operations := metrics.operations;
    log, sent, punishedProviders := TryProviders(order, guards, metrics, custom, entry, parse, mirrors, openings,
                                                 content);
    result := log.last.result;
    if !result.Complete? {
      metrics.Pardon(punishedProviders);
    }
    Associative(operations, OperationsOfAttempts(log, custom == None), OperationsAtEnd(log));
    ghost var pool := Pool(guards.providers, custom);
    OrderSucceedsExactlyWhen(log, order, pool, parse, mirrors, openings, content);
    forall p | p in Tried(log) && AlwaysDelivers(parse, mirrors(p), content)
      ensures openings(p).Opens? ==> result.Complete?
    {
      ReachedMirrorSuffices(log, order, pool, parse, mirrors, openings, content, p);
    }
  }
}
