/** All orders together: any number of workers share the set of orders in progress, the failure counters, the guards
    on the providers, and the idle channels. One action is what a worker does under one lock, or between two locks. */
module Scheduler {
  import opened Wrappers
  import opened ProviderSelection
  import opened ProviderMetrics
  import opened CacheState
  import opened Download
  import opened OrderLog

  type Path = string

  /** Where a worker is. Between Selected and Decided it holds a guard on p. */
  datatype Pc =
    | LoopHead
    | Selected(p: ProviderId, lastChance: bool)
    | Connected(p: ProviderId, lastChance: bool, handle: nat)
    | Serving(p: ProviderId, lastChance: bool, handle: nat)
    | Judged(p: ProviderId, lastChance: bool, result: JobResult, channel: Option<nat>)
    | Decided(p: ProviderId, lastChance: bool, result: JobResult, channel: Option<nat>)
    | Ended(p: ProviderId, result: JobResult, channel: Option<nat>)
    | Settled(p: ProviderId, result: JobResult, channel: Option<nat>)
    | Removed(p: ProviderId, result: JobResult, channel: Option<nat>)
    | Done

  datatype Worker = Worker(
    path: Path,
    order: Order,
    custom: Option<Provider>,
    numAttempt: nat,
    punished: seq<ProviderId>,
    unsuccessful: set<ProviderId>,
    fileSize: nat,
    pc: Pc)

  /** A transfer handle: whether it holds the resources of a job, and the range start in force. */
  datatype Handle = Handle(busy: bool, rangeStart: Option<nat>)

  /** history counts the punishments by orders that have succeeded, and redirects the guards that are held by threads
      which redirect their client. */
  datatype State = State(
    inProgress: set<Path>,
    ledger: Ledger,
    strong: seq<nat>,
    channels: map<ProviderId, nat>,
    handles: seq<Handle>,
    workers: seq<Worker>,
    history: multiset<ProviderId>,
    redirects: multiset<ProviderId>)

  datatype Action =
    | Schedule(path: Path, order: Order, custom: Option<Provider>, cached: Option<CachedItem>, resumeFrom: nat, choice: nat)
    | DropRedirect(i: nat)
    | Select(w: nat, choice: nat)
    | Connect(w: nat, fileSize: nat)
    | FailToConnect(w: nat, notFound: bool)
    | StartTransfer(w: nat)
    | EndTransfer(w: nat, result: JobResult)
    | Punish(w: nat)
    | Conclude(w: nat)
    | Pardon(w: nat)
    | Remove(w: nat)
    | Release(w: nat)

  function Initial(pool: seq<Provider>): State {
    State({}, map[], seq(|pool|, i => 1), map[], [], [], multiset{}, multiset{})
  }

  predicate IsActive(w: Worker) {
    !w.pc.Removed? && !w.pc.Done?
  }

  function RangeFrom(fileSize: nat): Option<nat> {
    if fileSize > 0 then Some(fileSize) else None
  }

  ghost function IndexOf(pool: seq<Provider>, id: ProviderId): (i: nat)
    requires id in Ids(pool)
    ensures i < |pool| && pool[i].id == id
  {
    var p :| p in pool && p.id == id;
    var i: nat :| i < |pool| && pool[i] == p;
    i
  }

  // ---- Actions ----

  function Goto(s: State, w: nat, k: Worker): State
    requires w < |s.workers|
  {
    s.(workers := s.workers[w := k])
  }

  function NewWorker(path: Path, order: Order, custom: Option<Provider>): Worker {
    Worker(path, order, custom, 0, [], {}, 0, LoopHead)
  }

  /** A request for the order comes in. The thread that redirects its client holds a guard. */
  ghost predicate CanSchedule(pool: seq<Provider>, s: State, path: Path, custom: Option<Provider>,
                              cached: Option<CachedItem>, resumeFrom: nat, choice: nat) {
    && (custom.Some? ==> custom.value.id !in Ids(pool))
    && |s.strong| == |pool|
    && (Decide(path in s.inProgress, cached, resumeFrom) == ByRedirect && custom == None ==>
          IsChoice(pool, s.strong, RateInitially(), choice))
  }

  ghost function AfterSchedule(pool: seq<Provider>, s: State, path: Path, order: Order, custom: Option<Provider>,
                               cached: Option<CachedItem>, resumeFrom: nat, choice: nat): State
    requires CanSchedule(pool, s, path, custom, cached, resumeFrom, choice)
  {
    match Decide(path in s.inProgress, cached, resumeFrom)
    case FromProvider =>
      s.(inProgress := s.inProgress + {path}, workers := s.workers + [NewWorker(path, order, custom)])
    case ByRedirect =>
      if custom == None then
        s.(strong := s.strong[choice := s.strong[choice] + 1], redirects := s.redirects + multiset{pool[choice].id})
      else s
    case _ => s
  }

  ghost predicate CanDropRedirect(pool: seq<Provider>, s: State, i: nat) {
    |s.strong| == |pool| && i < |pool| && pool[i].id in s.redirects && s.strong[i] > 0
  }

  ghost function AfterDropRedirect(pool: seq<Provider>, s: State, i: nat): State
    requires CanDropRedirect(pool, s, i)
  {
    s.(strong := s.strong[i := s.strong[i] - 1], redirects := s.redirects - multiset{pool[i].id})
  }

  /** Selecting a provider: the rating, the guard and the usage count are one step under the lock of the counters. */
  ghost predicate CanSelect(pool: seq<Provider>, s: State, w: nat, choice: nat) {
    && w < |s.workers| && s.workers[w].pc.LoopHead?
    && |s.strong| == |pool|
    && var k := s.workers[w];
       k.custom == None ==> IsChoice(pool, s.strong, Rate(k.order.cacheable, s.ledger, k.unsuccessful), choice)
  }

  ghost function AfterSelect(pool: seq<Provider>, s: State, w: nat, choice: nat): State
    requires CanSelect(pool, s, w, choice)
  {
    var k := s.workers[w];
    match k.custom
    case Some(p) => Goto(s, w, k.(numAttempt := k.numAttempt + 1, pc := Selected(p.id, true)))
    case None =>
      var rate := Rate(k.order.cacheable, s.ledger, k.unsuccessful);
      var id := pool[choice].id;
      var isLast := |Candidates(pool, s.strong, rate, |pool|)| <= 1;
      var lastChance := k.numAttempt + 1 >= NUM_MAX_ATTEMPTS || isLast || !k.order.retryable;
      Goto(s, w, k.(numAttempt := k.numAttempt + 1, pc := Selected(id, lastChance)))
        .(strong := s.strong[choice := s.strong[choice] + 1], ledger := AfterUse(s.ledger, id))
  }

  /** Taking an idle handle out of the map and resetting it, or making a new one. */
  ghost predicate CanConnect(s: State, w: nat) {
    && w < |s.workers| && s.workers[w].pc.Selected?
    && var p := s.workers[w].pc.p; p in s.channels ==> s.channels[p] < |s.handles|
  }

  ghost function AfterConnect(s: State, w: nat, fileSize: nat): State
    requires CanConnect(s, w)
  {
    var k := s.workers[w];
    var p := k.pc.p;
    var h := if p in s.channels then s.channels[p] else |s.handles|;
    Goto(s, w, k.(fileSize := fileSize, pc := Connected(p, k.pc.lastChance, h)))
      .(channels := s.channels - {p},
        handles := if p in s.channels then s.handles[h := Handle(true, None)] else s.handles + [Handle(true, None)])
  }

  ghost predicate CanFailToConnect(s: State, w: nat) {
    w < |s.workers| && s.workers[w].pc.Selected?
  }

  ghost function AfterFailToConnect(s: State, w: nat, notFound: bool): State
    requires CanFailToConnect(s, w)
  {
    var k := s.workers[w];
    var error := if notFound then ClientError else UnexpectedInternalError;
    Goto(s, w, k.(pc := Judged(k.pc.p, k.pc.lastChance, error, None))).(channels := s.channels - {k.pc.p})
  }

  /** A range is set only if there is something in the file; otherwise the setting of the handle is left alone. */
  ghost predicate CanStartTransfer(s: State, w: nat) {
    w < |s.workers| && s.workers[w].pc.Connected? && s.workers[w].pc.handle < |s.handles|
  }

  ghost function AfterStartTransfer(s: State, w: nat): State
    requires CanStartTransfer(s, w)
  {
    var k := s.workers[w];
    var h := k.pc.handle;
    Goto(s, w, k.(pc := Serving(k.pc.p, k.pc.lastChance, h)))
      .(handles := if k.fileSize > 0 then s.handles[h := s.handles[h].(rangeStart := Some(k.fileSize))] else s.handles)
  }

  ghost predicate CanEndTransfer(s: State, w: nat, r: JobResult) {
    w < |s.workers| && s.workers[w].pc.Serving? && (r.Complete? || IsRetried(r))
  }

  ghost function AfterEndTransfer(s: State, w: nat, r: JobResult): State
    requires CanEndTransfer(s, w, r)
  {
    var k := s.workers[w];
    Goto(s, w, k.(pc := Judged(k.pc.p, k.pc.lastChance, r, Some(k.pc.handle))))
  }

  ghost predicate CanPunish(s: State, w: nat) {
    w < |s.workers| && s.workers[w].pc.Judged?
  }

  ghost function AfterPunish(s: State, w: nat): State
    requires CanPunish(s, w)
  {
    var k := s.workers[w];
    var pc := Decided(k.pc.p, k.pc.lastChance, k.pc.result, k.pc.channel);
    if IsPunished(k.pc.result) then
      Goto(s, w, k.(pc := pc, punished := k.punished + [k.pc.p])).(ledger := AfterPunishment(s.ledger, k.pc.p))
    else Goto(s, w, k.(pc := pc))
  }

  /** The end of the loop body: the guard is dropped, and the loop goes on or ends. */
  ghost predicate CanConclude(pool: seq<Provider>, s: State, w: nat) {
    && w < |s.workers| && s.workers[w].pc.Decided?
    && (s.workers[w].custom == None ==>
          && s.workers[w].pc.p in Ids(pool) && |s.strong| == |pool|
          && s.strong[IndexOf(pool, s.workers[w].pc.p)] > 0)
  }

  ghost function AfterConclude(pool: seq<Provider>, s: State, w: nat): State
    requires CanConclude(pool, s, w)
  {
    var k := s.workers[w];
    var k' :=
      if IsRetried(k.pc.result) && !k.pc.lastChance
      then k.(pc := LoopHead, unsuccessful := k.unsuccessful + {k.pc.p})
      else k.(pc := Ended(k.pc.p, k.pc.result, k.pc.channel));
    Goto(s, w, k').(strong :=
      if k.custom == None then var i := IndexOf(pool, k.pc.p); s.strong[i := s.strong[i] - 1] else s.strong)
  }

  ghost predicate CanPardon(s: State, w: nat) {
    w < |s.workers| && s.workers[w].pc.Ended?
  }

  ghost function AfterPardoning(s: State, w: nat): State
    requires CanPardon(s, w)
  {
    var k := s.workers[w];
    var s' := Goto(s, w, k.(punished := [], pc := Settled(k.pc.p, k.pc.result, k.pc.channel)));
    if k.pc.result.Complete? then s'.(history := s.history + multiset(k.punished))
    else s'.(ledger := AfterPardon(s.ledger, k.punished))
  }

  ghost predicate CanRemove(s: State, w: nat) {
    w < |s.workers| && s.workers[w].pc.Settled?
  }

  ghost function AfterRemove(s: State, w: nat): State
    requires CanRemove(s, w)
  {
    var k := s.workers[w];
    Goto(s, w, k.(pc := Removed(k.pc.p, k.pc.result, k.pc.channel))).(inProgress := s.inProgress - {k.path})
  }

  /** The resources of the job are released; the channel of a complete job is kept for later. */
  ghost predicate CanRelease(s: State, w: nat) {
    && w < |s.workers| && s.workers[w].pc.Removed?
    && var channel := s.workers[w].pc.channel; channel.Some? ==> channel.value < |s.handles|
  }

  ghost function AfterRelease(s: State, w: nat): State
    requires CanRelease(s, w)
  {
    var k := s.workers[w];
    var s' := Goto(s, w, k.(pc := Done));
    match k.pc.channel
    case None => s'
    case Some(h) =>
      s'.(handles := s.handles[h := s.handles[h].(busy := false)],
          channels := if k.pc.result.Complete? then s.channels[k.pc.p := h] else s.channels)
  }

  ghost predicate Enabled(pool: seq<Provider>, s: State, a: Action) {
    match a
    case Schedule(path, _, custom, cached, resumeFrom, choice) =>
      CanSchedule(pool, s, path, custom, cached, resumeFrom, choice)
    case DropRedirect(i) => CanDropRedirect(pool, s, i)
    case Select(w, choice) => CanSelect(pool, s, w, choice)
    case Connect(w, _) => CanConnect(s, w)
    case FailToConnect(w, _) => CanFailToConnect(s, w)
    case StartTransfer(w) => CanStartTransfer(s, w)
    case EndTransfer(w, r) => CanEndTransfer(s, w, r)
    case Punish(w) => CanPunish(s, w)
    case Conclude(w) => CanConclude(pool, s, w)
    case Pardon(w) => CanPardon(s, w)
    case Remove(w) => CanRemove(s, w)
    case Release(w) => CanRelease(s, w)
  }

  ghost function Step(pool: seq<Provider>, s: State, a: Action): State
    requires Enabled(pool, s, a)
  {
    match a
    case Schedule(path, order, custom, cached, resumeFrom, choice) =>
      AfterSchedule(pool, s, path, order, custom, cached, resumeFrom, choice)
    case DropRedirect(i) => AfterDropRedirect(pool, s, i)
    case Select(w, choice) => AfterSelect(pool, s, w, choice)
    case Connect(w, fileSize) => AfterConnect(s, w, fileSize)
    case FailToConnect(w, notFound) => AfterFailToConnect(s, w, notFound)
    case StartTransfer(w) => AfterStartTransfer(s, w)
    case EndTransfer(w, r) => AfterEndTransfer(s, w, r)
    case Punish(w) => AfterPunish(s, w)
    case Conclude(w) => AfterConclude(pool, s, w)
    case Pardon(w) => AfterPardoning(s, w)
    case Remove(w) => AfterRemove(s, w)
    case Release(w) => AfterRelease(s, w)
  }

  // ---- Sums over all workers ----

  ghost function Total(ws: seq<Worker>, f: Worker -> multiset<ProviderId>, id: ProviderId): nat {
    if ws == [] then 0 else Total(ws[..|ws| - 1], f, id) + f(ws[|ws| - 1])[id]
  }

  lemma {:induction false} TotalOfUpdate(ws: seq<Worker>, i: nat, w: Worker, f: Worker -> multiset<ProviderId>, id: ProviderId)
    requires i < |ws|
    ensures Total(ws[i := w], f, id) + f(ws[i])[id] == Total(ws, f, id) + f(w)[id]
    ensures f(ws[i])[id] <= Total(ws, f, id)
  {
    var last := |ws| - 1;
    if i == last {
      assert ws[i := w][..last] == ws[..last];
    } else {
      TotalOfUpdate(ws[..last], i, w, f, id);
      assert ws[i := w][..last] == ws[..last][i := w];
    }
  }

  lemma TotalOfAppend(ws: seq<Worker>, w: Worker, f: Worker -> multiset<ProviderId>, id: ProviderId)
    ensures Total(ws + [w], f, id) == Total(ws, f, id) + f(w)[id]
  {
    assert (ws + [w])[..|ws|] == ws;
  }

  lemma {:induction false} TotalOfNothing(ws: seq<Worker>, f: Worker -> multiset<ProviderId>, id: ProviderId)
    requires forall w :: w in ws ==> f(w) == multiset{}
    ensures Total(ws, f, id) == 0
  {
    if ws != [] {
      TotalOfNothing(ws[..|ws| - 1], f, id);
    }
  }

  /** The workers, by number, for which f has the given provider. */
  ghost function Holders(ws: seq<Worker>, f: Worker -> multiset<ProviderId>, id: ProviderId): set<nat> {
    set i: nat | i < |ws| && id in f(ws[i])
  }

  /** If nobody has a provider twice, the total is the number of workers that have it. */
  lemma {:induction false} TotalIsNumberOfHolders(ws: seq<Worker>, f: Worker -> multiset<ProviderId>, id: ProviderId)
    requires forall w :: w in ws ==> f(w)[id] <= 1
    ensures Total(ws, f, id) == |Holders(ws, f, id)|
  {
    if ws != [] {
      var n := |ws| - 1;
      TotalIsNumberOfHolders(ws[..n], f, id);
      var earlier := Holders(ws[..n], f, id);
      assert n !in earlier;
      assert Holders(ws, f, id) == if id in f(ws[n]) then earlier + {n} else earlier;
    }
  }

  function PunishedOf(w: Worker): multiset<ProviderId> {
    multiset(w.punished)
  }

  function HoldsGuard(pc: Pc): bool {
    pc.Selected? || pc.Connected? || pc.Serving? || pc.Judged? || pc.Decided?
  }

  function GuardOf(w: Worker): multiset<ProviderId> {
    if w.custom == None && HoldsGuard(w.pc) then multiset{w.pc.p} else multiset{}
  }

  function ChannelOf(pc: Pc): Option<nat> {
    match pc
    case Connected(_, _, h) => Some(h)
    case Serving(_, _, h) => Some(h)
    case Judged(_, _, _, channel) => channel
    case Decided(_, _, _, channel) => channel
    case Ended(_, _, channel) => channel
    case Settled(_, _, channel) => channel
    case Removed(_, _, channel) => channel
    case _ => None
  }

  // ---- Invariants ----

  predicate AtProvider(pc: Pc) {
    !pc.LoopHead? && !pc.Done?
  }

  /** What a worker knows about its own attempts: it has not tried its provider before, it has tried everybody else
      that it counts as unsuccessful, and it does not give up early. */
  ghost predicate AttemptsOk(pool: seq<Provider>, k: Worker) {
    var eligible := Pool(pool, k.custom);
    && (k.custom.Some? ==> k.custom.value.id !in Ids(pool))
    && k.unsuccessful < eligible
    && (k.unsuccessful != {} ==> k.order.retryable)
    && |k.unsuccessful| < NUM_MAX_ATTEMPTS
    && (k.pc.LoopHead? ==> k.numAttempt == |k.unsuccessful|)
    && (AtProvider(k.pc) ==> k.pc.p in eligible - k.unsuccessful && k.numAttempt == |k.unsuccessful| + 1)
    && (HoldsGuard(k.pc) ==> (k.pc.lastChance <==> NothingLeft(eligible, k)))
    && (k.pc.Ended? || k.pc.Settled? || k.pc.Removed? ==> IsRetried(k.pc.result) ==> NothingLeft(eligible, k))
  }

  ghost predicate NothingLeft(eligible: set<ProviderId>, k: Worker)
    requires AtProvider(k.pc)
  {
    k.numAttempt >= NUM_MAX_ATTEMPTS || eligible <= k.unsuccessful + {k.pc.p} || !k.order.retryable
  }

  /** Nobody is punished twice, or without having been tried; and in the end, nothing is owed. */
  ghost predicate BlameOk(k: Worker) {
    && (forall id :: id in k.punished ==> id in k.unsuccessful || (AtProvider(k.pc) && id == k.pc.p))
    && (forall id :: multiset(k.punished)[id] <= 1)
    && (k.pc.Selected? || k.pc.Connected? || k.pc.Serving? || k.pc.Judged? ==> k.pc.p !in k.punished)
    && (k.pc.Settled? || k.pc.Removed? || k.pc.Done? ==> k.punished == [])
  }

  ghost predicate WorkerOk(pool: seq<Provider>, k: Worker) {
    AttemptsOk(pool, k) && BlameOk(k)
  }

  ghost predicate WorkersOk(pool: seq<Provider>, s: State) {
    forall i {:trigger WorkerOk(pool, s.workers[i])} :: 0 <= i < |s.workers| ==> WorkerOk(pool, s.workers[i])
  }

  /** The orders in progress are exactly those of the active workers, and no two active workers share an order. */
  ghost predicate SingleDownload(s: State) {
    && (forall i :: 0 <= i < |s.workers| && IsActive(s.workers[i]) ==> s.workers[i].path in s.inProgress)
    && (forall path :: path in s.inProgress ==>
          exists i :: 0 <= i < |s.workers| && IsActive(s.workers[i]) && s.workers[i].path == path)
    && (forall i, j :: 0 <= i < j < |s.workers| && IsActive(s.workers[i]) && IsActive(s.workers[j]) ==>
          s.workers[i].path != s.workers[j].path)
  }

  /** The failure count of a pool provider is the number of successful orders that punished it, plus the number
      of orders in flight that hold it punished, as far as 32 bits go. */
  ghost predicate CounterOk(s: State, id: ProviderId) {
    FailuresOf(s.ledger, id) == (s.history[id] + Total(s.workers, PunishedOf, id)) % U32_LIMIT
  }

  ghost predicate LedgerOk(pool: seq<Provider>, s: State) {
    && (forall i :: 0 <= i < |pool| ==> CounterOk(s, pool[i].id))
    && (forall i :: 0 <= i < |s.workers| && s.workers[i].custom == None ==>
          && (HoldsGuard(s.workers[i].pc) ==> s.workers[i].pc.p in s.ledger)
          && forall id :: id in s.workers[i].punished ==> id in s.ledger)
  }

  /** The reference count of a pool provider is one more than the number of guards held on it. */
  ghost predicate GuardsOk(pool: seq<Provider>, s: State) {
    && |s.strong| == |pool|
    && forall i :: 0 <= i < |pool| ==>
         s.strong[i] == 1 + Total(s.workers, GuardOf, pool[i].id) + s.redirects[pool[i].id]
  }

  ghost predicate Owns(s: State, i: nat, h: nat) {
    i < |s.workers| && ChannelOf(s.workers[i].pc) == Some(h)
  }

  /** The range of a connected handle is not set yet, and that of a serving one is what its own file asks for. */
  ghost predicate Fresh(handle: Handle, k: Worker) {
    && handle.busy
    && (k.pc.Connected? ==> handle.rangeStart == None)
    && (k.pc.Serving? ==> handle.rangeStart == RangeFrom(k.fileSize))
  }

  /** A handle is either idle, without the resources of any job, or it belongs to exactly one worker; and a transfer
      runs with the range that its own file asks for. */
  ghost predicate ChannelsOk(s: State) {
    && (forall id :: id in s.channels ==> s.channels[id] < |s.handles| && !s.handles[s.channels[id]].busy)
    && (forall id, id' :: id in s.channels && id' in s.channels && id != id' ==> s.channels[id] != s.channels[id'])
    && (forall i: nat, h: nat :: Owns(s, i, h) ==> h < |s.handles| && Fresh(s.handles[h], s.workers[i]))
    && (forall i: nat, j: nat, h: nat :: Owns(s, i, h) && Owns(s, j, h) ==> i == j)
  }

  ghost predicate Invariant(pool: seq<Provider>, s: State) {
    && WorkersOk(pool, s)
    && SingleDownload(s)
    && LedgerOk(pool, s)
    && GuardsOk(pool, s)
    && ChannelsOk(s)
  }

  // ---- Steps that leave a part of the state alone ----

  ghost predicate OneMoved(s: State, s': State, w: nat) {
    w < |s.workers| == |s'.workers| && s'.workers == s.workers[w := s'.workers[w]]
  }

  lemma OthersStayOk(pool: seq<Provider>, s: State, s': State, w: nat)
    requires WorkersOk(pool, s) && OneMoved(s, s', w) && WorkerOk(pool, s'.workers[w])
    ensures WorkersOk(pool, s')
  {
  }

  /** A worker that keeps its order leaves the orders alone. */
  lemma SameOrders(s: State, s': State, w: nat)
    requires SingleDownload(s) && s'.inProgress == s.inProgress
    requires OneMoved(s, s', w)
    requires s'.workers[w].path == s.workers[w].path && IsActive(s'.workers[w]) == IsActive(s.workers[w])
    ensures SingleDownload(s')
  {
    forall path | path in s'.inProgress
      ensures exists i :: 0 <= i < |s'.workers| && IsActive(s'.workers[i]) && s'.workers[i].path == path
    {
      var i :| 0 <= i < |s.workers| && IsActive(s.workers[i]) && s.workers[i].path == path;
      assert IsActive(s'.workers[i]);
    }
  }

  lemma SameGuards(pool: seq<Provider>, s: State, s': State, w: nat)
    requires GuardsOk(pool, s) && s'.strong == s.strong && s'.redirects == s.redirects
    requires OneMoved(s, s', w)
    requires GuardOf(s'.workers[w]) == GuardOf(s.workers[w])
    ensures GuardsOk(pool, s')
  {
    forall i | 0 <= i < |pool| {
      TotalOfUpdate(s.workers, w, s'.workers[w], GuardOf, pool[i].id);
    }
  }

  lemma SameLedger(pool: seq<Provider>, s: State, s': State, w: nat)
    requires LedgerOk(pool, s) && s'.ledger == s.ledger && s'.history == s.history
    requires OneMoved(s, s', w)
    requires s'.workers[w].punished == s.workers[w].punished && s'.workers[w].custom == s.workers[w].custom
    requires HoldsGuard(s'.workers[w].pc) ==> HoldsGuard(s.workers[w].pc) && s'.workers[w].pc.p == s.workers[w].pc.p
    ensures LedgerOk(pool, s')
  {
    forall i | 0 <= i < |pool|
      ensures CounterOk(s', pool[i].id)
    {
      assert CounterOk(s, pool[i].id);
      SameCounter(s, s', w, pool[i].id);
    }
  }

  lemma SameCounter(s: State, s': State, w: nat, id: ProviderId)
    requires CounterOk(s, id) && s'.ledger == s.ledger && s'.history == s.history
    requires OneMoved(s, s', w) && s'.workers[w].punished == s.workers[w].punished
    ensures CounterOk(s', id)
  {
    TotalOfUpdate(s.workers, w, s'.workers[w], PunishedOf, id);
  }

  /** A worker moves on in its program and nothing else happens, except to the handles. */
  lemma PlainStep(pool: seq<Provider>, s: State, s': State, w: nat)
    requires SingleDownload(s) && GuardsOk(pool, s) && LedgerOk(pool, s) && OneMoved(s, s', w)
    requires s' == s.(workers := s'.workers, channels := s'.channels, handles := s'.handles)
    requires s'.workers[w] == s.workers[w].(pc := s'.workers[w].pc, fileSize := s'.workers[w].fileSize)
    requires IsActive(s'.workers[w]) == IsActive(s.workers[w])
    requires HoldsGuard(s'.workers[w].pc) == HoldsGuard(s.workers[w].pc)
    requires HoldsGuard(s'.workers[w].pc) ==> s'.workers[w].pc.p == s.workers[w].pc.p
    ensures SingleDownload(s') && GuardsOk(pool, s') && LedgerOk(pool, s')
  {
    SameOrders(s, s', w);
    SameGuards(pool, s, s', w);
    SameLedger(pool, s, s', w);
  }

  /** Handles that are given up, or idle handles that are dropped, disturb nobody. */
  lemma FewerChannels(s: State, s': State, w: nat)
    requires ChannelsOk(s) && OneMoved(s, s', w) && s'.handles == s.handles
    requires forall id :: id in s'.channels ==> id in s.channels && s'.channels[id] == s.channels[id]
    requires ChannelOf(s'.workers[w].pc) == None || ChannelOf(s'.workers[w].pc) == ChannelOf(s.workers[w].pc)
    requires !s'.workers[w].pc.Connected? && !s'.workers[w].pc.Serving?
    ensures ChannelsOk(s')
  {
    assert forall i: nat, h: nat :: Owns(s', i, h) ==> Owns(s, i, h);
  }

  /** What is on a counter besides what history and one worker account for, modulo 2^32. */
  function Excess(failures: int, history: int, owed: int): u32 {
    (failures - history - owed) % U32_LIMIT
  }

  ghost function Balance(s: State, w: nat, id: ProviderId): u32
    requires w < |s.workers|
  {
    Excess(FailuresOf(s.ledger, id), s.history[id], PunishedOf(s.workers[w])[id])
  }

  ghost predicate BalanceKept(s: State, s': State, w: nat, id: ProviderId) {
    OneMoved(s, s', w) && Balance(s', w, id) == Balance(s, w, id)
  }

  /** Counters that change together with what is owed stay right modulo 2^32. */
  lemma BalanceMeansRight(failures: u32, history: nat, total: nat, owed: nat,
                          failures': u32, history': nat, total': nat, owed': nat)
    requires failures == (history + total) % U32_LIMIT && total' + owed == total + owed'
    requires Excess(failures', history', owed') == Excess(failures, history, owed)
    ensures failures' == (history' + total') % U32_LIMIT
  {
  }

  // ---- Steps that move something from the shared state to a worker, or back ----

  lemma GuardTaken(pool: seq<Provider>, s: State, s': State, w: nat, i: nat)
    requires GuardsOk(pool, s) && DistinctIds(pool) && i < |pool|
    requires OneMoved(s, s', w) && s'.redirects == s.redirects && s'.strong == s.strong[i := s.strong[i] + 1]
    requires GuardOf(s.workers[w]) == multiset{} && GuardOf(s'.workers[w]) == multiset{pool[i].id}
    ensures GuardsOk(pool, s')
  {
    forall j | 0 <= j < |pool|
      ensures s'.strong[j] == 1 + Total(s'.workers, GuardOf, pool[j].id) + s'.redirects[pool[j].id]
    {
      TotalOfUpdate(s.workers, w, s'.workers[w], GuardOf, pool[j].id);
      assert j < i ==> pool[j].id != pool[i].id;
      assert i < j ==> pool[i].id != pool[j].id;
    }
  }

  lemma GuardDropped(pool: seq<Provider>, s: State, s': State, w: nat, i: nat)
    requires GuardsOk(pool, s) && DistinctIds(pool) && i < |pool|
    requires OneMoved(s, s', w) && s'.redirects == s.redirects
    requires s.strong[i] > 0 && s'.strong == s.strong[i := s.strong[i] - 1]
    requires GuardOf(s.workers[w]) == multiset{pool[i].id} && GuardOf(s'.workers[w]) == multiset{}
    ensures GuardsOk(pool, s')
  {
    forall j | 0 <= j < |pool|
      ensures s'.strong[j] == 1 + Total(s'.workers, GuardOf, pool[j].id) + s'.redirects[pool[j].id]
    {
      TotalOfUpdate(s.workers, w, s'.workers[w], GuardOf, pool[j].id);
      assert j < i ==> pool[j].id != pool[i].id;
      assert i < j ==> pool[i].id != pool[j].id;
    }
  }

  lemma CounterGoesOn(s: State, s': State, w: nat, id: ProviderId)
    requires CounterOk(s, id) && OneMoved(s, s', w) && BalanceKept(s, s', w, id)
    ensures CounterOk(s', id)
  {
    TotalOfUpdate(s.workers, w, s'.workers[w], PunishedOf, id);
    BalanceMeansRight(
      FailuresOf(s.ledger, id), s.history[id], Total(s.workers, PunishedOf, id), PunishedOf(s.workers[w])[id],
      FailuresOf(s'.ledger, id), s'.history[id], Total(s'.workers, PunishedOf, id), PunishedOf(s'.workers[w])[id]);
  }

  /** What a worker adds to the counters, it owes; what it takes back, or leaves to history, it no longer owes. */
  lemma LedgerGoesOn(pool: seq<Provider>, s: State, s': State, w: nat)
    requires LedgerOk(pool, s) && OneMoved(s, s', w) && s.ledger.Keys <= s'.ledger.Keys
    requires forall i :: 0 <= i < |pool| ==> BalanceKept(s, s', w, pool[i].id)
    requires s'.workers[w].custom == None ==>
      && (HoldsGuard(s'.workers[w].pc) ==> s'.workers[w].pc.p in s'.ledger)
      && forall id :: id in s'.workers[w].punished ==> id in s'.ledger
    ensures LedgerOk(pool, s')
  {
    forall i | 0 <= i < |pool|
      ensures CounterOk(s', pool[i].id)
    {
      CounterGoesOn(s, s', w, pool[i].id);
    }
  }

  // ---- A request comes in ----

  lemma NewWorkerOk(pool: seq<Provider>, k: Worker)
    requires pool != [] && k == NewWorker(k.path, k.order, k.custom)
    requires k.custom.Some? ==> k.custom.value.id !in Ids(pool)
    ensures WorkerOk(pool, k)
  {
    assert pool[0] in pool;
    assert (if k.custom == None then pool[0].id else k.custom.value.id) in Pool(pool, k.custom);
  }

  lemma NewWorkerOrders(s: State, s': State, k: Worker)
    requires SingleDownload(s) && k.path !in s.inProgress && IsActive(k)
    requires s'.inProgress == s.inProgress + {k.path} && s'.workers == s.workers + [k]
    ensures SingleDownload(s')
  {
    forall path | path in s'.inProgress
      ensures exists i :: 0 <= i < |s'.workers| && IsActive(s'.workers[i]) && s'.workers[i].path == path
    {
      if path == k.path {
        assert IsActive(s'.workers[|s.workers|]);
      } else {
        var i :| 0 <= i < |s.workers| && IsActive(s.workers[i]) && s.workers[i].path == path;
        assert s'.workers[i] == s.workers[i];
      }
    }
  }

  lemma NewWorkerGuards(pool: seq<Provider>, s: State, s': State, k: Worker)
    requires GuardsOk(pool, s) && GuardOf(k) == multiset{} && s'.workers == s.workers + [k]
    requires s'.strong == s.strong && s'.redirects == s.redirects
    ensures GuardsOk(pool, s')
  {
    forall i | 0 <= i < |pool|
      ensures Total(s'.workers, GuardOf, pool[i].id) == Total(s.workers, GuardOf, pool[i].id)
    {
      TotalOfAppend(s.workers, k, GuardOf, pool[i].id);
    }
  }

  lemma NewWorkerLedger(pool: seq<Provider>, s: State, s': State, k: Worker)
    requires LedgerOk(pool, s) && k.punished == [] && k.pc.LoopHead? && s'.workers == s.workers + [k]
    requires s'.ledger == s.ledger && s'.history == s.history
    ensures LedgerOk(pool, s')
  {
    forall i | 0 <= i < |pool|
      ensures CounterOk(s', pool[i].id)
    {
      assert CounterOk(s, pool[i].id);
      TotalOfAppend(s.workers, k, PunishedOf, pool[i].id);
    }
  }

  lemma NewWorkerChannels(s: State, s': State, k: Worker)
    requires ChannelsOk(s) && k.pc.LoopHead? && s'.workers == s.workers + [k]
    requires s'.channels == s.channels && s'.handles == s.handles
    ensures ChannelsOk(s')
  {
    assert forall i: nat, h: nat :: Owns(s', i, h) ==> Owns(s, i, h);
  }

  lemma NewWorkerKeeps(pool: seq<Provider>, s: State, s': State, k: Worker)
    requires Invariant(pool, s) && pool != [] && k.path !in s.inProgress
    requires k == NewWorker(k.path, k.order, k.custom) && (k.custom.Some? ==> k.custom.value.id !in Ids(pool))
    requires s' == s.(inProgress := s.inProgress + {k.path}, workers := s.workers + [k])
    ensures Invariant(pool, s')
  {
    NewWorkerOk(pool, k);
    NewWorkerOrders(s, s', k);
    NewWorkerLedger(pool, s, s', k);
    NewWorkerGuards(pool, s, s', k);
    NewWorkerChannels(s, s', k);
  }

  lemma RedirectGuards(pool: seq<Provider>, s: State, s': State, i: nat)
    requires GuardsOk(pool, s) && DistinctIds(pool) && i < |pool| && s'.workers == s.workers
    requires
      || (s'.strong == s.strong[i := s.strong[i] + 1] && s'.redirects == s.redirects + multiset{pool[i].id})
      || (s.strong[i] > 0 && pool[i].id in s.redirects
          && s'.strong == s.strong[i := s.strong[i] - 1] && s'.redirects == s.redirects - multiset{pool[i].id})
    ensures GuardsOk(pool, s')
  {
    forall j | 0 <= j < |pool| && j != i
      ensures pool[j].id != pool[i].id
    {
      assert j < i ==> pool[j].id != pool[i].id;
      assert i < j ==> pool[i].id != pool[j].id;
    }
  }

  lemma RedirectKeeps(pool: seq<Provider>, s: State, s': State, i: nat)
    requires Invariant(pool, s) && GuardsOk(pool, s') && s' == s.(strong := s'.strong, redirects := s'.redirects)
    ensures Invariant(pool, s')
  {
    assert forall i: nat, h: nat :: Owns(s', i, h) <==> Owns(s, i, h);
  }

  lemma ScheduleKeeps(pool: seq<Provider>, s: State, path: Path, order: Order, custom: Option<Provider>,
                      cached: Option<CachedItem>, resumeFrom: nat, choice: nat)
    requires Invariant(pool, s) && DistinctIds(pool) && pool != []
    requires CanSchedule(pool, s, path, custom, cached, resumeFrom, choice)
    ensures Invariant(pool, AfterSchedule(pool, s, path, order, custom, cached, resumeFrom, choice))
  {
    var s' := AfterSchedule(pool, s, path, order, custom, cached, resumeFrom, choice);
    match Decide(path in s.inProgress, cached, resumeFrom)
    case FromProvider => NewWorkerKeeps(pool, s, s', NewWorker(path, order, custom));
    case ByRedirect =>
      if custom == None {
        RedirectGuards(pool, s, s', choice);
        RedirectKeeps(pool, s, s', choice);
      }
    case _ =>
  }

  lemma DropRedirectKeeps(pool: seq<Provider>, s: State, i: nat)
    requires Invariant(pool, s) && DistinctIds(pool) && CanDropRedirect(pool, s, i)
    ensures Invariant(pool, AfterDropRedirect(pool, s, i))
  {
    RedirectGuards(pool, s, AfterDropRedirect(pool, s, i), i);
    RedirectKeeps(pool, s, AfterDropRedirect(pool, s, i), i);
  }

  // ---- A worker selects a provider ----

  lemma SelectedWorkerOk(pool: seq<Provider>, s: State, w: nat, choice: nat)
    requires CanSelect(pool, s, w, choice) && DistinctIds(pool) && WorkerOk(pool, s.workers[w])
    ensures WorkerOk(pool, AfterSelect(pool, s, w, choice).workers[w])
  {
    var k, k' := s.workers[w], AfterSelect(pool, s, w, choice).workers[w];
    assert BlameOk(k) && AttemptsOk(pool, k);
    if k.custom == None {
      SelectionIsRight(pool, s, k, choice);
    }
    assert AttemptsOk(pool, k');
    assert BlameOk(k');
  }

  /** The selected provider is eligible and new, and it is the last one exactly if nobody else is left. */
  lemma SelectionIsRight(pool: seq<Provider>, s: State, k: Worker, choice: nat)
    requires k.custom == None && DistinctIds(pool) && |s.strong| == |pool|
    requires IsChoice(pool, s.strong, Rate(k.order.cacheable, s.ledger, k.unsuccessful), choice)
    ensures pool[choice].id in Pool(pool, k.custom) - k.unsuccessful
    ensures |Candidates(pool, s.strong, Rate(k.order.cacheable, s.ledger, k.unsuccessful), |pool|)| <= 1
       <==> Pool(pool, k.custom) <= k.unsuccessful + {pool[choice].id}
  {
    CandidatesLeft(pool, s.strong, k.order.cacheable, s.ledger, k.unsuccessful, choice);
    assert pool[choice] in pool;
  }

  lemma SelectLedger(pool: seq<Provider>, s: State, w: nat, choice: nat)
    requires LedgerOk(pool, s) && CanSelect(pool, s, w, choice)
    ensures LedgerOk(pool, AfterSelect(pool, s, w, choice))
  {
    var s' := AfterSelect(pool, s, w, choice);
    assert forall id :: BalanceKept(s, s', w, id);
    LedgerGoesOn(pool, s, s', w);
  }

  lemma SelectGuards(pool: seq<Provider>, s: State, w: nat, choice: nat)
    requires GuardsOk(pool, s) && DistinctIds(pool) && CanSelect(pool, s, w, choice)
    ensures GuardsOk(pool, AfterSelect(pool, s, w, choice))
  {
    if s.workers[w].custom == None {
      GuardTaken(pool, s, AfterSelect(pool, s, w, choice), w, choice);
    } else {
      SameGuards(pool, s, AfterSelect(pool, s, w, choice), w);
    }
  }

  lemma SelectKeeps(pool: seq<Provider>, s: State, w: nat, choice: nat)
    requires Invariant(pool, s) && DistinctIds(pool) && CanSelect(pool, s, w, choice)
    ensures Invariant(pool, AfterSelect(pool, s, w, choice))
  {
    assert WorkerOk(pool, s.workers[w]);
    SelectedWorkerOk(pool, s, w, choice);
    SelectLedger(pool, s, w, choice);
    SelectGuards(pool, s, w, choice);
    SameOrders(s, AfterSelect(pool, s, w, choice), w);
    FewerChannels(s, AfterSelect(pool, s, w, choice), w);
  }

  // ---- A worker connects and transfers ----

  /** A handle that nobody else has is reset for a new job. */
  lemma HandleTaken(s: State, w: nat, fileSize: nat)
    requires ChannelsOk(s) && CanConnect(s, w)
    ensures ChannelsOk(AfterConnect(s, w, fileSize))
  {
    var s' := AfterConnect(s, w, fileSize);
    var mine := s'.workers[w].pc.handle;
    forall i: nat, h: nat | Owns(s', i, h)
      ensures if i == w then h == mine else Owns(s, i, h) && h != mine
    {
      assert i != w ==> Owns(s, i, h);
    }
  }

  lemma RangeSet(s: State, w: nat)
    requires ChannelsOk(s) && CanStartTransfer(s, w)
    ensures ChannelsOk(AfterStartTransfer(s, w))
  {
    var s' := AfterStartTransfer(s, w);
    var mine := s.workers[w].pc.handle;
    assert Owns(s, w, mine);
    forall i: nat, h: nat | Owns(s', i, h)
      ensures Owns(s, i, h) && (h == mine <==> i == w)
    {
      assert Owns(s, i, h);
    }
  }

  lemma ConnectWorkerOk(pool: seq<Provider>, s: State, w: nat, fileSize: nat)
    requires CanConnect(s, w) && WorkerOk(pool, s.workers[w])
    ensures WorkerOk(pool, AfterConnect(s, w, fileSize).workers[w])
  {
    assert AttemptsOk(pool, s.workers[w]) && BlameOk(s.workers[w]);
  }

  lemma ConnectKeeps(pool: seq<Provider>, s: State, w: nat, fileSize: nat)
    requires Invariant(pool, s) && CanConnect(s, w)
    ensures Invariant(pool, AfterConnect(s, w, fileSize))
  {
    assert WorkerOk(pool, s.workers[w]);
    ConnectWorkerOk(pool, s, w, fileSize);
    PlainStep(pool, s, AfterConnect(s, w, fileSize), w);
    HandleTaken(s, w, fileSize);
  }

  lemma FailToConnectWorkerOk(pool: seq<Provider>, s: State, w: nat, notFound: bool)
    requires CanFailToConnect(s, w) && WorkerOk(pool, s.workers[w])
    ensures WorkerOk(pool, AfterFailToConnect(s, w, notFound).workers[w])
  {
    assert AttemptsOk(pool, s.workers[w]) && BlameOk(s.workers[w]);
  }

  lemma FailToConnectKeeps(pool: seq<Provider>, s: State, w: nat, notFound: bool)
    requires Invariant(pool, s) && CanFailToConnect(s, w)
    ensures Invariant(pool, AfterFailToConnect(s, w, notFound))
  {
    assert WorkerOk(pool, s.workers[w]);
    FailToConnectWorkerOk(pool, s, w, notFound);
    FailToConnectFrame(pool, s, w, notFound);
  }

  lemma FailToConnectFrame(pool: seq<Provider>, s: State, w: nat, notFound: bool)
    requires SingleDownload(s) && LedgerOk(pool, s) && GuardsOk(pool, s) && ChannelsOk(s) && CanFailToConnect(s, w)
    ensures var s' := AfterFailToConnect(s, w, notFound);
            SingleDownload(s') && LedgerOk(pool, s') && GuardsOk(pool, s') && ChannelsOk(s')
  {
    PlainStep(pool, s, AfterFailToConnect(s, w, notFound), w);
    FewerChannels(s, AfterFailToConnect(s, w, notFound), w);
  }

  lemma StartTransferWorkerOk(pool: seq<Provider>, s: State, w: nat)
    requires CanStartTransfer(s, w) && WorkerOk(pool, s.workers[w])
    ensures WorkerOk(pool, AfterStartTransfer(s, w).workers[w])
  {
    assert AttemptsOk(pool, s.workers[w]) && BlameOk(s.workers[w]);
  }

  lemma StartTransferKeeps(pool: seq<Provider>, s: State, w: nat)
    requires Invariant(pool, s) && CanStartTransfer(s, w)
    ensures Invariant(pool, AfterStartTransfer(s, w))
  {
    assert WorkerOk(pool, s.workers[w]);
    StartTransferWorkerOk(pool, s, w);
    PlainStep(pool, s, AfterStartTransfer(s, w), w);
    RangeSet(s, w);
  }

  lemma EndTransferWorkerOk(pool: seq<Provider>, s: State, w: nat, r: JobResult)
    requires CanEndTransfer(s, w, r) && WorkerOk(pool, s.workers[w])
    ensures WorkerOk(pool, AfterEndTransfer(s, w, r).workers[w])
  {
    assert AttemptsOk(pool, s.workers[w]) && BlameOk(s.workers[w]);
  }

  lemma EndTransferKeeps(pool: seq<Provider>, s: State, w: nat, r: JobResult)
    requires Invariant(pool, s) && CanEndTransfer(s, w, r)
    ensures Invariant(pool, AfterEndTransfer(s, w, r))
  {
    assert WorkerOk(pool, s.workers[w]);
    EndTransferWorkerOk(pool, s, w, r);
    EndTransferFrame(pool, s, w, r);
  }

  lemma EndTransferFrame(pool: seq<Provider>, s: State, w: nat, r: JobResult)
    requires SingleDownload(s) && LedgerOk(pool, s) && GuardsOk(pool, s) && ChannelsOk(s) && CanEndTransfer(s, w, r)
    ensures var s' := AfterEndTransfer(s, w, r);
            SingleDownload(s') && LedgerOk(pool, s') && GuardsOk(pool, s') && ChannelsOk(s')
  {
    PlainStep(pool, s, AfterEndTransfer(s, w, r), w);
    FewerChannels(s, AfterEndTransfer(s, w, r), w);
  }

  // ---- A worker punishes, concludes and pardons ----

  lemma PunishWorkerOk(pool: seq<Provider>, s: State, w: nat)
    requires CanPunish(s, w) && WorkerOk(pool, s.workers[w])
    ensures WorkerOk(pool, AfterPunish(s, w).workers[w])
  {
    assert AttemptsOk(pool, s.workers[w]) && BlameOk(s.workers[w]);
  }

  /** A failure is counted, and noted by the worker, exactly for a transfer that is broken off or ends in error. */
  lemma FailureCountsExactlyWhen(s: State, w: nat)
    requires CanPunish(s, w)
    ensures
      var k, s' := s.workers[w], AfterPunish(s, w);
      var failed := k.pc.result.Partial? || k.pc.result.Error?;
      && (s'.ledger != s.ledger <==> failed)
      && s'.ledger == (if failed then AfterPunishment(s.ledger, k.pc.p) else s.ledger)
      && s'.workers[w].punished == (if failed then k.punished + [k.pc.p] else k.punished)
  {
    var m, p := s.ledger, s.workers[w].pc.p;
    assert p in m ==> AfterPunishment(m, p)[p].numFailures == Increment(m[p].numFailures) != m[p].numFailures;
  }

  lemma PunishBalance(s: State, w: nat, id: ProviderId)
    requires CanPunish(s, w) && (id == s.workers[w].pc.p && IsPunished(s.workers[w].pc.result) ==> id in s.ledger)
    ensures BalanceKept(s, AfterPunish(s, w), w, id)
  {
    var k, k' := s.workers[w], AfterPunish(s, w).workers[w];
    BalanceOfPunishment(FailuresOf(s.ledger, id), s.history[id], PunishedOf(k)[id]);
    assert PunishedOf(k')[id] == PunishedOf(k)[id] + if Punishes(s, Punish(w), id) then 1 else 0;
  }

  lemma BalanceOfPunishment(failures: u32, history: int, owed: int)
    ensures Excess(Increment(failures), history, owed + 1) == Excess(failures, history, owed)
  {
  }

  lemma PunishLedger(pool: seq<Provider>, s: State, w: nat)
    requires LedgerOk(pool, s) && CanPunish(s, w) && WorkerOk(pool, s.workers[w])
    ensures LedgerOk(pool, AfterPunish(s, w))
  {
    var k, s' := s.workers[w], AfterPunish(s, w);
    assert AttemptsOk(pool, k);
    forall i | 0 <= i < |pool|
      ensures BalanceKept(s, s', w, pool[i].id)
    {
      assert pool[i] in pool && pool[i].id in Ids(pool);
      PunishBalance(s, w, pool[i].id);
    }
    LedgerGoesOn(pool, s, s', w);
  }

  lemma PunishKeeps(pool: seq<Provider>, s: State, w: nat)
    requires Invariant(pool, s) && CanPunish(s, w)
    ensures Invariant(pool, AfterPunish(s, w))
  {
    assert WorkerOk(pool, s.workers[w]);
    PunishWorkerOk(pool, s, w);
    OthersStayOk(pool, s, AfterPunish(s, w), w);
    PunishLedger(pool, s, w);
    PunishFrame(pool, s, w);
  }

  lemma PunishFrame(pool: seq<Provider>, s: State, w: nat)
    requires SingleDownload(s) && GuardsOk(pool, s) && ChannelsOk(s) && CanPunish(s, w)
    ensures SingleDownload(AfterPunish(s, w)) && GuardsOk(pool, AfterPunish(s, w)) && ChannelsOk(AfterPunish(s, w))
  {
    SameGuards(pool, s, AfterPunish(s, w), w);
    SameOrders(s, AfterPunish(s, w), w);
    FewerChannels(s, AfterPunish(s, w), w);
  }

  lemma ConcludeWorkerOk(pool: seq<Provider>, s: State, w: nat)
    requires CanConclude(pool, s, w) && WorkerOk(pool, s.workers[w])
    ensures WorkerOk(pool, AfterConclude(pool, s, w).workers[w])
  {
    assert AttemptsOk(pool, s.workers[w]) && BlameOk(s.workers[w]);
  }

  lemma ConcludeGuards(pool: seq<Provider>, s: State, w: nat)
    requires GuardsOk(pool, s) && DistinctIds(pool) && CanConclude(pool, s, w)
    ensures GuardsOk(pool, AfterConclude(pool, s, w))
  {
    var k, s' := s.workers[w], AfterConclude(pool, s, w);
    if k.custom == None {
      GuardDropped(pool, s, s', w, IndexOf(pool, k.pc.p));
    } else {
      SameGuards(pool, s, s', w);
    }
  }

  lemma ConcludeKeeps(pool: seq<Provider>, s: State, w: nat)
    requires Invariant(pool, s) && DistinctIds(pool) && CanConclude(pool, s, w)
    ensures Invariant(pool, AfterConclude(pool, s, w))
  {
    assert WorkerOk(pool, s.workers[w]);
    ConcludeWorkerOk(pool, s, w);
    ConcludeGuards(pool, s, w);
    ConcludeFrame(pool, s, w);
  }

  lemma ConcludeFrame(pool: seq<Provider>, s: State, w: nat)
    requires SingleDownload(s) && LedgerOk(pool, s) && ChannelsOk(s) && CanConclude(pool, s, w)
    ensures var s' := AfterConclude(pool, s, w); SingleDownload(s') && LedgerOk(pool, s') && ChannelsOk(s')
  {
    SameLedger(pool, s, AfterConclude(pool, s, w), w);
    SameOrders(s, AfterConclude(pool, s, w), w);
    FewerChannels(s, AfterConclude(pool, s, w), w);
  }

  lemma BalanceOfPardon(failures: int, history: int, share: int)
    ensures Excess((failures - share) % U32_LIMIT, history, 0) == Excess(failures, history, share)
    ensures Excess(failures, history + share, 0) == Excess(failures, history, share)
  {
  }

  lemma PardonBalance(s: State, w: nat, id: ProviderId)
    requires CanPardon(s, w) && (id in s.ledger || id !in s.workers[w].punished)
    ensures BalanceKept(s, AfterPardoning(s, w), w, id)
  {
    var punished, s' := s.workers[w].punished, AfterPardoning(s, w);
    PardonSubtracts(s.ledger, punished, id);
    BalanceOfPardon(FailuresOf(s.ledger, id), s.history[id], multiset(punished)[id]);
    assert id !in s.ledger ==> multiset(punished)[id] == 0;
    assert PunishedOf(s'.workers[w])[id] == 0;
  }

  lemma PardonLedger(pool: seq<Provider>, s: State, w: nat)
    requires LedgerOk(pool, s) && CanPardon(s, w) && WorkerOk(pool, s.workers[w])
    ensures LedgerOk(pool, AfterPardoning(s, w))
  {
    var k, s' := s.workers[w], AfterPardoning(s, w);
    forall i | 0 <= i < |pool|
      ensures BalanceKept(s, s', w, pool[i].id)
    {
      assert pool[i] in pool && pool[i].id in Ids(pool);
      assert k.custom.Some? ==> pool[i].id !in k.punished;
      PardonSubtracts(s.ledger, k.punished, pool[i].id);
      PardonBalance(s, w, pool[i].id);
    }
    PardonKeepsEntries(s.ledger, k.punished);
    LedgerGoesOn(pool, s, s', w);
  }

  lemma PardonWorkerOk(pool: seq<Provider>, s: State, w: nat)
    requires CanPardon(s, w) && WorkerOk(pool, s.workers[w])
    ensures WorkerOk(pool, AfterPardoning(s, w).workers[w])
  {
    assert AttemptsOk(pool, s.workers[w]) && BlameOk(s.workers[w]);
  }

  lemma PardonKeeps(pool: seq<Provider>, s: State, w: nat)
    requires Invariant(pool, s) && CanPardon(s, w)
    ensures Invariant(pool, AfterPardoning(s, w))
  {
    assert WorkerOk(pool, s.workers[w]);
    PardonWorkerOk(pool, s, w);
    PardonLedger(pool, s, w);
    PardonFrame(pool, s, w);
  }

  lemma PardonFrame(pool: seq<Provider>, s: State, w: nat)
    requires SingleDownload(s) && GuardsOk(pool, s) && ChannelsOk(s) && CanPardon(s, w)
    ensures SingleDownload(AfterPardoning(s, w)) && GuardsOk(pool, AfterPardoning(s, w)) && ChannelsOk(AfterPardoning(s, w))
  {
    SameGuards(pool, s, AfterPardoning(s, w), w);
    SameOrders(s, AfterPardoning(s, w), w);
    FewerChannels(s, AfterPardoning(s, w), w);
  }

  // ---- A worker takes its order out of progress and releases its handle ----

  lemma OrderRemoved(s: State, s': State, w: nat)
    requires SingleDownload(s) && OneMoved(s, s', w) && IsActive(s.workers[w]) && !IsActive(s'.workers[w])
    requires s'.inProgress == s.inProgress - {s.workers[w].path}
    ensures SingleDownload(s')
  {
    forall path | path in s'.inProgress
      ensures exists i :: 0 <= i < |s'.workers| && IsActive(s'.workers[i]) && s'.workers[i].path == path
    {
      var i :| 0 <= i < |s.workers| && IsActive(s.workers[i]) && s.workers[i].path == path;
      assert i != w && IsActive(s'.workers[i]);
    }
  }

  lemma RemoveWorkerOk(pool: seq<Provider>, s: State, w: nat)
    requires CanRemove(s, w) && WorkerOk(pool, s.workers[w])
    ensures WorkerOk(pool, AfterRemove(s, w).workers[w])
  {
    assert AttemptsOk(pool, s.workers[w]) && BlameOk(s.workers[w]);
  }

  lemma RemoveKeeps(pool: seq<Provider>, s: State, w: nat)
    requires Invariant(pool, s) && CanRemove(s, w)
    ensures Invariant(pool, AfterRemove(s, w))
  {
    assert WorkerOk(pool, s.workers[w]);
    RemoveWorkerOk(pool, s, w);
    SameGuards(pool, s, AfterRemove(s, w), w);
    SameLedger(pool, s, AfterRemove(s, w), w);
    OrderRemoved(s, AfterRemove(s, w), w);
    FewerChannels(s, AfterRemove(s, w), w);
  }

  lemma HandleGivenBack(s: State, w: nat)
    requires ChannelsOk(s) && CanRelease(s, w)
    ensures ChannelsOk(AfterRelease(s, w))
  {
    var s' := AfterRelease(s, w);
    var channel := s.workers[w].pc.channel;
    assert channel.Some? ==> Owns(s, w, channel.value);
    forall i: nat, h: nat | Owns(s', i, h)
      ensures Owns(s, i, h) && i != w && channel != Some(h)
    {
      assert Owns(s, i, h);
    }
    assert forall id :: id in s.channels && channel.Some? ==> s.channels[id] != channel.value;
  }

  lemma ReleaseWorkerOk(pool: seq<Provider>, s: State, w: nat)
    requires CanRelease(s, w) && WorkerOk(pool, s.workers[w])
    ensures WorkerOk(pool, AfterRelease(s, w).workers[w])
  {
    assert AttemptsOk(pool, s.workers[w]) && BlameOk(s.workers[w]);
  }

  lemma ReleaseKeeps(pool: seq<Provider>, s: State, w: nat)
    requires Invariant(pool, s) && CanRelease(s, w)
    ensures Invariant(pool, AfterRelease(s, w))
  {
    assert WorkerOk(pool, s.workers[w]);
    ReleaseWorkerOk(pool, s, w);
    OthersStayOk(pool, s, AfterRelease(s, w), w);
    PlainStep(pool, s, AfterRelease(s, w), w);
    HandleGivenBack(s, w);
  }

  lemma StepKeepsInvariant(pool: seq<Provider>, s: State, a: Action)
    requires Invariant(pool, s) && DistinctIds(pool) && pool != [] && Enabled(pool, s, a)
    ensures Invariant(pool, Step(pool, s, a))
  {
    match a
    case Schedule(path, order, custom, cached, resumeFrom, choice) =>
      ScheduleKeeps(pool, s, path, order, custom, cached, resumeFrom, choice);
    case DropRedirect(i) => DropRedirectKeeps(pool, s, i);
    case Select(w, choice) => SelectKeeps(pool, s, w, choice);
    case Connect(w, fileSize) => ConnectKeeps(pool, s, w, fileSize);
    case FailToConnect(w, notFound) => FailToConnectKeeps(pool, s, w, notFound);
    case StartTransfer(w) => StartTransferKeeps(pool, s, w);
    case EndTransfer(w, r) => EndTransferKeeps(pool, s, w, r);
    case Punish(w) => PunishKeeps(pool, s, w);
    case Conclude(w) => ConcludeKeeps(pool, s, w);
    case Pardon(w) => PardonKeeps(pool, s, w);
    case Remove(w) => RemoveKeeps(pool, s, w);
    case Release(w) => ReleaseKeeps(pool, s, w);
  }

  // ---- Whole runs ----

  ghost predicate Happens(pool: seq<Provider>, run: Run<State, Action>, k: nat)
    requires k < |run.actions| < |run.states|
  {
    Enabled(pool, run.states[k], run.actions[k]) && run.states[k + 1] == Step(pool, run.states[k], run.actions[k])
  }

  ghost predicate IsRun(pool: seq<Provider>, run: Run<State, Action>) {
    && |run.states| == |run.actions| + 1
    && run.states[0] == Initial(pool)
    && forall k: nat :: k < |run.actions| ==> Happens(pool, run, k)
  }

  ghost predicate EndsIn(pool: seq<Provider>, run: Run<State, Action>, s: State) {
    IsRun(pool, run) && run.states[|run.states| - 1] == s
  }

  /** Some run, with any number of threads in any order, leads to s. */
  ghost predicate Reachable(pool: seq<Provider>, s: State) {
    exists run :: EndsIn(pool, run, s)
  }

  lemma {:induction false} RunsKeepInvariant(pool: seq<Provider>, run: Run<State, Action>, k: nat)
    requires IsRun(pool, run) && k < |run.states| && DistinctIds(pool) && pool != []
    ensures Invariant(pool, run.states[k])
  {
    if k > 0 {
      RunsKeepInvariant(pool, run, k - 1);
      assert Happens(pool, run, k - 1);
      StepKeepsInvariant(pool, run.states[k - 1], run.actions[k - 1]);
    } else {
      InitialIsOk(pool);
    }
  }

  lemma InitialIsOk(pool: seq<Provider>)
    ensures Invariant(pool, Initial(pool))
  {
  }

  lemma ReachableStatesAreOk(pool: seq<Provider>, s: State)
    requires Reachable(pool, s) && DistinctIds(pool) && pool != []
    ensures Invariant(pool, s)
  {
    var run :| EndsIn(pool, run, s);
    RunsKeepInvariant(pool, run, |run.states| - 1);
  }

  /** At any time, no two workers download the same order, and an order counts as in progress exactly while
      a worker is at it. */
  lemma OneDownloadPerOrder(pool: seq<Provider>, s: State, i: nat, j: nat, path: Path)
    requires Reachable(pool, s) && DistinctIds(pool) && pool != []
    requires i < j < |s.workers| && IsActive(s.workers[i]) && IsActive(s.workers[j])
    ensures s.workers[i].path != s.workers[j].path
    ensures path in s.inProgress <==> exists k :: 0 <= k < |s.workers| && IsActive(s.workers[k]) && s.workers[k].path == path
  {
    ReachableStatesAreOk(pool, s);
  }

  // ---- The counters over a run ----

  /** In this step, a successful order is settled that has punished the given provider. */
  predicate LeavesBlame(s: State, a: Action, id: ProviderId) {
    && a.Pardon? && a.w < |s.workers| && s.workers[a.w].pc.Ended? && s.workers[a.w].pc.result.Complete?
    && id in s.workers[a.w].punished
  }

  /** In this step, an order selects the given provider from the pool. */
  predicate Selects(pool: seq<Provider>, s: State, a: Action, id: ProviderId) {
    && a.Select? && a.w < |s.workers| && s.workers[a.w].custom == None
    && a.choice < |pool| && pool[a.choice].id == id
  }

  /** The orders, by the number of their worker, that have succeeded within the first k steps after having punished
      the given provider. */
  ghost function SuccessfulAfterBlaming(run: Run<State, Action>, k: nat, id: ProviderId): set<nat>
    requires k <= |run.actions| < |run.states|
  {
    if k == 0 then {}
    else
      SuccessfulAfterBlaming(run, k - 1, id)
      + if LeavesBlame(run.states[k - 1], run.actions[k - 1], id) then {run.actions[k - 1].w} else {}
  }

  /** How often the given provider has been selected from the pool within the first k steps. */
  ghost function Selections(pool: seq<Provider>, run: Run<State, Action>, k: nat, id: ProviderId): nat
    requires k <= |run.actions| < |run.states|
  {
    if k == 0 then 0
    else Selections(pool, run, k - 1, id) + if Selects(pool, run.states[k - 1], run.actions[k - 1], id) then 1 else 0
  }

  predicate IsSettled(s: State, w: nat) {
    w < |s.workers| && (s.workers[w].pc.Settled? || s.workers[w].pc.Removed? || s.workers[w].pc.Done?)
  }

  lemma SettledStaysSettled(pool: seq<Provider>, s: State, a: Action, w: nat)
    requires Enabled(pool, s, a) && IsSettled(s, w)
    ensures IsSettled(Step(pool, s, a), w)
  {
    if !a.Schedule? && !a.DropRedirect? {
      OnlyOneMoves(pool, s, a);
      if a.w == w {
        assert a.Remove? || a.Release?;
      }
    }
  }

  lemma OnlyOneMoves(pool: seq<Provider>, s: State, a: Action)
    requires Enabled(pool, s, a) && !a.Schedule? && !a.DropRedirect?
    ensures OneMoved(s, Step(pool, s, a), a.w)
  {
  }

  lemma HistoryGrows(pool: seq<Provider>, s: State, a: Action, id: ProviderId)
    requires WorkersOk(pool, s) && Enabled(pool, s, a)
    ensures Step(pool, s, a).history[id] == s.history[id] + if LeavesBlame(s, a, id) then 1 else 0
  {
    if a.Pardon? {
      assert WorkerOk(pool, s.workers[a.w]) && BlameOk(s.workers[a.w]);
    }
  }

  /** Only selecting, punishing and pardoning have to do with the counters. */
  lemma LedgerUntouched(pool: seq<Provider>, s: State, a: Action)
    requires Enabled(pool, s, a) && !a.Select? && !a.Punish? && !a.Pardon?
    ensures Step(pool, s, a).ledger == s.ledger
  {
  }

  lemma LedgerAfterSelect(pool: seq<Provider>, s: State, w: nat, choice: nat)
    requires CanSelect(pool, s, w, choice)
    ensures s.workers[w].custom.Some? ==> AfterSelect(pool, s, w, choice).ledger == s.ledger
    ensures s.workers[w].custom == None ==>
      choice < |pool| && AfterSelect(pool, s, w, choice).ledger == AfterUse(s.ledger, pool[choice].id)
  {
  }

  lemma UsageGrowsInLedger(m: Ledger, ids: seq<ProviderId>, p: ProviderId, id: ProviderId)
    ensures UsagesOf(m, id) < U32_LIMIT
    ensures UsagesOf(AfterUse(m, p), id) == (UsagesOf(m, id) + if p == id then 1 else 0) % U32_LIMIT
    ensures UsagesOf(AfterPunishment(m, p), id) == UsagesOf(m, id)
    ensures UsagesOf(AfterPardon(m, ids), id) == UsagesOf(m, id)
  {
    PardonSubtracts(m, ids, id);
  }

  lemma UsageGrows(pool: seq<Provider>, s: State, a: Action, id: ProviderId)
    requires Enabled(pool, s, a)
    ensures UsagesOf(Step(pool, s, a).ledger, id)
         == (UsagesOf(s.ledger, id) + if Selects(pool, s, a, id) then 1 else 0) % U32_LIMIT
  {
    UsageGrowsInLedger(s.ledger, [], id, id);
    match a
    case Select(w, choice) =>
      LedgerAfterSelect(pool, s, w, choice);
      if s.workers[w].custom == None {
        UsageGrowsInLedger(s.ledger, [], pool[choice].id, id);
      }
    case Punish(w) => UsageGrowsInLedger(s.ledger, [], s.workers[w].pc.p, id);
    case Pardon(w) => UsageGrowsInLedger(s.ledger, s.workers[w].punished, id, id);
    case _ => LedgerUntouched(pool, s, a);
  }

  ghost predicate AllSettled(s: State, ws: set<nat>) {
    forall w :: w in ws ==> IsSettled(s, w)
  }

  /** An order is settled only once, so that it is counted only once. */
  lemma HistoryStep(pool: seq<Provider>, s: State, a: Action, id: ProviderId, before: set<nat>)
    requires WorkersOk(pool, s) && Enabled(pool, s, a)
    requires AllSettled(s, before) && s.history[id] == |before|
    ensures var after := before + if LeavesBlame(s, a, id) then {a.w} else {};
            AllSettled(Step(pool, s, a), after) && Step(pool, s, a).history[id] == |after|
  {
    HistoryGrows(pool, s, a, id);
    forall w | w in before
      ensures IsSettled(Step(pool, s, a), w)
    {
      SettledStaysSettled(pool, s, a, w);
    }
    if LeavesBlame(s, a, id) {
      assert !IsSettled(s, a.w) && IsSettled(AfterPardoning(s, a.w), a.w);
    }
  }

  ghost predicate Counted(run: Run<State, Action>, k: nat, id: ProviderId)
    requires k <= |run.actions| < |run.states|
  {
    && run.states[k].history[id] == |SuccessfulAfterBlaming(run, k, id)|
    && AllSettled(run.states[k], SuccessfulAfterBlaming(run, k, id))
  }

  lemma CountGoesOn(pool: seq<Provider>, run: Run<State, Action>, k: nat, id: ProviderId)
    requires k < |run.actions| < |run.states| && Happens(pool, run, k)
    requires WorkersOk(pool, run.states[k]) && Counted(run, k, id)
    ensures Counted(run, k + 1, id)
  {
    HistoryStep(pool, run.states[k], run.actions[k], id, SuccessfulAfterBlaming(run, k, id));
  }

  lemma NothingCountedYet(pool: seq<Provider>, run: Run<State, Action>, id: ProviderId)
    requires |run.actions| < |run.states| && run.states[0] == Initial(pool)
    ensures Counted(run, 0, id)
  {
    assert run.states[0].history == multiset{} && SuccessfulAfterBlaming(run, 0, id) == {};
  }

  lemma RunsKeepLedger(pool: seq<Provider>, run: Run<State, Action>, k: nat)
    requires IsRun(pool, run) && k < |run.states| && DistinctIds(pool) && pool != []
    ensures WorkersOk(pool, run.states[k]) && LedgerOk(pool, run.states[k])
  {
    RunsKeepInvariant(pool, run, k);
  }

  lemma RunsKeepWorkers(pool: seq<Provider>, run: Run<State, Action>, k: nat)
    requires IsRun(pool, run) && k < |run.states| && DistinctIds(pool) && pool != []
    ensures WorkersOk(pool, run.states[k])
  {
    RunsKeepInvariant(pool, run, k);
  }

  lemma {:induction false} HistoryIsCount(pool: seq<Provider>, run: Run<State, Action>, k: nat, id: ProviderId)
    requires IsRun(pool, run) && k < |run.states| && DistinctIds(pool) && pool != []
    ensures Counted(run, k, id)
  {
    if k > 0 {
      HistoryIsCount(pool, run, k - 1, id);
      RunsKeepWorkers(pool, run, k - 1);
      assert Happens(pool, run, k - 1);
      CountGoesOn(pool, run, k - 1, id);
    } else {
      NothingCountedYet(pool, run, id);
    }
  }

  /** The usage counter of a provider is the number of times that it has been selected, as far as 32 bits go. */
  lemma {:induction false} UsagesAreCounted(pool: seq<Provider>, run: Run<State, Action>, k: nat, id: ProviderId)
    requires IsRun(pool, run) && k < |run.states|
    ensures UsagesOf(run.states[k].ledger, id) == Selections(pool, run, k, id) % U32_LIMIT
  {
    if k > 0 {
      UsagesAreCounted(pool, run, k - 1, id);
      assert Happens(pool, run, k - 1);
      UsageGrows(pool, run.states[k - 1], run.actions[k - 1], id);
      OneMoreModulo(Selections(pool, run, k - 1, id), if Selects(pool, run.states[k - 1], run.actions[k - 1], id) then 1 else 0);
    }
  }

  lemma OneMoreModulo(n: nat, more: nat)
    ensures (n % U32_LIMIT + more) % U32_LIMIT == (n + more) % U32_LIMIT
  {
  }

  lemma BlameIsSingle(pool: seq<Provider>, s: State, id: ProviderId)
    requires WorkersOk(pool, s)
    ensures forall w :: w in s.workers ==> PunishedOf(w)[id] <= 1
  {
    forall w | w in s.workers
      ensures PunishedOf(w)[id] <= 1
    {
      var k :| 0 <= k < |s.workers| && s.workers[k] == w;
      assert WorkerOk(pool, s.workers[k]) && BlameOk(s.workers[k]);
    }
  }

  /** The orders that have left a punishment of the given provider behind, and those in flight that hold one. */
  ghost function Punishments(run: Run<State, Action>, k: nat, id: ProviderId): nat
    requires k <= |run.actions| < |run.states|
  {
    |SuccessfulAfterBlaming(run, k, id)| + |Holders(run.states[k].workers, PunishedOf, id)|
  }

  lemma CounterIsRight(pool: seq<Provider>, s: State, i: nat)
    requires LedgerOk(pool, s) && WorkersOk(pool, s) && i < |pool|
    ensures FailuresOf(s.ledger, pool[i].id)
         == (s.history[pool[i].id] + |Holders(s.workers, PunishedOf, pool[i].id)|) % U32_LIMIT
  {
    BlameIsSingle(pool, s, pool[i].id);
    TotalIsNumberOfHolders(s.workers, PunishedOf, pool[i].id);
    assert CounterOk(s, pool[i].id);
  }

  /** The failure ledger at any time: the counter of a pool provider is the number of orders that have succeeded after having
      punished it, plus the number of orders in flight that hold it punished, as far as 32 bits go. */
  lemma FailuresAreAccountedFor(pool: seq<Provider>, run: Run<State, Action>, k: nat, i: nat)
    requires IsRun(pool, run) && k < |run.states| && DistinctIds(pool) && i < |pool|
    ensures FailuresOf(run.states[k].ledger, pool[i].id) == Punishments(run, k, pool[i].id) % U32_LIMIT
  {
    RunsKeepLedger(pool, run, k);
    HistoryIsCount(pool, run, k, pool[i].id);
    CounterIsRight(pool, run.states[k], i);
  }

  /** When an order on pool providers pardons a provider, the counter falls by one without wrapping around, exactly unless
      the punishments on the counter, the order's own included, are a multiple of 2^32. So, there is no wrap-around as long
      as fewer than 2^32 orders have left or hold a punishment. */
  lemma PardonWrapsExactlyWhen(pool: seq<Provider>, run: Run<State, Action>, k: nat, w: nat, id: ProviderId)
    requires IsRun(pool, run) && k < |run.states| && DistinctIds(pool) && pool != []
    requires CanPardon(run.states[k], w) && run.states[k].workers[w].custom == None
    requires id in run.states[k].workers[w].punished
    ensures
      var ledger, n := run.states[k].ledger, Punishments(run, k, id);
      var after := AfterPardon(ledger, run.states[k].workers[w].punished);
      && n > 0 && id in ledger && id in after
      && (after[id].numFailures == ledger[id].numFailures - 1 <==> n % U32_LIMIT != 0)
      && (n % U32_LIMIT == 0 ==> after[id].numFailures == U32_MAX)
  {
    RunsKeepInvariant(pool, run, k);
    PunishedAreFromThePool(pool, run.states[k], w, id);
    FailuresAreAccountedFor(pool, run, k, IndexOf(pool, id));
    assert w in Holders(run.states[k].workers, PunishedOf, id);
    PardonOfOne(run.states[k].ledger, run.states[k].workers[w].punished, id);
  }

  lemma PunishedAreFromThePool(pool: seq<Provider>, s: State, w: nat, id: ProviderId)
    requires WorkersOk(pool, s) && LedgerOk(pool, s) && w < |s.workers|
    requires s.workers[w].custom == None && id in s.workers[w].punished
    ensures id in Ids(pool) && id in s.ledger && multiset(s.workers[w].punished)[id] == 1
  {
    assert WorkerOk(pool, s.workers[w]) && BlameOk(s.workers[w]) && AttemptsOk(pool, s.workers[w]);
  }

  lemma PardonOfOne(m: Ledger, ids: seq<ProviderId>, id: ProviderId)
    requires id in m && multiset(ids)[id] == 1
    ensures id in AfterPardon(m, ids)
    ensures AfterPardon(m, ids)[id].numFailures == if m[id].numFailures == 0 then U32_MAX else m[id].numFailures - 1
  {
    PardonSubtracts(m, ids, id);
  }

  /** A transfer runs on a handle that is its own, neither idle nor held by anybody else, and with the range that its own
      file asks for, whatever earlier jobs have used the handle for. */
  lemma TransfersAreIsolated(pool: seq<Provider>, s: State, w: nat)
    requires Reachable(pool, s) && DistinctIds(pool) && pool != []
    requires w < |s.workers| && s.workers[w].pc.Serving?
    ensures var h := s.workers[w].pc.handle;
            && h < |s.handles| && s.handles[h] == Handle(true, RangeFrom(s.workers[w].fileSize))
            && (forall j: nat :: Owns(s, j, h) ==> j == w)
            && (forall id :: id in s.channels ==> s.channels[id] != h)
  {
    ReachableStatesAreOk(pool, s);
    assert Owns(s, w, s.workers[w].pc.handle);
  }

  /** An idle handle holds no job, and it is neither shared between providers nor in use. */
  lemma IdleHandlesAreFree(pool: seq<Provider>, s: State, id: ProviderId)
    requires Reachable(pool, s) && DistinctIds(pool) && pool != []
    requires id in s.channels
    ensures s.channels[id] < |s.handles| && !s.handles[s.channels[id]].busy
    ensures forall j: nat :: !Owns(s, j, s.channels[id])
    ensures forall other :: other in s.channels && s.channels[other] == s.channels[id] ==> other == id
  {
    ReachableStatesAreOk(pool, s);
  }

  /** The load that the selection sees is one more than the number of guards held on the provider at that time, by workers
      and by threads that redirect their client. */
  lemma LoadIsNumberOfGuards(pool: seq<Provider>, s: State, i: nat)
    requires Reachable(pool, s) && DistinctIds(pool) && i < |pool|
    ensures |s.strong| == |pool|
    ensures s.strong[i] == 1 + |Holders(s.workers, GuardOf, pool[i].id)| + s.redirects[pool[i].id]
  {
    ReachableStatesAreOk(pool, s);
    TotalIsNumberOfHolders(s.workers, GuardOf, pool[i].id);
  }

  /** Whoever redirects its client can give its guard back at any time. */
  lemma RedirectsCanEnd(pool: seq<Provider>, s: State, i: nat)
    requires Reachable(pool, s) && DistinctIds(pool) && i < |pool|
    ensures CanDropRedirect(pool, s, i) <==> pool[i].id in s.redirects
    ensures pool[i].id in s.redirects ==>
      var s' := AfterDropRedirect(pool, s, i);
      s'.redirects[pool[i].id] == s.redirects[pool[i].id] - 1 && |s'.strong| == |s.strong| && s'.strong[i] == s.strong[i] - 1
  {
    ReachableStatesAreOk(pool, s);
  }

  lemma NothingIsHeld(pool: seq<Provider>, s: State)
    requires WorkersOk(pool, s) && forall w :: w in s.workers ==> w.pc.Done?
    ensures forall w :: w in s.workers ==> PunishedOf(w) == multiset{} && GuardOf(w) == multiset{}
  {
    forall w | w in s.workers
      ensures PunishedOf(w) == multiset{} && GuardOf(w) == multiset{}
    {
      var k :| 0 <= k < |s.workers| && s.workers[k] == w;
      assert WorkerOk(pool, s.workers[k]) && BlameOk(s.workers[k]);
    }
  }

  /** When every order is over, nothing is in progress, the failures on the counters are exactly those that successful
      orders have left behind, and the only guards still held are those of redirecting threads. */
  lemma WhenAllOrdersAreOver(pool: seq<Provider>, run: Run<State, Action>, k: nat, i: nat)
    requires IsRun(pool, run) && k < |run.states| && DistinctIds(pool) && i < |pool|
    requires forall w :: w in run.states[k].workers ==> w.pc.Done?
    ensures var s, id := run.states[k], pool[i].id;
            && s.inProgress == {}
            && FailuresOf(s.ledger, id) == |SuccessfulAfterBlaming(run, k, id)| % U32_LIMIT
            && |s.strong| == |pool| && s.strong[i] == 1 + s.redirects[id]
  {
    RunsKeepInvariant(pool, run, k);
    HistoryIsCount(pool, run, k, pool[i].id);
    NothingIsLeft(pool, run.states[k], i);
  }

  lemma NothingIsLeft(pool: seq<Provider>, s: State, i: nat)
    requires Invariant(pool, s) && i < |pool| && forall w :: w in s.workers ==> w.pc.Done?
    ensures s.inProgress == {}
    ensures FailuresOf(s.ledger, pool[i].id) == s.history[pool[i].id] % U32_LIMIT
    ensures s.strong[i] == 1 + s.redirects[pool[i].id]
  {
    NothingIsHeld(pool, s);
    TotalOfNothing(s.workers, PunishedOf, pool[i].id);
    TotalOfNothing(s.workers, GuardOf, pool[i].id);
    assert CounterOk(s, pool[i].id);
  }

  /** An order that gives up with a retryable failure has tried 25 providers, or all that may serve it, or must not
      be retried; and it never tries one twice. */
  lemma NoEarlySurrender(pool: seq<Provider>, s: State, w: nat)
    requires Reachable(pool, s) && DistinctIds(pool) && pool != []
    requires w < |s.workers| && s.workers[w].pc.Ended? && IsRetried(s.workers[w].pc.result)
    ensures var k := s.workers[w];
            var tried := k.unsuccessful + {k.pc.p};
            && |tried| == k.numAttempt <= NUM_MAX_ATTEMPTS
            && (k.numAttempt == NUM_MAX_ATTEMPTS || tried == Pool(pool, k.custom) || !k.order.retryable)
  {
    ReachableStatesAreOk(pool, s);
    assert WorkerOk(pool, s.workers[w]) && AttemptsOk(pool, s.workers[w]);
  }

  // ---- Progress ----

  /** A worker that is not done can always take its next step; in particular, the list of candidates is never empty. */
  lemma WorkersNeverGetStuck(pool: seq<Provider>, s: State, w: nat)
    requires Reachable(pool, s) && DistinctIds(pool) && pool != []
    requires w < |s.workers| && !s.workers[w].pc.Done?
    ensures exists a: Action :: !a.Schedule? && !a.DropRedirect? && a.w == w && Enabled(pool, s, a)
  {
    ReachableStatesAreOk(pool, s);
    var k := s.workers[w];
    assert WorkerOk(pool, k) && AttemptsOk(pool, k);
    match k.pc
    case LoopHead =>
      var choice := LoopHeadCanSelect(pool, s, w);
      assert Enabled(pool, s, Select(w, choice));
    case Selected(_, _) => assert Enabled(pool, s, Connect(w, 0));
    case Connected(_, _, h) => assert Owns(s, w, h); assert Enabled(pool, s, StartTransfer(w));
    case Serving(_, _, _) => assert Enabled(pool, s, EndTransfer(w, Error));
    case Judged(_, _, _, _) => assert Enabled(pool, s, Punish(w));
    case Decided(_, _, _, _) =>
      DecidedCanConclude(pool, s, w);
      assert Enabled(pool, s, Conclude(w));
    case Ended(_, _, _) => assert Enabled(pool, s, Pardon(w));
    case Settled(_, _, _) => assert Enabled(pool, s, Remove(w));
    case Removed(_, _, channel) =>
      assert channel.Some? ==> Owns(s, w, channel.value);
      assert Enabled(pool, s, Release(w));
  }

  lemma LoopHeadCanSelect(pool: seq<Provider>, s: State, w: nat) returns (choice: nat)
    requires GuardsOk(pool, s) && w < |s.workers| && s.workers[w].pc.LoopHead? && AttemptsOk(pool, s.workers[w])
    ensures CanSelect(pool, s, w, choice)
  {
    choice := 0;
    if s.workers[w].custom == None {
      choice := CandidateExists(pool, s, s.workers[w]);
    }
  }

  lemma DecidedCanConclude(pool: seq<Provider>, s: State, w: nat)
    requires GuardsOk(pool, s) && w < |s.workers| && s.workers[w].pc.Decided? && AttemptsOk(pool, s.workers[w])
    ensures CanConclude(pool, s, w)
  {
  }

  lemma CandidateExists(pool: seq<Provider>, s: State, k: Worker) returns (choice: nat)
    requires k.custom == None && k.unsuccessful < Pool(pool, k.custom) && |s.strong| == |pool|
    ensures IsChoice(pool, s.strong, Rate(k.order.cacheable, s.ledger, k.unsuccessful), choice)
  {
    var rate := Rate(k.order.cacheable, s.ledger, k.unsuccessful);
    var id :| id in Pool(pool, k.custom) && id !in k.unsuccessful;
    var i :| 0 <= i < |pool| && pool[i].id == id;
    choice := ChoiceExists(pool, s.strong, rate, i);
  }

  /** How many steps a worker has left at most. */
  function Rank(k: Worker): int {
    var size: int := |k.unsuccessful|;
    var left := 10 * (NUM_MAX_ATTEMPTS - size);
    match k.pc
    case LoopHead => left
    case Selected(_, _) => left - 1
    case Connected(_, _, _) => left - 2
    case Serving(_, _, _) => left - 3
    case Judged(_, _, _, _) => left - 4
    case Decided(_, _, _, _) => left - 5
    case Ended(_, _, _) => left - 6
    case Settled(_, _, _) => left - 7
    case Removed(_, _, _) => left - 8
    case Done => 0
  }

  lemma StepLowersRank(pool: seq<Provider>, s: State, a: Action)
    requires Enabled(pool, s, a) && !a.Schedule? && !a.DropRedirect? && a.w < |s.workers|
    requires |s.workers[a.w].unsuccessful| < NUM_MAX_ATTEMPTS
    requires a.Conclude? ==> s.workers[a.w].pc.p !in s.workers[a.w].unsuccessful
    ensures OneMoved(s, Step(pool, s, a), a.w)
    ensures Rank(Step(pool, s, a).workers[a.w]) < Rank(s.workers[a.w])
  {
    match a
    case Select(w, choice) => SelectLowersRank(pool, s, w, choice);
    case Connect(w, fileSize) => ConnectLowersRank(s, w, fileSize);
    case FailToConnect(w, notFound) => FailToConnectLowersRank(s, w, notFound);
    case StartTransfer(w) => StartTransferLowersRank(s, w);
    case EndTransfer(w, r) => EndTransferLowersRank(s, w, r);
    case Punish(w) => PunishLowersRank(s, w);
    case Conclude(w) => ConcludeLowersRank(pool, s, w);
    case Pardon(w) => PardonLowersRank(s, w);
    case Remove(w) => RemoveLowersRank(s, w);
    case Release(w) => ReleaseLowersRank(s, w);
  }

  /** Worker w has moved and comes closer to its end. */
  ghost predicate Lowered(s: State, s': State, w: nat) {
    OneMoved(s, s', w) && Rank(s'.workers[w]) < Rank(s.workers[w])
  }

  lemma SelectLowersRank(pool: seq<Provider>, s: State, w: nat, choice: nat)
    requires CanSelect(pool, s, w, choice)
    ensures Lowered(s, AfterSelect(pool, s, w, choice), w)
  {
  }

  lemma ConnectLowersRank(s: State, w: nat, fileSize: nat)
    requires CanConnect(s, w)
    ensures Lowered(s, AfterConnect(s, w, fileSize), w)
  {
  }

  lemma FailToConnectLowersRank(s: State, w: nat, notFound: bool)
    requires CanFailToConnect(s, w)
    ensures Lowered(s, AfterFailToConnect(s, w, notFound), w)
  {
  }

  lemma StartTransferLowersRank(s: State, w: nat)
    requires CanStartTransfer(s, w)
    ensures Lowered(s, AfterStartTransfer(s, w), w)
  {
  }

  lemma EndTransferLowersRank(s: State, w: nat, r: JobResult)
    requires CanEndTransfer(s, w, r)
    ensures Lowered(s, AfterEndTransfer(s, w, r), w)
  {
  }

  lemma PunishLowersRank(s: State, w: nat)
    requires CanPunish(s, w)
    ensures Lowered(s, AfterPunish(s, w), w)
  {
  }

  lemma ConcludeLowersRank(pool: seq<Provider>, s: State, w: nat)
    requires CanConclude(pool, s, w) && s.workers[w].pc.p !in s.workers[w].unsuccessful
    ensures Lowered(s, AfterConclude(pool, s, w), w)
  {
  }

  lemma PardonLowersRank(s: State, w: nat)
    requires CanPardon(s, w)
    ensures Lowered(s, AfterPardoning(s, w), w)
  {
  }

  lemma RemoveLowersRank(s: State, w: nat)
    requires CanRemove(s, w)
    ensures Lowered(s, AfterRemove(s, w), w)
  {
  }

  lemma ReleaseLowersRank(s: State, w: nat)
    requires CanRelease(s, w) && |s.workers[w].unsuccessful| < NUM_MAX_ATTEMPTS
    ensures Lowered(s, AfterRelease(s, w), w)
  {
  }

  ghost function RankSum(ws: seq<Worker>): int {
    if ws == [] then 0 else Rank(ws[0]) + RankSum(ws[1..])
  }

  lemma {:induction false} RankSumOfUpdate(ws: seq<Worker>, i: nat, w: Worker)
    requires i < |ws|
    ensures RankSum(ws[i := w]) == RankSum(ws) - Rank(ws[i]) + Rank(w)
  {
    if i == 0 {
      assert ws[0 := w][1..] == ws[1..];
    } else {
      RankSumOfUpdate(ws[1..], i - 1, w);
      assert ws[i := w][1..] == ws[1..][i - 1 := w];
    }
  }

  lemma {:induction false} RankSumOfAppend(ws: seq<Worker>, w: Worker)
    ensures RankSum(ws + [w]) == RankSum(ws) + Rank(w)
  {
    if ws == [] {
      assert (ws + [w])[1..] == [];
    } else {
      assert (ws + [w])[1..] == ws[1..] + [w];
      RankSumOfAppend(ws[1..], w);
    }
  }

  lemma {:induction false} RankSumIsPositive(ws: seq<Worker>)
    requires forall w :: w in ws ==> |w.unsuccessful| < NUM_MAX_ATTEMPTS
    ensures RankSum(ws) >= 0
  {
    if ws != [] {
      RankSumIsPositive(ws[1..]);
    }
  }

  function WorkerSteps(actions: seq<Action>): nat {
    if actions == [] then 0
    else
      var last := actions[|actions| - 1];
      WorkerSteps(actions[..|actions| - 1]) + if last.Schedule? || last.DropRedirect? then 0 else 1
  }

  /** One action pays for itself, and a new order brings 250 steps. */
  lemma StepIsPaid(pool: seq<Provider>, s: State, a: Action)
    requires Invariant(pool, s) && Enabled(pool, s, a)
    ensures var s' := Step(pool, s, a);
            && |s.workers| <= |s'.workers|
            && WorkerSteps([a]) + RankSum(s'.workers) - RankSum(s.workers) <= 250 * (|s'.workers| - |s.workers|)
  {
    assert [a][..0] == [];
    match a
    case Schedule(path, order, custom, _, _, _) => RankSumOfAppend(s.workers, NewWorker(path, order, custom));
    case DropRedirect(_) =>
    case _ => WorkerStepIsPaid(pool, s, a);
  }

  lemma WorkerStepIsPaid(pool: seq<Provider>, s: State, a: Action)
    requires Invariant(pool, s) && Enabled(pool, s, a) && !a.Schedule? && !a.DropRedirect?
    ensures |Step(pool, s, a).workers| == |s.workers|
    ensures RankSum(Step(pool, s, a).workers) < RankSum(s.workers)
  {
    assert a.w < |s.workers|;
    assert WorkerOk(pool, s.workers[a.w]) && AttemptsOk(pool, s.workers[a.w]);
    StepLowersRank(pool, s, a);
    RankSumOfUpdate(s.workers, a.w, Step(pool, s, a).workers[a.w]);
  }

  lemma {:induction false} StepsAndRanks(pool: seq<Provider>, run: Run<State, Action>, k: nat)
    requires IsRun(pool, run) && k < |run.states| && DistinctIds(pool) && pool != []
    ensures WorkerSteps(run.actions[..k]) + RankSum(run.states[k].workers) <= 250 * |run.states[k].workers|
  {
    if k > 0 {
      var s, a := run.states[k - 1], run.actions[k - 1];
      StepsAndRanks(pool, run, k - 1);
      RunsKeepInvariant(pool, run, k - 1);
      assert Happens(pool, run, k - 1);
      StepIsPaid(pool, s, a);
      assert run.actions[..k][..k - 1] == run.actions[..k - 1];
      assert [a][..0] == [] && WorkerSteps(run.actions[..k]) == WorkerSteps(run.actions[..k - 1]) + WorkerSteps([a]);
    }
  }

  /** Termination: in any run, under any interference, all orders together take at most 250 steps per order. */
  lemma OrdersTerminate(pool: seq<Provider>, run: Run<State, Action>)
    requires IsRun(pool, run) && DistinctIds(pool) && pool != []
    ensures WorkerSteps(run.actions) <= 250 * |run.states[|run.states| - 1].workers|
  {
    var k := |run.actions|;
    StepsAndRanks(pool, run, k);
    RunsKeepInvariant(pool, run, k);
    assert run.actions[..k] == run.actions;
    RanksAreBounded(pool, run.states[k]);
  }

  lemma RanksAreBounded(pool: seq<Provider>, s: State)
    requires WorkersOk(pool, s)
    ensures RankSum(s.workers) >= 0
  {
    forall w | w in s.workers
      ensures |w.unsuccessful| < NUM_MAX_ATTEMPTS
    {
      var k :| 0 <= k < |s.workers| && s.workers[k] == w;
      assert WorkerOk(pool, s.workers[k]) && AttemptsOk(pool, s.workers[k]);
    }
    RankSumIsPositive(s.workers);
  }

  // ---- The counters of custom providers over a run ----

  /** In this step, the given provider is punished. */
  predicate Punishes(s: State, a: Action, id: ProviderId) {
    && a.Punish? && a.w < |s.workers| && s.workers[a.w].pc.Judged? && s.workers[a.w].pc.p == id
    && (s.workers[a.w].pc.result.Partial? || s.workers[a.w].pc.result.Error?)
  }

  ghost predicate EverPunished(run: Run<State, Action>, k: nat, id: ProviderId)
    requires k <= |run.actions| < |run.states|
  {
    k > 0 && (EverPunished(run, k - 1, id) || Punishes(run.states[k - 1], run.actions[k - 1], id))
  }

  /** The counter of a custom provider: it has an entry once it has been punished, and it is one short of the n punishments. */
  ghost predicate OneShort(m: Ledger, n: nat, id: ProviderId, punished: bool) {
    && (id in m <==> punished)
    && if punished then FailuresOf(m, id) == Shifted(0, n, 1) else n == 0
  }

  lemma PunishmentKeepsOneShort(m: Ledger, n: nat, p: ProviderId, id: ProviderId, punished: bool)
    requires OneShort(m, n, id, punished)
    ensures OneShort(AfterPunishment(m, p), if p == id then n + 1 else n, id, punished || p == id)
  {
    IncrementAdds(n - 1);
  }

  lemma PardonKeepsOneShort(m: Ledger, n: nat, ids: seq<ProviderId>, id: ProviderId, punished: bool)
    requires OneShort(m, n, id, punished) && multiset(ids)[id] <= n
    ensures OneShort(AfterPardon(m, ids), n - multiset(ids)[id], id, punished)
  {
    PardonSubtracts(m, ids, id);
    ShiftedLess(n, multiset(ids)[id]);
  }

  lemma ShiftedLess(n: nat, share: nat)
    requires share <= n
    ensures (Shifted(0, n, 1) - share) % U32_LIMIT == Shifted(0, n - share, 1)
  {
  }

  /** The punishments of a provider that are left behind or held. */
  ghost function Owed(s: State, id: ProviderId): nat {
    s.history[id] + Total(s.workers, PunishedOf, id)
  }

  /** Nothing but a punishment or a pardon changes what workers are to be blamed for. */
  lemma BlameUntouched(pool: seq<Provider>, s: State, a: Action)
    requires Enabled(pool, s, a) && !a.Schedule? && !a.DropRedirect? && !a.Punish? && !a.Pardon?
    ensures OneMoved(s, Step(pool, s, a), a.w) && Step(pool, s, a).history == s.history
    ensures PunishedOf(Step(pool, s, a).workers[a.w]) == PunishedOf(s.workers[a.w])
  {
    assert a.w < |s.workers|;
  }

  lemma OwedStays(s: State, s': State, w: nat, id: ProviderId)
    requires OneMoved(s, s', w) && s'.history == s.history && PunishedOf(s'.workers[w]) == PunishedOf(s.workers[w])
    ensures Owed(s', id) == Owed(s, id)
  {
    TotalOfUpdate(s.workers, w, s'.workers[w], PunishedOf, id);
  }

  lemma OwedAfterArrival(pool: seq<Provider>, s: State, a: Action, id: ProviderId)
    requires Enabled(pool, s, a) && (a.Schedule? || a.DropRedirect?)
    ensures Owed(Step(pool, s, a), id) == Owed(s, id)
  {
    if a.Schedule? {
      TotalOfAppend(s.workers, NewWorker(a.path, a.order, a.custom), PunishedOf, id);
    }
  }

  lemma OwedAfterPunish(s: State, w: nat, id: ProviderId)
    requires CanPunish(s, w)
    ensures Owed(AfterPunish(s, w), id) == if Punishes(s, Punish(w), id) then Owed(s, id) + 1 else Owed(s, id)
  {
    var k, k' := s.workers[w], AfterPunish(s, w).workers[w];
    TotalOfUpdate(s.workers, w, k', PunishedOf, id);
    assert PunishedOf(k')[id] == PunishedOf(k)[id] + if Punishes(s, Punish(w), id) then 1 else 0;
  }

  lemma OwedAfterPardon(s: State, w: nat, id: ProviderId)
    requires CanPardon(s, w)
    ensures PunishedOf(s.workers[w])[id] <= Owed(s, id)
    ensures Owed(AfterPardoning(s, w), id)
         == if s.workers[w].pc.result.Complete? then Owed(s, id) else Owed(s, id) - PunishedOf(s.workers[w])[id]
  {
    var k' := AfterPardoning(s, w).workers[w];
    TotalOfUpdate(s.workers, w, k', PunishedOf, id);
    assert PunishedOf(k') == multiset{};
  }

  lemma QuietStepKeepsLedger(pool: seq<Provider>, s: State, a: Action, id: ProviderId, n: nat, punished: bool)
    requires Enabled(pool, s, a) && !a.Punish? && !a.Pardon? && id !in Ids(pool)
    requires OneShort(s.ledger, n, id, punished)
    ensures OneShort(Step(pool, s, a).ledger, n, id, punished)
  {
    if a.Select? {
      LedgerAfterSelect(pool, s, a.w, a.choice);
    } else {
      LedgerUntouched(pool, s, a);
    }
  }

  lemma CustomCounterGoesOn(pool: seq<Provider>, s: State, a: Action, id: ProviderId, punished: bool)
    requires Enabled(pool, s, a) && OneShort(s.ledger, Owed(s, id), id, punished) && id !in Ids(pool)
    ensures OneShort(Step(pool, s, a).ledger, Owed(Step(pool, s, a), id), id, punished || Punishes(s, a, id))
  {
    if a.Punish? {
      OwedAfterPunish(s, a.w, id);
      PunishmentKeepsOneShort(s.ledger, Owed(s, id), s.workers[a.w].pc.p, id, punished);
    } else if a.Pardon? {
      OwedAfterPardon(s, a.w, id);
      PardonKeepsOneShort(s.ledger, Owed(s, id), s.workers[a.w].punished, id, punished);
    } else {
      QuietStepKeepsLedger(pool, s, a, id, Owed(s, id), punished);
      if a.Schedule? || a.DropRedirect? {
        OwedAfterArrival(pool, s, a, id);
      } else {
        BlameUntouched(pool, s, a);
        OwedStays(s, Step(pool, s, a), a.w, id);
      }
    }
  }

  lemma {:induction false} CustomCounterOverRun(pool: seq<Provider>, run: Run<State, Action>, k: nat, id: ProviderId)
    requires IsRun(pool, run) && k < |run.states| && id !in Ids(pool)
    ensures OneShort(run.states[k].ledger, Owed(run.states[k], id), id, EverPunished(run, k, id))
  {
    if k > 0 {
      CustomCounterOverRun(pool, run, k - 1, id);
      assert Happens(pool, run, k - 1);
      CustomCounterGoesOn(pool, run.states[k - 1], run.actions[k - 1], id, EverPunished(run, k - 1, id));
    }
  }

  lemma OwedIsPunishments(pool: seq<Provider>, run: Run<State, Action>, k: nat, id: ProviderId)
    requires IsRun(pool, run) && k < |run.states| && DistinctIds(pool) && pool != []
    ensures Owed(run.states[k], id) == Punishments(run, k, id)
  {
    HistoryIsCount(pool, run, k, id);
    RunsKeepWorkers(pool, run, k);
    BlameIsSingle(pool, run.states[k], id);
    TotalIsNumberOfHolders(run.states[k].workers, PunishedOf, id);
  }

  /** The failure ledger of custom providers at any time: there is an entry exactly for those that have been punished, and the
      counter is one short of the punishments that orders have left behind or hold, as far as 32 bits go. So, it is at its
      maximum whenever there are none. */
  lemma CustomFailuresAreAccountedFor(pool: seq<Provider>, run: Run<State, Action>, k: nat, id: ProviderId)
    requires IsRun(pool, run) && k < |run.states| && DistinctIds(pool) && pool != [] && id !in Ids(pool)
    ensures id in run.states[k].ledger <==> EverPunished(run, k, id)
    ensures EverPunished(run, k, id) ==> FailuresOf(run.states[k].ledger, id) == (Punishments(run, k, id) - 1) % U32_LIMIT
    ensures !EverPunished(run, k, id) ==> Punishments(run, k, id) == 0
  {
    CustomCounterOverRun(pool, run, k, id);
    OwedIsPunishments(pool, run, k, id);
  }

  // ---- Who is blamed for what over a run ----

  /** Within the first k steps, worker w has punished the given provider. */
  ghost predicate HasBlamed(run: Run<State, Action>, k: nat, w: nat, id: ProviderId)
    requires k <= |run.actions| < |run.states|
  {
    k > 0 && (|| HasBlamed(run, k - 1, w, id)
              || (run.actions[k - 1] == Punish(w) && Punishes(run.states[k - 1], run.actions[k - 1], id)))
  }

  /** Within the first k steps, the order of worker w has been settled as a success. */
  ghost predicate HasSucceeded(run: Run<State, Action>, k: nat, w: nat)
    requires k <= |run.actions| < |run.states|
  {
    k > 0 && (|| HasSucceeded(run, k - 1, w)
              || (run.actions[k - 1] == Pardon(w) && Succeeds(run.states[k - 1], w)))
  }

  predicate Succeeds(s: State, w: nat) {
    w < |s.workers| && s.workers[w].pc.Ended? && s.workers[w].pc.result.Complete?
  }

  lemma PunishedListAfterPunish(s: State, w: nat, id: ProviderId)
    requires CanPunish(s, w)
    ensures OneMoved(s, AfterPunish(s, w), w)
    ensures id in AfterPunish(s, w).workers[w].punished <==> id in s.workers[w].punished || Punishes(s, Punish(w), id)
  {
  }

  /** What one step does to the list of punished providers of a worker that it leaves unsettled. */
  lemma PunishedListAfterStep(pool: seq<Provider>, s: State, a: Action, w: nat, id: ProviderId)
    requires Enabled(pool, s, a) && w < |s.workers| && !IsSettled(Step(pool, s, a), w)
    ensures w < |Step(pool, s, a).workers|
    ensures id in Step(pool, s, a).workers[w].punished <==>
      id in s.workers[w].punished || (a == Punish(w) && Punishes(s, a, id))
  {
    if a.Punish? {
      PunishedListAfterPunish(s, a.w, id);
    } else if a.Pardon? {
      OnlyOneMoves(pool, s, a);
    } else if !a.Schedule? && !a.DropRedirect? {
      BlameUntouched(pool, s, a);
      SamePunished(s.workers[a.w], Step(pool, s, a).workers[a.w], id);
    }
  }

  lemma NewWorkersAreInnocent(pool: seq<Provider>, s: State, a: Action, w: nat)
    requires Enabled(pool, s, a) && |s.workers| <= w < |Step(pool, s, a).workers|
    ensures Step(pool, s, a).workers[w].punished == []
  {
  }

  lemma SamePunished(k: Worker, k': Worker, id: ProviderId)
    requires PunishedOf(k) == PunishedOf(k')
    ensures id in k.punished <==> id in k'.punished
  {
    assert id in k.punished <==> id in PunishedOf(k);
  }

  lemma WorkersStay(pool: seq<Provider>, s: State, a: Action)
    requires Enabled(pool, s, a)
    ensures |s.workers| <= |Step(pool, s, a).workers|
  {
  }

  /** As long as an order is not settled, its list of punished providers is what it has done. */
  lemma {:induction false} BlameIsRecorded(pool: seq<Provider>, run: Run<State, Action>, k: nat, w: nat, id: ProviderId)
    requires IsRun(pool, run) && k < |run.states|
    ensures HasBlamed(run, k, w, id) ==> w < |run.states[k].workers|
    ensures w < |run.states[k].workers| && !IsSettled(run.states[k], w) ==>
      (id in run.states[k].workers[w].punished <==> HasBlamed(run, k, w, id))
  {
    if k > 0 {
      var s, a := run.states[k - 1], run.actions[k - 1];
      BlameIsRecorded(pool, run, k - 1, w, id);
      assert Happens(pool, run, k - 1);
      WorkersStay(pool, s, a);
      if w < |s.workers| && !IsSettled(run.states[k], w) {
        if IsSettled(s, w) {
          SettledStaysSettled(pool, s, a, w);
        }
        PunishedListAfterStep(pool, s, a, w, id);
      } else if |s.workers| <= w < |run.states[k].workers| {
        NewWorkersAreInnocent(pool, s, a, w);
      }
    }
  }

  lemma {:induction false} SuccessIsSettled(pool: seq<Provider>, run: Run<State, Action>, k: nat, w: nat)
    requires IsRun(pool, run) && k < |run.states|
    ensures HasSucceeded(run, k, w) ==> IsSettled(run.states[k], w)
  {
    if k > 0 {
      SuccessIsSettled(pool, run, k - 1, w);
      assert Happens(pool, run, k - 1);
      if HasSucceeded(run, k - 1, w) {
        SettledStaysSettled(pool, run.states[k - 1], run.actions[k - 1], w);
      } else if HasSucceeded(run, k, w) {
        PardonSettles(run.states[k - 1], w);
      }
    }
  }

  lemma PardonSettles(s: State, w: nat)
    requires CanPardon(s, w)
    ensures IsSettled(AfterPardoning(s, w), w) && !IsSettled(s, w)
  {
  }

  /** Those that have left a punishment behind are those that have blamed the provider and succeeded. */
  lemma {:induction false} LeftBehindExactlyWhen(pool: seq<Provider>, run: Run<State, Action>, k: nat, w: nat, id: ProviderId)
    requires IsRun(pool, run) && k < |run.states|
    ensures w in SuccessfulAfterBlaming(run, k, id) <==> HasBlamed(run, k, w, id) && HasSucceeded(run, k, w)
  {
    if k > 0 {
      var s, a := run.states[k - 1], run.actions[k - 1];
      LeftBehindExactlyWhen(pool, run, k - 1, w, id);
      BlameIsRecorded(pool, run, k - 1, w, id);
      SuccessIsSettled(pool, run, k - 1, w);
      assert Happens(pool, run, k - 1);
      if a == Punish(w) {
        assert !IsSettled(s, w);
      } else if a == Pardon(w) {
        PardonSettles(s, w);
      }
    }
  }

  /** The orders that have blamed the given provider and have not been settled as failures. */
  ghost function Blamers(run: Run<State, Action>, k: nat, id: ProviderId): set<nat>
    requires k <= |run.actions| < |run.states|
  {
    set w: nat | w < |run.states[k].workers| && HasBlamed(run, k, w, id)
              && (IsSettled(run.states[k], w) ==> HasSucceeded(run, k, w))
  }

  lemma PunishmentsAreBlames(pool: seq<Provider>, run: Run<State, Action>, k: nat, id: ProviderId)
    requires IsRun(pool, run) && k < |run.states| && DistinctIds(pool) && pool != []
    ensures Punishments(run, k, id) == |Blamers(run, k, id)|
  {
    var left, held := SuccessfulAfterBlaming(run, k, id), Holders(run.states[k].workers, PunishedOf, id);
    RunsKeepWorkers(pool, run, k);
    forall w: nat
      ensures w in left <==> w in Blamers(run, k, id) && IsSettled(run.states[k], w)
      ensures w in held <==> w in Blamers(run, k, id) && !IsSettled(run.states[k], w)
    {
      LeftBehindExactlyWhen(pool, run, k, w, id);
      SuccessIsSettled(pool, run, k, w);
      BlameIsRecorded(pool, run, k, w, id);
      if w < |run.states[k].workers| {
        OwesNothingOnceSettled(pool, run.states[k], w, id);
      }
    }
    assert Blamers(run, k, id) == left + held && left !! held;
  }

  lemma OwesNothingOnceSettled(pool: seq<Provider>, s: State, w: nat, id: ProviderId)
    requires WorkersOk(pool, s) && w < |s.workers|
    ensures id in PunishedOf(s.workers[w]) <==> id in s.workers[w].punished
    ensures IsSettled(s, w) ==> id !in s.workers[w].punished
  {
    assert WorkerOk(pool, s.workers[w]) && BlameOk(s.workers[w]);
  }

  /** The failure ledger in terms of what has happened: the counter of a pool provider is the number of orders that have had a
      transfer from it broken off or ended in error, and have not been settled as failures themselves, as far as 32 bits go. */
  lemma FailuresAreBlames(pool: seq<Provider>, run: Run<State, Action>, k: nat, i: nat)
    requires IsRun(pool, run) && k < |run.states| && DistinctIds(pool) && i < |pool|
    ensures FailuresOf(run.states[k].ledger, pool[i].id) == |Blamers(run, k, pool[i].id)| % U32_LIMIT
  {
    FailuresAreAccountedFor(pool, run, k, i);
    PunishmentsAreBlames(pool, run, k, pool[i].id);
  }

  // ---- What becomes of the handles ----

  /** A channel that does not open: the idle handle of the provider is gone, and the error tells why. */
  lemma NoChannelExactly(s: State, w: nat, notFound: bool)
    requires CanFailToConnect(s, w)
    ensures
      var s' := AfterFailToConnect(s, w, notFound);
      var (p, pc) := (s.workers[w].pc.p, s'.workers[w].pc);
      && s'.channels == s.channels - {p} && s'.handles == s.handles && s'.ledger == s.ledger
      && pc.Judged? && pc.p == p && pc.channel == None
      && (pc.result == ClientError <==> notFound) && (pc.result == UnexpectedInternalError <==> !notFound)
  {
  }

  /** A transfer leaves a handle, and an attempt that cannot open its channel does not. */
  predicate ResultOk(pc: Pc) {
    HasResult(pc) ==> (pc.channel.Some? <==> pc.result.Complete? || IsRetried(pc.result))
  }

  lemma ResultStaysOk(pool: seq<Provider>, s: State, a: Action)
    requires Enabled(pool, s, a) && forall w :: w in s.workers ==> ResultOk(w.pc)
    ensures forall w :: w in Step(pool, s, a).workers ==> ResultOk(w.pc)
  {
    if !a.Schedule? && !a.DropRedirect? {
      OnlyOneMoves(pool, s, a);
      assert s.workers[a.w] in s.workers;
      MovedResultIsOk(pool, s, a);
    }
  }

  lemma MovedResultIsOk(pool: seq<Provider>, s: State, a: Action)
    requires Enabled(pool, s, a) && !a.Schedule? && !a.DropRedirect? && a.w < |s.workers| && ResultOk(s.workers[a.w].pc)
    ensures a.w < |Step(pool, s, a).workers| && ResultOk(Step(pool, s, a).workers[a.w].pc)
  {
    match a
    case FailToConnect(w, notFound) => NoChannelExactly(s, w, notFound);
    case EndTransfer(w, r) =>
    case Punish(w) => SameResult(s.workers[w].pc, AfterPunish(s, w).workers[w].pc);
    case Conclude(w) => ConcludedResultIsOk(pool, s, w);
    case Pardon(w) => SameResult(s.workers[w].pc, AfterPardoning(s, w).workers[w].pc);
    case Remove(w) => SameResult(s.workers[w].pc, AfterRemove(s, w).workers[w].pc);
    case _ => NoResult(pool, s, a);
  }

  lemma NoResult(pool: seq<Provider>, s: State, a: Action)
    requires Enabled(pool, s, a) && (a.Select? || a.Connect? || a.StartTransfer? || a.Release?)
    ensures a.w < |Step(pool, s, a).workers| && !HasResult(Step(pool, s, a).workers[a.w].pc)
  {
  }

  predicate HasResult(pc: Pc) {
    pc.Judged? || pc.Decided? || pc.Ended? || pc.Settled? || pc.Removed?
  }

  lemma SameResult(pc: Pc, pc': Pc)
    requires ResultOk(pc) && HasResult(pc) && HasResult(pc') && pc'.result == pc.result && pc'.channel == pc.channel
    ensures ResultOk(pc')
  {
  }

  lemma ConcludedResultIsOk(pool: seq<Provider>, s: State, w: nat)
    requires CanConclude(pool, s, w) && ResultOk(s.workers[w].pc)
    ensures ResultOk(AfterConclude(pool, s, w).workers[w].pc)
  {
  }

  lemma {:induction false} ResultsAreOk(pool: seq<Provider>, run: Run<State, Action>, k: nat)
    requires IsRun(pool, run) && k < |run.states|
    ensures forall w :: w in run.states[k].workers ==> ResultOk(w.pc)
  {
    if k > 0 {
      ResultsAreOk(pool, run, k - 1);
      assert Happens(pool, run, k - 1);
      ResultStaysOk(pool, run.states[k - 1], run.actions[k - 1]);
    }
  }

  /** The handle of an order that has succeeded becomes the idle handle of its provider; with any other result, no handle becomes
      idle. In any case, the handle no longer holds a job. */
  lemma HandleKeptExactlyWhen(pool: seq<Provider>, s: State, w: nat)
    requires Reachable(pool, s) && CanRelease(s, w)
    ensures
      var pc, s' := s.workers[w].pc, AfterRelease(s, w);
      && (pc.channel.Some? ==> pc.channel.value < |s'.handles| && !s'.handles[pc.channel.value].busy)
      && if pc.result.Complete? then pc.channel.Some? && s'.channels == s.channels[pc.p := pc.channel.value]
         else s'.channels == s.channels
  {
    var run :| EndsIn(pool, run, s);
    ResultsAreOk(pool, run, |run.states| - 1);
    assert s.workers[w] in s.workers;
  }

  /** Nothing but the end of a successful order adds an idle handle. */
  lemma OnlySuccessAddsHandles(pool: seq<Provider>, s: State, a: Action, id: ProviderId)
    requires Enabled(pool, s, a) && id in Step(pool, s, a).channels
    requires id in s.channels ==> Step(pool, s, a).channels[id] != s.channels[id]
    ensures a.Release? && s.workers[a.w].pc.p == id && s.workers[a.w].pc.result.Complete?
  {
  }

  // ---- Uncacheable orders over a run ----

  /** In this step, some failure counter changes. */
  predicate ChangesFailures(s: State, a: Action) {
    || (a.Punish? && a.w < |s.workers| && s.workers[a.w].pc.Judged?
        && (s.workers[a.w].pc.result.Partial? || s.workers[a.w].pc.result.Error?))
    || (a.Pardon? && a.w < |s.workers| && s.workers[a.w].pc.Ended? && !s.workers[a.w].pc.result.Complete?
        && s.workers[a.w].punished != [])
  }

  lemma FailuresStay(pool: seq<Provider>, s: State, a: Action, id: ProviderId)
    requires Enabled(pool, s, a) && !ChangesFailures(s, a)
    ensures FailuresOf(Step(pool, s, a).ledger, id) == FailuresOf(s.ledger, id)
  {
    match a
    case Select(w, choice) => LedgerAfterSelect(pool, s, w, choice);
    case Punish(_) =>
    case Pardon(w) => if !s.workers[w].pc.result.Complete? { assert AfterPardon(s.ledger, []) == s.ledger; }
    case _ => LedgerUntouched(pool, s, a);
  }

  ghost predicate FailuresStayFrom(run: Run<State, Action>, i: nat, j: nat)
    requires i <= j <= |run.actions| < |run.states|
  {
    forall n :: i <= n < j ==> !ChangesFailures(run.states[n], run.actions[n])
  }

  lemma {:induction false} SameFailures(pool: seq<Provider>, run: Run<State, Action>, i: nat, j: nat, id: ProviderId)
    requires IsRun(pool, run) && i <= j <= |run.actions| && FailuresStayFrom(run, i, j)
    ensures FailuresOf(run.states[i].ledger, id) == FailuresOf(run.states[j].ledger, id)
  {
    if i < j {
      SameFailures(pool, run, i, j - 1, id);
      assert Happens(pool, run, j - 1);
      FailuresStay(pool, run.states[j - 1], run.actions[j - 1], id);
    }
  }

  /** In this step, an uncacheable order on pool providers selects its first provider. */
  predicate SelectsUncacheable(s: State, a: Action) {
    && a.Select? && a.w < |s.workers| && s.workers[a.w].custom == None
    && !s.workers[a.w].order.cacheable && s.workers[a.w].unsuccessful == {}
  }

  /** Stickiness over a run: whatever other orders do in the meantime, uncacheable orders go to the same provider first as long
      as no failure counter changes. */
  lemma UncacheableOrdersStickTogether(pool: seq<Provider>, run: Run<State, Action>, i: nat, j: nat)
    requires IsRun(pool, run) && i <= j < |run.actions| && FailuresStayFrom(run, i, j)
    requires SelectsUncacheable(run.states[i], run.actions[i]) && SelectsUncacheable(run.states[j], run.actions[j])
    ensures run.actions[i].choice == run.actions[j].choice
  {
    assert Happens(pool, run, i) && Happens(pool, run, j);
    var s, s' := run.states[i], run.states[j];
    forall id
      ensures FailuresOf(s.ledger, id) == FailuresOf(s'.ledger, id)
    {
      SameFailures(pool, run, i, j, id);
    }
    UncacheableOrdersStick(pool, s.strong, s'.strong, s.ledger, s'.ledger, {}, run.actions[i].choice, run.actions[j].choice);
  }

  // ---- A counter that wraps around ----

  lemma OneMoreStep(pool: seq<Provider>, s: State, a: Action, s': State)
    requires Reachable(pool, s) && Enabled(pool, s, a) && s' == Step(pool, s, a)
    ensures Reachable(pool, s')
  {
    var run :| EndsIn(pool, run, s);
    var longer := Run(run.states + [s'], run.actions + [a]);
    forall k: nat | k < |longer.actions|
      ensures Happens(pool, longer, k)
    {
      assert k < |run.actions| ==> Happens(pool, run, k);
    }
    assert EndsIn(pool, longer, s');
  }

  lemma InitialIsReachable(pool: seq<Provider>)
    ensures Reachable(pool, Initial(pool))
  {
    assert EndsIn(pool, Run([Initial(pool)], []), Initial(pool));
  }

  /** Nothing but one order for a custom provider is under way. */
  function Lone(pool: seq<Provider>, custom: Provider, numAttempt: nat, punished: seq<ProviderId>, pc: Pc, ledger: Ledger,
                handles: seq<Handle>): State {
    Initial(pool).(inProgress := {"package"}, ledger := ledger, handles := handles,
      workers := [Worker("package", Order(true, true), Some(custom), numAttempt, punished, {}, 0, pc)])
  }

  lemma CustomTransferCanStart(pool: seq<Provider>, custom: Provider)
    requires custom.id !in Ids(pool)
    ensures Reachable(pool, Lone(pool, custom, 1, [], Connected(custom.id, true, 0), map[], [Handle(true, None)]))
  {
    InitialIsReachable(pool);
    var s0 := Lone(pool, custom, 0, [], LoopHead, map[], []);
    OneMoreStep(pool, Initial(pool), Schedule("package", Order(true, true), Some(custom), None, 0, 0), s0);
    var s1 := Lone(pool, custom, 1, [], Selected(custom.id, true), map[], []);
    OneMoreStep(pool, s0, Select(0, 0), s1);
    var s2 := Lone(pool, custom, 1, [], Connected(custom.id, true, 0), map[], [Handle(true, None)]);
    OneMoreStep(pool, s1, Connect(0, 0), s2);
  }

  lemma CustomTransferCanFail(pool: seq<Provider>, custom: Provider)
    requires custom.id !in Ids(pool)
    ensures Reachable(pool, Lone(pool, custom, 1, [], Judged(custom.id, true, Error, Some(0)), map[], [Handle(true, None)]))
  {
    CustomTransferCanStart(pool, custom);
    var s2 := Lone(pool, custom, 1, [], Connected(custom.id, true, 0), map[], [Handle(true, None)]);
    var s3 := Lone(pool, custom, 1, [], Serving(custom.id, true, 0), map[], [Handle(true, None)]);
    OneMoreStep(pool, s2, StartTransfer(0), s3);
    var s4 := Lone(pool, custom, 1, [], Judged(custom.id, true, Error, Some(0)), map[], [Handle(true, None)]);
    OneMoreStep(pool, s3, EndTransfer(0, Error), s4);
  }

  /** The failing case of the pardon is reachable: a single failed order of a custom provider takes its counter
      to the maximum. */
  lemma CustomCounterCanWrap(pool: seq<Provider>, custom: Provider) returns (s: State)
    requires custom.id !in Ids(pool)
    ensures Reachable(pool, s) && FailuresOf(s.ledger, custom.id) == U32_MAX
  {
    CustomTransferCanFail(pool, custom);
    var id, handles := custom.id, [Handle(true, None)];
    var s4 := Lone(pool, custom, 1, [], Judged(id, true, Error, Some(0)), map[], handles);
    var s5 := Lone(pool, custom, 1, [id], Decided(id, true, Error, Some(0)), map[id := Metrics(0, 0)], handles);
    assert [] + [id] == [id];
    OneMoreStep(pool, s4, Punish(0), s5);
    var s6 := Lone(pool, custom, 1, [id], Ended(id, Error, Some(0)), map[id := Metrics(0, 0)], handles);
    OneMoreStep(pool, s5, Conclude(0), s6);
    s := Step(pool, s6, Pardon(0));
    OneMoreStep(pool, s6, Pardon(0), s);
    PardonSubtracts(map[id := Metrics(0, 0)], [id], id);
  }
}
