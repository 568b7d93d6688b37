/** The locks of the program: who takes which lock while holding which, and why nobody waits forever. */
module LockOrder {
  import opened Wrappers
  import opened ProviderSelection
  import opened ProviderMetrics
  import opened OrderLog

  /** The lock around the job context, the orders in progress, the provider metrics, the provider selection,
      the idle channels, and the lock that keeps cache purges apart. */
  datatype Lock = JobContext | OrdersInProgress | ProviderMetrics | Selection | Channels | CachePurge

  function Rank(l: Lock): nat {
    match l
    case JobContext => 0
    case OrdersInProgress => 1
    case ProviderMetrics => 2
    case Selection => 3
    case Channels => 4
    case CachePurge => 5
  }

  /** Using what a lock protects may be an operation on the counters. */
  datatype Op = Acquire(lock: Lock) | Release(lock: Lock) | Use(lock: Lock, operation: Option<Operation>)

  type Program = seq<Op>

  // ---- What the threads of the program do ----

  function Nested(l: Lock, inner: Program): Program {
    [Acquire(l)] + inner + [Release(l)]
  }

  function Section(l: Lock, operation: Option<Operation>): Program {
    Nested(l, [Use(l, operation)])
  }

  function Optional(present: bool, p: Program): Program {
    if present then p else []
  }

  /** A request for a package is scheduled, and may have to be redirected to a provider of the pool, under the locks of
      the job context and of the orders in progress. Any other request locks at most the metrics. */
  datatype Request = Package(choosesProvider: bool) | MetricsOrReset | WithoutLocks

  function OfRequest(r: Request): Program {
    match r
    case Package(choosesProvider) =>
      Nested(JobContext,
             Nested(OrdersInProgress, [Use(OrdersInProgress, None)] + Optional(choosesProvider, Section(Selection, None))))
    case MetricsOrReset => Nested(JobContext, Section(ProviderMetrics, None))
    case WithoutLocks => []
  }

  function OfRequests(requests: seq<Request>): Program {
    if requests == [] then [] else OfRequests(requests[..|requests| - 1]) + OfRequest(requests[|requests| - 1])
  }

  /** A connection serves any number of requests, and may purge the cache in the end. */
  function OfConnection(requests: seq<Request>, purges: bool): Program {
    OfRequests(requests) + Optional(purges, Section(CachePurge, None))
  }

  /** Selecting a provider while holding the metrics. */
  function OfSelection(p: ProviderId, fromPool: bool): Program {
    Nested(ProviderMetrics, Optional(fromPool, Section(Selection, None) + [Use(ProviderMetrics, Some(Used(p)))]))
  }

  /** One attempt: select a provider, take a channel, and punish the provider if need be. */
  function OfAttempt(a: Attempt, fromPool: bool): Program {
    OfSelection(a.provider, fromPool)
    + (Section(Channels, None)
       + Optional(a.result.Partial? || a.result.Error?, Section(ProviderMetrics, Some(Punished(a.provider)))))
  }

  function OfAttempts(log: Log, fromPool: bool): Program {
    match log case Begin(_) => [] case Then(earlier, a) => OfAttempts(earlier, fromPool) + OfAttempt(a, fromPool)
  }

  predicate Succeeds(log: Log) {
    log.Then? && log.last.result.Complete?
  }

  /** The pardon, the removal of the order, and the handing over of the channel or of a copy of the metrics. */
  function AtTheEnd(log: Log): Program {
    Optional(!Succeeds(log), Section(ProviderMetrics, Some(Pardoned(PunishedBy(log)))))
    + (Section(OrdersInProgress, None) + Section(if Succeeds(log) then Channels else ProviderMetrics, None))
  }

  /** The worker of an order. */
  function OfWorker(log: Log, fromPool: bool): Program {
    OfAttempts(log, fromPool) + AtTheEnd(log)
  }

  ghost predicate IsThread(p: Program) {
    || (exists requests, purges :: p == OfConnection(requests, purges))
    || (exists log, fromPool :: p == OfWorker(log, fromPool))
  }

  // ---- What is done under the locks ----

  /** The operations on the counters, in order. */
  function CountsOf(p: Program): seq<Operation> {
    if p == [] then []
    else CountsOf(p[..|p| - 1]) + match p[|p| - 1] case Use(_, Some(operation)) => [operation] case _ => []
  }

  /** How often something that the given lock protects is used. */
  function UsesOf(p: Program, l: Lock): nat {
    if p == [] then 0 else UsesOf(p[..|p| - 1], l) + if p[|p| - 1].Use? && p[|p| - 1].lock == l then 1 else 0
  }

  lemma {:induction false} InTwoParts(p: Program, q: Program, l: Lock)
    ensures CountsOf(p + q) == CountsOf(p) + CountsOf(q)
    ensures UsesOf(p + q, l) == UsesOf(p, l) + UsesOf(q, l)
  {
    if q == [] {
      assert p + q == p && CountsOf(p) + [] == CountsOf(p);
    } else {
      InTwoParts(p, q[..|q| - 1], l);
      assert (p + q)[..|p + q| - 1] == p + q[..|q| - 1];
    }
  }

  lemma OneUse(op: Op, l: Lock)
    ensures CountsOf([op]) == match op case Use(_, Some(operation)) => [operation] case _ => []
    ensures UsesOf([op], l) == if op.Use? && op.lock == l then 1 else 0
  {
    assert [op][..0] == [];
  }

  lemma InNested(l: Lock, inner: Program, m: Lock)
    ensures CountsOf(Nested(l, inner)) == CountsOf(inner) && UsesOf(Nested(l, inner), m) == UsesOf(inner, m)
  {
    OneUse(Acquire(l), m);
    OneUse(Release(l), m);
    InTwoParts([Acquire(l)], inner, m);
    InTwoParts([Acquire(l)] + inner, [Release(l)], m);
  }

  lemma InSection(l: Lock, operation: Option<Operation>, m: Lock)
    ensures CountsOf(Section(l, operation)) == if operation.Some? then [operation.value] else []
    ensures UsesOf(Section(l, operation), m) == if l == m then 1 else 0
  {
    InNested(l, [Use(l, operation)], m);
    OneUse(Use(l, operation), m);
  }

  lemma InSelection(p: ProviderId, fromPool: bool, l: Lock)
    ensures CountsOf(OfSelection(p, fromPool)) == if fromPool then [Used(p)] else []
    ensures l == Selection ==> UsesOf(OfSelection(p, fromPool), l) == if fromPool then 1 else 0
    ensures l == Channels || l == OrdersInProgress ==> UsesOf(OfSelection(p, fromPool), l) == 0
  {
    var use := Use(ProviderMetrics, Some(Used(p)));
    InSection(Selection, None, l);
    OneUse(use, l);
    InTwoParts(Section(Selection, None), [use], l);
    InNested(ProviderMetrics, Optional(fromPool, Section(Selection, None) + [use]), l);
  }

  lemma InAttempt(a: Attempt, fromPool: bool, l: Lock)
    ensures CountsOf(OfAttempt(a, fromPool)) == OperationsOfAttempt(a, fromPool)
    ensures l == Selection ==> UsesOf(OfAttempt(a, fromPool), l) == if fromPool then 1 else 0
    ensures l == Channels ==> UsesOf(OfAttempt(a, fromPool), l) == 1
    ensures l == OrdersInProgress ==> UsesOf(OfAttempt(a, fromPool), l) == 0
  {
    var punishing := Optional(a.result.Partial? || a.result.Error?, Section(ProviderMetrics, Some(Punished(a.provider))));
    InSelection(a.provider, fromPool, l);
    InSection(Channels, None, l);
    InSection(ProviderMetrics, Some(Punished(a.provider)), l);
    InTwoParts(Section(Channels, None), punishing, l);
    InTwoParts(OfSelection(a.provider, fromPool), Section(Channels, None) + punishing, l);
  }

  lemma {:induction false} InAttempts(log: Log, fromPool: bool, l: Lock)
    ensures CountsOf(OfAttempts(log, fromPool)) == OperationsOfAttempts(log, fromPool)
    ensures l == Selection ==> UsesOf(OfAttempts(log, fromPool), l) == if fromPool then Length(log) else 0
    ensures l == Channels ==> UsesOf(OfAttempts(log, fromPool), l) == Length(log)
    ensures l == OrdersInProgress ==> UsesOf(OfAttempts(log, fromPool), l) == 0
  {
    match log
    case Begin(_) =>
    case Then(earlier, a) =>
      InAttempts(earlier, fromPool, l);
      InAttempt(a, fromPool, l);
      InTwoParts(OfAttempts(earlier, fromPool), OfAttempt(a, fromPool), l);
  }

  lemma InTheEnd(log: Log, l: Lock)
    ensures CountsOf(AtTheEnd(log)) == OperationsAtEnd(log)
    ensures l == OrdersInProgress ==> UsesOf(AtTheEnd(log), l) == 1
    ensures l == Selection ==> UsesOf(AtTheEnd(log), l) == 0
    ensures l == Channels ==> UsesOf(AtTheEnd(log), l) == if Succeeds(log) then 1 else 0
  {
    var pardon := Optional(!Succeeds(log), Section(ProviderMetrics, Some(Pardoned(PunishedBy(log)))));
    var last := Section(if Succeeds(log) then Channels else ProviderMetrics, None);
    InSection(ProviderMetrics, Some(Pardoned(PunishedBy(log))), l);
    InSection(OrdersInProgress, None, l);
    InSection(if Succeeds(log) then Channels else ProviderMetrics, None, l);
    InTwoParts(Section(OrdersInProgress, None), last, l);
    InTwoParts(pardon, Section(OrdersInProgress, None) + last, l);
  }

  /** What a worker does under the locks: all operations of its order on the counters, in order; one selection and one look at the
      idle channels for each attempt; one removal of the order; and a channel is put back if the order has succeeded. */
  lemma WorkerDoesItsOrder(log: Log, fromPool: bool, l: Lock)
    ensures CountsOf(OfWorker(log, fromPool)) == OperationsOf(log, fromPool)
    ensures l == OrdersInProgress ==> UsesOf(OfWorker(log, fromPool), l) == 1
    ensures l == Selection ==> UsesOf(OfWorker(log, fromPool), l) == if fromPool then Length(log) else 0
    ensures l == Channels ==> UsesOf(OfWorker(log, fromPool), l) == Length(log) + if Succeeds(log) then 1 else 0
  {
    InAttempts(log, fromPool, l);
    InTheEnd(log, l);
    InTwoParts(OfAttempts(log, fromPool), AtTheEnd(log), l);
  }

  // ---- Every thread respects the ranks ----

  /** Started with the given locks, the program ends with the others: it takes a lock only if all those it holds have a smaller
      rank, and uses only what a lock protects that it holds. */
  ghost predicate Leaves(p: Program, held: set<Lock>, after: set<Lock>) {
    if p == [] then held == after
    else
      match p[0]
      case Acquire(l) => (forall h :: h in held ==> Rank(h) < Rank(l)) && Leaves(p[1..], held + {l}, after)
      case Release(l) => l in held && Leaves(p[1..], held - {l}, after)
      case Use(l, _) => l in held && Leaves(p[1..], held, after)
  }

  /** The program releases all that it holds and takes. */
  ghost predicate Respects(p: Program, held: set<Lock>) {
    Leaves(p, held, {})
  }

  lemma {:induction false} OneAfterTheOther(p: Program, q: Program, held: set<Lock>, middle: set<Lock>, after: set<Lock>)
    requires Leaves(p, held, middle) && Leaves(q, middle, after)
    ensures Leaves(p + q, held, after)
  {
    if p == [] {
      assert p + q == q;
    } else {
      assert (p + q)[1..] == p[1..] + q;
      match p[0]
      case Acquire(l) => OneAfterTheOther(p[1..], q, held + {l}, middle, after);
      case Release(l) => OneAfterTheOther(p[1..], q, held - {l}, middle, after);
      case Use(l, _) => OneAfterTheOther(p[1..], q, held, middle, after);
    }
  }

  lemma OneOp(op: Op, held: set<Lock>)
    ensures op.Acquire? && (forall h :: h in held ==> Rank(h) < Rank(op.lock)) ==> Leaves([op], held, held + {op.lock})
    ensures op.Release? && op.lock in held ==> Leaves([op], held, held - {op.lock})
    ensures op.Use? && op.lock in held ==> Leaves([op], held, held)
  {
    assert [op][1..] == [];
  }

  /** A lock may be held around a program that leaves it alone. */
  lemma NestedLeaves(l: Lock, inner: Program, held: set<Lock>)
    requires Leaves(inner, held + {l}, held + {l}) && forall h :: h in held ==> Rank(h) < Rank(l)
    ensures Leaves(Nested(l, inner), held, held)
  {
    OneOp(Acquire(l), held);
    OneOp(Release(l), held + {l});
    assert held + {l} - {l} == held;
    OneAfterTheOther([Acquire(l)], inner, held, held + {l}, held + {l});
    OneAfterTheOther([Acquire(l)] + inner, [Release(l)], held, held + {l}, held);
  }

  lemma SectionLeaves(l: Lock, operation: Option<Operation>, held: set<Lock>)
    requires forall h :: h in held ==> Rank(h) < Rank(l)
    ensures Leaves(Section(l, operation), held, held)
  {
    OneOp(Use(l, operation), held + {l});
    NestedLeaves(l, [Use(l, operation)], held);
  }

  lemma RequestRespects(r: Request)
    ensures Respects(OfRequest(r), {})
  {
    match r
    case Package(choosesProvider) =>
      var held := {JobContext, OrdersInProgress};
      var choice := Optional(choosesProvider, Section(Selection, None));
      var inner := [Use(OrdersInProgress, None)] + choice;
      SectionLeaves(Selection, None, held);
      OneOp(Use(OrdersInProgress, None), held);
      OneAfterTheOther([Use(OrdersInProgress, None)], choice, held, held, held);
      assert {JobContext} + {OrdersInProgress} == held && {} + {JobContext} == {JobContext};
      NestedLeaves(OrdersInProgress, inner, {JobContext});
      NestedLeaves(JobContext, Nested(OrdersInProgress, inner), {});
    case MetricsOrReset =>
      assert {} + {JobContext} == {JobContext};
      SectionLeaves(ProviderMetrics, None, {JobContext});
      NestedLeaves(JobContext, Section(ProviderMetrics, None), {});
    case WithoutLocks =>
  }

  lemma {:induction false} RequestsRespect(requests: seq<Request>)
    ensures Respects(OfRequests(requests), {})
  {
    if requests != [] {
      RequestsRespect(requests[..|requests| - 1]);
      RequestRespects(requests[|requests| - 1]);
      OneAfterTheOther(OfRequests(requests[..|requests| - 1]), OfRequest(requests[|requests| - 1]), {}, {}, {});
    }
  }

  lemma SelectionRespects(p: ProviderId, fromPool: bool)
    ensures Respects(OfSelection(p, fromPool), {})
  {
    var held, use := {ProviderMetrics}, Use(ProviderMetrics, Some(Used(p)));
    SectionLeaves(Selection, None, held);
    OneOp(use, held);
    OneAfterTheOther(Section(Selection, None), [use], held, held, held);
    assert {} + {ProviderMetrics} == held;
    NestedLeaves(ProviderMetrics, Optional(fromPool, Section(Selection, None) + [use]), {});
  }

  lemma AttemptRespects(a: Attempt, fromPool: bool)
    ensures Respects(OfAttempt(a, fromPool), {})
  {
    var punishing := Optional(a.result.Partial? || a.result.Error?, Section(ProviderMetrics, Some(Punished(a.provider))));
    SelectionRespects(a.provider, fromPool);
    SectionLeaves(Channels, None, {});
    SectionLeaves(ProviderMetrics, Some(Punished(a.provider)), {});
    OneAfterTheOther(Section(Channels, None), punishing, {}, {}, {});
    OneAfterTheOther(OfSelection(a.provider, fromPool), Section(Channels, None) + punishing, {}, {}, {});
  }

  lemma {:induction false} AttemptsRespect(log: Log, fromPool: bool)
    ensures Respects(OfAttempts(log, fromPool), {})
  {
    match log
    case Begin(_) =>
    case Then(earlier, a) =>
      AttemptsRespect(earlier, fromPool);
      AttemptRespects(a, fromPool);
      OneAfterTheOther(OfAttempts(earlier, fromPool), OfAttempt(a, fromPool), {}, {}, {});
  }

  lemma EndRespects(log: Log)
    ensures Respects(AtTheEnd(log), {})
  {
    var pardon := Optional(!Succeeds(log), Section(ProviderMetrics, Some(Pardoned(PunishedBy(log)))));
    var last := Section(if Succeeds(log) then Channels else ProviderMetrics, None);
    SectionLeaves(ProviderMetrics, Some(Pardoned(PunishedBy(log))), {});
    SectionLeaves(OrdersInProgress, None, {});
    SectionLeaves(if Succeeds(log) then Channels else ProviderMetrics, None, {});
    OneAfterTheOther(Section(OrdersInProgress, None), last, {}, {}, {});
    OneAfterTheOther(pardon, Section(OrdersInProgress, None) + last, {}, {}, {});
  }

  /** Every thread of the program respects the ranks, however many requests it serves or attempts it makes. */
  lemma ThreadsRespectRanks(p: Program)
    requires IsThread(p)
    ensures Respects(p, {})
  {
    if requests, purges :| p == OfConnection(requests, purges) {
      RequestsRespect(requests);
      SectionLeaves(CachePurge, None, {});
      OneAfterTheOther(OfRequests(requests), Optional(purges, Section(CachePurge, None)), {}, {}, {});
    } else {
      var log, fromPool :| p == OfWorker(log, fromPool);
      AttemptsRespect(log, fromPool);
      EndRespects(log);
      OneAfterTheOther(OfAttempts(log, fromPool), AtTheEnd(log), {}, {}, {});
    }
  }

  // ---- What has to happen in one go ----

  /** Everything that the program uses is used while the given lock is held; now tells whether it is held at the beginning. */
  predicate Under(p: Program, l: Lock, now: bool) {
    p == [] ||
    match p[0]
    case Acquire(m) => Under(p[1..], l, now || m == l)
    case Release(m) => Under(p[1..], l, now && m != l)
    case Use(_, _) => now && Under(p[1..], l, now)
  }

  lemma {:induction false} StaysUnder(l: Lock, inner: Program, after: Program)
    requires Release(l) !in inner && Under(after, l, false)
    ensures Under(inner + ([Release(l)] + after), l, true)
  {
    if inner == [] {
      assert inner + ([Release(l)] + after) == [Release(l)] + after && ([Release(l)] + after)[1..] == after;
    } else {
      assert (inner + ([Release(l)] + after))[1..] == inner[1..] + ([Release(l)] + after);
      assert inner[0] in inner;
      StaysUnder(l, inner[1..], after);
    }
  }

  lemma NestedIsUnder(l: Lock, inner: Program, after: Program)
    requires Release(l) !in inner && Under(after, l, false)
    ensures Under(Nested(l, inner) + after, l, false)
  {
    StaysUnder(l, inner, after);
    assert (Nested(l, inner) + after)[1..] == inner + ([Release(l)] + after);
  }

  /** The decision on a package and the choice of a provider to redirect to are made in one go, with the job context and the
      orders in progress locked. */
  lemma DecisionIsAtomic(choosesProvider: bool)
    ensures Under(OfRequest(Package(choosesProvider)), JobContext, false)
    ensures Under(OfRequest(Package(choosesProvider)), OrdersInProgress, false)
    ensures UsesOf(OfRequest(Package(choosesProvider)), OrdersInProgress) == 1
    ensures UsesOf(OfRequest(Package(choosesProvider)), Selection) == if choosesProvider then 1 else 0
  {
    var p := OfRequest(Package(choosesProvider));
    var choice := Optional(choosesProvider, Section(Selection, None));
    var inner := [Use(OrdersInProgress, None)] + choice;
    NestedIsUnder(JobContext, Nested(OrdersInProgress, inner), []);
    assert p + [] == p;
    NestedIsUnder(OrdersInProgress, inner, [Release(JobContext)]);
    assert p[1..] == Nested(OrdersInProgress, inner) + [Release(JobContext)];
    DecisionUses(choosesProvider, OrdersInProgress);
    DecisionUses(choosesProvider, Selection);
  }

  lemma DecisionUses(choosesProvider: bool, l: Lock)
    requires l == OrdersInProgress || l == Selection
    ensures UsesOf(OfRequest(Package(choosesProvider)), l) == if l == OrdersInProgress || choosesProvider then 1 else 0
  {
    var choice := Optional(choosesProvider, Section(Selection, None));
    var inner := [Use(OrdersInProgress, None)] + choice;
    InSection(Selection, None, l);
    OneUse(Use(OrdersInProgress, None), l);
    InTwoParts([Use(OrdersInProgress, None)], choice, l);
    InNested(OrdersInProgress, inner, l);
    InNested(JobContext, Nested(OrdersInProgress, inner), l);
  }

  /** A provider is selected, and its use counted, in one go with the counters locked. */
  lemma SelectionIsAtomic(p: ProviderId, fromPool: bool)
    ensures Under(OfSelection(p, fromPool), ProviderMetrics, false)
  {
    var program := OfSelection(p, fromPool);
    NestedIsUnder(ProviderMetrics, Optional(fromPool, Section(Selection, None) + [Use(ProviderMetrics, Some(Used(p)))]), []);
    assert program + [] == program;
  }

  // ---- Runs ----

  /** A thread: what it has still to do, and the locks it holds. */
  datatype Thread = Thread(rest: Program, held: set<Lock>)

  datatype Action = Spawn(program: Program) | Move(i: nat)

  /** A lock can be taken only if nobody holds it, not even the thread itself. */
  ghost predicate CanMove(s: seq<Thread>, i: nat) {
    && i < |s| && s[i].rest != []
    && (s[i].rest[0].Acquire? ==> forall j :: 0 <= j < |s| ==> s[i].rest[0].lock !in s[j].held)
  }

  function Moved(t: Thread): Thread
    requires t.rest != []
  {
    match t.rest[0]
    case Acquire(l) => Thread(t.rest[1..], t.held + {l})
    case Release(l) => Thread(t.rest[1..], t.held - {l})
    case Use(_, _) => Thread(t.rest[1..], t.held)
  }

  ghost predicate Enabled(s: seq<Thread>, a: Action) {
    match a case Spawn(p) => IsThread(p) case Move(i) => CanMove(s, i)
  }

  ghost function Step(s: seq<Thread>, a: Action): seq<Thread>
    requires Enabled(s, a)
  {
    match a case Spawn(p) => s + [Thread(p, {})] case Move(i) => s[i := Moved(s[i])]
  }

  ghost predicate Happens(run: Run<seq<Thread>, Action>, k: nat)
    requires k < |run.actions| < |run.states|
  {
    Enabled(run.states[k], run.actions[k]) && run.states[k + 1] == Step(run.states[k], run.actions[k])
  }

  /** A run that starts without any threads. */
  ghost predicate IsRun(run: Run<seq<Thread>, Action>) {
    && |run.states| == |run.actions| + 1
    && run.states[0] == []
    && forall k: nat :: k < |run.actions| ==> Happens(run, k)
  }

  ghost predicate EndsIn(run: Run<seq<Thread>, Action>, s: seq<Thread>) {
    IsRun(run) && run.states[|run.states| - 1] == s
  }

  ghost predicate Reachable(s: seq<Thread>) {
    exists run :: EndsIn(run, s)
  }

  /** No lock has two holders, and everybody keeps to the ranks for the rest of the way. */
  ghost predicate Invariant(s: seq<Thread>) {
    && (forall i :: 0 <= i < |s| ==> Respects(s[i].rest, s[i].held))
    && (forall i, j :: 0 <= i < j < |s| ==> s[i].held !! s[j].held)
  }

  lemma StepKeepsInvariant(s: seq<Thread>, a: Action)
    requires Invariant(s) && Enabled(s, a)
    ensures Invariant(Step(s, a))
  {
    match a
    case Spawn(p) => ThreadsRespectRanks(p);
    case Move(i) =>
      assert Respects(s[i].rest, s[i].held);
      assert Respects(Moved(s[i]).rest, Moved(s[i]).held);
  }

  lemma {:induction false} RunsKeepInvariant(run: Run<seq<Thread>, Action>, k: nat)
    requires IsRun(run) && k < |run.states|
    ensures Invariant(run.states[k])
  {
    if k > 0 {
      RunsKeepInvariant(run, k - 1);
      assert Happens(run, k - 1);
      StepKeepsInvariant(run.states[k - 1], run.actions[k - 1]);
    }
  }

  lemma ReachableStatesAreOk(s: seq<Thread>)
    requires Reachable(s)
    ensures Invariant(s)
  {
    var run :| EndsIn(run, s);
    RunsKeepInvariant(run, |run.states| - 1);
  }

  /** Mutual exclusion: what a thread uses is protected by a lock that it holds and nobody else does, so that nobody else is about
      to use the same. */
  lemma NobodyInterferes(s: seq<Thread>, i: nat, j: nat)
    requires Reachable(s) && i < |s| && j < |s| && i != j && s[i].rest != [] && s[i].rest[0].Use?
    ensures s[i].rest[0].lock in s[i].held && s[i].rest[0].lock !in s[j].held
    ensures s[j].rest != [] && s[j].rest[0].Use? ==> s[j].rest[0].lock != s[i].rest[0].lock
  {
    ReachableStatesAreOk(s);
    assert Respects(s[i].rest, s[i].held) && Respects(s[j].rest, s[j].held);
    assert s[Min(i, j)].held !! s[Max(i, j)].held;
  }

  /** Following the chain of locks that are waited for leads to ever higher ranks, and so to a thread that can move. */
  lemma {:induction false} SomebodyMoves(s: seq<Thread>, i: nat) returns (k: nat)
    requires Invariant(s) && i < |s| && s[i].rest != []
    ensures CanMove(s, k)
    decreases if s[i].rest[0].Acquire? then 6 - Rank(s[i].rest[0].lock) else 0
  {
    assert Respects(s[i].rest, s[i].held);
    if CanMove(s, i) {
      k := i;
    } else {
      var wanted := s[i].rest[0].lock;
      var holder :| 0 <= holder < |s| && wanted in s[holder].held;
      assert Respects(s[holder].rest, s[holder].held);
      k := SomebodyMoves(s, holder);
    }
  }

  /** Deadlock freedom: in every reachable state, with any number of threads, if somebody has not finished,
      then somebody can move. */
  lemma NobodyWaitsForever(s: seq<Thread>, i: nat)
    requires Reachable(s) && i < |s| && s[i].rest != []
    ensures exists k :: CanMove(s, k)
  {
    ReachableStatesAreOk(s);
    var k := SomebodyMoves(s, i);
  }

  // ---- All threads finish ----

  ghost function Remaining(s: seq<Thread>): nat {
    if s == [] then 0 else |s[0].rest| + Remaining(s[1..])
  }

  lemma {:induction false} MoveIsProgress(s: seq<Thread>, i: nat)
    requires i < |s| && s[i].rest != []
    ensures Remaining(s[i := Moved(s[i])]) == Remaining(s) - 1
  {
    if i == 0 {
      assert s[0 := Moved(s[0])][1..] == s[1..];
    } else {
      MoveIsProgress(s[1..], i - 1);
      assert s[i := Moved(s[i])][1..] == s[1..][i - 1 := Moved(s[i])];
    }
  }

  ghost predicate AllDone(s: seq<Thread>) {
    forall i :: 0 <= i < |s| ==> s[i] == Thread([], {})
  }

  /** The given threads move one after the other. */
  ghost predicate Leads(s: seq<Thread>, moves: seq<nat>, end: seq<Thread>)
    decreases |moves|
  {
    if moves == [] then end == s
    else CanMove(s, moves[0]) && Leads(Step(s, Move(moves[0])), moves[1..], end)
  }

  /** If no new threads come in, the threads can only move as often as they have operations left, and from wherever
      they are, they can go on until all have finished and every lock is free. */
  lemma EverybodyFinishes(s: seq<Thread>) returns (moves: seq<nat>, end: seq<Thread>)
    requires Reachable(s)
    ensures Leads(s, moves, end) && AllDone(end) && |moves| == Remaining(s)
  {
    ReachableStatesAreOk(s);
    moves, end := FinishFrom(s);
  }

  lemma {:induction false} FinishFrom(s: seq<Thread>) returns (moves: seq<nat>, end: seq<Thread>)
    requires Invariant(s)
    ensures Leads(s, moves, end) && AllDone(end) && |moves| == Remaining(s)
    decreases Remaining(s)
  {
    if i: nat :| i < |s| && s[i].rest != [] {
      var k := SomebodyMoves(s, i);
      MoveIsProgress(s, k);
      StepKeepsInvariant(s, Move(k));
      var later;
      later, end := FinishFrom(Step(s, Move(k)));
      moves := [k] + later;
      assert moves[1..] == later;
    } else {
      moves, end := [], s;
      NothingRemains(s);
      NobodyHolds(s);
    }
  }

  lemma NobodyHolds(s: seq<Thread>)
    requires Invariant(s) && forall i: nat :: i < |s| ==> s[i].rest == []
    ensures AllDone(s)
  {
    forall i | 0 <= i < |s|
      ensures s[i] == Thread([], {})
    {
      assert Respects(s[i].rest, s[i].held);
    }
  }

  /** Whatever the order, nobody can move more often than there are operations left. */
  lemma {:induction false} MovesAreBounded(s: seq<Thread>, moves: seq<nat>, end: seq<Thread>)
    requires Leads(s, moves, end)
    ensures |moves| + Remaining(end) == Remaining(s)
    decreases |moves|
  {
    if moves != [] {
      MoveIsProgress(s, moves[0]);
      MovesAreBounded(Step(s, Move(moves[0])), moves[1..], end);
    }
  }

  lemma {:induction false} NothingRemains(s: seq<Thread>)
    requires forall i :: 0 <= i < |s| ==> s[i].rest == []
    ensures Remaining(s) == 0
  {
    if s != [] {
      NothingRemains(s[1..]);
    }
  }
}
