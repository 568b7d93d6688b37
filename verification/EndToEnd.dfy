/** The callbacks and the package as a whole: what a transfer with an honest mirror does, callback by callback, is a run
    of the transition system of one package. So, what holds in every reachable state holds after every such transfer. */
module EndToEnd {
  import opened Wrappers
  import opened CompleteFileSize
  import opened CacheState
  import opened Download
  import opened MirrorReplies
  import opened ProviderSelection
  import opened OrderLog
  import opened Attempts
  import opened Delivery

  /** Of the messages of an attempt, the scheduling client keeps the first one, unless it has got one before. */
  function Heard(clients: seq<Client>, i: nat, sent: seq<FlexoProgress>): seq<Client>
    requires i < |clients|
  {
    if sent == [] || clients[i].first.Some? then clients else clients[i := clients[i].(first := Some(sent[0]))]
  }

  lemma HeardOnce(clients: seq<Client>, i: nat, sent: seq<FlexoProgress>, message: FlexoProgress)
    requires i < |clients|
    ensures Heard(clients, i, sent + [message]) == Notify(Heard(clients, i, sent), i, message)
  {
  }

  /** The state s with the worker of client c in the midst of transfer t. */
  function During(s: State, c: nat, t: Transfer): State
    requires c < |s.clients|
  {
    s.(worker := Transferring(t, c), clients := Heard(s.clients, c, t.sent))
  }

  // ---- The header ----

  lemma SizeIsRecorded(content: seq<bv8>, from: State, s: State, c: nat, t: Transfer, t': Transfer, status: ParseStatus,
                       lastChance: bool, cfs: string, message: FlexoProgress)
    requires c < |s.clients| && Leads(content, from, During(s, c, t), true)
    requires CanHeader(content, During(s, c, t), status) && HasSize(status)
    requires t' == OnHeader(t, true, lastChance, status).0 && t'.cfs == Some(cfs) && t'.sent == t.sent + [message]
    ensures Leads(content, from, During(s, c, t'), true)
  {
    var s0 := During(s, c, t);
    var s1 := s0.(worker := Recording(t', "", c));
    OneMoreStep(content, from, s0, Action.Header(status, lastChance), s1, true);
    var s2 := s0.(worker := Recording(t', cfs, c));
    assert cfs[..|cfs|] == cfs;
    OneMoreStep(content, from, s1, RecordMore(|cfs|), s2, true);
    HeardOnce(s.clients, c, t.sent, message);
    OneMoreStep(content, from, s2, RecordDone, During(s, c, t'), true);
  }

  lemma NoSizeToRecord(content: seq<bv8>, from: State, s: State, c: nat, t: Transfer, t': Transfer, status: ParseStatus,
                       lastChance: bool)
    requires c < |s.clients| && Leads(content, from, During(s, c, t), true)
    requires CanHeader(content, During(s, c, t), status) && !HasSize(status)
    requires t' == OnHeader(t, true, lastChance, status).0
    ensures Leads(content, from, During(s, c, t'), true)
  {
    if |t'.sent| > |t.sent| {
      HeardOnce(s.clients, c, t.sent, t'.sent[|t.sent|]);
    }
    OneMoreStep(content, from, During(s, c, t), Action.Header(status, lastChance), During(s, c, t'), true);
  }

  lemma HeaderIsARun(content: seq<bv8>, from: State, s: State, c: nat, t: Transfer, status: ParseStatus, lastChance: bool)
    requires c < |s.clients| && Leads(content, from, During(s, c, t), true)
    requires CanHeader(content, During(s, c, t), status)
    ensures Leads(content, from, During(s, c, OnHeader(t, true, lastChance, status).0), true)
  {
    var t' := OnHeader(t, true, lastChance, status).0;
    VerdictOfHeader(t, true, lastChance, status);
    if HasSize(status) {
      var size := AddSizes(t.sizeWritten, status.contentLength.value);
      SizeIsRecorded(content, from, s, c, t, t', status, lastChance, Print(size), JobSize(size));
    } else {
      NoSizeToRecord(content, from, s, c, t, t', status, lastChance);
    }
  }

  // ---- The body ----

  lemma ChunkIsAStep(content: seq<bv8>, from: State, s: State, c: nat, t: Transfer, data: seq<bv8>, flushed: nat)
    requires c < |s.clients| && Leads(content, from, During(s, c, t), true)
    requires CanBody(content, During(s, c, t), data, flushed)
    ensures Leads(content, from, During(s, c, OnBody(t, data, flushed)), true)
  {
    var t' := OnBody(t, data, flushed);
    if |t'.sent| > |t.sent| {
      HeardOnce(s.clients, c, t.sent, t'.sent[|t.sent|]);
    }
    OneMoreStep(content, from, During(s, c, t), Body(data, flushed), During(s, c, t'), true);
  }

  lemma LastChunkFits(content: seq<bv8>, t: Transfer, chunks: seq<seq<bv8>>, flushes: seq<nat>)
    requires t.header.Some? && |flushes| == |chunks| > 0
    requires IsReady(t.header) ==> t.file + t.buffer + Concat(chunks) <= content
    ensures
      var n := |chunks| - 1;
      var earlier := OnBodies(t, chunks[..n], flushes[..n]);
      IsReady(t.header) ==>
        && t.file + t.buffer + Concat(chunks[..n]) <= content
        && earlier.file + earlier.buffer + chunks[n] <= content
  {
    var n := |chunks| - 1;
    ConcatOne(chunks, n);
    assert chunks[..n + 1] == chunks;
    BodiesAppend(t, chunks[..n], flushes[..n]);
    Associative(t.file + t.buffer, Concat(chunks[..n]), chunks[n]);
  }

  lemma {:induction false} BodyIsARun(content: seq<bv8>, from: State, s: State, c: nat, t: Transfer,
                                      chunks: seq<seq<bv8>>, flushes: seq<nat>)
    requires c < |s.clients| && Leads(content, from, During(s, c, t), true)
    requires t.header.Some? && |flushes| == |chunks|
    requires IsReady(t.header) ==> t.file + t.buffer + Concat(chunks) <= content
    ensures Leads(content, from, During(s, c, OnBodies(t, chunks, flushes)), true)
    decreases |chunks|
  {
    if chunks != [] {
      var n := |chunks| - 1;
      var earlier := OnBodies(t, chunks[..n], flushes[..n]);
      LastChunkFits(content, t, chunks, flushes);
      BodyIsARun(content, from, s, c, t, chunks[..n], flushes[..n]);
      ChunkIsAStep(content, from, s, c, earlier, chunks[n], AtMost(flushes[n], |earlier.buffer| + |chunks[n]|));
    }
  }

  // ---- A whole attempt ----

  /** One header and then the body. */
  ghost predicate HeaderThenBody(t: Transfer, lastChance: bool, status: ParseStatus, chunks: seq<seq<bv8>>, flushes: seq<nat>,
                                 t': Transfer) {
    var header := OnHeader(t, true, lastChance, status).0;
    header.header.Some? && |flushes| == |chunks| && t' == OnBodies(header, chunks, flushes)
  }

  lemma NoHeadNoTrace(t: Transfer, lastChance: bool, reply: Reply, heads: seq<Head>, cut: seq<seq<bv8>>,
                      header: (Transfer, bool), t': Transfer)
    requires t.header == None && Sticking(heads) == None
    requires Told(t, true, lastChance, heads, cut, header) && BodyDelivered(header, reply, t')
    ensures t' == t
  {
  }

  lemma OneHeadThenBody(t: Transfer, lastChance: bool, reply: Reply, heads: seq<Head>, cut: seq<seq<bv8>>,
                        header: (Transfer, bool), t': Transfer)
    returns (flushes: seq<nat>)
    requires t.header == None && Sticking(heads).Some? && LinesAfter(heads) + |cut| == 0
    requires Told(t, true, lastChance, heads, cut, header) && BodyDelivered(header, reply, t')
    ensures HeaderThenBody(t, lastChance, Sticking(heads).value, reply.chunks, flushes, t')
  {
    FinalIsNoRedirect(heads);
    HeaderOnce(t, lastChance, Final(heads).value);
    VerdictOfHeader(t, true, lastChance, Sticking(heads).value);
    flushes :| |flushes| == |reply.chunks| && t' == OnBodies(header.0, reply.chunks, flushes);
  }

  /** What an honest transfer becomes: nothing happens, or one final header and then the body. */
  lemma HonestTransferUnfolds(parse: HeaderParser, t: Transfer, lastChance: bool, reply: Reply, heads: seq<Head>,
                              cut: seq<seq<bv8>>, t': Transfer, outcome: Outcome, content: seq<bv8>)
    returns (flushes: seq<nat>)
    requires Settled(parse) && t.header == None && |t.file| <= |content|
    requires Consists(parse, reply, heads, cut) && Honestly(reply, heads, cut, content, |t.file|)
    requires Served(t, true, lastChance, parse, reply, t', outcome)
    ensures match Sticking(heads)
            case None => t' == t
            case Some(status) => HeaderThenBody(t, lastChance, status, reply.chunks, flushes, t')
  {
    var header, body := HeadsTellAll(parse, t, true, lastChance, reply, heads, cut, t', outcome);
    OneFinalHeadMeansNothingAfter(parse, heads, cut);
    flushes := [];
    if Sticking(heads) == None {
      NoHeadNoTrace(t, lastChance, reply, heads, cut, header, t');
    } else {
      flushes := OneHeadThenBody(t, lastChance, reply, heads, cut, header, t');
    }
  }

  /** What the mirror sends after a payload header goes on from where the file ends. */
  lemma HonestBodyFits(t: Transfer, lastChance: bool, reply: Reply, heads: seq<Head>, cut: seq<seq<bv8>>, content: seq<bv8>)
    requires IsFresh(t) && t.file <= content && Honestly(reply, heads, cut, content, |t.file|) && Sticking(heads).Some?
    ensures RightStatus(Sticking(heads).value, |content| - |t.file|)
    ensures var header := OnHeader(t, true, lastChance, Sticking(heads).value).0;
            IsReady(header.header) ==> header.file + header.buffer + Concat(reply.chunks) <= content
  {
    VerdictOfHeader(t, true, lastChance, Sticking(heads).value);
    assert t.file + t.buffer == t.file && content == t.file + content[|t.file|..];
  }

  lemma HeaderOnce(t: Transfer, lastChance: bool, h: Head)
    ensures !Aborts(StatusOf(h)) ==> AfterFinalHead(t, true, lastChance, h, 0).0 == OnHeader(t, true, lastChance, StatusOf(h)).0
  {
    var messages := MessagesOn(StatusOf(h), lastChance, t.sizeWritten);
    VerdictOfHeader(t, true, lastChance, StatusOf(h));
    assert Repeat(messages, 1) == messages + Repeat(messages, 0) == messages;
  }

  lemma TransferIsARun(content: seq<bv8>, from: State, s: State, c: nat, t: Transfer, parse: HeaderParser, lastChance: bool,
                       reply: Reply, t': Transfer, outcome: Outcome)
    requires c < |s.clients| && Leads(content, from, During(s, c, t), true)
    requires Settled(parse) && IsFresh(t) && t.file <= content && Honest(parse, reply, content, |t.file|)
    requires Served(t, true, lastChance, parse, reply, t', outcome)
    ensures Leads(content, from, During(s, c, t'), true)
  {
    var heads, cut :| Consists(parse, reply, heads, cut) && Honestly(reply, heads, cut, content, |t.file|);
    var flushes := HonestTransferUnfolds(parse, t, lastChance, reply, heads, cut, t', outcome, content);
    if Sticking(heads).Some? {
      var status := Sticking(heads).value;
      HonestBodyFits(t, lastChance, reply, heads, cut, content);
      HeaderIsARun(content, from, s, c, t, status, lastChance);
      BodyIsARun(content, from, s, c, OnHeader(t, true, lastChance, status).0, reply.chunks, flushes);
    }
  }

  /** Every transfer that an honest mirror serves is a run: wherever a worker opens the package file with nothing pending, and
      asks for what comes after it, the state with what has become of the transfer, and with its first message for the
      scheduling client, is reachable. */
  lemma AttemptsAreRuns(content: seq<bv8>, s: State, parse: HeaderParser, lastChance: bool, mirror: Mirror,
                        t': Transfer, outcome: Outcome)
    requires Package(content) && Reachable(content, s) && CanStartAttempt(s) && NothingPending(s)
    requires Settled(parse) && HonestMirror(parse, mirror, content)
    requires Served(Opened(s.worker.disk), true, lastChance, parse, mirror(ProgressOf(|OnDisk(s)|)), t', outcome)
    ensures s.worker.client < |s.clients| && Reachable(content, During(s, s.worker.client, t'))
  {
    ReachableStatesAreOk(content, s);
    var c, t := s.worker.client, Opened(s.worker.disk);
    var from :| Idle(content, from) && Leads(content, from, s, true);
    OneMoreStep(content, from, s, StartAttempt, During(s, c, t), true);
    assert RangeOffset(ProgressOf(|OnDisk(s)|)) == |t.file|;
    TransferIsARun(content, from, s, c, t, parse, lastChance, mirror(ProgressOf(|OnDisk(s)|)), t', outcome);
  }

  // ---- All attempts of an order ----

  lemma HeardInTurn(clients: seq<Client>, i: nat, a: seq<FlexoProgress>, b: seq<FlexoProgress>)
    requires i < |clients|
    ensures Heard(Heard(clients, i, a), i, b) == Heard(clients, i, a + b)
  {
    if a == [] {
      assert a + b == b;
    } else if b != [] {
      assert (a + b)[0] == a[0];
    }
  }

  /** The state s after the attempts of client c's order, before the next one. */
  function AfterAttempts(s: State, c: nat, log: Log): State
    requires c < |s.clients|
  {
    s.(worker := Between(DiskAfter(log), c), clients := Heard(s.clients, c, Messages(log)))
  }

  lemma OpenedAttemptIsARun(content: seq<bv8>, s: State, parse: HeaderParser, a: Attempt, mirror: Mirror)
    returns (t: Transfer)
    requires Package(content) && Reachable(content, s) && CanStartAttempt(s) && NothingPending(s)
    requires Settled(parse) && HonestMirror(parse, mirror, content)
    requires Happened(s.worker.disk, a, true, parse, mirror, Opens)
    ensures s.worker.client < |s.clients| && Reachable(content, During(s, s.worker.client, t))
    ensures a.sent == t.sent && a.disk == Released(t)
  {
    var reply := mirror(ProgressOf(|Bytes(s.worker.disk)|));
    t :| Served(Opened(s.worker.disk), true, a.lastChance, parse, reply, t, Returned(a.result))
      && a.sent == t.sent && a.disk == Released(t);
    AttemptsAreRuns(content, s, parse, a.lastChance, mirror, t, Returned(a.result));
  }

  predicate AllOpened(log: Log, openings: Openings) {
    match log case Begin(_) => true case Then(earlier, a) => AllOpened(earlier, openings) && openings(a.provider).Opens?
  }

  /** An order goes on only if its channel has opened. */
  lemma {:induction false} RunningAreOpened(log: Log, order: Order, pool: set<ProviderId>, content: seq<bv8>,
                                            parse: HeaderParser, mirrors: Mirrors, openings: Openings)
    requires OrderLog.Running(log, order, pool, content) && AllHappened(log, true, parse, mirrors, openings)
    ensures AllOpened(log, openings)
  {
    match log
    case Begin(_) =>
    case Then(earlier, _) => RunningAreOpened(earlier, order, pool, content, parse, mirrors, openings);
  }

  /** Attempts with honest mirrors, however many, and however they break off or fail, are a run: the disk as they leave it, and
      the first of all their messages at the scheduling client, make up a reachable state. */
  lemma {:induction false} OpenedAttemptsAreRuns(content: seq<bv8>, s: State, log: Log, parse: HeaderParser, mirrors: Mirrors,
                                                 openings: Openings)
    requires Package(content) && Reachable(content, s) && CanStartAttempt(s) && NothingPending(s)
    requires HonestMirrors(parse, mirrors, content) && StartOf(log) == s.worker.disk
    requires AllOpened(log, openings) && AllHappened(log, true, parse, mirrors, openings)
    ensures s.worker.client < |s.clients|
    ensures Reachable(content, AfterAttempts(s, s.worker.client, log))
  {
    ReachableStatesAreOk(content, s);
    var c := s.worker.client;
    match log
    case Begin(_) => assert AfterAttempts(s, c, log) == s;
    case Then(earlier, a) =>
      OpenedAttemptsAreRuns(content, s, earlier, parse, mirrors, openings);
      OneAttemptMoreIsARun(content, s, c, earlier, a, parse, mirrors(a.provider));
  }

  lemma OneAttemptMoreIsARun(content: seq<bv8>, s: State, c: nat, earlier: Log, a: Attempt, parse: HeaderParser, mirror: Mirror)
    requires Package(content) && c < |s.clients| && Reachable(content, AfterAttempts(s, c, earlier)) && NothingPending(s)
    requires Settled(parse) && HonestMirror(parse, mirror, content)
    requires Happened(DiskAfter(earlier), a, true, parse, mirror, Opens)
    ensures Reachable(content, AfterAttempts(s, c, Then(earlier, a)))
  {
    var s1 := AfterAttempts(s, c, earlier);
    var t := OpenedAttemptIsARun(content, s1, parse, a, mirror);
    HeardInTurn(s.clients, c, Messages(earlier), a.sent);
    NextIsReachable(content, During(s1, c, t), Retry, AfterAttempts(s, c, Then(earlier, a)));
  }

  lemma NextIsReachable(content: seq<bv8>, s: State, a: Delivery.Action, s': State)
    requires Reachable(content, s) && Enabled(content, s, a) && Careful(content, s, a) && s' == Step(content, s, a)
    ensures Reachable(content, s')
  {
    var from :| Idle(content, from) && Leads(content, from, s, true);
    OneMoreStep(content, from, s, a, s', true);
  }

  /** In end, the order of client c is over, its writer has been dropped, and nothing else has changed. */
  ghost predicate OrderIsOver(s: State, c: nat, log: Log, end: State)
    requires c < |s.clients|
  {
    && end.worker == Absent(DiskAfter(log)) && end.clients == Heard(s.clients, c, Messages(log))
    && NothingPending(end)
  }

  /** The end of an attempt after which the order is over: it is removed, and then its writer is dropped. */
  lemma OverAfterTransfer(content: seq<bv8>, s: State, c: nat, t: Transfer) returns (end: State)
    requires c < |s.clients| && NothingPending(s) && Reachable(content, During(s, c, t))
    ensures Reachable(content, end) && NothingPending(end)
    ensures end.worker == Absent(Released(t)) && end.clients == Heard(s.clients, c, t.sent)
  {
    var s1, s2 := During(s, c, t), AfterRemove(During(s, c, t));
    NextIsReachable(content, s1, Remove, s2);
    end := AfterRelease(s2, |s.leaving|);
    NextIsReachable(content, s2, Action.Release(|s.leaving|), end);
    assert t.file + [] == t.file;
  }

  /** Refinement of whole orders: what is left by the attempts of a finished order with honest mirrors is reachable, from wherever
      it is scheduled with nothing pending. So, what holds in every reachable state holds for the order as a whole. */
  lemma OrdersAreRuns(content: seq<bv8>, s: State, log: Log, order: Order, pool: set<ProviderId>,
                      parse: HeaderParser, mirrors: Mirrors, openings: Openings)
    returns (end: State)
    requires Package(content) && Reachable(content, s) && CanStartAttempt(s) && NothingPending(s)
    requires HonestMirrors(parse, mirrors, content) && StartOf(log) == s.worker.disk
    requires OrderLog.Finished(log, order, pool, content) && AllHappened(log, true, parse, mirrors, openings)
    ensures s.worker.client < |s.clients|
    ensures Reachable(content, end) && OrderIsOver(s, s.worker.client, log, end)
  {
    var c, a := s.worker.client, log.last;
    RunningAreOpened(log.earlier, order, pool, content, parse, mirrors, openings);
    OpenedAttemptsAreRuns(content, s, log.earlier, parse, mirrors, openings);
    end := LastAttemptIsARun(content, s, c, log.earlier, a, parse, mirrors(a.provider), openings(a.provider));
  }

  lemma LastAttemptIsARun(content: seq<bv8>, s: State, c: nat, earlier: Log, a: Attempt, parse: HeaderParser, mirror: Mirror,
                          opening: Opening)
    returns (end: State)
    requires Package(content) && c < |s.clients| && Reachable(content, AfterAttempts(s, c, earlier)) && NothingPending(s)
    requires Settled(parse) && HonestMirror(parse, mirror, content)
    requires Happened(DiskAfter(earlier), a, true, parse, mirror, opening)
    ensures Reachable(content, end) && OrderIsOver(s, c, Then(earlier, a), end)
  {
    var s1 := AfterAttempts(s, c, earlier);
    HeardInTurn(s.clients, c, Messages(earlier), a.sent);
    if opening.Opens? {
      var t := OpenedAttemptIsARun(content, s1, parse, a, mirror);
      end := OverAfterTransfer(content, s1, c, t);
    } else {
      end := AfterFailToStart(s1);
      NextIsReachable(content, s1, FailToStart, end);
    }
  }

  /** From the request to the last byte: an order that is scheduled by a client for itself, and succeeds, leaves the whole package
      on disk, and the client can then be served all that it has asked for. */
  lemma SuccessServesTheClient(content: seq<bv8>, s: State, log: Log, order: Order, pool: set<ProviderId>,
                               parse: HeaderParser, mirrors: Mirrors, openings: Openings)
    returns (end: State, served: State)
    requires Package(content) && Reachable(content, s) && CanStartAttempt(s) && NothingPending(s)
    requires HonestMirrors(parse, mirrors, content) && StartOf(log) == s.worker.disk
    requires OrderLog.Finished(log, order, pool, content) && AllHappened(log, true, parse, mirrors, openings)
    requires log.last.result.Complete?
    requires s.worker.client < |s.clients| && s.clients[s.worker.client].pc.AwaitingSize?
    requires s.clients[s.worker.client].first == None
    ensures Reachable(content, end) && OrderIsOver(s, s.worker.client, log, end) && OnDisk(end) == content
    ensures Leads(content, end, served, true) && OnlyClient(end, s.worker.client, served)
    ensures var c := served.clients[s.worker.client];
            c.pc == Finished(true) && c.out == if Offset(c) <= |content| then content[Offset(c)..] else []
  {
    end := OrdersAreRuns(content, s, log, order, pool, parse, mirrors, openings);
    OrderKeepsFile(log, order, pool, content);
    OrderKeepsProtocol(log, order, pool, content);
    served := EveryClientCanBeServed(content, end, s.worker.client);
  }
}
