/** What the log of an order has to do with what the mirrors have sent: when an attempt succeeds, when it is blamed on its
    provider, and when the order as a whole succeeds. */
module Attempts {
  import opened Wrappers
  import opened CompleteFileSize
  import opened ProviderSelection
  import opened CacheState
  import opened Download
  import opened MirrorReplies
  import opened OrderLog

  /** What each provider replies to this order. */
  type Mirrors = ProviderId -> Mirror

  /** Whether the package file can be opened for an attempt. */
  datatype Opening = Opens | PathNotFound | OpeningFails

  type Openings = ProviderId -> Opening

  ghost predicate HonestMirrors(parse: HeaderParser, mirrors: Mirrors, content: seq<bv8>) {
    Settled(parse) && forall p :: HonestMirror(parse, mirrors(p), content)
  }

  /** What an attempt on the given disk leads to: without a channel, an error that is not retried. Otherwise a transfer,
      which asks for what comes after the bytes on disk, and whose outcome, messages and bytes are those of the attempt. */
  ghost predicate Happened(before: Disk, a: Attempt, cacheable: bool, parse: HeaderParser, mirror: Mirror, opening: Opening) {
    match opening
    case PathNotFound => a.result == ClientError && a.sent == [OrderError] && a.disk == before
    case OpeningFails => a.result == UnexpectedInternalError && a.sent == [OrderError] && a.disk == before
    case Opens =>
      exists t ::
        && Served(Opened(before), cacheable, a.lastChance, parse, mirror(ProgressOf(|Bytes(before)|)), t, Returned(a.result))
        && a.sent == t.sent && a.disk == Released(t)
  }

  /** Every attempt of the log has happened, one after the other. */
  ghost predicate AllHappened(log: Log, cacheable: bool, parse: HeaderParser, mirrors: Mirrors, openings: Openings) {
    match log
    case Begin(_) => true
    case Then(earlier, a) =>
      && AllHappened(earlier, cacheable, parse, mirrors, openings)
      && Happened(DiskAfter(earlier), a, cacheable, parse, mirrors(a.provider), openings(a.provider))
  }

  // ---- A single attempt ----

  lemma OpenedIsFresh(before: Disk, content: seq<bv8>, cacheable: bool)
    requires Sound(before, content, cacheable)
    ensures IsFresh(Opened(before)) && Faithful(Opened(before), content, cacheable)
    ensures RangeOffset(ProgressOf(|Bytes(before)|)) == |Bytes(before)| == |Opened(before).file| <= |content|
  {
    assert Bytes(before) + [] == Bytes(before);
  }

  /** With an honest mirror, an attempt is one by the rules. */
  lemma AttemptIsRight(before: Disk, a: Attempt, cacheable: bool, parse: HeaderParser, mirror: Mirror, opening: Opening,
                       content: seq<bv8>)
    requires Happened(before, a, cacheable, parse, mirror, opening) && Sound(before, content, cacheable)
    requires Settled(parse) && HonestMirror(parse, mirror, content) && 0 < |content| < U64_LIMIT
    ensures RightTrace(a.sent, a.lastChance, a.result, |content|) && RightDisk(before, a, content, cacheable)
  {
    if opening.Opens? {
      var range := ProgressOf(|Bytes(before)|);
      var t :| Served(Opened(before), cacheable, a.lastChance, parse, mirror(range), t, Returned(a.result))
            && a.sent == t.sent && a.disk == Released(t);
      OpenedIsFresh(before, content, cacheable);
      HonestAttempt(parse, Opened(before), cacheable, a.lastChance, mirror(range), t, Returned(a.result), content);
      TransferIsRight(before, t, a, content, cacheable);
    }
  }

  lemma TransferIsRight(before: Disk, t: Transfer, a: Attempt, content: seq<bv8>, cacheable: bool)
    requires a.sent == t.sent && a.disk == Released(t)
    requires Faithful(t, content, cacheable) && RightSizes(t.sent, |content|) && AttemptMessages(t.sent, a.lastChance)
    requires Bytes(before) <= t.file + t.buffer && (Completed in t.sent ==> |Bytes(before)| == |content|)
    requires a.result.Complete? || IsRetried(a.result)
    requires a.result.Complete? ==> t.file + t.buffer == content && t.sent != [] && t.sent[0].JobSize?
    ensures RightTrace(a.sent, a.lastChance, a.result, |content|) && RightDisk(before, a, content, cacheable)
  {
  }

  /** With an honest mirror, an attempt succeeds exactly if its channel opens and the mirror delivers the rest. */
  lemma AttemptSucceedsExactlyWhen(before: Disk, a: Attempt, cacheable: bool, parse: HeaderParser, mirror: Mirror,
                                   opening: Opening, content: seq<bv8>)
    requires Happened(before, a, cacheable, parse, mirror, opening) && Sound(before, content, cacheable)
    requires Settled(parse) && HonestMirror(parse, mirror, content) && 0 < |content| < U64_LIMIT
    ensures a.result.Complete? <==>
      opening.Opens? && Delivers(parse, mirror(ProgressOf(|Bytes(before)|)), content, |Bytes(before)|)
  {
    if opening.Opens? {
      var range := ProgressOf(|Bytes(before)|);
      var t :| Served(Opened(before), cacheable, a.lastChance, parse, mirror(range), t, Returned(a.result))
            && a.sent == t.sent && a.disk == Released(t);
      OpenedIsFresh(before, content, cacheable);
      HonestSuccessExactlyWhen(parse, Opened(before), cacheable, a.lastChance, mirror(range), t, Returned(a.result), content);
    }
  }

  /** Whatever the mirror sends, an attempt is blamed on it exactly if the transfer is broken off, or ends well with a status
      that neither means success nor that the package is missing. An attempt without a channel is not blamed on anybody. */
  lemma AttemptIsBlamedExactlyWhen(before: Disk, a: Attempt, cacheable: bool, parse: HeaderParser, mirror: Mirror,
                                   opening: Opening, heads: seq<Head>, cut: seq<seq<bv8>>)
    requires Happened(before, a, cacheable, parse, mirror, opening) && Settled(parse)
    requires Consists(parse, mirror(ProgressOf(|Bytes(before)|)), heads, cut)
    ensures
      var reply := mirror(ProgressOf(|Bytes(before)|));
      var code := reply.responseCode;
      (a.result.Partial? || a.result.Error?) <==>
        opening.Opens? && (EndsWell(parse, reply, heads) ==> code != 404 && (code < 200 || code > 299))
  {
    if opening.Opens? {
      var range := ProgressOf(|Bytes(before)|);
      var t :| Served(Opened(before), cacheable, a.lastChance, parse, mirror(range), t, Returned(a.result))
            && a.sent == t.sent && a.disk == Released(t);
      ResultExactlyWhen(parse, Opened(before), cacheable, a.lastChance, mirror(range), heads, cut, t, Returned(a.result));
    }
  }

  // ---- A whole order ----

  lemma {:induction false} DisksAreSound(log: Log, order: Order, pool: set<ProviderId>, content: seq<bv8>)
    requires Running(log, order, pool, content)
    ensures Sound(DiskAfter(log), content, order.cacheable)
  {
    RunningKeepsFile(log, order, pool, content, StartOf(log));
  }

  /** What the last attempt has asked its mirror for has been delivered. */
  ghost predicate LastIsDelivered(log: Log, parse: HeaderParser, mirrors: Mirrors, openings: Openings, content: seq<bv8>)
    requires log.Then? && |Bytes(DiskAfter(log.earlier))| <= |content|
  {
    var p, size := log.last.provider, |Bytes(DiskAfter(log.earlier))|;
    openings(p).Opens? && Delivers(parse, mirrors(p)(ProgressOf(size)), content, size)
  }

  /** An order succeeds exactly if the channel for its last attempt opens and the mirror delivers the rest. */
  lemma OrderSucceedsExactlyWhen(log: Log, order: Order, pool: set<ProviderId>, parse: HeaderParser, mirrors: Mirrors,
                                 openings: Openings, content: seq<bv8>)
    requires Finished(log, order, pool, content) && AllHappened(log, order.cacheable, parse, mirrors, openings)
    requires HonestMirrors(parse, mirrors, content) && 0 < |content| < U64_LIMIT
    ensures |Bytes(DiskAfter(log.earlier))| <= |content|
    ensures log.last.result.Complete? <==> LastIsDelivered(log, parse, mirrors, openings, content)
  {
    var a := log.last;
    DisksAreSound(log.earlier, order, pool, content);
    AttemptSucceedsExactlyWhen(DiskAfter(log.earlier), a, order.cacheable, parse, mirrors(a.provider), openings(a.provider),
                               content);
  }

  /** The mirror delivers whatever rest it is asked for. */
  ghost predicate AlwaysDelivers(parse: HeaderParser, mirror: Mirror, content: seq<bv8>) {
    forall range {:trigger Delivers(parse, mirror(range), content, RangeOffset(range))} ::
      RangeOffset(range) <= |content| ==> Delivers(parse, mirror(range), content, RangeOffset(range))
  }

  lemma {:induction false} NoDelivererFails(log: Log, order: Order, pool: set<ProviderId>, parse: HeaderParser, mirrors: Mirrors,
                                            openings: Openings, content: seq<bv8>, p: ProviderId)
    requires Running(log, order, pool, content) && AllHappened(log, order.cacheable, parse, mirrors, openings)
    requires HonestMirrors(parse, mirrors, content) && 0 < |content| < U64_LIMIT
    requires AlwaysDelivers(parse, mirrors(p), content)
    ensures p !in Tried(log)
  {
    match log
    case Begin(_) =>
    case Then(earlier, a) =>
      NoDelivererFails(earlier, order, pool, parse, mirrors, openings, content, p);
      if a.provider == p {
        DisksAreSound(earlier, order, pool, content);
        OpenedIsFresh(DiskAfter(earlier), content, order.cacheable);
        AttemptSucceedsExactlyWhen(DiskAfter(earlier), a, order.cacheable, parse, mirrors(p), openings(p), content);
      }
  }

  /** As soon as an order reaches a mirror that delivers, it succeeds, unless the package file cannot be opened. */
  lemma ReachedMirrorSuffices(log: Log, order: Order, pool: set<ProviderId>, parse: HeaderParser, mirrors: Mirrors,
                              openings: Openings, content: seq<bv8>, p: ProviderId)
    requires Finished(log, order, pool, content) && AllHappened(log, order.cacheable, parse, mirrors, openings)
    requires HonestMirrors(parse, mirrors, content) && 0 < |content| < U64_LIMIT
    requires p in Tried(log) && AlwaysDelivers(parse, mirrors(p), content)
    ensures p == log.last.provider && (log.last.result.Complete? <==> openings(p).Opens?)
  {
    NoDelivererFails(log.earlier, order, pool, parse, mirrors, openings, content, p);
    OrderSucceedsExactlyWhen(log, order, pool, parse, mirrors, openings, content);
    DisksAreSound(log.earlier, order, pool, content);
    OpenedIsFresh(DiskAfter(log.earlier), content, order.cacheable);
  }

  /** A retryable order with at most 25 providers, one of which delivers, succeeds whatever the others do, unless the package file
      cannot be opened for the last attempt. */
  lemma OneMirrorSuffices(log: Log, order: Order, pool: set<ProviderId>, parse: HeaderParser, mirrors: Mirrors,
                          openings: Openings, content: seq<bv8>, p: ProviderId)
    requires Finished(log, order, pool, content) && AllHappened(log, order.cacheable, parse, mirrors, openings)
    requires HonestMirrors(parse, mirrors, content) && 0 < |content| < U64_LIMIT
    requires order.retryable && |pool| <= 25 && p in pool && AlwaysDelivers(parse, mirrors(p), content)
    ensures log.last.result.Complete? <==> openings(log.last.provider).Opens?
  {
    OrderSucceedsExactlyWhen(log, order, pool, parse, mirrors, openings, content);
    if openings(log.last.provider).Opens? && !log.last.result.Complete? {
      assert RightAttempt(log.earlier, log.last, order, pool, content);
      OpenedIsRetriedOrComplete(DiskAfter(log.earlier), log.last, order.cacheable, parse, mirrors(log.last.provider), content);
      FailureMeansEverywhere(log, order, pool, content, p);
      PunishedOnce(log, order, pool, content, p);
      ReachedMirrorSuffices(log, order, pool, parse, mirrors, openings, content, p);
    }
  }

  lemma OpenedIsRetriedOrComplete(before: Disk, a: Attempt, cacheable: bool, parse: HeaderParser, mirror: Mirror,
                                  content: seq<bv8>)
    requires Happened(before, a, cacheable, parse, mirror, Opens) && Settled(parse)
    requires Bytes(before) <= content && HonestMirror(parse, mirror, content)
    ensures a.result.Complete? || IsRetried(a.result)
  {
    var range := ProgressOf(|Bytes(before)|);
    var t :| Served(Opened(before), cacheable, a.lastChance, parse, mirror(range), t, Returned(a.result));
    var reply := mirror(range);
    assert Honest(parse, reply, content, RangeOffset(range));
    var heads, cut :| Consists(parse, reply, heads, cut) && Honestly(reply, heads, cut, content, RangeOffset(range));
    ResultExactlyWhen(parse, Opened(before), cacheable, a.lastChance, reply, heads, cut, t, Returned(a.result));
  }

  /** An order for an uncacheable package never touches a side file. */
  lemma {:induction false} UncacheableOrderLeavesSideFile(log: Log, parse: HeaderParser, mirrors: Mirrors, openings: Openings)
    requires AllHappened(log, false, parse, mirrors, openings)
    ensures DiskAfter(log).cfs == StartOf(log).cfs
  {
    match log
    case Begin(_) =>
    case Then(earlier, a) =>
      UncacheableOrderLeavesSideFile(earlier, parse, mirrors, openings);
      if openings(a.provider).Opens? {
        var before := DiskAfter(earlier);
        var range := ProgressOf(|Bytes(before)|);
        var t :| Served(Opened(before), false, a.lastChance, parse, mirrors(a.provider)(range), t, Returned(a.result))
              && a.sent == t.sent && a.disk == Released(t);
        UncacheableLeavesSideFile(parse, Opened(before), a.lastChance, mirrors(a.provider)(range), t, Returned(a.result));
      }
  }

  // ---- There are honest mirrors that deliver ----

  /** A header consists of zeros, as many as there are bytes to come, and a one. */
  function Unary(received: seq<bv8>): ParseStatus {
    if received == [] then Incomplete
    else if received[0] == 1 then Parsed(206, Some(0))
    else
      match Unary(received[1..])
      case Parsed(code, Some(length)) => Parsed(code, Some(length + 1))
      case status => status
  }

  function UnaryHead(length: nat): seq<bv8> {
    if length == 0 then [1] else [0] + UnaryHead(length - 1)
  }

  lemma {:induction false} UnaryIsRead(length: nat)
    ensures Unary(UnaryHead(length)) == Parsed(206, Some(length)) && UnaryHead(length) != []
  {
    if length > 0 {
      UnaryIsRead(length - 1);
      assert UnaryHead(length)[1..] == UnaryHead(length - 1);
    }
  }

  lemma {:induction false} UnaryIsSettled(p: seq<bv8>, q: seq<bv8>)
    requires Unary(p).Parsed? && p <= q
    ensures Unary(q) == Unary(p)
  {
    if p[0] != 1 {
      UnaryIsSettled(p[1..], q[1..]);
    }
  }

  /** The whole rest in one piece. */
  function WholeRest(content: seq<bv8>): Mirror {
    (range: Option<nat>) =>
      var start := RangeOffset(range);
      if start <= |content| then Reply([UnaryHead(|content| - start)], 206, [content[start..]], [], true)
      else Reply([], 0, [], [], false)
  }

  lemma UnaryReadsOneHead()
    ensures Settled(Unary)
  {
    forall p, q | Unary(p).Parsed? && p <= q
      ensures Unary(q) == Unary(p)
    {
      UnaryIsSettled(p, q);
    }
  }

  /** For every package, there is a mirror that is honest and always delivers. */
  lemma HonestMirrorsExist(content: seq<bv8>) returns (parse: HeaderParser, mirror: Mirror)
    ensures Settled(parse) && HonestMirror(parse, mirror, content) && AlwaysDelivers(parse, mirror, content)
  {
    parse, mirror := Unary, WholeRest(content);
    UnaryReadsOneHead();
    forall range | RangeOffset(range) <= |content|
      ensures Honest(Unary, WholeRest(content)(range), content, RangeOffset(range))
      ensures Delivers(Unary, WholeRest(content)(range), content, RangeOffset(range))
    {
      var length := |content| - RangeOffset(range);
      UnaryIsRead(length);
      RestIsHonest(Unary, UnaryHead(length), content, RangeOffset(range), WholeRest(content)(range));
    }
  }

  /** A reply with one header line and the whole rest in one piece. */
  lemma RestIsHonest(parse: HeaderParser, line: seq<bv8>, content: seq<bv8>, start: nat, reply: Reply)
    requires start <= |content| && parse(line) == Parsed(206, Some(|content| - start))
    requires reply == Reply([line], 206, [content[start..]], [], true)
    ensures Honest(parse, reply, content, start) && Delivers(parse, reply, content, start)
  {
    var h := Head([line], 206, Some(|content| - start));
    OneLine(parse, line, h);
    OneHead(parse, reply, h);
    InOnePiece(content[start..]);
    RestIsDelivered(content, start, reply, h);
  }

  lemma OneLine(parse: HeaderParser, line: seq<bv8>, h: Head)
    requires h.lines == [line] && parse(line) == StatusOf(h)
    ensures IsHead(parse, h)
  {
    InOnePiece(line);
  }

  lemma InOnePiece(data: seq<bv8>)
    ensures Concat([data]) == data
  {
    assert [data][1..] == [] && data + [] == data;
  }

  lemma RestIsDelivered(content: seq<bv8>, start: nat, reply: Reply, h: Head)
    requires start <= |content| && h.code == 206 && h.contentLength == Some(|content| - start)
    requires reply.ok && reply.trailers == [] && Concat(reply.chunks) == content[start..] && Final([h]) == Some(h)
    ensures HasTheRest(reply, [h], [], content, start) && Honestly(reply, [h], [], content, start)
  {
  }
}
