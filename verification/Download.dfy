/** One attempt to download an order from one mirror: the header and body callbacks, and what becomes of the transfer. */
module Download {
  import opened Wrappers
  import opened CompleteFileSize
  import opened CacheState

  datatype FlexoProgress = Unavailable | JobSize(size: nat) | Progress(length: nat) | Completed | OrderError

  datatype HeaderOutcome = Ready(contentLength: nat) | NotAvailable

  /** What the header parser makes of the header bytes received so far. */
  type HeaderParser = seq<bv8> -> ParseStatus

  datatype ParseStatus = Incomplete | Malformed | Parsed(code: nat, contentLength: Option<nat>)

  datatype JobResult =
    | Complete(size: nat)
    | Partial(continueAt: nat)
    | Error
    | Unavailable
    | ClientError
    | UnexpectedInternalError

  /** What becomes of an attempt: a result, or a panic, which ends the whole process. */
  datatype Outcome = Returned(result: JobResult) | Panicked

  predicate IsRedirect(status: ParseStatus) {
    status.Parsed? && 300 <= status.code < 400
  }

  predicate IsPayload(status: ParseStatus) {
    status.Parsed? && (status.code == 200 || status.code == 206)
  }

  /** The state of an attempt: the package file and its side file on disk, the bytes still in the writer's buffer,
      the number of bytes written altogether, the verdict on the header, and the messages sent by this attempt. */
  datatype Transfer = Transfer(
    file: seq<bv8>,
    cfs: Option<string>,
    buffer: seq<bv8>,
    sizeWritten: nat,
    header: Option<HeaderOutcome>,
    sent: seq<FlexoProgress>)

  /** The sum of two sizes, as unsigned 64-bit integers. */
  function AddSizes(a: nat, b: nat): nat {
    (a + b) % U64_LIMIT
  }

  /** The header callback; the second component tells whether the transfer goes on. */
  function OnHeader(t: Transfer, cacheable: bool, lastChance: bool, status: ParseStatus): (Transfer, bool) {
    match status
    case Incomplete => (t, true)
    case Malformed => (t, false)
    case Parsed(code, contentLength) =>
      if code == 200 || code == 206 then
        match contentLength
        case None => (t, false)
        case Some(length) =>
          var size := AddSizes(t.sizeWritten, length);
          (t.(header := Some(Ready(length)),
              cfs := if cacheable then Some(Print(size)) else t.cfs,
              sent := t.sent + [JobSize(size)]), true)
      else if code == 416 then (t.(header := Some(NotAvailable), sent := t.sent + [Completed]), true)
      else if 300 <= code < 400 then (t, true)
      else if !lastChance then (t.(header := Some(NotAvailable)), true)
      else (t.(header := Some(NotAvailable), sent := t.sent + [FlexoProgress.Unavailable]), true)
  }

  /** The body callback. The buffered writer hands its first flushed bytes to the file system. */
  function OnBody(t: Transfer, data: seq<bv8>, flushed: nat): Transfer
    requires t.header.Some? && flushed <= |t.buffer| + |data|
  {
    match t.header.value
    case NotAvailable => t
    case Ready(_) =>
      var pending := t.buffer + data;
      var file := t.file + pending[..flushed];
      t.(file := file, buffer := pending[flushed..], sizeWritten := t.sizeWritten + |data|,
         sent := t.sent + [Progress(|file|)])
  }

  predicate IsReady(header: Option<HeaderOutcome>) {
    header.Some? && header.value.Ready?
  }

  /** A header that the callback cannot make sense of ends the transfer. */
  predicate Aborts(status: ParseStatus) {
    status.Malformed? || (IsPayload(status) && status.contentLength == None)
  }

  /** What the client is told on a header, if the given number of bytes is there already; that a package is not available
      is told only on the last chance. */
  function MessagesOn(status: ParseStatus, lastChance: bool, start: nat): seq<FlexoProgress> {
    if !status.Parsed? || Aborts(status) || IsRedirect(status) then []
    else if IsPayload(status) then [JobSize(AddSizes(start, status.contentLength.value))]
    else if status.code == 416 then [Completed]
    else if lastChance then [FlexoProgress.Unavailable]
    else []
  }

  /** On one header: what the client is told, whether a body is let through, and when the transfer is broken off. */
  lemma VerdictOfHeader(t: Transfer, cacheable: bool, lastChance: bool, status: ParseStatus)
    ensures var (t', goOn) := OnHeader(t, cacheable, lastChance, status);
            && (goOn <==> !Aborts(status))
            && t'.sent == t.sent + MessagesOn(status, lastChance, t.sizeWritten)
            && t' == t.(header := t'.header, cfs := t'.cfs, sent := t'.sent)
            && (t.header == None ==>
                  && (IsReady(t'.header) <==> IsPayload(status) && !Aborts(status))
                  && (t'.header.Some? <==> status.Parsed? && !IsRedirect(status) && !Aborts(status)))
  {
  }

  /** The effect of several header callbacks; a callback that fails is the last one. */
  function OnHeaders(t: Transfer, cacheable: bool, lastChance: bool, statuses: seq<ParseStatus>): (Transfer, bool)
    decreases |statuses|
  {
    if statuses == [] then (t, true)
    else
      var (t', goOn) := OnHeader(t, cacheable, lastChance, statuses[0]);
      if goOn then OnHeaders(t', cacheable, lastChance, statuses[1..]) else (t', false)
  }

  /** What the callbacks see: the header lines add up until a redirect clears them. */
  function Seen(parse: HeaderParser, received: seq<bv8>, lines: seq<seq<bv8>>): seq<ParseStatus>
    decreases |lines|
  {
    if lines == [] then []
    else
      var status := parse(received + lines[0]);
      [status] + Seen(parse, if IsRedirect(status) then [] else received + lines[0], lines[1..])
  }

  /** What is in the header buffer after the given lines. */
  function Left(parse: HeaderParser, received: seq<bv8>, lines: seq<seq<bv8>>): seq<bv8>
    decreases |lines|
  {
    if lines == [] then received
    else Left(parse, if IsRedirect(parse(received + lines[0])) then [] else received + lines[0], lines[1..])
  }

  /** The effect of several body callbacks, of which the k-th hands (at most) flushes[k] bytes to the file system. */
  function OnBodies(t: Transfer, chunks: seq<seq<bv8>>, flushes: seq<nat>): (r: Transfer)
    requires t.header.Some? && |flushes| == |chunks|
    ensures r.header == t.header
    decreases |chunks|
  {
    if chunks == [] then t
    else
      var n := |chunks| - 1;
      var earlier := OnBodies(t, chunks[..n], flushes[..n]);
      OnBody(earlier, chunks[n], AtMost(flushes[n], |earlier.buffer| + |chunks[n]|))
  }

  function AtMost(n: nat, limit: nat): nat {
    if n <= limit then n else limit
  }

  /** A transfer that has just opened the package file. */
  function Opened(disk: Disk): Transfer {
    Transfer(Bytes(disk), disk.cfs, [], |Bytes(disk)|, None, [])
  }

  /** What is on disk once the writer of a transfer has been dropped. */
  function Released(t: Transfer): Disk {
    Disk(Some(t.file + t.buffer), t.cfs)
  }

  class DownloadState {
    const entry: CacheEntry
    const cacheable: bool
    const lastChance: bool
    var buffer: seq<bv8>
    var sizeWritten: nat
    var receivedHeader: seq<bv8>
    var headerSuccess: Option<HeaderOutcome>
    var tx: seq<FlexoProgress>

    ghost predicate Valid()
      reads this, entry
    {
      entry.file.Some?
    }

    ghost function Value(): Transfer
      requires Valid()
      reads this, entry
    {
      Transfer(entry.file.value, entry.cfs, buffer, sizeWritten, headerSuccess, tx)
    }

    /** Opens the package file for appending, and creates it if it does not exist. */
    constructor (entry: CacheEntry, cacheable: bool, lastChance: bool)
      modifies entry`file
      ensures Valid() && fresh(this)
      ensures this.entry == entry && this.cacheable == cacheable && this.lastChance == lastChance
      ensures Value() == Opened(old(entry.State()))
      ensures receivedHeader == []
    {
      this.entry, this.cacheable, this.lastChance := entry, cacheable, lastChance;
      this.buffer, this.receivedHeader, this.headerSuccess, this.tx := [], [], None, [];
      this.sizeWritten := match entry.file case None => 0 case Some(bytes) => |bytes|;
      new;
      if entry.file == None {
        entry.file := Some([]);
      }
    }

    function ProgressIndicator(): Option<nat>
      reads this
    {
      if sizeWritten > 0 then Some(sizeWritten) else None
    }

    method Header(data: seq<bv8>, parse: HeaderParser) returns (goOn: bool)
      requires Valid()
      modifies this, entry`cfs
      ensures Valid() && buffer == old(buffer)
      ensures var status := parse(old(receivedHeader) + data);
              && (Value(), goOn) == OnHeader(old(Value()), cacheable, lastChance, status)
              && receivedHeader == if IsRedirect(status) then [] else old(receivedHeader) + data
    {
      receivedHeader := receivedHeader + data;
      match parse(receivedHeader) {
        case Malformed => return false;
        case Incomplete =>
        case Parsed(code, maybeContentLength) =>
          if code == 200 || code == 206 {
            match maybeContentLength {
              case None => return false;
              case Some(contentLength) =>
                headerSuccess := Some(Ready(contentLength));
                var clientContentLength := AddSizes(sizeWritten, contentLength);
                if cacheable {
                  entry.CreateCfsFile(clientContentLength);
                }
                tx := tx + [JobSize(clientContentLength)];
            }
          } else if code == 416 {
            headerSuccess := Some(NotAvailable);
            tx := tx + [Completed];
          } else if 300 <= code < 400 {
            receivedHeader := [];
          } else if !lastChance {
            headerSuccess := Some(NotAvailable);
          } else {
            headerSuccess := Some(NotAvailable);
            tx := tx + [FlexoProgress.Unavailable];
          }
      }
      goOn := true;
    }

    method Write(data: seq<bv8>) returns (flushed: nat)
      requires Valid() && headerSuccess.Some?
      modifies this, entry`file
      ensures Valid() && flushed <= |old(buffer)| + |data| && receivedHeader == old(receivedHeader)
      ensures Value() == OnBody(old(Value()), data, flushed)
    {
      flushed := 0;
      match headerSuccess.value
      case NotAvailable =>
      case Ready(contentLength) =>
        sizeWritten := sizeWritten + |data|;
        flushed := WriteAll(data);
        tx := tx + [Progress(|entry.file.value|)];
    }

    /** The buffered writer decides when it passes on how much. */
    method WriteAll(data: seq<bv8>) returns (flushed: nat)
      requires Valid()
      modifies this`buffer, entry`file
      ensures Valid() && flushed <= |old(buffer)| + |data|
      ensures entry.file.value == old(entry.file.value) + (old(buffer) + data)[..flushed]
      ensures buffer == (old(buffer) + data)[flushed..]
    {
      var pending := buffer + data;
      flushed :| 0 <= flushed <= |pending|;
      entry.file := Some(entry.file.value + pending[..flushed]);
      buffer := pending[flushed..];
    }

    /** Dropping the writer flushes its buffer. */
    method ReleaseJobResources()
      requires Valid()
      modifies this`buffer, entry`file
      ensures Valid() && entry.State() == Released(old(Value()))
      ensures Value() == old(Value()).(file := old(entry.file.value + buffer), buffer := [])
    {
      entry.file := Some(entry.file.value + buffer);
      buffer := [];
    }
  }

  function Concat(chunks: seq<seq<bv8>>): seq<bv8> {
    if chunks == [] then [] else chunks[0] + Concat(chunks[1..])
  }

  lemma {:induction false} ConcatOne(lines: seq<seq<bv8>>, k: nat)
    requires k < |lines|
    ensures Concat(lines[..k + 1]) == Concat(lines[..k]) + lines[k]
  {
    if k == 0 {
      assert lines[..1] == [lines[0]] && lines[..1][1..] == [];
    } else {
      ConcatOne(lines[1..], k - 1);
      assert lines[..k + 1][1..] == lines[1..][..k] && lines[..k][1..] == lines[1..][..k - 1];
    }
  }

  ghost predicate OnlyProgress(earlier: seq<FlexoProgress>, sent: seq<FlexoProgress>) {
    earlier <= sent && forall i :: |earlier| <= i < |sent| ==> sent[i].Progress?
  }

  /** A body after a payload header is appended, with progress reported on the way; any other body leaves no trace. */
  lemma {:induction false} BodiesAppend(t: Transfer, chunks: seq<seq<bv8>>, flushes: seq<nat>)
    requires t.header.Some? && |flushes| == |chunks|
    ensures var t' := OnBodies(t, chunks, flushes);
            && (t.header.value.Ready? ==>
                  && t'.file + t'.buffer == t.file + t.buffer + Concat(chunks)
                  && t.file <= t'.file
                  && t'.sizeWritten == t.sizeWritten + |Concat(chunks)|
                  && t'.cfs == t.cfs && OnlyProgress(t.sent, t'.sent))
            && (t.header.value.NotAvailable? ==> t' == t)
    decreases |chunks|
  {
    if chunks == [] {
      assert t.file + t.buffer + [] == t.file + t.buffer;
    } else {
      var n := |chunks| - 1;
      BodiesAppend(t, chunks[..n], flushes[..n]);
      var earlier := OnBodies(t, chunks[..n], flushes[..n]);
      BodyAppends(earlier, chunks[n], AtMost(flushes[n], |earlier.buffer| + |chunks[n]|));
      ConcatOne(chunks, n);
      assert chunks[..n + 1] == chunks;
      Associative(t.file + t.buffer, Concat(chunks[..n]), chunks[n]);
    }
  }

  lemma BodyAppends(t: Transfer, data: seq<bv8>, flushed: nat)
    requires t.header.Some? && flushed <= |t.buffer| + |data|
    ensures var t' := OnBody(t, data, flushed);
            && (t.header.value.Ready? ==> t'.file + t'.buffer == t.file + t.buffer + data && t.file <= t'.file)
            && (t.header.value.NotAvailable? ==> t' == t)
  {
    var pending := t.buffer + data;
    assert pending == pending[..flushed] + pending[flushed..];
  }

  // ---- What every callback keeps ----

  /** File and buffer are the beginning of the content, their length is known, and no byte is there
      before the complete size has been recorded. */
  ghost predicate Faithful(t: Transfer, content: seq<bv8>, cacheable: bool) {
    && t.file + t.buffer <= content
    && t.sizeWritten == |t.file| + |t.buffer|
    && (cacheable && t.file + t.buffer != [] ==> t.cfs == Some(Print(|content|)))
    && (cacheable && IsReady(t.header) ==> t.cfs == Some(Print(|content|)))
  }

  ghost predicate RightSizes(sent: seq<FlexoProgress>, size: nat) {
    forall i :: 0 <= i < |sent| && sent[i].JobSize? ==> sent[i].size == size
  }

  /** The messages of one attempt: the complete size and then progress, or one final word, or nothing. */
  ghost predicate AttemptMessages(sent: seq<FlexoProgress>, lastChance: bool) {
    || sent == []
    || (sent[0].JobSize? && forall i :: 1 <= i < |sent| ==> sent[i].Progress?)
    || sent == [Completed]
    || (lastChance && sent == [FlexoProgress.Unavailable])
  }

  lemma HeaderKeepsFaithful(t: Transfer, content: seq<bv8>, cacheable: bool, lastChance: bool, status: ParseStatus)
    requires Faithful(t, content, cacheable) && RightSizes(t.sent, |content|) && |content| < U64_LIMIT
    requires IsPayload(status) && status.contentLength.Some? ==> t.sizeWritten + status.contentLength.value == |content|
    ensures var t' := OnHeader(t, cacheable, lastChance, status).0;
            Faithful(t', content, cacheable) && RightSizes(t'.sent, |content|)
  {
  }

  lemma BodyKeepsFaithful(t: Transfer, content: seq<bv8>, cacheable: bool, data: seq<bv8>, flushed: nat)
    requires t.header.Some? && flushed <= |t.buffer| + |data|
    requires Faithful(t, content, cacheable) && RightSizes(t.sent, |content|)
    requires t.header.value.Ready? ==> t.file + t.buffer + data <= content
    ensures var t' := OnBody(t, data, flushed);
            && Faithful(t', content, cacheable) && RightSizes(t'.sent, |content|)
            && t'.file + t'.buffer == t.file + t.buffer + if t.header.value.Ready? then data else []
  {
    BodyAppends(t, data, flushed);
  }

  /** The header announces what is still missing, and 416 is sent only when nothing is. */
  ghost predicate RightStatus(status: ParseStatus, missing: nat) {
    && (IsPayload(status) && status.contentLength.Some? ==> status.contentLength.value == missing)
    && (status.Parsed? && status.code == 416 ==> missing == 0)
  }

  // ---- A transfer as a whole ----

  /** A handle of the transfer library, with the range start that is in force on it, and the job that it works for. */
  class DownloadChannel {
    var rangeStart: Option<nat>
    var state: DownloadState

    constructor (state: DownloadState)
      ensures rangeStart == None && this.state == state
    {
      this.rangeStart, this.state := None, state;
    }

    /** Resets all options before the handle is used for another job. */
    method Reuse(state: DownloadState)
      modifies this
      ensures rangeStart == None && this.state == state
    {
      rangeStart, this.state := None, state;
    }
  }

  /** What the transfer library delivers: the header lines of all responses one after the other, the status code of the last
      response, the body of the last response, the trailer lines after it, and whether it ended well. */
  datatype Reply = Reply(header: seq<seq<bv8>>, responseCode: nat, chunks: seq<seq<bv8>>, trailers: seq<seq<bv8>>, ok: bool)

  /** What a mirror replies, given the range start of the request. */
  type Mirror = Option<nat> -> Reply

  /** The result of a transfer that has, or has not, been performed to its end. */
  function Classify(performed: bool, responseCode: nat, progress: Option<nat>): Outcome {
    if performed then
      if 200 <= responseCode < 300 then
        match progress case Some(size) => Returned(Complete(size)) case None => Panicked
      else if responseCode == 404 then Returned(JobResult.Unavailable)
      else Returned(Error)
    else
      match progress case Some(size) => Returned(Partial(size)) case None => Returned(Error)
  }

  function ProgressOf(size: nat): Option<nat> {
    if size > 0 then Some(size) else None
  }

  /** The transfer after the header callbacks, and whether it goes on then. */
  function AfterHeaders(t: Transfer, cacheable: bool, lastChance: bool, parse: HeaderParser, reply: Reply): (Transfer, bool) {
    OnHeaders(t, cacheable, lastChance, Seen(parse, [], reply.header))
  }

  /** A body without a final header is a panic. */
  predicate PanicsOnBody(header: (Transfer, bool), reply: Reply) {
    header.1 && header.0.header == None && reply.chunks != []
  }

  /** The transfer after the body callbacks, if there are any, with whatever the buffered writer passes on. */
  ghost predicate BodyDelivered(header: (Transfer, bool), reply: Reply, t: Transfer) {
    if !header.1 || header.0.header == None then t == header.0
    else exists flushes: seq<nat> :: |flushes| == |reply.chunks| && t == OnBodies(header.0, reply.chunks, flushes)
  }

  /** The trailer lines go to the header callback as well; the header buffer is as the header has left it. */
  function AfterTrailers(t: Transfer, goOn: bool, cacheable: bool, lastChance: bool, parse: HeaderParser, reply: Reply)
    : (Transfer, bool)
  {
    if goOn then OnHeaders(t, cacheable, lastChance, Seen(parse, Left(parse, [], reply.header), reply.trailers)) else (t, false)
  }

  /** How a transfer ends that has got through the body as far as t. */
  ghost predicate Ends(header: (Transfer, bool), t: Transfer, cacheable: bool, lastChance: bool, parse: HeaderParser,
                       reply: Reply, t': Transfer, outcome: Outcome) {
    if PanicsOnBody(header, reply) then t' == t && outcome == Panicked
    else
      var trailers := AfterTrailers(t, header.1, cacheable, lastChance, parse, reply);
      && t' == trailers.0
      && outcome == Classify(trailers.1 && reply.ok, reply.responseCode, ProgressOf(t'.sizeWritten))
  }

  /** A transfer t has become t' by a reply: header callbacks, body callbacks, and header callbacks for the trailer lines. */
  ghost predicate Served(t: Transfer, cacheable: bool, lastChance: bool, parse: HeaderParser, reply: Reply,
                         t': Transfer, outcome: Outcome) {
    var header := AfterHeaders(t, cacheable, lastChance, parse, reply);
    exists body :: BodyDelivered(header, reply, body) && Ends(header, body, cacheable, lastChance, parse, reply, t', outcome)
  }

  lemma ServedInStages(t: Transfer, cacheable: bool, lastChance: bool, parse: HeaderParser, reply: Reply,
                       body: Transfer, t': Transfer, outcome: Outcome)
    requires BodyDelivered(AfterHeaders(t, cacheable, lastChance, parse, reply), reply, body)
    requires Ends(AfterHeaders(t, cacheable, lastChance, parse, reply), body, cacheable, lastChance, parse, reply, t', outcome)
    ensures Served(t, cacheable, lastChance, parse, reply, t', outcome)
  {
  }

  /** The header callbacks of one transfer; a callback may break it off. */
  method DeliverHeaders(state: DownloadState, parse: HeaderParser, lines: seq<seq<bv8>>) returns (goOn: bool)
    requires state.Valid()
    modifies state, state.entry`cfs
    ensures state.Valid()
    ensures (state.Value(), goOn)
         == OnHeaders(old(state.Value()), state.cacheable, state.lastChance, Seen(parse, old(state.receivedHeader), lines))
    ensures goOn ==> state.receivedHeader == Left(parse, old(state.receivedHeader), lines)
  {
    ghost var all := OnHeaders(state.Value(), state.cacheable, state.lastChance, Seen(parse, state.receivedHeader, lines));
    assert lines[0..] == lines;
    for i := 0 to |lines|
      invariant state.Valid()
      invariant OnHeaders(state.Value(), state.cacheable, state.lastChance, Seen(parse, state.receivedHeader, lines[i..])) == all
      invariant Left(parse, state.receivedHeader, lines[i..]) == Left(parse, old(state.receivedHeader), lines)
    {
      assert lines[i..][0] == lines[i] && lines[i..][1..] == lines[i + 1..];
      ghost var status := parse(state.receivedHeader + lines[i]);
      ghost var later := Seen(parse, if IsRedirect(status) then [] else state.receivedHeader + lines[i], lines[i + 1..]);
      assert ([status] + later)[1..] == later;
      goOn := state.Header(lines[i], parse);
      if !goOn {
        return;
      }
    }
    goOn := true;
  }

  /** The body callbacks of one transfer; a body callback without a final header is a panic. */
  method DeliverBody(state: DownloadState, chunks: seq<seq<bv8>>) returns (panicked: bool, ghost flushes: seq<nat>)
    requires state.Valid()
    modifies state, state.entry`file
    ensures state.Valid() && state.receivedHeader == old(state.receivedHeader)
    ensures panicked <==> old(state.headerSuccess) == None && chunks != []
    ensures old(state.headerSuccess) == None ==> state.Value() == old(state.Value())
    ensures old(state.headerSuccess).Some? ==>
      |flushes| == |chunks| && state.Value() == OnBodies(old(state.Value()), chunks, flushes)
  {
    panicked, flushes := false, [];
    ghost var begun := state.Value();
    for i := 0 to |chunks|
      invariant state.Valid() && state.receivedHeader == old(state.receivedHeader) && |flushes| == i
      invariant begun.header == None ==> i == 0 && state.Value() == begun
      invariant begun.header.Some? ==> state.Value() == OnBodies(begun, chunks[..i], flushes)
    {
      if state.headerSuccess == None {
        return true, flushes;
      }
      var flushed := state.Write(chunks[i]);
      assert chunks[..i + 1][..i] == chunks[..i] && (flushes + [flushed])[..i] == flushes;
      flushes := flushes + [flushed];
    }
    assert chunks[..|chunks|] == chunks;
  }

  /** All callbacks of one transfer. */
  method Perform(state: DownloadState, parse: HeaderParser, reply: Reply)
    returns (panicked: bool, goOn: bool, ghost body: Transfer)
    requires state.Valid() && state.receivedHeader == []
    modifies state, state.entry
    ensures state.Valid()
    ensures
      var header := AfterHeaders(old(state.Value()), state.cacheable, state.lastChance, parse, reply);
      && BodyDelivered(header, reply, body) && panicked == PanicsOnBody(header, reply)
      && (panicked ==> state.Value() == body)
      && (!panicked ==> (state.Value(), goOn) == AfterTrailers(body, header.1, state.cacheable, state.lastChance, parse, reply))
  {
    panicked := false;
    goOn := DeliverHeaders(state, parse, reply.header);
    body := state.Value();
    if goOn {
      ghost var flushes;
      panicked, flushes := DeliverBody(state, reply.chunks);
      body := state.Value();
      if !panicked {
        goOn := DeliverHeaders(state, parse, reply.trailers);
      }
    }
  }

  /** Runs the transfer and classifies its end, for whatever the mirror replies. */
  method ServeFromProvider(channel: DownloadChannel, parse: HeaderParser, mirror: Mirror) returns (outcome: Outcome)
    requires channel.state.Valid() && channel.rangeStart == None
    requires channel.state.receivedHeader == []
    modifies channel, channel.state, channel.state.entry
    ensures channel.state == old(channel.state) && channel.state.Valid()
    ensures channel.rangeStart == ProgressOf(old(channel.state.sizeWritten))
    ensures Served(old(channel.state.Value()), channel.state.cacheable, channel.state.lastChance, parse,
                   mirror(channel.rangeStart), channel.state.Value(), outcome)
  {
    var state := channel.state;
    var start := state.ProgressIndicator();
    if start.Some? {
      channel.rangeStart := start;
    }
    ghost var t := state.Value();
    var reply := mirror(channel.rangeStart);
    var panicked, goOn;
    ghost var body;
    panicked, goOn, body := Perform(state, parse, reply);
    outcome :=
      if panicked then Panicked else Classify(goOn && reply.ok, reply.responseCode, state.ProgressIndicator());
    ServedInStages(t, state.cacheable, state.lastChance, parse, reply, body, state.Value(), outcome);
  }

  // ---- Exactly when it goes wrong ----

  /** A mirror may ignore the range and announce the whole content with status 200. Then, the size that is recorded
      and announced to the client is right exactly when the download did not resume. */
  lemma SizeIsRightExactlyWhen(t: Transfer, size: nat, lastChance: bool, code: nat)
    requires size < U64_LIMIT && t.sizeWritten <= size && (code == 200 || code == 206)
    ensures
      var announced := if code == 206 then size - t.sizeWritten else size;
      var t' := OnHeader(t, true, lastChance, Parsed(code, Some(announced))).0;
      && t'.cfs.Some? && |t'.sent| == |t.sent| + 1
      && (Parse(t'.cfs.value) == Some(size) <==> code == 206 || t.sizeWritten == 0)
      && (t'.sent[|t.sent|] == JobSize(size) <==> code == 206 || t.sizeWritten == 0)
  {
    var announced := if code == 206 then size - t.sizeWritten else size;
    SumIsRightExactlyWhen(t.sizeWritten, size);
    SizeIsSum(t, lastChance, code, announced);
    PrintThenParse(AddSizes(t.sizeWritten, announced));
  }

  lemma SizeIsSum(t: Transfer, lastChance: bool, code: nat, length: nat)
    requires code == 200 || code == 206
    ensures OnHeader(t, true, lastChance, Parsed(code, Some(length))).0.cfs == Some(Print(AddSizes(t.sizeWritten, length)))
    ensures OnHeader(t, true, lastChance, Parsed(code, Some(length))).0.sent
         == t.sent + [JobSize(AddSizes(t.sizeWritten, length))]
  {
  }

  lemma SumIsRightExactlyWhen(sizeWritten: nat, size: nat)
    requires size < U64_LIMIT && sizeWritten <= size
    ensures AddSizes(sizeWritten, size - sizeWritten) == size
    ensures AddSizes(sizeWritten, size) == size <==> sizeWritten == 0
  {
  }

  /** For every download that resumes there is a size that is recorded and announced wrongly. */
  lemma SizeCanBeWrong(t: Transfer, size: nat, lastChance: bool)
    requires 0 < t.sizeWritten <= size < U64_LIMIT
    ensures OnHeader(t, true, lastChance, Parsed(200, Some(size))).0.cfs != Some(Print(size))
    ensures JobSize(size) !in MessagesOn(Parsed(200, Some(size)), lastChance, t.sizeWritten)
  {
    SizeIsRightExactlyWhen(t, size, lastChance, 200);
    PrintThenParse(size);
  }
}
