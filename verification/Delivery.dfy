/** One package from the mirrors to any number of clients: the worker appends to the package file and records its
    complete size, while clients come and go, wait for the size, poll the file, and are sent what is there. */
module Delivery {
  import opened Wrappers
  import opened CompleteFileSize
  import opened ReplyHeaders
  import opened CacheState
  import opened Download
  import GrowingFile

  /** The worker of the order, and the number of the client that has scheduled it. While the side file is being
      written, written is what has arrived of it, and t the transfer as it is afterwards. */
  datatype Worker =
    | Absent(disk: Disk)
    | Between(disk: Disk, client: nat)
    | Transferring(t: Transfer, client: nat)
    | Recording(t: Transfer, written: string, client: nat)

  datatype Pc =
    | AwaitingSize
    | AwaitingCfs
    | Growing(length: nat)
    | Sending(filesize: nat, length: nat, whole: bool)
    | Redirected
    | Finished(ok: bool)

  /** A client: the first message from the worker that it has scheduled, the header sent to it, and the payload so far. */
  datatype Client = Client(
    resumeFrom: Option<nat>,
    first: Option<FlexoProgress>,
    pc: Pc,
    announced: Option<GrowingFile.ReplyHeader>,
    out: seq<bv8>)

  /** leaving holds the buffers of writers whose order is over, but which are not released yet. */
  datatype State = State(worker: Worker, leaving: seq<seq<bv8>>, clients: seq<Client>)

  datatype Action =
    | Arrive(resumeFrom: Option<nat>)
    | StartAttempt
    | FailToStart
    | Header(status: ParseStatus, lastChance: bool)
    | RecordMore(count: nat)
    | RecordDone
    | Body(data: seq<bv8>, flushed: nat)
    | Retry
    | Remove
    | Release(k: nat)
    | Learn(i: nat)
    | ReadCfs(i: nat)
    | Poll(i: nat)
    | Send(i: nat, count: nat)
    | Exit(i: nat)
    | GiveUp(i: nat)
    | Stop

  /** What is on disk at this moment; the buffer of the writer is not. */
  function DiskOf(w: Worker): Disk {
    match w
    case Absent(disk) => disk
    case Between(disk, _) => disk
    case Transferring(t, _) => Disk(Some(t.file), t.cfs)
    case Recording(t, written, _) => Disk(Some(t.file), Some(written))
  }

  function OnDisk(s: State): seq<bv8> {
    Bytes(DiskOf(s.worker))
  }

  function Offset(c: Client): nat {
    GrowingFile.Offset(c.resumeFrom)
  }

  function Received(c: Client): nat {
    Offset(c) + |c.out|
  }

  // ---- The worker ----

  /** The scheduling client keeps the first message only. */
  function Notify(clients: seq<Client>, i: nat, message: FlexoProgress): seq<Client>
    requires i < |clients|
  {
    if clients[i].first == None then clients[i := clients[i].(first := Some(message))] else clients
  }

  ghost predicate CanStartAttempt(s: State) {
    s.worker.Between?
  }

  ghost function AfterStartAttempt(s: State): State
    requires CanStartAttempt(s)
  {
    var disk := s.worker.disk;
    s.(worker := Transferring(Opened(disk), s.worker.client))
  }

  /** The package file cannot be opened: the order ends. */
  ghost predicate CanFailToStart(s: State) {
    s.worker.Between? && s.worker.client < |s.clients|
  }

  ghost function AfterFailToStart(s: State): State
    requires CanFailToStart(s)
  {
    s.(worker := Absent(s.worker.disk), clients := Notify(s.clients, s.worker.client, OrderError))
  }

  predicate HasSize(status: ParseStatus) {
    IsPayload(status) && status.contentLength.Some?
  }

  /** A header from a mirror that has the content and honours the range. */
  ghost predicate CanHeader(content: seq<bv8>, s: State, status: ParseStatus) {
    && s.worker.Transferring? && s.worker.t.header == None && s.worker.client < |s.clients|
    && s.worker.t.sizeWritten <= |content|
    && RightStatus(status, |content| - s.worker.t.sizeWritten)
  }

  /** A header that announces a size truncates the side file before anything else happens. */
  ghost function AfterHeader(content: seq<bv8>, s: State, status: ParseStatus, lastChance: bool): State
    requires CanHeader(content, s, status)
  {
    var t, i := s.worker.t, s.worker.client;
    var t' := OnHeader(t, true, lastChance, status).0;
    if HasSize(status) then s.(worker := Recording(t', "", i))
    else if |t'.sent| > |t.sent| then
      s.(worker := Transferring(t', i), clients := Notify(s.clients, i, t'.sent[|t.sent|]))
    else s.(worker := Transferring(t', i))
  }

  ghost predicate CanRecordMore(s: State, count: nat) {
    s.worker.Recording? && s.worker.t.cfs.Some? && |s.worker.written| + count <= |s.worker.t.cfs.value|
  }

  ghost function AfterRecordMore(s: State, count: nat): State
    requires CanRecordMore(s, count)
  {
    var w := s.worker;
    s.(worker := w.(written := w.t.cfs.value[..|w.written| + count]))
  }

  /** The size is sent to the client once it has been recorded. */
  ghost predicate CanRecordDone(s: State) {
    s.worker.Recording? && s.worker.t.cfs == Some(s.worker.written) && s.worker.t.sent != [] && s.worker.client < |s.clients|
  }

  ghost function AfterRecordDone(s: State): State
    requires CanRecordDone(s)
  {
    var t, i := s.worker.t, s.worker.client;
    s.(worker := Transferring(t, i), clients := Notify(s.clients, i, t.sent[|t.sent| - 1]))
  }

  ghost predicate CanBody(content: seq<bv8>, s: State, data: seq<bv8>, flushed: nat) {
    && s.worker.Transferring? && s.worker.client < |s.clients|
    && var t := s.worker.t;
       && t.header.Some? && flushed <= |t.buffer| + |data|
       && (IsReady(t.header) ==> t.file + t.buffer + data <= content)
  }

  ghost function AfterBody(content: seq<bv8>, s: State, data: seq<bv8>, flushed: nat): State
    requires CanBody(content, s, data, flushed)
  {
    var t, i := s.worker.t, s.worker.client;
    var t' := OnBody(t, data, flushed);
    s.(worker := Transferring(t', i),
       clients := if |t'.sent| > |t.sent| then Notify(s.clients, i, t'.sent[|t.sent|]) else s.clients)
  }

  ghost predicate CanEndAttempt(s: State) {
    s.worker.Transferring?
  }

  /** Before another attempt, the writer is dropped, which flushes its buffer. */
  ghost function AfterRetry(s: State): State
    requires CanEndAttempt(s)
  {
    var t := s.worker.t;
    s.(worker := Between(Released(t), s.worker.client))
  }

  /** The order is over and no longer in progress, but its writer has not been dropped yet. */
  ghost function AfterRemove(s: State): State
    requires CanEndAttempt(s)
  {
    var t := s.worker.t;
    s.(worker := Absent(Disk(Some(t.file), t.cfs)), leaving := s.leaving + [t.buffer])
  }

  ghost predicate CanRelease(s: State, k: nat) {
    k < |s.leaving|
  }

  function Extended(disk: Disk, data: seq<bv8>): Disk {
    if data == [] then disk else disk.(file := Some(Bytes(disk) + data))
  }

  /** All writers append to the same file. */
  function Appended(w: Worker, data: seq<bv8>): Worker {
    match w
    case Absent(disk) => Absent(Extended(disk, data))
    case Between(disk, i) => Between(Extended(disk, data), i)
    case Transferring(t, i) => Transferring(t.(file := t.file + data), i)
    case Recording(t, written, i) => Recording(t.(file := t.file + data), written, i)
  }

  /** A writer whose order is over is dropped, and flushes its buffer. */
  ghost function AfterRelease(s: State, k: nat): State
    requires CanRelease(s, k)
  {
    s.(worker := Appended(s.worker, s.leaving[k]), leaving := s.leaving[k := []])
  }

  // ---- The clients ----

  /** The reply while the package is growing. */
  function ServeGrowing(c: Client, size: nat): Client {
    var length := RemainingContentLength(size, c.resumeFrom);
    c.(pc := Growing(length), announced := Some(GrowingFile.Header(length, c.resumeFrom)))
  }

  /** The reply from a complete file; the 64-bit subtraction wraps around if the client resumes past the end. */
  function ServeWhole(c: Client, filesize: nat): Client {
    var length := (filesize - Offset(c)) % U64_LIMIT;
    c.(pc := if Offset(c) < filesize then Sending(filesize, length, true) else Finished(true),
       announced := Some(GrowingFile.Header(length, c.resumeFrom)))
  }

  ghost function AfterArrive(s: State, resumeFrom: Option<nat>): State {
    var c := Client(resumeFrom, None, AwaitingSize, None, []);
    var n := |s.clients|;
    if !s.worker.Absent? then s.(clients := s.clients + [c.(pc := AwaitingCfs)])
    else
      var (state, disk) := Persisted(s.worker.disk);
      match Decide(false, state, Offset(c))
      case ByRedirect => s.(worker := Absent(disk), clients := s.clients + [c.(pc := Redirected)])
      case FromCache => s.(worker := Absent(disk), clients := s.clients + [ServeWhole(c, |Bytes(disk)|)])
      case _ => s.(worker := Between(disk, n), clients := s.clients + [c])
  }

  ghost predicate At(s: State, i: nat) {
    i < |s.clients|
  }

  ghost function Put(s: State, i: nat, c: Client): State
    requires At(s, i)
  {
    s.(clients := s.clients[i := c])
  }

  /** The first message decides; progress as the first message would be a panic, which ends the client. */
  ghost predicate CanLearn(s: State, i: nat) {
    At(s, i) && s.clients[i].pc.AwaitingSize? && s.clients[i].first.Some?
  }

  ghost function AfterLearn(s: State, i: nat): State
    requires CanLearn(s, i)
  {
    var c := s.clients[i];
    match c.first.value
    case JobSize(size) => Put(s, i, ServeGrowing(c, size))
    case Completed => Put(s, i, ServeWhole(c, |OnDisk(s)|))
    case _ => Put(s, i, c.(pc := Finished(false)))
  }

  /** A client of an order that is in progress reads the side file until it can make sense of it. */
  ghost predicate CanReadCfs(s: State, i: nat) {
    At(s, i) && s.clients[i].pc.AwaitingCfs?
  }

  ghost function AfterReadCfs(s: State, i: nat): State
    requires CanReadCfs(s, i)
  {
    match RecordedSize(DiskOf(s.worker))
    case None => s
    case Some(size) => Put(s, i, ServeGrowing(s.clients[i], size))
  }

  ghost predicate CanPoll(s: State, i: nat) {
    At(s, i) && s.clients[i].pc.Growing? && |s.clients[i].out| < s.clients[i].pc.length
  }

  ghost function AfterPoll(s: State, i: nat): State
    requires CanPoll(s, i)
  {
    var c, filesize := s.clients[i], |OnDisk(s)|;
    if filesize > Received(c) then Put(s, i, c.(pc := Sending(filesize, c.pc.length, false))) else s
  }

  /** One sendfile() call. */
  ghost predicate CanSend(s: State, i: nat, count: nat) {
    && At(s, i) && s.clients[i].pc.Sending?
    && 1 <= count && Received(s.clients[i]) + count <= Min(s.clients[i].pc.filesize, |OnDisk(s)|)
  }

  ghost function AfterSend(s: State, i: nat, count: nat): State
    requires CanSend(s, i, count)
  {
    var c := s.clients[i];
    var sent := Received(c) + count;
    Put(s, i, c.(
      out := c.out + OnDisk(s)[Received(c)..sent],
      pc := if sent < c.pc.filesize then c.pc else if c.pc.whole then Finished(true) else Growing(c.pc.length)))
  }

  ghost predicate CanExit(s: State, i: nat) {
    At(s, i) && s.clients[i].pc.Growing? && |s.clients[i].out| >= s.clients[i].pc.length
  }

  ghost function AfterExit(s: State, i: nat): State
    requires CanExit(s, i)
  {
    Put(s, i, s.clients[i].(pc := Finished(true)))
  }

  /** Timeouts, stalls, closed channels and I/O errors. */
  ghost predicate CanGiveUp(s: State, i: nat) {
    At(s, i) && !s.clients[i].pc.Finished?
  }

  ghost function AfterGiveUp(s: State, i: nat): State
    requires CanGiveUp(s, i)
  {
    Put(s, i, s.clients[i].(pc := Finished(false)))
  }

  // ---- Stopping and starting again ----

  /** The size of an incomplete package is being written again. */
  predicate Torn(content: seq<bv8>, w: Worker) {
    w.Recording? && w.written != Print(|content|) && 0 < |w.t.file| < |content|
  }

  /** The program stops and is started again: all buffers and connections are lost. */
  ghost function AfterStop(s: State): State {
    State(Absent(DiskOf(s.worker)), [], [])
  }

  predicate NothingPending(s: State) {
    forall k :: 0 <= k < |s.leaving| ==> s.leaving[k] == []
  }

  /** The two steps with which something may go wrong: opening the package file while bytes are pending that belong
      into it, and a stop while a side file is torn. */
  ghost predicate Careful(content: seq<bv8>, s: State, a: Action) {
    && (a.StartAttempt? ==> NothingPending(s))
    && (a.Stop? ==> !Torn(content, s.worker))
  }

  ghost predicate Enabled(content: seq<bv8>, s: State, a: Action) {
    match a
    case Arrive(resumeFrom) => true
    case StartAttempt => CanStartAttempt(s)
    case FailToStart => CanFailToStart(s)
    case Header(status, _) => CanHeader(content, s, status)
    case RecordMore(count) => CanRecordMore(s, count)
    case RecordDone => CanRecordDone(s)
    case Body(data, flushed) => CanBody(content, s, data, flushed)
    case Retry => CanEndAttempt(s)
    case Remove => CanEndAttempt(s)
    case Release(k) => CanRelease(s, k)
    case Learn(i) => CanLearn(s, i)
    case ReadCfs(i) => CanReadCfs(s, i)
    case Poll(i) => CanPoll(s, i)
    case Send(i, count) => CanSend(s, i, count)
    case Exit(i) => CanExit(s, i)
    case GiveUp(i) => CanGiveUp(s, i)
    case Stop => true
  }

  ghost function Step(content: seq<bv8>, s: State, a: Action): State
    requires Enabled(content, s, a)
  {
    match a
    case Arrive(resumeFrom) => AfterArrive(s, resumeFrom)
    case StartAttempt => AfterStartAttempt(s)
    case FailToStart => AfterFailToStart(s)
    case Header(status, lastChance) => AfterHeader(content, s, status, lastChance)
    case RecordMore(count) => AfterRecordMore(s, count)
    case RecordDone => AfterRecordDone(s)
    case Body(data, flushed) => AfterBody(content, s, data, flushed)
    case Retry => AfterRetry(s)
    case Remove => AfterRemove(s)
    case Release(k) => AfterRelease(s, k)
    case Learn(i) => AfterLearn(s, i)
    case ReadCfs(i) => AfterReadCfs(s, i)
    case Poll(i) => AfterPoll(s, i)
    case Send(i, count) => AfterSend(s, i, count)
    case Exit(i) => AfterExit(s, i)
    case GiveUp(i) => AfterGiveUp(s, i)
    case Stop => AfterStop(s)
  }

  // ---- What every step keeps ----

  predicate Package(content: seq<bv8>) {
    0 < |content| < U64_LIMIT
  }

  /** The side file, if it can be read at all, holds the true size. */
  predicate CfsRight(content: seq<bv8>, cfs: Option<string>) {
    cfs == None || Parse(cfs.value) == None || cfs.value == Print(|content|)
  }

  /** A disk on which no worker is busy: an incomplete package has its true size recorded. */
  predicate DiskRight(content: seq<bv8>, disk: Disk) {
    && Bytes(disk) <= content
    && CfsRight(content, disk.cfs)
    && (Bytes(disk) != [] ==> disk.cfs == Some(Print(|content|)) || Bytes(disk) == content)
  }

  ghost predicate TransferOk(content: seq<bv8>, t: Transfer) {
    && Faithful(t, content, true) && RightSizes(t.sent, |content|)
    && CfsRight(content, t.cfs)
    && (t.header == None ==> t.buffer == [])
  }

  ghost predicate WorkerOk(content: seq<bv8>, w: Worker) {
    match w
    case Absent(disk) => DiskRight(content, disk)
    case Between(disk, _) => DiskRight(content, disk) && (Bytes(disk) != [] ==> disk.cfs == Some(Print(|content|)))
    case Transferring(t, _) => TransferOk(content, t)
    case Recording(t, written, _) =>
      && TransferOk(content, t) && IsReady(t.header) && written <= Print(|content|)
      && t.sent != [] && t.sent[|t.sent| - 1] == JobSize(|content|)
  }

  /** The scheduling client exists, and it hears of the size before any progress is reported to it. */
  ghost predicate LinkOk(s: State) {
    && (!s.worker.Absent? ==> s.worker.client < |s.clients|)
    && (s.worker.Transferring? && IsReady(s.worker.t.header) ==> s.clients[s.worker.client].first.Some?)
  }

  /** Progress is never the first message, the size is right, and "completed" means what it says. */
  ghost predicate FirstOk(content: seq<bv8>, have: seq<bv8>, c: Client) {
    && (c.first.Some? ==> !c.first.value.Progress?)
    && (c.first.Some? && c.first.value.JobSize? ==> c.first.value.size == |content|)
    && (c.first == Some(Completed) ==> have == content)
  }

  /** The header announced what is left of the content. */
  ghost predicate AnnouncedOk(content: seq<bv8>, c: Client, length: nat) {
    && length == RemainingContentLength(|content|, c.resumeFrom)
    && c.announced == Some(GrowingFile.Header(length, c.resumeFrom))
    && |c.out| <= length
  }

  ghost predicate PcOk(content: seq<bv8>, have: seq<bv8>, c: Client) {
    match c.pc
    case AwaitingSize => Offset(c) <= |have| && c.out == [] && c.announced == None
    case AwaitingCfs => c.out == [] && c.announced == None
    case Growing(length) => AnnouncedOk(content, c, length)
    case Sending(filesize, length, whole) =>
      AnnouncedOk(content, c, length) && Received(c) < filesize <= |have| && (whole ==> filesize == |content|)
    case Redirected => c.out == []
    case Finished(ok) => ok ==> AnnouncedOk(content, c, |c.out|)
  }

  /** With the bytes that are on disk, the client is where it should be. */
  ghost predicate ClientOk(content: seq<bv8>, have: seq<bv8>, c: Client) {
    && FirstOk(content, have, c)
    && (c.out != [] ==> Received(c) <= |have|)
    && (Received(c) <= |content| ==> c.out == content[Offset(c)..Received(c)])
    && PcOk(content, have, c)
  }

  ghost predicate ClientsOk(content: seq<bv8>, have: seq<bv8>, clients: seq<Client>) {
    forall i :: 0 <= i < |clients| ==> ClientOk(content, have, clients[i])
  }

  /** At most one writer has something pending. It continues the file, of which the size is recorded, and nobody else
      is writing. */
  ghost predicate PendingOk(content: seq<bv8>, s: State) {
    && (forall k :: 0 <= k < |s.leaving| && s.leaving[k] != [] ==>
          && OnDisk(s) + s.leaving[k] <= content
          && (s.worker.Absent? || s.worker.Between?) && s.worker.disk.cfs == Some(Print(|content|)))
    && (forall k, l :: 0 <= k < l < |s.leaving| ==> s.leaving[k] == [] || s.leaving[l] == [])
  }

  ghost predicate Invariant(content: seq<bv8>, s: State) {
    WorkerOk(content, s.worker) && LinkOk(s) && ClientsOk(content, OnDisk(s), s.clients) && PendingOk(content, s)
  }

  lemma HaveIsPrefix(content: seq<bv8>, w: Worker)
    requires WorkerOk(content, w)
    ensures Bytes(DiskOf(w)) <= content
  {
  }

  /** Clients do not mind when the file grows. */
  lemma GrowthKeepsClients(content: seq<bv8>, have: seq<bv8>, more: seq<bv8>, clients: seq<Client>)
    requires ClientsOk(content, have, clients) && have <= more <= content
    ensures ClientsOk(content, more, clients)
  {
    forall i | 0 <= i < |clients|
      ensures ClientOk(content, more, clients[i])
    {
      assert ClientOk(content, have, clients[i]);
    }
  }

  lemma NotifyKeepsClients(content: seq<bv8>, have: seq<bv8>, clients: seq<Client>, i: nat, message: FlexoProgress)
    requires ClientsOk(content, have, clients) && i < |clients|
    requires message.Progress? ==> clients[i].first.Some?
    requires message.JobSize? ==> message.size == |content|
    requires message.Completed? ==> have == content
    ensures ClientsOk(content, have, Notify(clients, i, message))
  {
    assert ClientOk(content, have, clients[i]);
  }

  // ---- Steps of the worker ----

  lemma StartAttemptKeeps(content: seq<bv8>, s: State)
    requires Invariant(content, s) && CanStartAttempt(s) && NothingPending(s)
    ensures Invariant(content, AfterStartAttempt(s))
  {
    assert Bytes(s.worker.disk) + [] == Bytes(s.worker.disk);
  }

  lemma FailToStartKeeps(content: seq<bv8>, s: State)
    requires Invariant(content, s) && CanFailToStart(s)
    ensures Invariant(content, AfterFailToStart(s))
  {
    NotifyKeepsClients(content, OnDisk(s), s.clients, s.worker.client, OrderError);
  }

  lemma HeaderKeepsTransfer(content: seq<bv8>, t: Transfer, lastChance: bool, status: ParseStatus)
    requires Package(content) && TransferOk(content, t) && t.header == None
    requires t.sizeWritten <= |content| && RightStatus(status, |content| - t.sizeWritten)
    ensures var t' := OnHeader(t, true, lastChance, status).0;
            && TransferOk(content, t') && t'.file == t.file && t.sent <= t'.sent
            && (HasSize(status) ==> IsReady(t'.header) && t'.sent == t.sent + [JobSize(|content|)])
            && (!HasSize(status) ==> t'.cfs == t.cfs && !IsReady(t'.header))
            && (!HasSize(status) && |t'.sent| > |t.sent| ==>
                  t'.sent[|t.sent|] == FlexoProgress.Unavailable || (t'.sent[|t.sent|] == Completed && t.file == content))
  {
    HeaderKeepsFaithful(t, content, true, lastChance, status);
    assert t.file + [] == t.file;
  }

  lemma HeaderKeeps(content: seq<bv8>, s: State, status: ParseStatus, lastChance: bool)
    requires Package(content) && Invariant(content, s) && CanHeader(content, s, status)
    ensures Invariant(content, AfterHeader(content, s, status, lastChance))
  {
    var t, i := s.worker.t, s.worker.client;
    HeaderKeepsTransfer(content, t, lastChance, status);
    var t' := OnHeader(t, true, lastChance, status).0;
    if !HasSize(status) && |t'.sent| > |t.sent| {
      NotifyKeepsClients(content, t.file, s.clients, i, t'.sent[|t.sent|]);
    }
  }

  lemma RecordMoreKeeps(content: seq<bv8>, s: State, count: nat)
    requires Invariant(content, s) && CanRecordMore(s, count)
    ensures Invariant(content, AfterRecordMore(s, count))
  {
  }

  lemma RecordDoneKeeps(content: seq<bv8>, s: State)
    requires Invariant(content, s) && CanRecordDone(s)
    ensures Invariant(content, AfterRecordDone(s))
  {
    NotifyKeepsClients(content, OnDisk(s), s.clients, s.worker.client, JobSize(|content|));
  }

  lemma BodyKeepsTransfer(content: seq<bv8>, t: Transfer, data: seq<bv8>, flushed: nat)
    requires TransferOk(content, t) && t.header.Some? && flushed <= |t.buffer| + |data|
    requires IsReady(t.header) ==> t.file + t.buffer + data <= content
    ensures var t' := OnBody(t, data, flushed);
            && TransferOk(content, t') && t'.header == t.header
            && t.file <= t'.file <= content
            && (|t'.sent| > |t.sent| ==> IsReady(t.header) && t'.sent[|t.sent|].Progress?)
  {
    BodyKeepsFaithful(t, content, true, data, flushed);
  }

  lemma BodyKeeps(content: seq<bv8>, s: State, data: seq<bv8>, flushed: nat)
    requires Invariant(content, s) && CanBody(content, s, data, flushed)
    ensures Invariant(content, AfterBody(content, s, data, flushed))
  {
    var t, i := s.worker.t, s.worker.client;
    var t' := OnBody(t, data, flushed);
    BodyKeepsTransfer(content, t, data, flushed);
    GrowthKeepsClients(content, t.file, t'.file, s.clients);
    if |t'.sent| > |t.sent| {
      NotifyKeepsClients(content, t'.file, s.clients, i, t'.sent[|t.sent|]);
    }
  }

  lemma RetryKeeps(content: seq<bv8>, s: State)
    requires Invariant(content, s) && CanEndAttempt(s)
    ensures Invariant(content, AfterRetry(s))
  {
    var t := s.worker.t;
    GrowthKeepsClients(content, t.file, t.file + t.buffer, s.clients);
  }

  lemma RemoveKeeps(content: seq<bv8>, s: State)
    requires Invariant(content, s) && CanEndAttempt(s)
    ensures Invariant(content, AfterRemove(s))
  {
  }

  lemma ReleaseKeeps(content: seq<bv8>, s: State, k: nat)
    requires Invariant(content, s) && CanRelease(s, k)
    ensures Invariant(content, AfterRelease(s, k))
  {
    var data, s' := s.leaving[k], AfterRelease(s, k);
    if data == [] {
      assert OnDisk(s) + [] == OnDisk(s);
      assert s'.leaving == s.leaving;
    } else {
      assert NothingPending(s');
      GrowthKeepsClients(content, OnDisk(s), OnDisk(s) + data, s.clients);
    }
  }

  // ---- Steps of the clients ----

  /** A step of one client leaves the others, and the worker, alone. */
  lemma PutKeeps(content: seq<bv8>, s: State, i: nat, c: Client)
    requires Invariant(content, s) && At(s, i) && ClientOk(content, OnDisk(s), c) && c.first == s.clients[i].first
    ensures Invariant(content, Put(s, i, c))
  {
  }

  lemma ServeGrowingIsOk(content: seq<bv8>, have: seq<bv8>, c: Client, size: nat)
    requires ClientOk(content, have, c) && c.out == [] && size == |content|
    ensures ClientOk(content, have, ServeGrowing(c, size))
  {
  }

  lemma ServeWholeIsOk(content: seq<bv8>, have: seq<bv8>, c: Client)
    requires Package(content) && ClientOk(content, have, c) && c.out == [] && have == content && Offset(c) <= |content|
    ensures ClientOk(content, have, ServeWhole(c, |have|))
  {
    assert (|have| - Offset(c)) % U64_LIMIT == |have| - Offset(c);
  }

  lemma LearnKeeps(content: seq<bv8>, s: State, i: nat)
    requires Package(content) && Invariant(content, s) && CanLearn(s, i)
    ensures Invariant(content, AfterLearn(s, i))
  {
    var c := s.clients[i];
    assert ClientOk(content, OnDisk(s), c);
    match c.first.value {
      case JobSize(size) =>
        ServeGrowingIsOk(content, OnDisk(s), c, size);
        PutKeeps(content, s, i, ServeGrowing(c, size));
      case Completed =>
        ServeWholeIsOk(content, OnDisk(s), c);
        PutKeeps(content, s, i, ServeWhole(c, |OnDisk(s)|));
      case _ => PutKeeps(content, s, i, c.(pc := Finished(false)));
    }
  }

  /** Whoever reads the side file, while it is written or not, sees nothing or the true size. */
  lemma RacersSeeTheTruth(content: seq<bv8>, w: Worker)
    requires Package(content) && WorkerOk(content, w)
    ensures RecordedSize(DiskOf(w)) == None || RecordedSize(DiskOf(w)) == Some(|content|)
  {
    PrintThenParse(|content|);
    if w.Recording? && w.written != Print(|content|) {
      ProperPrefixIsUnreadable(|content|, w.written);
    }
  }

  lemma ReadCfsKeeps(content: seq<bv8>, s: State, i: nat)
    requires Package(content) && Invariant(content, s) && CanReadCfs(s, i)
    ensures Invariant(content, AfterReadCfs(s, i))
  {
    RacersSeeTheTruth(content, s.worker);
    var c := s.clients[i];
    assert ClientOk(content, OnDisk(s), c);
    if RecordedSize(DiskOf(s.worker)).Some? {
      ServeGrowingIsOk(content, OnDisk(s), c, |content|);
      PutKeeps(content, s, i, ServeGrowing(c, |content|));
    }
  }

  lemma PollKeeps(content: seq<bv8>, s: State, i: nat)
    requires Invariant(content, s) && CanPoll(s, i)
    ensures Invariant(content, AfterPoll(s, i))
  {
    var c := s.clients[i];
    assert ClientOk(content, OnDisk(s), c);
    if |OnDisk(s)| > Received(c) {
      PutKeeps(content, s, i, c.(pc := Sending(|OnDisk(s)|, c.pc.length, false)));
    }
  }

  lemma SentIsOk(content: seq<bv8>, have: seq<bv8>, c: Client, c': Client, count: nat)
    requires ClientOk(content, have, c) && have <= content && c.pc.Sending?
    requires 1 <= count && Received(c) + count <= c.pc.filesize
    requires c' == c.(out := c.out + have[Received(c)..Received(c) + count], pc := c'.pc)
    requires c'.pc == if Received(c) + count < c.pc.filesize then c.pc
                      else if c.pc.whole then Finished(true) else Growing(c.pc.length)
    ensures ClientOk(content, have, c')
  {
    assert c'.out == content[Offset(c)..Received(c')];
  }

  lemma SendKeeps(content: seq<bv8>, s: State, i: nat, count: nat)
    requires Invariant(content, s) && CanSend(s, i, count)
    ensures Invariant(content, AfterSend(s, i, count))
  {
    var c, c' := s.clients[i], AfterSend(s, i, count).clients[i];
    assert ClientOk(content, OnDisk(s), c);
    HaveIsPrefix(content, s.worker);
    SentIsOk(content, OnDisk(s), c, c', count);
    PutKeeps(content, s, i, c');
  }

  lemma ExitKeeps(content: seq<bv8>, s: State, i: nat)
    requires Invariant(content, s) && CanExit(s, i)
    ensures Invariant(content, AfterExit(s, i))
  {
    assert ClientOk(content, OnDisk(s), s.clients[i]);
    PutKeeps(content, s, i, s.clients[i].(pc := Finished(true)));
  }

  lemma GiveUpKeeps(content: seq<bv8>, s: State, i: nat)
    requires Invariant(content, s) && CanGiveUp(s, i)
    ensures Invariant(content, AfterGiveUp(s, i))
  {
    assert ClientOk(content, OnDisk(s), s.clients[i]);
    PutKeeps(content, s, i, s.clients[i].(pc := Finished(false)));
  }

  /** A request that finds nobody at work: the cache state is right, and so is what is decided on it. */
  lemma PersistedIsRight(content: seq<bv8>, disk: Disk)
    requires Package(content) && DiskRight(content, disk)
    ensures var (state, disk') := Persisted(disk);
            && DiskRight(content, disk') && Bytes(disk') == Bytes(disk)
            && (Bytes(disk) != [] ==> disk'.cfs == Some(Print(|content|)) || RecordedSize(disk) == Some(|content|))
    ensures TellsTheTruth(disk, content)
  {
    PrintThenParse(|content|);
    PersistedIsStable(disk);
  }

  lemma ArriveKeeps(content: seq<bv8>, s: State, resumeFrom: Option<nat>)
    requires Package(content) && Invariant(content, s)
    ensures Invariant(content, AfterArrive(s, resumeFrom))
  {
    var s' := AfterArrive(s, resumeFrom);
    var c' := s'.clients[|s.clients|];
    if s.worker.Absent? {
      PersistedIsRight(content, s.worker.disk);
      NewClientIsOk(content, s.worker.disk, resumeFrom);
    }
    assert ClientOk(content, OnDisk(s), c');
    ClientAdded(content, s, s', c');
  }

  lemma ClientAdded(content: seq<bv8>, s: State, s': State, c: Client)
    requires LinkOk(s) && ClientsOk(content, OnDisk(s), s.clients) && ClientOk(content, OnDisk(s), c)
    requires s'.clients == s.clients + [c] && OnDisk(s') == OnDisk(s)
    requires s'.worker == s.worker || s'.worker.Absent? || (s'.worker.Between? && s'.worker.client == |s.clients|)
    ensures LinkOk(s') && ClientsOk(content, OnDisk(s'), s'.clients)
  {
  }

  /** A new client of an idle order is served from cache only if the package is there completely, and waits for
      a worker only if it does not resume past what is there. */
  lemma NewClientIsOk(content: seq<bv8>, disk: Disk, resumeFrom: Option<nat>)
    requires Package(content) && DiskRight(content, disk)
    ensures
      var c := Client(resumeFrom, None, AwaitingSize, None, []);
      var (state, disk') := Persisted(disk);
      var decision := Decide(false, state, Offset(c));
      && (decision == FromCache ==> ClientOk(content, Bytes(disk), ServeWhole(c, |Bytes(disk)|)))
      && (decision == FromProvider ==> ClientOk(content, Bytes(disk), c))
      && ClientOk(content, Bytes(disk), c.(pc := Redirected))
  {
    var c := Client(resumeFrom, None, AwaitingSize, None, []);
    PersistedIsRight(content, disk);
    DecisionIsRight(disk, content, false, Offset(c));
    if Decide(false, Persisted(disk).0, Offset(c)) == FromCache {
      ServeWholeIsOk(content, Bytes(disk), c);
    }
  }

  /** What becomes of a new client: while a worker is at the package, it waits for the side file. Otherwise it is redirected
      exactly if it resumes past what is there, served from cache exactly if the package is whole, and a worker is scheduled
      for it exactly if something is missing. */
  lemma ArrivalExactlyWhen(content: seq<bv8>, s: State, resumeFrom: Option<nat>)
    requires Package(content) && Invariant(content, s)
    ensures
      var s', have, offset := AfterArrive(s, resumeFrom), OnDisk(s), GrowingFile.Offset(resumeFrom);
      && |s'.clients| == |s.clients| + 1 && s'.clients[..|s.clients|] == s.clients && OnDisk(s') == have
      && var c := s'.clients[|s.clients|];
         && c.resumeFrom == resumeFrom && c.out == []
         && (c.pc.AwaitingCfs? <==> !s.worker.Absent?)
         && (c.pc.Redirected? <==> s.worker.Absent? && offset > |have|)
         && (c.pc.AwaitingSize? <==> s.worker.Absent? && offset <= |have| && have != content)
         && (c.pc.Sending? || c.pc.Finished? <==> s.worker.Absent? && offset <= |have| && have == content)
         && (c.pc.AwaitingSize? <==> s.worker.Absent? && s'.worker.Between?)
         && (c.pc.AwaitingSize? ==> s'.worker.client == |s.clients| && c.first == None)
         && (!s.worker.Absent? ==> s'.worker == s.worker)
  {
    if s.worker.Absent? {
      PersistedIsRight(content, s.worker.disk);
      DecisionIsRight(s.worker.disk, content, false, GrowingFile.Offset(resumeFrom));
    }
  }

  lemma StopKeeps(content: seq<bv8>, s: State)
    requires Invariant(content, s) && !Torn(content, s.worker)
    ensures Invariant(content, AfterStop(s))
  {
    if s.worker.Recording? && s.worker.written != Print(|content|) {
      ProperPrefixIsUnreadable(|content|, s.worker.written);
    }
  }

  lemma StepKeepsInvariant(content: seq<bv8>, s: State, a: Action)
    requires Package(content) && Invariant(content, s) && Enabled(content, s, a) && Careful(content, s, a)
    ensures Invariant(content, Step(content, s, a))
  {
    match a
    case Arrive(resumeFrom) => ArriveKeeps(content, s, resumeFrom);
    case StartAttempt => StartAttemptKeeps(content, s);
    case FailToStart => FailToStartKeeps(content, s);
    case Header(status, lastChance) => HeaderKeeps(content, s, status, lastChance);
    case RecordMore(count) => RecordMoreKeeps(content, s, count);
    case RecordDone => RecordDoneKeeps(content, s);
    case Body(data, flushed) => BodyKeeps(content, s, data, flushed);
    case Retry => RetryKeeps(content, s);
    case Remove => RemoveKeeps(content, s);
    case Release(k) => ReleaseKeeps(content, s, k);
    case Learn(i) => LearnKeeps(content, s, i);
    case ReadCfs(i) => ReadCfsKeeps(content, s, i);
    case Poll(i) => PollKeeps(content, s, i);
    case Send(i, count) => SendKeeps(content, s, i, count);
    case Exit(i) => ExitKeeps(content, s, i);
    case GiveUp(i) => GiveUpKeeps(content, s, i);
    case Stop => StopKeeps(content, s);
  }

  // ---- Whole runs ----

  ghost predicate Happens(content: seq<bv8>, run: Run<State, Action>, k: nat)
    requires k < |run.actions| < |run.states|
  {
    && Enabled(content, run.states[k], run.actions[k])
    && run.states[k + 1] == Step(content, run.states[k], run.actions[k])
  }

  ghost predicate IsRun(content: seq<bv8>, run: Run<State, Action>) {
    && |run.states| == |run.actions| + 1
    && forall k: nat :: k < |run.actions| ==> Happens(content, run, k)
  }

  /** The package file is opened only when nothing is pending, and the program is not stopped with a torn side file. */
  ghost predicate IsCareful(content: seq<bv8>, run: Run<State, Action>)
    requires IsRun(content, run)
  {
    forall k :: 0 <= k < |run.actions| ==> Careful(content, run.states[k], run.actions[k])
  }

  /** A run, careful or not, leads from one state to another. */
  ghost predicate Connects(content: seq<bv8>, from: State, run: Run<State, Action>, to: State, careful: bool) {
    && IsRun(content, run) && (careful ==> IsCareful(content, run))
    && run.states[0] == from && run.states[|run.states| - 1] == to
  }

  ghost predicate Leads(content: seq<bv8>, from: State, to: State, careful: bool) {
    exists run :: Connects(content, from, run, to, careful)
  }

  /** Nobody is at work on a cache that holds a beginning of the content, or the whole of it. */
  predicate Idle(content: seq<bv8>, s: State) {
    s.worker.Absent? && DiskRight(content, s.worker.disk) && s.leaving == [] && s.clients == []
  }

  /** A careful run leads from an idle state to s. */
  ghost predicate Reachable(content: seq<bv8>, s: State) {
    exists from :: Idle(content, from) && Leads(content, from, s, true)
  }

  lemma {:induction false} RunsKeepInvariant(content: seq<bv8>, run: Run<State, Action>, k: nat)
    requires Package(content) && IsRun(content, run) && IsCareful(content, run) && k < |run.states|
    requires Invariant(content, run.states[0])
    ensures Invariant(content, run.states[k])
  {
    if k > 0 {
      RunsKeepInvariant(content, run, k - 1);
      assert Happens(content, run, k - 1);
      StepKeepsInvariant(content, run.states[k - 1], run.actions[k - 1]);
    }
  }

  lemma ReachableStatesAreOk(content: seq<bv8>, s: State)
    requires Package(content) && Reachable(content, s)
    ensures Invariant(content, s)
  {
    var from :| Idle(content, from) && Leads(content, from, s, true);
    var run :| Connects(content, from, run, s, true);
    RunsKeepInvariant(content, run, |run.states| - 1);
  }

  /** End-to-end safety: wherever honest mirrors break off or fail, and whatever the worker and the other clients do, each client
      has been sent a beginning of what it asked for, every byte once and in order. */
  lemma ClientsGetPrefixes(content: seq<bv8>, s: State, i: nat)
    requires Package(content) && Reachable(content, s) && i < |s.clients|
    ensures var c := s.clients[i];
            if Offset(c) <= |content| then c.out <= content[Offset(c)..] else c.out == []
  {
    ReachableStatesAreOk(content, s);
    HaveIsPrefix(content, s.worker);
    assert ClientOk(content, OnDisk(s), s.clients[i]);
  }

  /** End-to-end correctness: a reply that ends well has delivered all that is left of the content, as many bytes as its
      header announced, and the range it announced is valid unless nothing was left. */
  lemma FinishedMeansWhole(content: seq<bv8>, s: State, i: nat)
    requires Package(content) && Reachable(content, s) && i < |s.clients|
    requires s.clients[i].pc == Finished(true)
    ensures var c := s.clients[i];
            && c.announced.Some? && c.announced.value.contentLength == |c.out|
            && c.out == (if Offset(c) <= |content| then content[Offset(c)..] else [])
            && (c.announced.value.range.Some? <==> c.resumeFrom.Some?)
            && (c.resumeFrom.Some? ==>
                  (ValidContentRange(c.announced.value.range.value, |content|, |c.out|) <==> c.resumeFrom.value < |content|))
  {
    ReachableStatesAreOk(content, s);
    assert ClientOk(content, OnDisk(s), s.clients[i]);
  }

  /** The thread that waits for the size never hears of progress first, what it hears is right, and a client whose
      package turns out to be complete does not resume past its end, so that no subtraction underflows. */
  lemma FirstMessageIsRight(content: seq<bv8>, s: State, i: nat)
    requires Package(content) && Reachable(content, s) && CanLearn(s, i)
    ensures !s.clients[i].first.value.Progress?
    ensures s.clients[i].first.value.JobSize? ==> s.clients[i].first.value.size == |content|
    ensures s.clients[i].first.value.Completed? ==> OnDisk(s) == content
    ensures Offset(s.clients[i]) <= |OnDisk(s)| <= |content|
  {
    ReachableStatesAreOk(content, s);
    HaveIsPrefix(content, s.worker);
    assert ClientOk(content, OnDisk(s), s.clients[i]);
  }

  lemma FileFollowsContent(content: seq<bv8>, s: State)
    requires Invariant(content, s)
    ensures OnDisk(s) <= content
    ensures s.worker.Transferring? ==> OnDisk(s) + s.worker.t.buffer <= content
    ensures forall b :: b in s.leaving ==> OnDisk(s) + b <= content
  {
    HaveIsPrefix(content, s.worker);
    assert OnDisk(s) + [] == OnDisk(s);
  }

  lemma {:induction false} FileNeverShrinks(content: seq<bv8>, run: Run<State, Action>, j: nat, k: nat)
    requires Package(content) && IsRun(content, run) && IsCareful(content, run) && Idle(content, run.states[0])
    requires j <= k < |run.states|
    ensures OnDisk(run.states[j]) <= OnDisk(run.states[k])
  {
    if j < k {
      FileNeverShrinks(content, run, j, k - 1);
      RunsKeepInvariant(content, run, k - 1);
      assert Happens(content, run, k - 1);
      StepsNeverShrinkTheFile(content, run.states[k - 1], run.actions[k - 1]);
    }
  }

  /** The package file never shrinks and never departs from the content, across attempts, orders and restarts;
      what is still in a buffer continues it. */
  lemma FileGrowsAlongContent(content: seq<bv8>, run: Run<State, Action>, j: nat, k: nat)
    requires Package(content) && IsRun(content, run) && IsCareful(content, run) && Idle(content, run.states[0])
    requires j <= k < |run.states|
    ensures OnDisk(run.states[j]) <= OnDisk(run.states[k]) <= content
    ensures run.states[k].worker.Transferring? ==> OnDisk(run.states[k]) + run.states[k].worker.t.buffer <= content
    ensures forall b :: b in run.states[k].leaving ==> OnDisk(run.states[k]) + b <= content
  {
    FileNeverShrinks(content, run, j, k);
    RunsKeepInvariant(content, run, k);
    FileFollowsContent(content, run.states[k]);
  }

  predicate IsClientStep(a: Action) {
    a.Learn? || a.ReadCfs? || a.Poll? || a.Send? || a.Exit? || a.GiveUp?
  }

  lemma ClientsLeaveWorkerAlone(content: seq<bv8>, s: State, a: Action)
    requires Enabled(content, s, a) && IsClientStep(a)
    ensures Step(content, s, a).worker == s.worker
  {
  }

  lemma HeaderKeepsBytes(content: seq<bv8>, s: State, status: ParseStatus, lastChance: bool)
    requires Package(content) && Invariant(content, s) && CanHeader(content, s, status)
    ensures OnDisk(AfterHeader(content, s, status, lastChance)) == OnDisk(s)
  {
    HeaderKeepsTransfer(content, s.worker.t, lastChance, status);
  }

  lemma BodyKeepsBytes(content: seq<bv8>, s: State, data: seq<bv8>, flushed: nat)
    requires Package(content) && Invariant(content, s) && CanBody(content, s, data, flushed)
    ensures OnDisk(s) <= OnDisk(AfterBody(content, s, data, flushed))
  {
    BodyKeepsTransfer(content, s.worker.t, data, flushed);
  }

  lemma ArriveKeepsBytes(content: seq<bv8>, s: State, resumeFrom: Option<nat>)
    requires Package(content) && Invariant(content, s)
    ensures OnDisk(AfterArrive(s, resumeFrom)) == OnDisk(s)
  {
    if s.worker.Absent? {
      PersistedIsRight(content, s.worker.disk);
    }
  }

  lemma OtherStepsKeepBytes(content: seq<bv8>, s: State, a: Action)
    requires Enabled(content, s, a) && !IsClientStep(a) && !a.Arrive? && !a.Header? && !a.Body?
    ensures OnDisk(s) <= OnDisk(Step(content, s, a))
  {
  }

  lemma StepsNeverShrinkTheFile(content: seq<bv8>, s: State, a: Action)
    requires Package(content) && Invariant(content, s) && Enabled(content, s, a)
    ensures OnDisk(s) <= OnDisk(Step(content, s, a))
  {
    match a
    case Arrive(resumeFrom) => ArriveKeepsBytes(content, s, resumeFrom);
    case Header(status, lastChance) => HeaderKeepsBytes(content, s, status, lastChance);
    case Body(data, flushed) => BodyKeepsBytes(content, s, data, flushed);
    case _ => if IsClientStep(a) { ClientsLeaveWorkerAlone(content, s, a); } else { OtherStepsKeepBytes(content, s, a); }
  }

  /** The recorded size, read at any time by anybody, is the true one or not there. */
  lemma RecordedSizeIsRight(content: seq<bv8>, s: State)
    requires Package(content) && Reachable(content, s)
    ensures RecordedSize(DiskOf(s.worker)) == None || RecordedSize(DiskOf(s.worker)) == Some(|content|)
  {
    ReachableStatesAreOk(content, s);
    RacersSeeTheTruth(content, s.worker);
  }

  /** Abort safety: if the program is killed, what it finds when it is started again is right, exactly unless
      the side file of an incomplete package was just being written again. */
  lemma StopIsSafeExactlyWhen(content: seq<bv8>, s: State)
    requires Package(content) && Reachable(content, s)
    ensures TellsTheTruth(DiskOf(AfterStop(s).worker), content) <==> !Torn(content, s.worker)
    ensures OnDisk(AfterStop(s)) == OnDisk(s) <= content
  {
    ReachableStatesAreOk(content, s);
    RacersSeeTheTruth(content, s.worker);
    HaveIsPrefix(content, s.worker);
    TruthfulExactlyWhen(DiskOf(s.worker), content);
    PrintThenParse(|content|);
    if s.worker.Recording? && s.worker.written != Print(|content|) {
      ProperPrefixIsUnreadable(|content|, s.worker.written);
    }
  }

  // ---- Clients are done in the end ----

  /** How many steps a client takes at most once the file is complete. */
  function Rank(c: Client): int {
    match c.pc
    case Growing(length) => 2 * (length - |c.out|) + 1
    case Sending(_, length, _) => 2 * (length - |c.out|)
    case _ => 0
  }

  predicate IsServing(c: Client) {
    c.pc.Growing? || c.pc.Sending?
  }

  /** With the whole package there, a client that is being served can always go on, each of its steps brings it
      closer to the end, and it can only end well unless it is given up. */
  lemma CompleteFileServesEverybody(content: seq<bv8>, s: State, i: nat)
    requires Package(content) && Reachable(content, s) && i < |s.clients|
    requires IsServing(s.clients[i]) && OnDisk(s) == content
    ensures CanPoll(s, i) || CanExit(s, i) || exists count :: CanSend(s, i, count)
    ensures CanPoll(s, i) ==> Rank(AfterPoll(s, i).clients[i]) < Rank(s.clients[i]) && IsServing(AfterPoll(s, i).clients[i])
    ensures CanExit(s, i) ==> 0 < Rank(s.clients[i]) && AfterExit(s, i).clients[i].pc == Finished(true)
    ensures forall count :: CanSend(s, i, count) ==>
              var c' := AfterSend(s, i, count).clients[i];
              0 <= Rank(c') < Rank(s.clients[i]) && (IsServing(c') || c'.pc == Finished(true))
  {
    ReachableStatesAreOk(content, s);
    ServingGoesOn(content, s, i);
  }

  lemma ServingGoesOn(content: seq<bv8>, s: State, i: nat)
    requires Invariant(content, s) && i < |s.clients| && IsServing(s.clients[i]) && OnDisk(s) == content
    ensures CanPoll(s, i) || CanExit(s, i) || CanSend(s, i, 1)
    ensures CanPoll(s, i) ==> Rank(AfterPoll(s, i).clients[i]) < Rank(s.clients[i]) && IsServing(AfterPoll(s, i).clients[i])
    ensures CanExit(s, i) ==> 0 < Rank(s.clients[i]) && AfterExit(s, i).clients[i].pc == Finished(true)
    ensures 0 <= Rank(s.clients[i])
    ensures forall count :: CanSend(s, i, count) ==>
              var c' := AfterSend(s, i, count).clients[i];
              0 <= Rank(c') < Rank(s.clients[i]) && (IsServing(c') || c'.pc == Finished(true))
  {
    assert ClientOk(content, OnDisk(s), s.clients[i]);
  }

  // ---- Runs, step by step ----

  lemma LeadsToItself(content: seq<bv8>, s: State, careful: bool)
    ensures Leads(content, s, s, careful)
  {
    assert Connects(content, s, Run([s], []), s, careful);
  }

  lemma OneMoreStep(content: seq<bv8>, from: State, s: State, a: Action, s': State, careful: bool)
    requires Leads(content, from, s, careful) && Enabled(content, s, a) && s' == Step(content, s, a)
    requires careful ==> Careful(content, s, a)
    ensures Leads(content, from, s', careful)
  {
    var run :| Connects(content, from, run, s, careful);
    var longer := Run(run.states + [s'], run.actions + [a]);
    forall k: nat | k < |longer.actions|
      ensures Happens(content, longer, k)
    {
      assert k < |run.actions| ==> Happens(content, run, k);
    }
    assert Connects(content, from, longer, s', careful);
  }

  /** A transfer with the size recorded and announced. */
  function Running(content: seq<bv8>, file: seq<bv8>, buffer: seq<bv8>, length: nat, sent: seq<FlexoProgress>): Transfer {
    Transfer(file, Some(Print(|content|)), buffer, |file| + |buffer|, Some(Ready(length)), sent)
  }

  /** An attempt that has just begun can get as far as having the size recorded and announced. */
  lemma SizeCanBeAnnounced(content: seq<bv8>, from: State, s: State, careful: bool)
    requires Package(content) && s.worker.Transferring? && s.worker.client < |s.clients| && |s.worker.t.file| <= |content|
    requires s.worker.t == Transfer(s.worker.t.file, s.worker.t.cfs, [], |s.worker.t.file|, None, [])
    requires Leads(content, from, s, careful)
    ensures
      var t, c, size := s.worker.t, s.worker.client, |content|;
      Leads(content, from,
            s.(worker := Transferring(Running(content, t.file, [], size - |t.file|, [JobSize(size)]), c),
               clients := Notify(s.clients, c, JobSize(size))), careful)
  {
    var t, c, size := s.worker.t, s.worker.client, |content|;
    var t' := Running(content, t.file, [], size - |t.file|, [JobSize(size)]);
    var s1 := s.(worker := Recording(t', "", c));
    assert [] + [JobSize(size)] == [JobSize(size)];
    OneMoreStep(content, from, s, Header(Parsed(206, Some(size - |t.file|)), false), s1, careful);
    var s2 := s.(worker := Recording(t', Print(size), c));
    assert Print(size)[..|Print(size)|] == Print(size);
    OneMoreStep(content, from, s1, RecordMore(|Print(size)|), s2, careful);
    OneMoreStep(content, from, s2, RecordDone,
                s.(worker := Transferring(t', c), clients := Notify(s.clients, c, JobSize(size))), careful);
  }

  // ---- Exactly when opening the package file is safe ----

  lemma RestCompletes(content: seq<bv8>, t: Transfer, file: seq<bv8>)
    requires file <= content && t.file == file && t.buffer == [] && IsReady(t.header)
    ensures var rest := content[|file|..];
            && t.file + t.buffer + rest == content
            && |rest| <= |t.buffer| + |rest| && OnBody(t, rest, |rest|).file == content
  {
    var rest := content[|file|..];
    assert t.buffer + rest == rest && rest[..|rest|] == rest && file + rest == content;
  }

  /** A worker can deliver all that was missing when it opened the file, and flush it at once. */
  lemma RestCanArrive(content: seq<bv8>, from: State, s: State, file: seq<bv8>, careful: bool) returns (s': State)
    requires file <= content && s.worker.Transferring? && s.worker.client < |s.clients|
    requires s.worker.t == Running(content, file, [], |content| - |file|, [JobSize(|content|)])
    requires Leads(content, from, s, careful)
    ensures Leads(content, from, s', careful)
    ensures s'.worker.Transferring? && OnDisk(s') == content && s'.leaving == s.leaving
  {
    var rest := content[|file|..];
    RestCompletes(content, s.worker.t, file);
    assert CanBody(content, s, rest, |rest|);
    s' := AfterBody(content, s, rest, |rest|);
    OneMoreStep(content, from, s, Body(rest, |rest|), s', careful);
  }

  lemma ReleaseCanComeLast(content: seq<bv8>, from: State, s: State, k: nat, careful: bool) returns (s': State)
    requires s.worker.Transferring? && OnDisk(s) == content && k < |s.leaving| && s.leaving[k] != []
    requires Leads(content, from, s, careful)
    ensures Leads(content, from, s', careful) && |OnDisk(s')| > |content|
  {
    s' := AfterRelease(s, k);
    OneMoreStep(content, from, s, Release(k), s', careful);
  }

  /** If something is pending when the file is opened, then the worker delivers all that is missing from the file,
      and what was pending comes on top. */
  lemma PendingCorrupts(content: seq<bv8>, from: State, s: State, k: nat, careful: bool) returns (end: State)
    requires s.worker.Between? && s.worker.client < |s.clients| && k < |s.leaving| && s.leaving[k] != []
    requires Package(content) && OnDisk(s) <= content
    requires Leads(content, from, AfterStartAttempt(s), careful)
    ensures Leads(content, from, end, careful) && |OnDisk(end)| > |content|
  {
    var file, c, size := OnDisk(s), s.worker.client, |content|;
    SizeCanBeAnnounced(content, from, AfterStartAttempt(s), careful);
    var announced := s.(worker := Transferring(Running(content, file, [], size - |file|, [JobSize(size)]), c),
                        clients := Notify(s.clients, c, JobSize(size)));
    var whole := RestCanArrive(content, from, announced, file, careful);
    end := ReleaseCanComeLast(content, from, whole, k, careful);
  }

  /** An order may be scheduled again before the writer of its last worker has been released. Opening the package file for it
      is safe, exactly if nothing is pending then: if something is, the file can end up with more than the content, and if
      nothing is, it stays a beginning of the content on every careful way from there. */
  lemma OpeningIsSafeExactlyWhen(content: seq<bv8>, s: State)
    requires Package(content) && Reachable(content, s) && CanStartAttempt(s)
    ensures NothingPending(s)
       <==> (forall end :: Leads(content, AfterStartAttempt(s), end, true) ==> OnDisk(end) <= content)
  {
    ReachableStatesAreOk(content, s);
    HaveIsPrefix(content, s.worker);
    if NothingPending(s) {
      StartAttemptKeeps(content, s);
      forall end | Leads(content, AfterStartAttempt(s), end, true)
        ensures OnDisk(end) <= content
      {
        var run :| Connects(content, AfterStartAttempt(s), run, end, true);
        RunsKeepInvariant(content, run, |run.states| - 1);
        HaveIsPrefix(content, end.worker);
      }
    } else {
      var k :| 0 <= k < |s.leaving| && s.leaving[k] != [];
      LeadsToItself(content, AfterStartAttempt(s), true);
      var end := PendingCorrupts(content, AfterStartAttempt(s), s, k, true);
    }
  }

  function EmptyCache(): State {
    State(Absent(Disk(None, None)), [], [])
  }

  /** A package that is still in the buffer of its writer when its order is over, and is asked for again. */
  function AskedForAgain(content: seq<bv8>): State {
    var c := Client(None, None, AwaitingSize, None, []);
    State(Between(Disk(Some([]), Some(Print(|content|))), 1), [content], [c.(first := Some(JobSize(|content|))), c])
  }

  lemma TransferCanBegin(content: seq<bv8>, careful: bool)
    requires Package(content)
    ensures Leads(content, EmptyCache(),
                  State(Transferring(Running(content, [], [], |content|, [JobSize(|content|)]), 0), [],
                        [Client(None, Some(JobSize(|content|)), AwaitingSize, None, [])]), careful)
  {
    var from, c := EmptyCache(), Client(None, None, AwaitingSize, None, []);
    LeadsToItself(content, from, careful);
    var s1 := State(Between(Disk(None, None), 0), [], [c]);
    OneMoreStep(content, from, from, Arrive(None), s1, careful);
    var s2 := s1.(worker := Transferring(Transfer([], None, [], 0, None, []), 0));
    OneMoreStep(content, from, s1, StartAttempt, s2, careful);
    SizeCanBeAnnounced(content, from, s2, careful);
    assert Notify([c], 0, JobSize(|content|)) == [c.(first := Some(JobSize(|content|)))];
  }

  lemma OrderCanBeAskedForAgain(content: seq<bv8>, careful: bool)
    requires Package(content)
    ensures Leads(content, EmptyCache(), AskedForAgain(content), careful)
  {
    var from, size := EmptyCache(), |content|;
    var c := Client(None, None, AwaitingSize, None, []);
    var c' := c.(first := Some(JobSize(size)));
    TransferCanBegin(content, careful);
    var s1 := State(Transferring(Running(content, [], [], size, [JobSize(size)]), 0), [], [c']);
    var s2 := State(Transferring(Running(content, [], content, size, [JobSize(size), Progress(0)]), 0), [], [c']);
    assert [] + [] + content == content && [] + content == content && content[..0] == [] && content[0..] == content;
    assert [] + content[..0] == [] && [JobSize(size)] + [Progress(0)] == [JobSize(size), Progress(0)];
    OneMoreStep(content, from, s1, Body(content, 0), s2, careful);
    var s3 := State(Absent(Disk(Some([]), Some(Print(size)))), [content], [c']);
    OneMoreStep(content, from, s2, Remove, s3, careful);
    PrintThenParse(size);
    OneMoreStep(content, from, s3, Arrive(None), AskedForAgain(content), careful);
  }

  /** For every package, there is a run that corrupts it: it is fetched twice, and the first writer is released last. */
  lemma PackageCanBeCorrupted(content: seq<bv8>) returns (end: State)
    requires Package(content)
    ensures Idle(content, EmptyCache()) && Leads(content, EmptyCache(), end, false)
    ensures |OnDisk(end)| > |content|
  {
    var s := AskedForAgain(content);
    OrderCanBeAskedForAgain(content, false);
    OneMoreStep(content, EmptyCache(), s, StartAttempt, AfterStartAttempt(s), false);
    end := PendingCorrupts(content, EmptyCache(), s, 0, false);
  }

  // ---- The other failing cases can be reached as well ----

  /** A package of which the first byte is there, with its size recorded. */
  function FirstByte(content: seq<bv8>): Disk
    requires content != []
  {
    Disk(Some(content[..1]), Some(Print(|content|)))
  }

  /** A client asks for a package of which the first byte is there. */
  lemma RestCanBeAskedFor(content: seq<bv8>) returns (s: State)
    requires Package(content) && |content| > 1
    ensures Reachable(content, s) && s.worker == Transferring(Opened(FirstByte(content)), 0)
    ensures s.leaving == [] && s.clients == [Client(None, None, AwaitingSize, None, [])]
  {
    var disk := FirstByte(content);
    var from, c := State(Absent(disk), [], []), Client(None, None, AwaitingSize, None, []);
    PrintThenParse(|content|);
    LeadsToItself(content, from, true);
    var s1 := State(Between(disk, 0), [], [c]);
    OneMoreStep(content, from, from, Arrive(None), s1, true);
    s := s1.(worker := Transferring(Opened(disk), 0));
    OneMoreStep(content, from, s1, StartAttempt, s, true);
    assert Idle(content, from);
  }

  lemma SideFileCanBeTorn(content: seq<bv8>) returns (s: State)
    requires Package(content) && |content| > 1
    ensures Reachable(content, s) && Torn(content, s.worker) && !TellsTheTruth(DiskOf(s.worker), content)
  {
    var size := |content|;
    var s1 := RestCanBeAskedFor(content);
    s := s1.(worker := Recording(Running(content, content[..1], [], size - 1, [JobSize(size)]), "", 0));
    assert [] + [JobSize(size)] == [JobSize(size)];
    SumIsRightExactlyWhen(1, size);
    SizeIsSum(s1.worker.t, false, 206, size - 1);
    var from :| Idle(content, from) && Leads(content, from, s1, true);
    OneMoreStep(content, from, s1, Header(Parsed(206, Some(size - 1)), false), s, true);
    StopIsSafeExactlyWhen(content, s);
  }

  /** A client that has all of a cached package and asks for the rest is sent an invalid range. */
  lemma RangeCanBeInvalid(content: seq<bv8>) returns (s: State)
    requires Package(content)
    ensures Reachable(content, s) && |s.clients| == 1
    ensures var c := s.clients[0];
            && c.pc == Finished(true) && c.announced.Some? && c.announced.value.range.Some?
            && !ValidContentRange(c.announced.value.range.value, |content|, c.announced.value.contentLength)
  {
    var from := State(Absent(Disk(Some(content), Some(Print(|content|)))), [], []);
    PrintThenParse(|content|);
    LeadsToItself(content, from, true);
    s := AfterArrive(from, Some(|content|));
    OneMoreStep(content, from, from, Arrive(Some(|content|)), s, true);
    assert Idle(content, from);
  }

  // ---- Every client can be served to the end ----

  /** Only client i has moved, and it still asks for the same. */
  ghost predicate OnlyClient(s: State, i: nat, s': State) {
    && i < |s.clients| == |s'.clients| && s' == Put(s, i, s'.clients[i])
    && s'.clients[i].resumeFrom == s.clients[i].resumeFrom
  }

  lemma OnlyClientAgain(s: State, i: nat, s1: State, s2: State)
    requires OnlyClient(s, i, s1) && OnlyClient(s1, i, s2)
    ensures OnlyClient(s, i, s2)
  {
    assert s.clients[i := s1.clients[i]][i := s2.clients[i]] == s.clients[i := s2.clients[i]];
  }

  /** The next step of a client that is being served from a complete file. */
  lemma ServingCanGoOn(content: seq<bv8>, from: State, s: State, i: nat) returns (s': State)
    requires Leads(content, from, s, true) && Invariant(content, s) && OnDisk(s) == content
    requires i < |s.clients| && IsServing(s.clients[i])
    ensures Leads(content, from, s', true) && Invariant(content, s') && OnlyClient(s, i, s')
    ensures s'.clients[i].pc == Finished(true) || (IsServing(s'.clients[i]) && 0 <= Rank(s'.clients[i]) < Rank(s.clients[i]))
  {
    ServingGoesOn(content, s, i);
    if CanExit(s, i) {
      s' := AfterExit(s, i);
      OneMoreStep(content, from, s, Exit(i), s', true);
      ExitKeeps(content, s, i);
    } else if CanPoll(s, i) {
      s' := AfterPoll(s, i);
      OneMoreStep(content, from, s, Poll(i), s', true);
      PollKeeps(content, s, i);
      ServingGoesOn(content, s', i);
    } else {
      s' := AfterSend(s, i, 1);
      OneMoreStep(content, from, s, Send(i, 1), s', true);
      SendKeeps(content, s, i, 1);
    }
  }

  lemma {:induction false} ServingCanEnd(content: seq<bv8>, from: State, s: State, i: nat) returns (s': State)
    requires Leads(content, from, s, true) && Invariant(content, s) && OnDisk(s) == content
    requires i < |s.clients| && (IsServing(s.clients[i]) || s.clients[i].pc == Finished(true))
    ensures Leads(content, from, s', true) && Invariant(content, s') && OnlyClient(s, i, s')
    ensures s'.clients[i].pc == Finished(true)
    decreases Rank(s.clients[i])
  {
    if s.clients[i].pc == Finished(true) {
      s' := s;
    } else {
      ServingGoesOn(content, s, i);
      var s1 := ServingCanGoOn(content, from, s, i);
      if s1.clients[i].pc == Finished(true) {
        s' := s1;
      } else {
        s' := ServingCanEnd(content, from, s1, i);
        OnlyClientAgain(s, i, s1, s');
      }
    }
  }

  /** The client has heard what it waits for: the size or that the package is complete, or a size in the side file. */
  predicate HasWord(s: State, c: Client) {
    || (c.pc.AwaitingSize? && c.first.Some? && (c.first.value.JobSize? || c.first.value.Completed?))
    || (c.pc.AwaitingCfs? && RecordedSize(DiskOf(s.worker)).Some?)
  }

  lemma WaitingCanEnd(content: seq<bv8>, from: State, s: State, i: nat) returns (s': State)
    requires Package(content) && Leads(content, from, s, true) && Invariant(content, s) && OnDisk(s) == content
    requires i < |s.clients| && HasWord(s, s.clients[i])
    ensures Leads(content, from, s', true) && Invariant(content, s') && OnlyClient(s, i, s')
    ensures IsServing(s'.clients[i]) || s'.clients[i].pc == Finished(true)
  {
    if s.clients[i].pc.AwaitingSize? {
      s' := AfterLearn(s, i);
      OneMoreStep(content, from, s, Learn(i), s', true);
      LearnKeeps(content, s, i);
    } else {
      s' := AfterReadCfs(s, i);
      OneMoreStep(content, from, s, ReadCfs(i), s', true);
      ReadCfsKeeps(content, s, i);
    }
  }

  /** Liveness: in every reachable state with the whole package on disk, each client that is being served, or has heard what it
      waits for, can be served to the end by steps of its own, and then it has been sent all that it has asked for. */
  lemma EveryClientCanBeServed(content: seq<bv8>, s: State, i: nat) returns (s': State)
    requires Package(content) && Reachable(content, s) && OnDisk(s) == content
    requires i < |s.clients| && (IsServing(s.clients[i]) || HasWord(s, s.clients[i]))
    ensures Leads(content, s, s', true) && Reachable(content, s') && OnlyClient(s, i, s')
    ensures var c := s'.clients[i];
            c.pc == Finished(true) && c.out == if Offset(c) <= |content| then content[Offset(c)..] else []
  {
    ReachableStatesAreOk(content, s);
    LeadsToItself(content, s, true);
    var s1 := s;
    if HasWord(s, s.clients[i]) {
      s1 := WaitingCanEnd(content, s, s, i);
    }
    s' := ServingCanEnd(content, s, s1, i);
    OnlyClientAgain(s, i, s1, s');
    ReachableGoesOn(content, s, s');
    FinishedMeansWhole(content, s', i);
  }

  lemma ReachableGoesOn(content: seq<bv8>, s: State, s': State)
    requires Reachable(content, s) && Leads(content, s, s', true)
    ensures Reachable(content, s')
  {
    var from :| Idle(content, from) && Leads(content, from, s, true);
    OneRunAfterAnother(content, from, s, s');
  }

  lemma OneRunAfterAnother(content: seq<bv8>, from: State, s: State, to: State)
    requires Leads(content, from, s, true) && Leads(content, s, to, true)
    ensures Leads(content, from, to, true)
  {
    var first :| Connects(content, from, first, s, true);
    var second :| Connects(content, s, second, to, true);
    var n := |first.actions|;
    var all := Run(first.states + second.states[1..], first.actions + second.actions);
    forall k: nat | k < |all.actions|
      ensures Happens(content, all, k) && Careful(content, all.states[k], all.actions[k])
    {
      if k < n {
        assert Happens(content, first, k);
      } else {
        assert Happens(content, second, k - n);
        assert all.states[k] == second.states[k - n] && all.states[k + 1] == second.states[k - n + 1];
      }
    }
    assert Connects(content, from, all, to, true);
  }
}
