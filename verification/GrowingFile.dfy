/** Streaming a package to a client, either from a complete file or while a worker is still appending to it. */
module GrowingFile {
  import opened Wrappers
  import opened ReplyHeaders

  // One sendfile() call transfers at most this many bytes.
  const MAX_SENDFILE_COUNT: nat := 0x7fff_f000

  const STALL_TIMEOUT_MICROS: nat := 10_000_000
  const POLL_INTERVAL_MICROS: nat := 500

  datatype TransferError = PollFailed | SendFailed | Stalled

  /** The first lines of a reply: its Content-Length and, for partial replies, its Content-Range. */
  datatype ReplyHeader = ReplyHeader(contentLength: nat, range: Option<ContentRange>)

  function Header(contentLength: nat, resumeFrom: Option<nat>): ReplyHeader {
    match resumeFrom
    case None => ReplyHeader(contentLength, None)
    case Some(r) => ReplyHeader(contentLength, Some(RangeHeader(contentLength, r)))
  }

  function Offset(resumeFrom: Option<nat>): nat {
    match resumeFrom case None => 0 case Some(r) => r
  }

  /** The file sizes that one client has polled so far. */
  datatype Polls = NoPoll | Poll(earlier: Polls, filesize: nat)

  function Count(polls: Polls): nat {
    match polls case NoPoll => 0 case Poll(earlier, _) => Count(earlier) + 1
  }

  /** How far the client has got after the given polls: every growth is sent at once. */
  function Received(resumeFrom: nat, polls: Polls): nat {
    match polls
    case NoPoll => resumeFrom
    case Poll(earlier, filesize) => Max(Received(resumeFrom, earlier), filesize)
  }

  /** The number of polls without growth at the end of the given polls. */
  function StallRun(resumeFrom: nat, polls: Polls): nat {
    match polls
    case NoPoll => 0
    case Poll(earlier, filesize) => if filesize > Received(resumeFrom, earlier) then 0 else StallRun(resumeFrom, earlier) + 1
  }

  /** Before the last of the given polls, there never was a run of polls without growth as long as the limit. */
  predicate StallsAtTheEndOnly(resumeFrom: nat, polls: Polls, limit: nat) {
    match polls
    case NoPoll => true
    case Poll(earlier, _) => StallsAtTheEndOnly(resumeFrom, earlier, limit) && StallRun(resumeFrom, earlier) < limit
  }

  /** The part of the content between two offsets; nothing if there is no such part. */
  function Slice(content: seq<bv8>, from: nat, to: nat): seq<bv8> {
    if from <= to <= |content| then content[from..to] else []
  }

  lemma SliceGoesOn(before: seq<bv8>, content: seq<bv8>, from: nat, to: nat, end: nat)
    requires from <= to <= end <= |content|
    ensures before + Slice(content, from, to) + content[to..end] == before + Slice(content, from, end)
  {
  }

  // ---- The file system and the socket ----

  /** What will happen: the file size that the k-th poll finds, unless it fails; how many bytes the k-th sendfile() call is
      willing to transfer, unless it fails; and whether the k-th flush succeeds. */
  datatype Environment = Environment(sizes: nat -> Option<nat>, sends: nat -> Option<nat>, flushes: nat -> bool)

  /** How many polls, sendfile() calls and flushes there have been. */
  datatype Calls = Calls(polls: nat, sends: nat, flushes: nat)

  /** From the k-th poll on, the file never shrinks, and never grows beyond the given length. */
  ghost predicate Grows(sizes: nat -> Option<nat>, k: nat, now: nat, length: nat) {
    && (forall i :: k <= i && sizes(i).Some? ==> now <= sizes(i).value <= length)
    && (forall i, j :: k <= i <= j && sizes(i).Some? && sizes(j).Some? ==> sizes(i).value <= sizes(j).value)
  }

  /** The bytes that one call transfers: at least one, and as many as the kernel is willing to. */
  function SendSize(count: nat, wish: nat): (size: nat)
    requires count > 0
    ensures 1 <= size <= count && (1 <= wish <= count ==> size == wish)
  {
    Min(Max(1, wish), count)
  }

  /** Transferring from one offset to another, beginning with the k-th sendfile() call: whether that succeeds, how far it gets,
      and the number of the next call. */
  function Transferred(sends: nat -> Option<nat>, k: nat, from: nat, end: nat): (bool, nat, nat)
    decreases end - from
  {
    if from >= end then (true, from, k)
    else
      match sends(k)
      case None => (false, from, k + 1)
      case Some(wish) => Transferred(sends, k + 1, from + SendSize(Min(end - from, MAX_SENDFILE_COUNT), wish), end)
  }

  /** None of these sendfile() calls fails. */
  ghost predicate AllSent(sends: nat -> Option<nat>, k: nat, next: nat) {
    forall i :: k <= i < next ==> sends(i).Some?
  }

  ghost predicate AllFlushed(flushes: nat -> bool, k: nat, next: nat) {
    forall i :: k <= i < next ==> flushes(i)
  }

  /** A transfer gets to its end exactly if no call fails, and the call that fails is the last one. */
  lemma {:induction false} TransferExactly(sends: nat -> Option<nat>, k: nat, from: nat, end: nat)
    requires from <= end
    ensures var (ok, offset, next) := Transferred(sends, k, from, end);
            && k <= next && from <= offset <= end
            && (ok <==> AllSent(sends, k, next)) && (ok <==> offset == end)
            && (!ok ==> next > k && sends(next - 1) == None && AllSent(sends, k, next - 1))
    decreases end - from
  {
    if from < end && sends(k).Some? {
      TransferExactly(sends, k + 1, from + SendSize(Min(end - from, MAX_SENDFILE_COUNT), sends(k).value), end);
    }
  }

  /** An open package file of which a worker may append more, and the socket of one client. */
  class ClientFileSource {
    const content: seq<bv8>
    const env: Environment
    var file: seq<bv8>
    var socket: seq<bv8>
    var numPolls: nat
    var numSends: nat
    var numFlushes: nat

    ghost predicate Valid()
      reads this
    {
      file <= content && Grows(env.sizes, numPolls, |file|, |content|)
    }

    function Made(): Calls
      reads this
    {
      Calls(numPolls, numSends, numFlushes)
    }

    constructor (content: seq<bv8>, length: nat, env: Environment)
      requires length <= |content| && Grows(env.sizes, 0, length, |content|)
      ensures Valid() && this.content == content && |file| == length && socket == []
      ensures this.env == env && Made() == Calls(0, 0, 0)
    {
      this.content, this.file, this.socket, this.env := content, content[..length], [], env;
      numPolls, numSends, numFlushes := 0, 0, 0;
    }

    /** Since the previous poll, the worker may have appended any number of bytes. */
    method CurrentFilesize() returns (r: Result<nat, TransferError>)
      requires Valid()
      modifies this`file, this`numPolls
      ensures Valid() && old(file) <= file && Made() == old(Made()).(polls := old(numPolls) + 1)
      ensures r == match env.sizes(old(numPolls)) case None => Err(PollFailed) case Some(size) => Ok(size)
      ensures r.Ok? ==> |file| == r.value
    {
      var size := env.sizes(numPolls);
      numPolls := numPolls + 1;
      match size
      case None => r := Err(PollFailed);
      case Some(length) =>
        file := content[..length];
        r := Ok(|file|);
    }

    /** Hands over file[bytesSent..filesize] in as many sendfile() calls as the kernel needs; offset tells
        how far that got. */
    method SendPayload(filesize: nat, bytesSent: nat) returns (r: Result<nat, TransferError>, offset: nat)
      requires Valid() && bytesSent <= filesize <= |file|
      modifies this`socket, this`numSends
      ensures Valid() && (r.Ok?, offset, numSends) == Transferred(env.sends, old(numSends), bytesSent, filesize)
      ensures bytesSent <= offset <= filesize && socket == old(socket) + content[bytesSent..offset]
      ensures r == if AllSent(env.sends, old(numSends), numSends) then Ok(filesize) else Err(SendFailed)
    {
      TransferExactly(env.sends, numSends, bytesSent, filesize);
      offset := bytesSent;
      while offset < filesize
        invariant bytesSent <= offset <= filesize
        invariant socket == old(socket) + content[bytesSent..offset]
        invariant Transferred(env.sends, old(numSends), bytesSent, filesize)
               == Transferred(env.sends, numSends, offset, filesize)
      {
        var count := Min(filesize - offset, MAX_SENDFILE_COUNT);
        var answer := env.sends(numSends);
        numSends := numSends + 1;
        if answer == None {
          return Err(SendFailed), offset;
        }
        var size := SendSize(count, answer.value);
        SliceGoesOn(old(socket), content, bytesSent, offset, offset + size);
        assert file[offset..offset + size] == content[offset..offset + size];
        socket := socket + file[offset..offset + size];
        offset := offset + size;
      }
      r := Ok(offset);
    }

    /** The payload is flushed in any case; if the flush fails then so does the whole. */
    method SendPayloadAndFlush(filesize: nat, bytesSent: nat) returns (r: Result<nat, TransferError>, offset: nat)
      requires Valid() && bytesSent <= filesize <= |file|
      modifies this`socket, this`numSends, this`numFlushes
      ensures Valid() && numFlushes == old(numFlushes) + 1 && old(numSends) <= numSends
      ensures bytesSent <= offset <= filesize && socket == old(socket) + content[bytesSent..offset]
      ensures Transferred(env.sends, old(numSends), bytesSent, filesize) == (offset == filesize, offset, numSends)
      ensures AllSent(env.sends, old(numSends), numSends) <==> offset == filesize
      ensures r == if AllSent(env.sends, old(numSends), numSends) && env.flushes(old(numFlushes)) then Ok(filesize)
                   else Err(SendFailed)
    {
      TransferExactly(env.sends, numSends, bytesSent, filesize);
      r, offset := SendPayload(filesize, bytesSent);
      var flushed := env.flushes(numFlushes);
      numFlushes := numFlushes + 1;
      if !flushed {
        r := Err(SendFailed);
      }
    }

    /** Sends what has arrived since the client was at clientReceived. What it has been sent before, starting at resumeFrom,
        goes on without a gap. */
    method Send(filesize: nat, clientReceived: nat, ghost resumeFrom: nat, ghost before: seq<bv8>)
      returns (r: Result<nat, TransferError>, offset: nat)
      requires Valid() && resumeFrom <= clientReceived <= filesize <= |file|
      requires socket == before + Slice(content, resumeFrom, clientReceived)
      modifies this`socket, this`numSends, this`numFlushes
      ensures Valid() && clientReceived <= offset <= filesize
      ensures socket == before + Slice(content, resumeFrom, offset)
      ensures numFlushes == old(numFlushes) + 1 && old(numSends) <= numSends
      ensures Transferred(env.sends, old(numSends), clientReceived, filesize) == (offset == filesize, offset, numSends)
      ensures AllSent(env.sends, old(numSends), numSends) <==> offset == filesize
      ensures r == if AllSent(env.sends, old(numSends), numSends) && env.flushes(old(numFlushes)) then Ok(filesize)
                   else Err(SendFailed)
    {
      r, offset := SendPayloadAndFlush(filesize, clientReceived);
      SliceGoesOn(before, content, resumeFrom, clientReceived, offset);
    }
  }

  // ---- The loop ----

  /** How far the loop has got: the bytes handed over, the current run of polls without growth, the file sizes seen, the number of
      sleeps, and the calls made. */
  datatype Progress = Progress(sent: nat, stalled: nat, polls: Polls, sleeps: nat, calls: Calls)

  function AtStart(calls: Calls): Progress {
    Progress(0, 0, NoPoll, 0, calls)
  }

  /** One iteration: it ends the loop with an error, or the loop goes on. */
  function Next(env: Environment, resumeFrom: nat, length: nat, maxPollsWithoutProgress: nat, p: Progress)
    : (Result<(), TransferError>, Progress)
  {
    var made := p.calls.(polls := p.calls.polls + 1);
    match env.sizes(p.calls.polls)
    case None => (Err(PollFailed), p.(calls := made))
    case Some(filesize) =>
      var seen := p.(polls := Poll(p.polls, filesize), calls := made);
      if filesize > resumeFrom + p.sent then AfterGrowth(env, resumeFrom, length, filesize, seen)
      else if p.stalled + 1 >= maxPollsWithoutProgress then (Err(Stalled), seen.(stalled := p.stalled + 1))
      else (Ok(()), Slept(length, seen.(stalled := p.stalled + 1)))
  }

  /** What has arrived is sent. */
  function AfterGrowth(env: Environment, resumeFrom: nat, length: nat, filesize: nat, p: Progress)
    : (Result<(), TransferError>, Progress)
    requires filesize > resumeFrom + p.sent
  {
    TransferExactly(env.sends, p.calls.sends, resumeFrom + p.sent, filesize);
    var (ok, offset, next) := Transferred(env.sends, p.calls.sends, resumeFrom + p.sent, filesize);
    var p' := p.(sent := offset - resumeFrom, stalled := 0, calls := Calls(p.calls.polls, next, p.calls.flushes + 1));
    if ok && env.flushes(p.calls.flushes) then (Ok(()), Slept(length, p')) else (Err(SendFailed), p')
  }

  /** There is a sleep unless everything has been sent. */
  function Slept(length: nat, p: Progress): Progress {
    if p.sent < length then p.(sleeps := p.sleeps + 1) else p
  }

  /** All iterations. */
  function Watch(env: Environment, resumeFrom: nat, length: nat, maxPollsWithoutProgress: nat, p: Progress)
    : (Result<(), TransferError>, Progress)
    decreases Max(0, length - p.sent), Max(0, StallLimit(maxPollsWithoutProgress) - p.stalled)
  {
    if p.sent >= length then (Ok(()), p)
    else
      NextGoesOn(env, resumeFrom, length, maxPollsWithoutProgress, p);
      var (r, p') := Next(env, resumeFrom, length, maxPollsWithoutProgress, p);
      if r.Ok? then Watch(env, resumeFrom, length, maxPollsWithoutProgress, p') else (r, p')
  }

  /** The number of polls after which the loop gives up; the first poll without growth is made in any case. */
  function StallLimit(maxPollsWithoutProgress: nat): nat {
    if maxPollsWithoutProgress == 0 then 1 else maxPollsWithoutProgress
  }

  lemma NextGoesOn(env: Environment, resumeFrom: nat, length: nat, maxPollsWithoutProgress: nat, p: Progress)
    ensures var (r, p') := Next(env, resumeFrom, length, maxPollsWithoutProgress, p);
            r.Ok? ==> || p'.sent > p.sent
                      || (p'.sent == p.sent && p.stalled < p'.stalled < StallLimit(maxPollsWithoutProgress))
  {
    match env.sizes(p.calls.polls)
    case None =>
    case Some(filesize) =>
      if filesize > resumeFrom + p.sent {
        TransferExactly(env.sends, p.calls.sends, resumeFrom + p.sent, filesize);
      }
  }

  /** The body of the loop. What the client has been sent before goes on without a gap. */
  method PollOnce(source: ClientFileSource, resumeFrom: nat, contentLength: nat, maxPollsWithoutProgress: nat, p: Progress,
                  ghost before: seq<bv8>)
    returns (r: Result<(), TransferError>, p': Progress)
    requires source.Valid() && source.Made() == p.calls
    requires source.socket == before + Slice(source.content, resumeFrom, resumeFrom + p.sent)
    modifies source
    ensures source.Valid() && source.Made() == p'.calls
    ensures (r, p') == Next(source.env, resumeFrom, contentLength, maxPollsWithoutProgress, p)
    ensures p'.sent >= p.sent && (p'.sent > p.sent ==> resumeFrom + p'.sent <= |source.content|)
    ensures source.socket == before + Slice(source.content, resumeFrom, resumeFrom + p'.sent)
  {
    var polled := source.CurrentFilesize();
    p' := p.(calls := p.calls.(polls := p.calls.polls + 1));
    if polled.Err? {
      return Err(PollFailed), p';
    }
    var filesize := polled.value;
    p' := p'.(polls := Poll(p.polls, filesize));
    if filesize > resumeFrom + p.sent {
      var result, offset := source.Send(filesize, resumeFrom + p.sent, resumeFrom, before);
      p' := p'.(sent := offset - resumeFrom, stalled := 0, calls := source.Made());
      if result.Err? {
        return Err(SendFailed), p';
      }
    } else {
      p' := p'.(stalled := p.stalled + 1);
      if p'.stalled >= maxPollsWithoutProgress {
        return Err(Stalled), p';
      }
    }
    if p'.sent < contentLength {
      p' := p'.(sleeps := p'.sleeps + 1);
    }
    r := Ok(());
  }

  /** The polling loop, for whatever content length was announced. If no less was announced than there is, success means exactly
      the announced length; if more was announced than there is, there is no success. If nothing fails, it succeeds exactly if
      the file gets far enough before it has stalled for as many polls as the limit says. */
  method ServeGrowingFileLoop(source: ClientFileSource, resumeFrom: nat, contentLength: nat, maxPollsWithoutProgress: nat)
    returns (r: Result<(), TransferError>, p: Progress)
    requires source.Valid()
    modifies source
    ensures source.Valid() && source.Made() == p.calls && (p.sent > 0 ==> resumeFrom + p.sent <= |source.content|)
    ensures source.socket == old(source.socket) + Slice(source.content, resumeFrom, resumeFrom + p.sent)
    ensures r.Ok? && |source.content| <= resumeFrom + contentLength ==> p.sent == contentLength
    ensures Accounted(source.env, old(source.Made()), resumeFrom, contentLength, StallLimit(maxPollsWithoutProgress), r, p)
  {
    ghost var before, first := source.socket, source.Made();
    p := AtStart(source.Made());
    ghost var all := Watch(source.env, resumeFrom, contentLength, maxPollsWithoutProgress, p);
    WatchFromStart(source.env, resumeFrom, contentLength, maxPollsWithoutProgress, first);
    while p.sent < contentLength
      invariant source.Valid() && source.Made() == p.calls && (p.sent > 0 ==> resumeFrom + p.sent <= |source.content|)
      invariant source.socket == before + Slice(source.content, resumeFrom, resumeFrom + p.sent)
      invariant Watch(source.env, resumeFrom, contentLength, maxPollsWithoutProgress, p) == all
      decreases Max(0, contentLength - p.sent), Max(0, StallLimit(maxPollsWithoutProgress) - p.stalled)
    {
      NextGoesOn(source.env, resumeFrom, contentLength, maxPollsWithoutProgress, p);
      r, p := PollOnce(source, resumeFrom, contentLength, maxPollsWithoutProgress, p, before);
      if r.Err? {
        return;
      }
    }
    r := Ok(());
  }

  // ---- What the loop has to answer for ----

  /** The accounts of the loop: how far the client has got, the current run without growth, and that every byte
      sent has paid for at most as many polls as the limit says. */
  ghost predicate Accounts(resumeFrom: nat, polls: Polls, sent: nat, stalled: nat, limit: nat) {
    && resumeFrom + sent == Received(resumeFrom, polls)
    && stalled == StallRun(resumeFrom, polls)
    && StallsAtTheEndOnly(resumeFrom, polls, limit)
    && Count(polls) <= Times(sent, limit) + stalled
  }

  lemma OnePollMore(resumeFrom: nat, polls: Polls, sent: nat, stalled: nat, limit: nat, filesize: nat, length: nat)
    requires Accounts(resumeFrom, polls, sent, stalled, limit) && stalled < limit && sent < length
    ensures Count(Poll(polls, filesize)) <= Times(length, limit)
    ensures filesize > resumeFrom + sent ==> Accounts(resumeFrom, Poll(polls, filesize), filesize - resumeFrom, 0, limit)
    ensures filesize <= resumeFrom + sent ==> Accounts(resumeFrom, Poll(polls, filesize), sent, stalled + 1, limit)
  {
    TimesGrows(sent, length, limit);
    if filesize > resumeFrom + sent {
      TimesGrows(sent, filesize - resumeFrom, limit);
    }
  }

  /** The loop is at its head: the accounts are right, the stall limit is not reached, and there was a sleep after each poll
      that did not get to the end. */
  ghost predicate Underway(resumeFrom: nat, length: nat, limit: nat, p: Progress) {
    && Accounts(resumeFrom, p.polls, p.sent, p.stalled, limit) && p.stalled < limit
    && Count(p.polls) <= Times(length, limit)
    && (p.sent >= length ==> p.stalled == 0)
    && (p.polls.Poll? ==> Received(resumeFrom, p.polls.earlier) < resumeFrom + length)
    && p.sleeps == if p.polls == NoPoll || p.sent < length then Count(p.polls) else Count(p.polls) - 1
  }

  /** What the loop has to answer for, apart from the bytes: everything seen has been sent unless sending failed in the end; the
      stall error comes exactly when the stall limit is reached for the first time; nothing is polled once everything has been
      seen; no byte has cost more polls than the limit; and there was one sleep after each poll that neither finished nor
      failed. */
  ghost predicate Report(resumeFrom: nat, length: nat, limit: nat, r: Result<(), TransferError>, p: Progress) {
    && InTimeOrStalled(resumeFrom, length, limit, r, p.polls)
    && (r.Ok? ==> p.sent >= length)
    && (r == Err(Stalled) ==> p.sent < length)
    && (r != Err(SendFailed) ==> resumeFrom + p.sent == Received(resumeFrom, p.polls))
    && (p.polls.Poll? ==> Received(resumeFrom, p.polls.earlier) <= resumeFrom + p.sent <= Received(resumeFrom, p.polls))
    && Count(p.polls) <= Times(length, limit)
    && p.sleeps == if r == Err(PollFailed) || p.polls == NoPoll then Count(p.polls) else Count(p.polls) - 1
  }

  /** What the report says about success and about stalls. */
  ghost predicate InTimeOrStalled(resumeFrom: nat, length: nat, limit: nat, r: Result<(), TransferError>, polls: Polls) {
    && (r.Ok? ==> Received(resumeFrom, polls) >= resumeFrom + length)
    && (r == Err(Stalled) <==> StallRun(resumeFrom, polls) == limit)
    && StallsAtTheEndOnly(resumeFrom, polls, limit)
    && (polls.Poll? ==> Received(resumeFrom, polls.earlier) < resumeFrom + length)
  }

  /** The polls are those that were made, beginning with the first, and none of them has failed. */
  ghost predicate Seen(sizes: nat -> Option<nat>, first: nat, polls: Polls) {
    match polls
    case NoPoll => true
    case Poll(earlier, filesize) => Seen(sizes, first, earlier) && sizes(first + Count(earlier)) == Some(filesize)
  }

  /** All that has been sent between two moments has been sent without an error. */
  ghost predicate NoSendFailed(env: Environment, first: Calls, last: Calls) {
    AllSent(env.sends, first.sends, last.sends) && AllFlushed(env.flushes, first.flushes, last.flushes)
  }

  /** The polls that were made are those of the environment, and an error is reported exactly if there was one: that of a poll if
      the last poll has failed, and that of sending if some call has failed. */
  ghost predicate Answers(env: Environment, first: Calls, p: Progress, r: Result<(), TransferError>) {
    && Seen(env.sizes, first.polls, p.polls)
    && p.calls.polls == first.polls + Count(p.polls) + (if r == Err(PollFailed) then 1 else 0)
    && (r == Err(PollFailed) <==> p.calls.polls > first.polls && env.sizes(p.calls.polls - 1) == None)
    && (r == Err(SendFailed) <==> !NoSendFailed(env, first, p.calls))
    && first.sends <= p.calls.sends && first.flushes <= p.calls.flushes
  }

  /** The loop goes on with right accounts, or ends with a right report. */
  ghost predicate Stands(resumeFrom: nat, length: nat, limit: nat, next: (Result<(), TransferError>, Progress)) {
    if next.0.Ok? then Underway(resumeFrom, length, limit, next.1) else Report(resumeFrom, length, limit, next.0, next.1)
  }

  /** The file has grown, and what has arrived is sent, or a part of it. */
  lemma GrowthStands(resumeFrom: nat, length: nat, limit: nat, filesize: nat, p: Progress, p': Progress)
    requires Underway(resumeFrom, length, limit, p) && p.sent < length && filesize > resumeFrom + p.sent
    requires p'.polls == Poll(p.polls, filesize) && p'.stalled == 0 && p.sent <= p'.sent <= filesize - resumeFrom
    requires p'.sleeps == p.sleeps
    ensures p'.sent == filesize - resumeFrom ==> Stands(resumeFrom, length, limit, (Ok(()), Slept(length, p')))
    ensures Stands(resumeFrom, length, limit, (Err(SendFailed), p'))
  {
    OnePollMore(resumeFrom, p.polls, p.sent, p.stalled, limit, filesize, length);
  }

  /** The file has not grown. */
  lemma StallStands(resumeFrom: nat, length: nat, limit: nat, filesize: nat, p: Progress, p': Progress)
    requires Underway(resumeFrom, length, limit, p) && p.sent < length && filesize <= resumeFrom + p.sent
    requires p'.polls == Poll(p.polls, filesize) && p'.stalled == p.stalled + 1 && p'.sent == p.sent && p'.sleeps == p.sleeps
    ensures Stands(resumeFrom, length, limit, if p'.stalled < limit then (Ok(()), Slept(length, p')) else (Err(Stalled), p'))
  {
    OnePollMore(resumeFrom, p.polls, p.sent, p.stalled, limit, filesize, length);
  }

  lemma FailedPollStands(resumeFrom: nat, length: nat, limit: nat, p: Progress, p': Progress)
    requires Underway(resumeFrom, length, limit, p) && p.sent < length && p' == p.(calls := p'.calls)
    ensures Stands(resumeFrom, length, limit, (Err(PollFailed), p'))
  {
  }

  lemma AfterGrowthStands(env: Environment, resumeFrom: nat, length: nat, limit: nat, filesize: nat, p: Progress, seen: Progress)
    requires Underway(resumeFrom, length, limit, p) && p.sent < length && filesize > resumeFrom + p.sent
    requires seen == p.(polls := Poll(p.polls, filesize), calls := seen.calls)
    ensures Stands(resumeFrom, length, limit, AfterGrowth(env, resumeFrom, length, filesize, seen))
  {
    TransferExactly(env.sends, seen.calls.sends, resumeFrom + p.sent, filesize);
    var (ok, offset, next) := Transferred(env.sends, seen.calls.sends, resumeFrom + p.sent, filesize);
    var made := Calls(seen.calls.polls, next, seen.calls.flushes + 1);
    var p' := seen.(sent := offset - resumeFrom, stalled := 0, calls := made);
    assert AfterGrowth(env, resumeFrom, length, filesize, seen)
        == if ok && env.flushes(seen.calls.flushes) then (Ok(()), Slept(length, p')) else (Err(SendFailed), p');
    GrowthStands(resumeFrom, length, limit, filesize, p, p');
  }

  lemma NextStands(env: Environment, resumeFrom: nat, length: nat, maxPollsWithoutProgress: nat, limit: nat, p: Progress)
    requires Underway(resumeFrom, length, limit, p) && p.sent < length && limit == StallLimit(maxPollsWithoutProgress)
    ensures Stands(resumeFrom, length, limit, Next(env, resumeFrom, length, maxPollsWithoutProgress, p))
  {
    var made := p.calls.(polls := p.calls.polls + 1);
    match env.sizes(p.calls.polls)
    case None => FailedPollStands(resumeFrom, length, limit, p, p.(calls := made));
    case Some(filesize) =>
      var seen := p.(polls := Poll(p.polls, filesize), calls := made);
      if filesize > resumeFrom + p.sent {
        AfterGrowthStands(env, resumeFrom, length, limit, filesize, p, seen);
      } else {
        var p' := seen.(stalled := p.stalled + 1);
        assert Next(env, resumeFrom, length, maxPollsWithoutProgress, p)
            == if p'.stalled < limit then (Ok(()), Slept(length, p')) else (Err(Stalled), p');
        StallStands(resumeFrom, length, limit, filesize, p, p');
      }
  }

  lemma NextAnswers(env: Environment, resumeFrom: nat, length: nat, maxPollsWithoutProgress: nat, p: Progress, first: Calls)
    requires Answers(env, first, p, Ok(()))
    ensures var (r, p') := Next(env, resumeFrom, length, maxPollsWithoutProgress, p);
            Answers(env, first, p', r)
  {
    match env.sizes(p.calls.polls)
    case None =>
    case Some(filesize) =>
      if filesize > resumeFrom + p.sent {
        TransferExactly(env.sends, p.calls.sends, resumeFrom + p.sent, filesize);
      }
  }

  lemma {:induction false} WatchReports(env: Environment, resumeFrom: nat, length: nat, maxPollsWithoutProgress: nat, p: Progress,
                                        first: Calls)
    requires Underway(resumeFrom, length, StallLimit(maxPollsWithoutProgress), p) && Answers(env, first, p, Ok(()))
    ensures var (r, p') := Watch(env, resumeFrom, length, maxPollsWithoutProgress, p);
            Report(resumeFrom, length, StallLimit(maxPollsWithoutProgress), r, p') && Answers(env, first, p', r)
    decreases Max(0, length - p.sent), Max(0, StallLimit(maxPollsWithoutProgress) - p.stalled)
  {
    if p.sent < length {
      NextGoesOn(env, resumeFrom, length, maxPollsWithoutProgress, p);
      NextStands(env, resumeFrom, length, maxPollsWithoutProgress, StallLimit(maxPollsWithoutProgress), p);
      NextAnswers(env, resumeFrom, length, maxPollsWithoutProgress, p, first);
      var (r, p') := Next(env, resumeFrom, length, maxPollsWithoutProgress, p);
      if r.Ok? {
        WatchReports(env, resumeFrom, length, maxPollsWithoutProgress, p', first);
      }
    }
  }

  /** All that the loop promises about its result: the report is right, the answers are those of the environment, and if nothing
      fails, the loop succeeds exactly if the file gets far enough in time. */
  ghost predicate Accounted(env: Environment, first: Calls, resumeFrom: nat, length: nat, limit: nat,
                            r: Result<(), TransferError>, p: Progress) {
    && Report(resumeFrom, length, limit, r, p) && Answers(env, first, p, r)
    && (NothingFails(env, first) ==> (r.Ok? <==> ReachesInTime(env.sizes, first.polls, resumeFrom, length, limit)))
  }

  lemma WatchFromStart(env: Environment, resumeFrom: nat, length: nat, maxPollsWithoutProgress: nat, first: Calls)
    ensures
      var (r, p) := Watch(env, resumeFrom, length, maxPollsWithoutProgress, AtStart(first));
      Accounted(env, first, resumeFrom, length, StallLimit(maxPollsWithoutProgress), r, p)
  {
    var (r, p) := Watch(env, resumeFrom, length, maxPollsWithoutProgress, AtStart(first));
    WatchReports(env, resumeFrom, length, maxPollsWithoutProgress, AtStart(first), first);
    OkExactlyWhen(env, first, resumeFrom, length, StallLimit(maxPollsWithoutProgress), r, p);
  }

  // ---- Exactly when the loop succeeds ----

  /** From the given moment on, no poll, no sendfile() call and no flush fails. */
  ghost predicate NothingFails(env: Environment, first: Calls) {
    && (forall k :: first.polls <= k ==> env.sizes(k).Some?)
    && (forall k :: first.sends <= k ==> env.sends(k).Some?)
    && (forall k :: first.flushes <= k ==> env.flushes(k))
  }

  /** The file reaches its length before there have been as many polls without growth as the limit says. */
  ghost predicate ReachesInTime(sizes: nat -> Option<nat>, first: nat, resumeFrom: nat, length: nat, limit: nat) {
    exists polls ::
      && Seen(sizes, first, polls) && Received(resumeFrom, polls) >= resumeFrom + length
      && StallsAtTheEndOnly(resumeFrom, polls, limit) && StallRun(resumeFrom, polls) < limit
  }

  lemma {:induction false} StallIsBounded(resumeFrom: nat, polls: Polls, limit: nat)
    requires StallsAtTheEndOnly(resumeFrom, polls, limit) && limit > 0
    ensures StallRun(resumeFrom, polls) <= limit
  {
  }

  /** Of two histories of the same polls, one is the beginning of the other. */
  lemma {:induction false} ShorterHistory(sizes: nat -> Option<nat>, first: nat, resumeFrom: nat, limit: nat,
                                          short: Polls, long: Polls)
    requires Seen(sizes, first, short) && Seen(sizes, first, long) && Count(short) <= Count(long)
    ensures Count(short) == Count(long) ==> short == long
    ensures Received(resumeFrom, short) <= Received(resumeFrom, long)
    ensures Count(short) < Count(long) && StallsAtTheEndOnly(resumeFrom, long, limit) ==> StallRun(resumeFrom, short) < limit
    decreases Count(long)
  {
    if Count(short) < Count(long) {
      ShorterHistory(sizes, first, resumeFrom, limit, short, long.earlier);
    } else if short.Poll? {
      ShorterHistory(sizes, first, resumeFrom, limit, short.earlier, long.earlier);
    }
  }

  /** A history that ends with a stall is too late: no other one reaches the length in time. */
  lemma StalledIsTooLate(sizes: nat -> Option<nat>, first: nat, resumeFrom: nat, length: nat, limit: nat, polls: Polls)
    requires Seen(sizes, first, polls) && StallRun(resumeFrom, polls) == limit > 0
    requires polls.Poll? ==> Received(resumeFrom, polls.earlier) < resumeFrom + length
    ensures !ReachesInTime(sizes, first, resumeFrom, length, limit)
  {
    if ReachesInTime(sizes, first, resumeFrom, length, limit) {
      var better :| Seen(sizes, first, better) && Received(resumeFrom, better) >= resumeFrom + length
                 && StallsAtTheEndOnly(resumeFrom, better, limit) && StallRun(resumeFrom, better) < limit;
      if Count(polls) <= Count(better) {
        ShorterHistory(sizes, first, resumeFrom, limit, polls, better);
      } else {
        ShorterHistory(sizes, first, resumeFrom, limit, better, polls.earlier);
      }
    }
  }

  lemma NothingFailsMeansNoError(env: Environment, first: Calls, p: Progress, r: Result<(), TransferError>)
    requires NothingFails(env, first) && Answers(env, first, p, r)
    ensures r.Ok? || r == Err(Stalled)
  {
    assert NoSendFailed(env, first, p.calls);
    assert p.calls.polls > first.polls ==> env.sizes(p.calls.polls - 1).Some?;
    assert r.Err? ==> r.error.PollFailed? || r.error.SendFailed? || r.error.Stalled?;
  }

  lemma OkExactlyWhen(env: Environment, first: Calls, resumeFrom: nat, length: nat, limit: nat,
                      r: Result<(), TransferError>, p: Progress)
    requires InTimeOrStalled(resumeFrom, length, limit, r, p.polls) && Answers(env, first, p, r) && limit > 0
    ensures NothingFails(env, first) ==>
      (r.Ok? <==> ReachesInTime(env.sizes, first.polls, resumeFrom, length, limit))
  {
    if r.Ok? {
      StallIsBounded(resumeFrom, p.polls, limit);
    } else if NothingFails(env, first) {
      NothingFailsMeansNoError(env, first, p, r);
      StalledIsTooLate(env.sizes, first.polls, resumeFrom, length, limit, p.polls);
    }
  }

  // ---- Replies as a whole ----

  /** Serves a package that is being downloaded, with whatever length was learned, and gives up after 20000 polls without growth.
      If the length is what is left of the content, then what arrives on success is exactly what the header announced. */
  method ServeFromGrowingFile(source: ClientFileSource, contentLength: nat, resumeFrom: Option<nat>)
    returns (header: ReplyHeader, r: Result<(), TransferError>, p: Progress)
    requires source.Valid()
    modifies source
    ensures header.contentLength == contentLength && (header.range.Some? <==> resumeFrom.Some?)
    ensures header.range.Some? && contentLength == RemainingContentLength(|source.content|, resumeFrom) ==>
      (ValidContentRange(header.range.value, |source.content|, contentLength) <==> resumeFrom.value < |source.content|)
    ensures source.Valid() && (p.sent > 0 ==> Offset(resumeFrom) + p.sent <= |source.content|)
    ensures source.socket == old(source.socket) + Slice(source.content, Offset(resumeFrom), Offset(resumeFrom) + p.sent)
    ensures r.Ok? ==> p.sent >= header.contentLength
    ensures r.Ok? && |source.content| <= Offset(resumeFrom) + contentLength ==> p.sent == header.contentLength
    ensures Accounted(source.env, old(source.Made()), Offset(resumeFrom), contentLength, 20_000, r, p)
  {
    header := Header(contentLength, resumeFrom);
    r, p :=
      ServeGrowingFileLoop(source, Offset(resumeFrom), contentLength, STALL_TIMEOUT_MICROS / POLL_INTERVAL_MICROS);
  }

  /** Serves a package that is complete. The subtraction must not underflow. */
  method ServeFromCompleteFile(source: ClientFileSource, resumeFrom: Option<nat>)
    returns (header: ReplyHeader, r: Result<nat, TransferError>, sent: nat)
    requires source.Valid() && source.file == source.content && Offset(resumeFrom) <= |source.file|
    modifies source`socket, source`numSends, source`numFlushes
    ensures header.contentLength == |source.content| - Offset(resumeFrom) && (header.range.Some? <==> resumeFrom.Some?)
    ensures header.range.Some? ==>
      (ValidContentRange(header.range.value, |source.content|, header.contentLength) <==> resumeFrom.value < |source.content|)
    ensures sent <= header.contentLength
    ensures source.socket == old(source.socket) + source.content[Offset(resumeFrom)..Offset(resumeFrom) + sent]
    ensures r.Ok? ==> sent == header.contentLength
    ensures r == if NoSendFailed(source.env, old(source.Made()), source.Made()) then Ok(|source.content|) else Err(SendFailed)
  {
    var filesize := |source.file|;
    header := Header(filesize - Offset(resumeFrom), resumeFrom);
    var offset;
    r, offset := source.SendPayloadAndFlush(filesize, Offset(resumeFrom));
    sent := offset - Offset(resumeFrom);
  }
}
