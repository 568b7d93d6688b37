/** Reading the request header of a client, however the network cuts it into pieces. */
module ClientHeader {
  import opened Wrappers

  const MAX_HEADER_SIZE: nat := 8192

  /** What the header parser makes of the bytes received so far: more are needed, or the verdict is reached
      (a request, or the error that goes back to the client). */
  datatype Verdict<+R> = Partial | Final(verdict: R)

  datatype ReadError = TimeLimit | WouldBlock | OtherFailure

  datatype Outcome<+R> = Answer(verdict: R) | SocketClosed | BufferSizeExceeded | TimedOut | Failed

  function OnReadError<R>(error: ReadError): Outcome<R> {
    match error case TimeLimit => TimedOut case WouldBlock => TimedOut case OtherFailure => Failed
  }

  type Parser<R> = seq<bv8> -> Verdict<R>

  /** A parser whose verdict is fixed once it is reached. */
  ghost predicate Settled<R(!new)>(parse: Parser<R>) {
    forall p, q :: parse(p).Final? && p <= q ==> parse(q) == parse(p)
  }

  /** Whether the k-th read fails, or else how many bytes it is willing to hand over at most; every read that does not fail
      and finds data returns at least one byte. */
  type Chunking = nat -> Result<nat, ReadError>

  ghost predicate NeverFails(chunking: Chunking) {
    forall k :: chunking(k).Ok?
  }

  function ReadSize(available: nat, space: nat, wish: nat): (s: nat)
    requires available > 0 && space > 0
    ensures 1 <= s <= available && s <= space && (1 <= wish <= available && wish <= space ==> s == wish)
  {
    Min(Max(1, wish), Min(available, space))
  }

  class ClientStream {
    const bytes: seq<bv8>
    const chunking: Chunking
    var position: nat
    var numReads: nat

    ghost predicate Valid()
      reads this
    {
      position <= |bytes|
    }

    constructor (bytes: seq<bv8>, chunking: Chunking)
      ensures Valid() && this.bytes == bytes && this.chunking == chunking && position == numReads == 0
    {
      this.bytes, this.chunking, this.position, this.numReads := bytes, chunking, 0, 0;
    }

    /** Fills the buffer from the given index on, unless the read fails. Zero means that the peer has closed the connection. */
    method Read(buf: array<bv8>, start: nat) returns (r: Result<nat, ReadError>)
      requires Valid() && start < buf.Length
      modifies this, buf
      ensures Valid() && numReads == old(numReads) + 1
      ensures r.Err? <==> chunking(old(numReads)).Err?
      ensures r.Err? ==> r.error == chunking(old(numReads)).error && position == old(position)
      ensures r.Ok? ==>
        && r.value == (if old(position) == |bytes| then 0
                       else ReadSize(|bytes| - old(position), buf.Length - start, chunking(old(numReads)).value))
        && start + r.value <= buf.Length && position == old(position) + r.value
        && buf[start..start + r.value] == bytes[old(position)..position]
      ensures buf[..start] == old(buf[..start])
    {
      var answer := chunking(numReads);
      numReads := numReads + 1;
      if answer.Err? {
        return Err(answer.error);
      }
      if position == |bytes| {
        return Ok(0);
      }
      var size := ReadSize(|bytes| - position, buf.Length - start, answer.value);
      forall i | 0 <= i < size {
        buf[start + i] := bytes[position + i];
      }
      position := position + size;
      r := Ok(size);
    }
  }

  /** The outcome when the first size bytes are in the buffer after k reads. */
  function ReadFrom<R>(parse: Parser<R>, stream: seq<bv8>, chunking: Chunking, size: nat, k: nat): Outcome<R>
    requires size <= |stream| && size <= MAX_HEADER_SIZE + 1
    decreases |stream| - size
  {
    if size >= MAX_HEADER_SIZE then BufferSizeExceeded
    else if chunking(k).Err? then OnReadError(chunking(k).error)
    else if size == |stream| then SocketClosed
    else
      var s := ReadSize(|stream| - size, MAX_HEADER_SIZE + 1 - size, chunking(k).value);
      if s > MAX_HEADER_SIZE then BufferSizeExceeded
      else
        match parse(stream[..size + s])
        case Final(verdict) => Answer(verdict)
        case Partial => ReadFrom(parse, stream, chunking, size + s, k + 1)
  }

  method ReadClientHeader<R>(stream: ClientStream, parse: Parser<R>) returns (r: Outcome<R>)
    requires stream.Valid() && stream.position == stream.numReads == 0
    modifies stream
    ensures r == ReadFrom(parse, stream.bytes, stream.chunking, 0, 0)
  {
    var buf := new bv8[MAX_HEADER_SIZE + 1];
    var sizeReadAll: nat := 0;
    while true
      invariant stream.Valid() && stream.position == sizeReadAll <= MAX_HEADER_SIZE + 1
      invariant buf[..sizeReadAll] == stream.bytes[..sizeReadAll]
      invariant ReadFrom(parse, stream.bytes, stream.chunking, 0, 0)
             == ReadFrom(parse, stream.bytes, stream.chunking, sizeReadAll, stream.numReads)
      decreases |stream.bytes| - sizeReadAll
    {
      if sizeReadAll >= MAX_HEADER_SIZE {
        return BufferSizeExceeded;
      }
      ghost var before := buf[..sizeReadAll];
      var read := stream.Read(buf, sizeReadAll);
      if read.Err? {
        return OnReadError(read.error);
      }
      var size := read.value;
      if size == 0 {
        return SocketClosed;
      }
      if size > MAX_HEADER_SIZE {
        return BufferSizeExceeded;
      }
      assert buf[..sizeReadAll + size] == before + buf[sizeReadAll..sizeReadAll + size];
      assert stream.bytes[..sizeReadAll + size] == before + stream.bytes[sizeReadAll..sizeReadAll + size];
      sizeReadAll := sizeReadAll + size;
      match parse(buf[..sizeReadAll])
      case Final(verdict) => return Answer(verdict);
      case Partial =>
    }
  }

  /** The outcome in terms of the bytes alone. */
  function OutcomeOf<R>(parse: Parser<R>, stream: seq<bv8>): Outcome<R> {
    if stream == [] then SocketClosed
    else if |stream| <= MAX_HEADER_SIZE && parse(stream).Final? then Answer(parse(stream).verdict)
    else if |stream| < MAX_HEADER_SIZE then SocketClosed
    else BufferSizeExceeded
  }

  /** Every chunking of a stream leads to the outcome that the bytes alone determine, as long as the stream
      fits the limit or is still undecided one byte past it. */
  lemma {:induction false} AnyChunking<R(!new)>(parse: Parser<R>, stream: seq<bv8>, chunking: Chunking, size: nat, k: nat)
    requires Settled(parse) && NeverFails(chunking)
    requires |stream| <= MAX_HEADER_SIZE || parse(stream[..MAX_HEADER_SIZE + 1]).Partial?
    requires size <= |stream| && size <= MAX_HEADER_SIZE + 1
    requires size == 0 || parse(stream[..size]).Partial?
    ensures ReadFrom(parse, stream, chunking, size, k) == OutcomeOf(parse, stream)
    decreases |stream| - size
  {
    if size == |stream| {
      assert stream[..size] == stream;
    } else if size < MAX_HEADER_SIZE {
      var s := ReadSize(|stream| - size, MAX_HEADER_SIZE + 1 - size, chunking(k).value);
      if |stream| <= MAX_HEADER_SIZE {
        assert stream[..size + s] <= stream;
      } else {
        assert stream[..size + s] <= stream[..MAX_HEADER_SIZE + 1];
      }
      if parse(stream[..size + s]).Partial? {
        AnyChunking(parse, stream, chunking, size + s, k + 1);
      }
    }
  }

  /** As long as no read fails, header reading is independent of chunking for exactly the streams that stay within 8192 bytes,
      or that the parser has not decided one byte later. */
  lemma ChunkingDoesNotMatterExactlyWhen<R(!new)>(parse: Parser<R>, stream: seq<bv8>)
    requires Settled(parse)
    ensures (forall a: Chunking, b: Chunking :: NeverFails(a) && NeverFails(b) ==>
               ReadFrom(parse, stream, a, 0, 0) == ReadFrom(parse, stream, b, 0, 0))
        <==> |stream| <= 8192 || parse(stream[..8193]).Partial?
  {
    if |stream| <= MAX_HEADER_SIZE || parse(stream[..MAX_HEADER_SIZE + 1]).Partial? {
      forall a: Chunking, b: Chunking | NeverFails(a) && NeverFails(b)
        ensures ReadFrom(parse, stream, a, 0, 0) == ReadFrom(parse, stream, b, 0, 0)
      {
        AnyChunking(parse, stream, a, 0, 0);
        AnyChunking(parse, stream, b, 0, 0);
      }
    } else {
      var atOnce, inTwo := LongHeaderGoesEitherWay(parse, stream);
      assert ReadFrom(parse, stream, atOnce, 0, 0) != ReadFrom(parse, stream, inTwo, 0, 0);
    }
  }

  /** A longer header that is decided is refused if it arrives at once, and answered if it arrives in two parts. */
  lemma LongHeaderGoesEitherWay<R(!new)>(parse: Parser<R>, stream: seq<bv8>) returns (atOnce: Chunking, inTwo: Chunking)
    requires Settled(parse) && |stream| > MAX_HEADER_SIZE && parse(stream[..MAX_HEADER_SIZE + 1]).Final?
    ensures NeverFails(atOnce) && NeverFails(inTwo)
    ensures ReadFrom(parse, stream, atOnce, 0, 0) == BufferSizeExceeded
    ensures ReadFrom(parse, stream, inTwo, 0, 0).Answer?
  {
    atOnce := k => Ok(MAX_HEADER_SIZE + 1);
    inTwo := k => Ok(if k == 0 then MAX_HEADER_SIZE - 1 else 2);
    if parse(stream[..MAX_HEADER_SIZE - 1]).Partial? {
      assert ReadFrom(parse, stream, inTwo, 0, 0) == ReadFrom(parse, stream, inTwo, MAX_HEADER_SIZE - 1, 1);
    }
  }

  /** A concrete stream of 8193 bytes that is refused or answered, depending on the chunking. */
  lemma ChunkingCanMatter() returns (parse: Parser<()>, stream: seq<bv8>, atOnce: Chunking, inTwo: Chunking)
    ensures |stream| == 8193 && Settled(parse) && NeverFails(atOnce) && NeverFails(inTwo)
    ensures ReadFrom(parse, stream, atOnce, 0, 0) == BufferSizeExceeded
    ensures ReadFrom(parse, stream, inTwo, 0, 0) == Answer(())
  {
    parse := bytes => if bytes == [] then Partial else Final(());
    stream := seq(MAX_HEADER_SIZE + 1, i => 0);
    atOnce, inTwo := LongHeaderGoesEitherWay(parse, stream);
  }

  // ---- Reads that fail ----

  /** From where the first size bytes are there after k reads, the loop gets as far as making the n-th read: none before it fails,
      or reaches the end or the limit, or decides the parser. */
  predicate GetsTo<R>(parse: Parser<R>, stream: seq<bv8>, chunking: Chunking, size: nat, k: nat, n: nat)
    requires size <= |stream| && size <= 8193
    decreases |stream| - size
  {
    && size < 8192
    && (k == n ||
        (&& chunking(k).Ok? && size < |stream|
         && var more := size + ReadSize(|stream| - size, 8193 - size, chunking(k).value);
            more - size <= 8192 && parse(stream[..more]).Partial? && GetsTo(parse, stream, chunking, more, k + 1, n)))
  }

  lemma {:induction false} ErrorsExactlyFrom<R>(parse: Parser<R>, stream: seq<bv8>, chunking: Chunking, size: nat, k: nat)
    requires size <= |stream| && size <= 8193
    ensures ReadFrom(parse, stream, chunking, size, k) == TimedOut <==>
      exists n :: GetsTo(parse, stream, chunking, size, k, n) && (chunking(n) == Err(TimeLimit) || chunking(n) == Err(WouldBlock))
    ensures ReadFrom(parse, stream, chunking, size, k) == Failed <==>
      exists n :: GetsTo(parse, stream, chunking, size, k, n) && chunking(n) == Err(OtherFailure)
    decreases |stream| - size
  {
    if size < 8192 && chunking(k).Ok? && size < |stream| {
      var more := size + ReadSize(|stream| - size, 8193 - size, chunking(k).value);
      if more - size <= 8192 && parse(stream[..more]).Partial? {
        ErrorsExactlyFrom(parse, stream, chunking, more, k + 1);
        assert forall n :: n != k ==>
          (GetsTo(parse, stream, chunking, size, k, n) <==> GetsTo(parse, stream, chunking, more, k + 1, n));
      }
    } else if size < 8192 {
      assert GetsTo(parse, stream, chunking, size, k, k);
    }
  }

  /** Reading times out exactly if the loop gets to a read that hits the time limit or would block, and fails exactly if it gets
      to one that fails otherwise. */
  lemma ErrorsExactlyWhen<R>(parse: Parser<R>, stream: seq<bv8>, chunking: Chunking)
    ensures ReadFrom(parse, stream, chunking, 0, 0) == TimedOut <==>
      exists n :: GetsTo(parse, stream, chunking, 0, 0, n) && (chunking(n) == Err(TimeLimit) || chunking(n) == Err(WouldBlock))
    ensures ReadFrom(parse, stream, chunking, 0, 0) == Failed <==>
      exists n :: GetsTo(parse, stream, chunking, 0, 0, n) && chunking(n) == Err(OtherFailure)
  {
    ErrorsExactlyFrom(parse, stream, chunking, 0, 0);
  }
}
