/** What mirrors reply: the heads of one or several responses, as the header callbacks see them, and the body. The lemmas tell
    exactly for which replies an attempt panics, keeps to the rules for messages, and is whole when it succeeds. */
module MirrorReplies {
  import opened Wrappers
  import opened CacheState
  import opened CompleteFileSize
  import opened Download

  /** The head of a response, line by line. */
  datatype Head = Head(lines: seq<seq<bv8>>, code: nat, contentLength: Option<nat>)

  function StatusOf(h: Head): ParseStatus {
    Parsed(h.code, h.contentLength)
  }

  /** The parser reads one head and ignores what comes after it. */
  ghost predicate Settled(parse: HeaderParser) {
    forall p, q :: parse(p).Parsed? && p <= q ==> parse(q) == parse(p)
  }

  /** The lines add up to a complete head with the last one, and not before. */
  ghost predicate IsHead(parse: HeaderParser, h: Head) {
    && h.lines != []
    && (forall k :: 0 < k < |h.lines| ==> parse(Concat(h.lines[..k])) == Incomplete)
    && parse(Concat(h.lines)) == StatusOf(h)
  }

  /** The lines of a head that is cut off, or that the parser rejects. */
  ghost predicate IsCut(parse: HeaderParser, cut: seq<seq<bv8>>) {
    forall k :: 0 < k <= |cut| ==> !parse(Concat(cut[..k])).Parsed?
  }

  /** The parser does not reject what the lines after the first k add up to. */
  ghost predicate Accepts(parse: HeaderParser, lines: seq<seq<bv8>>, k: nat) {
    forall j :: k < j <= |lines| ==> parse(Concat(lines[..j])) != Malformed
  }

  function LinesOf(heads: seq<Head>): seq<seq<bv8>> {
    if heads == [] then [] else heads[0].lines + LinesOf(heads[1..])
  }

  /** A reply that consists of complete heads, and maybe a cut one; only after complete heads is there a body, a trailer (which is
      not a head), or a good end. */
  ghost predicate Consists(parse: HeaderParser, reply: Reply, heads: seq<Head>, cut: seq<seq<bv8>>) {
    && (forall i :: 0 <= i < |heads| ==> IsHead(parse, heads[i]))
    && IsCut(parse, cut)
    && reply.header == LinesOf(heads) + cut
    && reply.responseCode == (if heads == [] then 0 else heads[|heads| - 1].code)
    && (reply.ok || reply.chunks != [] || reply.trailers != [] ==> heads != [] && cut == [])
    && IsCut(parse, reply.trailers)
  }

  /** The first head that is not a redirect: it stays in the header buffer. */
  function Final(heads: seq<Head>): Option<Head> {
    if heads == [] then None
    else if IsRedirect(StatusOf(heads[0])) then Final(heads[1..])
    else Some(heads[0])
  }

  /** The number of header lines of the complete heads after that. */
  function LinesAfter(heads: seq<Head>): nat {
    if heads == [] then 0
    else if IsRedirect(StatusOf(heads[0])) then LinesAfter(heads[1..])
    else |LinesOf(heads[1..])|
  }

  function Repeat(messages: seq<FlexoProgress>, times: nat): seq<FlexoProgress> {
    if times == 0 then [] else messages + Repeat(messages, times - 1)
  }

  // ---- What the callbacks make of the heads ----

  /** Line by line until the head is complete. */
  lemma {:induction false} HeadIsSeen(parse: HeaderParser, t: Transfer, cacheable: bool, lastChance: bool,
                                      h: Head, k: nat, rest: seq<seq<bv8>>)
    requires IsHead(parse, h) && k < |h.lines|
    ensures
      var (t', goOn) := OnHeader(t, cacheable, lastChance, StatusOf(h));
      OnHeaders(t, cacheable, lastChance, Seen(parse, Concat(h.lines[..k]), h.lines[k..] + rest))
      == if !goOn then (t', false)
         else OnHeaders(t', cacheable, lastChance,
                        Seen(parse, if IsRedirect(StatusOf(h)) then [] else Concat(h.lines), rest))
    decreases |h.lines| - k
  {
    var lines := h.lines[k..] + rest;
    var status := parse(Concat(h.lines[..k]) + lines[0]);
    ConcatOne(h.lines, k);
    var later := Seen(parse, if IsRedirect(status) then [] else Concat(h.lines[..k + 1]), lines[1..]);
    assert ([status] + later)[1..] == later;
    if k + 1 < |h.lines| {
      HeadIsSeen(parse, t, cacheable, lastChance, h, k + 1, rest);
      assert lines[1..] == h.lines[k + 1..] + rest;
    } else {
      assert h.lines[..k + 1] == h.lines && lines[1..] == rest;
    }
  }

  /** Once a head stays in the buffer, every further line makes the callback see it again. */
  lemma {:induction false} HeadSticks(parse: HeaderParser, t: Transfer, cacheable: bool, lastChance: bool,
                                      status: ParseStatus, received: seq<bv8>, rest: seq<seq<bv8>>)
    requires Settled(parse) && parse(received) == status && status.Parsed? && !IsRedirect(status) && !Aborts(status)
    requires OnHeader(t, cacheable, lastChance, status).0 == t.(sent := t.sent + MessagesOn(status, lastChance, t.sizeWritten))
    ensures OnHeaders(t, cacheable, lastChance, Seen(parse, received, rest))
         == (t.(sent := t.sent + Repeat(MessagesOn(status, lastChance, t.sizeWritten), |rest|)), true)
    decreases |rest|
  {
    var messages := MessagesOn(status, lastChance, t.sizeWritten);
    if rest == [] {
      assert t.sent + [] == t.sent;
    } else {
      assert received <= received + rest[0];
      var later := Seen(parse, received + rest[0], rest[1..]);
      assert ([status] + later)[1..] == later;
      HeadSticks(parse, t.(sent := t.sent + messages), cacheable, lastChance, status, received + rest[0], rest[1..]);
      Associative(t.sent, messages, Repeat(messages, |rest| - 1));
    }
  }

  lemma {:induction false} CutIsSeen(parse: HeaderParser, t: Transfer, cacheable: bool, lastChance: bool,
                                     cut: seq<seq<bv8>>, k: nat)
    requires IsCut(parse, cut) && k <= |cut|
    ensures OnHeaders(t, cacheable, lastChance, Seen(parse, Concat(cut[..k]), cut[k..])) == (t, Accepts(parse, cut, k))
    decreases |cut| - k
  {
    if k < |cut| {
      ConcatOne(cut, k);
      var status := parse(Concat(cut[..k + 1]));
      var later := Seen(parse, Concat(cut[..k + 1]), cut[k + 1..]);
      assert cut[k..][1..] == cut[k + 1..] && ([status] + later)[1..] == later;
      CutIsSeen(parse, t, cacheable, lastChance, cut, k + 1);
    }
  }

  /** The callback sees the same head several times: what it does to header and side file, it does again, and the messages
      are sent each time. */
  function Again(t: Transfer, cacheable: bool, lastChance: bool, status: ParseStatus, times: nat): Transfer {
    if times == 0 then t
    else
      OnHeader(t, cacheable, lastChance, status).0
        .(sent := t.sent + Repeat(MessagesOn(status, lastChance, t.sizeWritten), times))
  }

  lemma LinesAgain(parse: HeaderParser, t: Transfer, cacheable: bool, lastChance: bool,
                   status: ParseStatus, received: seq<bv8>, lines: seq<seq<bv8>>)
    requires Settled(parse) && parse(received) == status && status.Parsed? && !IsRedirect(status) && !Aborts(status)
    ensures OnHeaders(t, cacheable, lastChance, Seen(parse, received, lines))
         == (Again(t, cacheable, lastChance, status, |lines|), true)
  {
    if lines != [] {
      var messages := MessagesOn(status, lastChance, t.sizeWritten);
      assert received <= received + lines[0];
      var later := Seen(parse, received + lines[0], lines[1..]);
      assert ([status] + later)[1..] == later;
      VerdictOfHeader(t, cacheable, lastChance, status);
      var t' := OnHeader(t, cacheable, lastChance, status).0;
      HeadSticks(parse, t', cacheable, lastChance, status, received + lines[0], lines[1..]);
      Associative(t.sent, messages, Repeat(messages, |lines| - 1));
    }
  }

  /** A final head, with any lines after it. */
  lemma FinalHeadDecides(parse: HeaderParser, t: Transfer, cacheable: bool, lastChance: bool, h: Head, rest: seq<seq<bv8>>)
    requires Settled(parse) && IsHead(parse, h) && !IsRedirect(StatusOf(h))
    ensures OnHeaders(t, cacheable, lastChance, Seen(parse, [], h.lines + rest))
         == AfterFinalHead(t, cacheable, lastChance, h, |rest|)
  {
    var messages := MessagesOn(StatusOf(h), lastChance, t.sizeWritten);
    HeadIsSeen(parse, t, cacheable, lastChance, h, 0, rest);
    assert h.lines[0..] == h.lines && Concat(h.lines[..0]) == [];
    var (t', goOn) := OnHeader(t, cacheable, lastChance, StatusOf(h));
    VerdictOfHeader(t, cacheable, lastChance, StatusOf(h));
    if goOn {
      HeadSticks(parse, t', cacheable, lastChance, StatusOf(h), Concat(h.lines), rest);
      Associative(t.sent, messages, Repeat(messages, |rest|));
    }
  }

  /** The messages of a final head are sent once more for each line after it. */
  function AfterFinalHead(t: Transfer, cacheable: bool, lastChance: bool, h: Head, linesAfter: nat): (Transfer, bool) {
    if Aborts(StatusOf(h)) then (t, false) else (Again(t, cacheable, lastChance, StatusOf(h), 1 + linesAfter), true)
  }

  /** The transfer after the header callbacks, in terms of the heads. */
  predicate Told(t: Transfer, cacheable: bool, lastChance: bool, heads: seq<Head>, cut: seq<seq<bv8>>, after: (Transfer, bool)) {
    match Final(heads)
    case None => after.0 == t && (cut == [] ==> after.1)
    case Some(h) => after == AfterFinalHead(t, cacheable, lastChance, h, LinesAfter(heads) + |cut|)
  }

  lemma ToldByFirst(t: Transfer, cacheable: bool, lastChance: bool, heads: seq<Head>, cut: seq<seq<bv8>>, after: (Transfer, bool))
    requires heads != []
    requires if IsRedirect(StatusOf(heads[0])) then Told(t, cacheable, lastChance, heads[1..], cut, after)
             else after == AfterFinalHead(t, cacheable, lastChance, heads[0], |LinesOf(heads[1..]) + cut|)
    ensures Told(t, cacheable, lastChance, heads, cut, after)
  {
  }

  /** Redirects leave no trace, and the first other head decides. */
  lemma {:induction false} FirstFinalHeadDecides(parse: HeaderParser, t: Transfer, cacheable: bool, lastChance: bool,
                                                 heads: seq<Head>, cut: seq<seq<bv8>>)
    requires Settled(parse) && IsCut(parse, cut) && forall i :: 0 <= i < |heads| ==> IsHead(parse, heads[i])
    ensures Told(t, cacheable, lastChance, heads, cut,
                 OnHeaders(t, cacheable, lastChance, Seen(parse, [], LinesOf(heads) + cut)))
    decreases |heads|
  {
    if heads == [] {
      CutIsSeen(parse, t, cacheable, lastChance, cut, 0);
      assert [] + cut == cut[0..] && Concat(cut[..0]) == [];
    } else {
      var h, rest := heads[0], LinesOf(heads[1..]) + cut;
      assert LinesOf(heads) + cut == h.lines + rest;
      if IsRedirect(StatusOf(h)) {
        RedirectLeavesNoTrace(parse, t, cacheable, lastChance, h, rest);
        FirstFinalHeadDecides(parse, t, cacheable, lastChance, heads[1..], cut);
      } else {
        FinalHeadDecides(parse, t, cacheable, lastChance, h, rest);
      }
      ToldByFirst(t, cacheable, lastChance, heads, cut,
                  OnHeaders(t, cacheable, lastChance, Seen(parse, [], LinesOf(heads) + cut)));
    }
  }

  lemma RedirectLeavesNoTrace(parse: HeaderParser, t: Transfer, cacheable: bool, lastChance: bool, h: Head, rest: seq<seq<bv8>>)
    requires IsHead(parse, h) && IsRedirect(StatusOf(h))
    ensures OnHeaders(t, cacheable, lastChance, Seen(parse, [], h.lines + rest))
         == OnHeaders(t, cacheable, lastChance, Seen(parse, [], rest))
  {
    HeadIsSeen(parse, t, cacheable, lastChance, h, 0, rest);
    assert h.lines[0..] == h.lines && Concat(h.lines[..0]) == [];
  }

  // ---- What is left in the header buffer for the trailer ----

  lemma {:induction false} LeftOfHead(parse: HeaderParser, h: Head, k: nat, rest: seq<seq<bv8>>)
    requires IsHead(parse, h) && k < |h.lines|
    ensures Left(parse, Concat(h.lines[..k]), h.lines[k..] + rest)
         == Left(parse, if IsRedirect(StatusOf(h)) then [] else Concat(h.lines), rest)
    decreases |h.lines| - k
  {
    var lines := h.lines[k..] + rest;
    ConcatOne(h.lines, k);
    if k + 1 < |h.lines| {
      LeftOfHead(parse, h, k + 1, rest);
      assert lines[1..] == h.lines[k + 1..] + rest;
    } else {
      assert h.lines[..k + 1] == h.lines && lines[1..] == rest;
    }
  }

  lemma {:induction false} LeftSticks(parse: HeaderParser, received: seq<bv8>, lines: seq<seq<bv8>>)
    requires Settled(parse) && parse(received).Parsed? && !IsRedirect(parse(received))
    ensures parse(Left(parse, received, lines)) == parse(received)
    decreases |lines|
  {
    if lines != [] {
      assert received <= received + lines[0];
      LeftSticks(parse, received + lines[0], lines[1..]);
    }
  }

  /** The first final head stays in the buffer; without one, nothing does. */
  lemma {:induction false} FirstFinalHeadStays(parse: HeaderParser, heads: seq<Head>)
    requires Settled(parse) && forall i :: 0 <= i < |heads| ==> IsHead(parse, heads[i])
    ensures var left := Left(parse, [], LinesOf(heads));
            match Final(heads) case None => left == [] case Some(h) => parse(left) == StatusOf(h)
    decreases |heads|
  {
    if heads != [] {
      var h, rest := heads[0], LinesOf(heads[1..]);
      LeftOfHead(parse, h, 0, rest);
      assert h.lines[0..] == h.lines && Concat(h.lines[..0]) == [];
      if IsRedirect(StatusOf(h)) {
        FirstFinalHeadStays(parse, heads[1..]);
      } else {
        LeftSticks(parse, Concat(h.lines), rest);
      }
    }
  }

  // ---- A transfer as a whole, in terms of the heads ----

  lemma {:induction false} FinalIsNoRedirect(heads: seq<Head>)
    requires Final(heads).Some?
    ensures Final(heads).value in heads && !IsRedirect(StatusOf(Final(heads).value))
  {
    if IsRedirect(StatusOf(heads[0])) {
      FinalIsNoRedirect(heads[1..]);
    }
  }

  lemma {:induction false} OnlyRedirects(heads: seq<Head>)
    requires Final(heads) == None && heads != []
    ensures IsRedirect(StatusOf(heads[|heads| - 1]))
  {
    if |heads| > 1 {
      OnlyRedirects(heads[1..]);
    }
  }

  /** A single response. */
  lemma OneHead(parse: HeaderParser, reply: Reply, h: Head)
    requires IsHead(parse, h) && reply.header == h.lines && reply.responseCode == h.code && IsCut(parse, reply.trailers)
    ensures Consists(parse, reply, [h], [])
    ensures Final([h]) == (if IsRedirect(StatusOf(h)) then None else Some(h)) && LinesAfter([h]) == 0
  {
    assert [h][1..] == [] && LinesOf([]) == [];
    assert LinesOf([h]) == h.lines + [] == h.lines && h.lines + [] == h.lines;
  }

  /** The status that goes on to be seen by the header callback, if there is one. */
  function Sticking(heads: seq<Head>): Option<ParseStatus> {
    match Final(heads)
    case None => None
    case Some(h) => if Aborts(StatusOf(h)) then None else Some(StatusOf(h))
  }

  /** What a transfer becomes, with the heads instead of the parser: header callbacks lead to header, body callbacks to body,
      and every trailer line is one more callback on the head that sticks in the buffer. */
  ghost predicate Unfolds(t: Transfer, cacheable: bool, lastChance: bool, reply: Reply, heads: seq<Head>, cut: seq<seq<bv8>>,
                          header: (Transfer, bool), body: Transfer, t': Transfer) {
    && Told(t, cacheable, lastChance, heads, cut, header)
    && BodyDelivered(header, reply, body)
    && t' == (match Sticking(heads)
              case None => body
              case Some(status) => Again(body, cacheable, lastChance, status, |reply.trailers|))
  }

  /** The transfer gets to its end: the mirror does not break off, no callback rejects a payload without length, and, when nothing
      but redirects has come before, none rejects the trailer. */
  ghost predicate EndsWell(parse: HeaderParser, reply: Reply, heads: seq<Head>) {
    reply.ok && if Final(heads) == None then Accepts(parse, reply.trailers, 0) else !Aborts(StatusOf(Final(heads).value))
  }

  /** The outcome, with the heads instead of the callbacks. */
  ghost predicate Concludes(parse: HeaderParser, reply: Reply, heads: seq<Head>, body: Transfer, outcome: Outcome) {
    if Final(heads) == None && reply.chunks != [] then outcome == Panicked
    else outcome == Classify(EndsWell(parse, reply, heads), reply.responseCode, ProgressOf(body.sizeWritten))
  }

  lemma TrailersAreSeen(parse: HeaderParser, t: Transfer, cacheable: bool, lastChance: bool, reply: Reply,
                        heads: seq<Head>, cut: seq<seq<bv8>>, goOn: bool)
    requires Settled(parse) && Consists(parse, reply, heads, cut)
    ensures var after := AfterTrailers(t, goOn, cacheable, lastChance, parse, reply);
            && (!goOn ==> after == (t, false))
            && (goOn && Final(heads) == None ==> after == (t, Accepts(parse, reply.trailers, 0)))
            && (goOn && Sticking(heads).Some? ==>
                  after == (Again(t, cacheable, lastChance, Sticking(heads).value, |reply.trailers|), true))
  {
    if reply.trailers != [] {
      FirstFinalHeadStays(parse, heads);
      assert LinesOf(heads) + [] == LinesOf(heads);
    }
    if Final(heads) == None {
      CutIsSeen(parse, t, cacheable, lastChance, reply.trailers, 0);
      assert reply.trailers[0..] == reply.trailers && Concat(reply.trailers[..0]) == [];
    } else {
      FinalIsNoRedirect(heads);
      if Sticking(heads).Some? && reply.trailers != [] {
        LinesAgain(parse, t, cacheable, lastChance, Sticking(heads).value, Left(parse, [], reply.header), reply.trailers);
      }
    }
  }

  /** Whatever the mirror replies, the transfer unfolds and concludes as the heads say. */
  lemma HeadsTellAll(parse: HeaderParser, t: Transfer, cacheable: bool, lastChance: bool, reply: Reply,
                     heads: seq<Head>, cut: seq<seq<bv8>>, t': Transfer, outcome: Outcome)
    returns (header: (Transfer, bool), body: Transfer)
    requires Settled(parse) && Consists(parse, reply, heads, cut) && t.header == None
    requires Served(t, cacheable, lastChance, parse, reply, t', outcome)
    ensures Unfolds(t, cacheable, lastChance, reply, heads, cut, header, body, t')
    ensures Concludes(parse, reply, heads, body, outcome)
  {
    header := AfterHeaders(t, cacheable, lastChance, parse, reply);
    body :| BodyDelivered(header, reply, body) && Ends(header, body, cacheable, lastChance, parse, reply, t', outcome);
    FirstFinalHeadDecides(parse, t, cacheable, lastChance, heads, cut);
    TrailersAreSeen(parse, body, cacheable, lastChance, reply, heads, cut, header.1);
    EndOfTransfer(parse, t, cacheable, lastChance, reply, heads, cut, header, body, t', outcome);
  }

  lemma EndOfTransfer(parse: HeaderParser, t: Transfer, cacheable: bool, lastChance: bool, reply: Reply,
                      heads: seq<Head>, cut: seq<seq<bv8>>, header: (Transfer, bool), body: Transfer, t': Transfer,
                      outcome: Outcome)
    requires t.header == None && (reply.ok || reply.chunks != [] || reply.trailers != [] ==> heads != [] && cut == [])
    requires Told(t, cacheable, lastChance, heads, cut, header) && BodyDelivered(header, reply, body)
    requires Ends(header, body, cacheable, lastChance, parse, reply, t', outcome)
    requires var after := AfterTrailers(body, header.1, cacheable, lastChance, parse, reply);
             && (!header.1 ==> after == (body, false))
             && (header.1 && Final(heads) == None ==> after == (body, Accepts(parse, reply.trailers, 0)))
             && (header.1 && Sticking(heads).Some? ==>
                   after == (Again(body, cacheable, lastChance, Sticking(heads).value, |reply.trailers|), true))
    ensures Unfolds(t, cacheable, lastChance, reply, heads, cut, header, body, t')
    ensures Concludes(parse, reply, heads, body, outcome)
  {
    AgainKeepsBytes(body, cacheable, lastChance, heads, |reply.trailers|);
    if Final(heads).Some? {
      FinalIsNoRedirect(heads);
      VerdictOfHeader(t, cacheable, lastChance, StatusOf(Final(heads).value));
    }
  }

  lemma AgainKeepsBytes(t: Transfer, cacheable: bool, lastChance: bool, heads: seq<Head>, times: nat)
    ensures Sticking(heads).Some? ==>
              var t' := Again(t, cacheable, lastChance, Sticking(heads).value, times);
              t'.file == t.file && t'.buffer == t.buffer && t'.sizeWritten == t.sizeWritten
  {
    if Sticking(heads).Some? {
      VerdictOfHeader(t, cacheable, lastChance, Sticking(heads).value);
    }
  }

  // ---- Exactly when an attempt keeps to the rules ----

  /** A transfer that is about to begin. */
  predicate IsFresh(t: Transfer) {
    t.header == None && t.sent == [] && t.buffer == [] && t.sizeWritten == |t.file|
  }

  /** Every head that is followed by another header line is a redirect. */
  predicate OneFinalHead(heads: seq<Head>, cut: seq<seq<bv8>>) {
    forall i :: 0 <= i < |heads| && (i < |heads| - 1 || cut != []) ==> IsRedirect(StatusOf(heads[i]))
  }

  lemma {:induction false} OneFinalHeadMeansNothingAfter(parse: HeaderParser, heads: seq<Head>, cut: seq<seq<bv8>>)
    requires forall i :: 0 <= i < |heads| ==> IsHead(parse, heads[i])
    ensures OneFinalHead(heads, cut) <==> Final(heads) == None || LinesAfter(heads) + |cut| == 0
  {
    if heads != [] {
      assert LinesOf(heads[1..]) != [] <==> |heads| > 1 by {
        if |heads| > 1 {
          assert IsHead(parse, heads[1]) && heads[1..][0] == heads[1];
        }
      }
      if IsRedirect(StatusOf(heads[0])) {
        OneFinalHeadMeansNothingAfter(parse, heads[1..], cut);
        assert OneFinalHead(heads, cut) <==> OneFinalHead(heads[1..], cut) by {
          assert forall i :: 0 < i < |heads| ==> heads[i] == heads[1..][i - 1];
        }
      }
    }
  }

  lemma {:induction false} RepeatHasEach(messages: seq<FlexoProgress>, times: nat)
    requires |messages| <= 1
    ensures |Repeat(messages, times)| == if messages == [] then 0 else times
    ensures messages != [] ==> forall i :: 0 <= i < times ==> Repeat(messages, times)[i] == messages[0]
  {
    if times > 0 {
      RepeatHasEach(messages, times - 1);
    }
  }

  function FinalMessages(heads: seq<Head>, lastChance: bool, start: nat): seq<FlexoProgress> {
    match Final(heads) case None => [] case Some(h) => MessagesOn(StatusOf(h), lastChance, start)
  }

  /** Whatever a mirror sends: the messages of the attempt keep to the rules, exactly if every head that is followed by another
      header line, in a head or in the trailer, is a redirect, or the first other head has no message. Interim responses
      (section 15.2 of RFC 9110) and trailers after errors do not meet this condition on the last chance. */
  lemma RulesKeptExactlyWhen(parse: HeaderParser, t: Transfer, cacheable: bool, lastChance: bool, reply: Reply,
                             heads: seq<Head>, cut: seq<seq<bv8>>, t': Transfer, outcome: Outcome)
    requires Settled(parse) && Consists(parse, reply, heads, cut) && IsFresh(t)
    requires Served(t, cacheable, lastChance, parse, reply, t', outcome)
    ensures AttemptMessages(t'.sent, lastChance)
       <==> || (OneFinalHead(heads, cut) && reply.trailers == [])
            || FinalMessages(heads, lastChance, t.sizeWritten) == []
  {
    var header, body := HeadsTellAll(parse, t, cacheable, lastChance, reply, heads, cut, t', outcome);
    OneFinalHeadMeansNothingAfter(parse, heads, cut);
    MessagesOfReply(t, cacheable, lastChance, reply, heads, cut, header, body, t');
  }

  lemma MessagesOfReply(t: Transfer, cacheable: bool, lastChance: bool, reply: Reply, heads: seq<Head>, cut: seq<seq<bv8>>,
                        header: (Transfer, bool), body: Transfer, t': Transfer)
    requires IsFresh(t) && Unfolds(t, cacheable, lastChance, reply, heads, cut, header, body, t')
    ensures AttemptMessages(t'.sent, lastChance)
       <==> || Final(heads) == None
            || (LinesAfter(heads) + |cut| == 0 && reply.trailers == [])
            || FinalMessages(heads, lastChance, t.sizeWritten) == []
  {
    match Sticking(heads)
    case None =>
    case Some(status) =>
      var messages, later := MessagesOn(status, lastChance, t.sizeWritten), MessagesOn(status, lastChance, body.sizeWritten);
      FinalIsNoRedirect(heads);
      VerdictOfHeader(t, cacheable, lastChance, status);
      BodyOfReply(header, reply, body);
      MessagesAlike(status, lastChance, t.sizeWritten, body.sizeWritten);
      assert [] + Repeat(messages, 1 + (LinesAfter(heads) + |cut|)) == Repeat(messages, 1 + (LinesAfter(heads) + |cut|));
      assert body.sent + Repeat(later, 0) == body.sent;
      RepeatedMessages(messages, LinesAfter(heads) + |cut|, body.sent, later, |reply.trailers|, t'.sent, lastChance);
  }

  /** A head has at most one message, and the kind of it does not depend on how much is there. */
  lemma MessagesAlike(status: ParseStatus, lastChance: bool, start: nat, start': nat)
    ensures var messages, later := MessagesOn(status, lastChance, start), MessagesOn(status, lastChance, start');
            && |messages| == |later| <= 1
            && (messages != [] ==>
                  && (messages[0].JobSize? || messages[0].Completed? || (lastChance && messages[0].Unavailable?))
                  && !later[0].Progress?
                  && (messages[0].JobSize? <==> IsPayload(status)))
  {
  }

  /** The body callbacks, whatever the writer passes on. */
  lemma BodyOfReply(header: (Transfer, bool), reply: Reply, body: Transfer)
    requires BodyDelivered(header, reply, body)
    ensures body.header == header.0.header && body.cfs == header.0.cfs
    ensures !(header.1 && IsReady(header.0.header)) ==> body == header.0
    ensures header.1 && IsReady(header.0.header) ==>
      && body.file + body.buffer == header.0.file + header.0.buffer + Concat(reply.chunks)
      && body.sizeWritten == header.0.sizeWritten + |Concat(reply.chunks)|
      && OnlyProgress(header.0.sent, body.sent)
  {
    if header.1 && header.0.header.Some? {
      var flushes: seq<nat> :| |flushes| == |reply.chunks| && body == OnBodies(header.0, reply.chunks, flushes);
      BodiesAppend(header.0, reply.chunks, flushes);
    }
  }

  /** A message, sent again for some lines, then progress after a size, then the message for each trailer line. */
  lemma RepeatedMessages(messages: seq<FlexoProgress>, linesAfter: nat, bodySent: seq<FlexoProgress>,
                         later: seq<FlexoProgress>, trailers: nat, sent: seq<FlexoProgress>, lastChance: bool)
    requires |messages| == |later| <= 1
    requires messages != [] ==>
      && (messages[0].JobSize? || messages[0].Completed? || (lastChance && messages[0].Unavailable?))
      && !later[0].Progress?
    requires OnlyProgress(Repeat(messages, 1 + linesAfter), bodySent)
    requires messages == [] || !messages[0].JobSize? ==> bodySent == Repeat(messages, 1 + linesAfter)
    requires sent == bodySent + Repeat(later, trailers)
    ensures AttemptMessages(sent, lastChance) <==> (linesAfter == 0 && trailers == 0) || messages == []
  {
    RepeatHasEach(messages, 1 + linesAfter);
    RepeatHasEach(later, trailers);
    if messages != [] {
      assert sent[0] == bodySent[0] == messages[0];
      if linesAfter > 0 {
        assert sent[1] == bodySent[1] == messages[0];
      } else if trailers > 0 {
        assert sent[|bodySent|] == later[0];
      }
    }
  }

  /** Trailer lines after an error are enough: on the last chance, the client is told once more for each of them. */
  lemma TrailersBreakTheRules(parse: HeaderParser, t: Transfer, cacheable: bool, h: Head, line: seq<bv8>, ok: bool,
                              t': Transfer, outcome: Outcome)
    requires Settled(parse) && IsHead(parse, h) && h.code == 404 && IsCut(parse, [line]) && IsFresh(t)
    requires Served(t, cacheable, true, parse, Reply(h.lines, 404, [], [line], ok), t', outcome)
    ensures t'.sent == [FlexoProgress.Unavailable, FlexoProgress.Unavailable] && !AttemptMessages(t'.sent, true)
  {
    var reply := Reply(h.lines, 404, [], [line], ok);
    OneHead(parse, reply, h);
    var header, body := HeadsTellAll(parse, t, cacheable, true, reply, [h], [], t', outcome);
    BodyOfReply(header, reply, body);
    assert !IsReady(header.0.header);
    TwoErrors(t, cacheable, h, header.0, t');
  }

  lemma TwoErrors(t: Transfer, cacheable: bool, h: Head, once: Transfer, twice: Transfer)
    requires t.header == None && t.sent == [] && h.code == 404
    requires once == Again(t, cacheable, true, StatusOf(h), 1) && twice == Again(once, cacheable, true, StatusOf(h), 1)
    ensures !IsReady(once.header)
    ensures twice.sent == [FlexoProgress.Unavailable, FlexoProgress.Unavailable]
  {
    var m := [FlexoProgress.Unavailable];
    assert Repeat(m, 1) == m + Repeat(m, 0) == m;
    assert [] + m == m && m + m == [FlexoProgress.Unavailable, FlexoProgress.Unavailable];
  }

  /** Whatever a mirror sends, and whatever the parser makes of it: progress is never the first message of an attempt, so that
      the thread that waits for the size does not panic. */
  lemma NeverProgressFirst(parse: HeaderParser, t: Transfer, cacheable: bool, lastChance: bool, reply: Reply,
                           t': Transfer, outcome: Outcome)
    requires IsFresh(t) && Served(t, cacheable, lastChance, parse, reply, t', outcome)
    ensures t'.sent != [] ==> !t'.sent[0].Progress?
  {
    var header := AfterHeaders(t, cacheable, lastChance, parse, reply);
    var body :| BodyDelivered(header, reply, body) && Ends(header, body, cacheable, lastChance, parse, reply, t', outcome);
    HeadersStartWell(t, cacheable, lastChance, Seen(parse, [], reply.header));
    BodyOfReply(header, reply, body);
    HeadersStartWell(body, cacheable, lastChance, Seen(parse, Left(parse, [], reply.header), reply.trailers));
  }

  ghost predicate StartsWell(t: Transfer) {
    && (t.sent != [] ==> !t.sent[0].Progress?)
    && (IsReady(t.header) ==> t.sent != [])
  }

  lemma {:induction false} HeadersStartWell(t: Transfer, cacheable: bool, lastChance: bool, statuses: seq<ParseStatus>)
    requires StartsWell(t)
    ensures StartsWell(OnHeaders(t, cacheable, lastChance, statuses).0)
    decreases |statuses|
  {
    if statuses != [] {
      VerdictOfHeader(t, cacheable, lastChance, statuses[0]);
      var (t', goOn) := OnHeader(t, cacheable, lastChance, statuses[0]);
      if goOn {
        HeadersStartWell(t', cacheable, lastChance, statuses[1..]);
      }
    }
  }

  // ---- Exactly when an attempt panics, or succeeds with less than the whole package ----

  predicate IsSuccess(code: nat) {
    200 <= code < 300
  }

  /** A body reaches the file if the first final head is a payload with a length. */
  predicate LetsBodyThrough(heads: seq<Head>) {
    Final(heads).Some? && IsPayload(StatusOf(Final(heads).value)) && !Aborts(StatusOf(Final(heads).value))
  }

  /** What a body adds to the file. */
  lemma BodyIsLetThrough(t: Transfer, cacheable: bool, lastChance: bool, reply: Reply, heads: seq<Head>, cut: seq<seq<bv8>>,
                         header: (Transfer, bool), body: Transfer, t': Transfer)
    requires IsFresh(t) && Unfolds(t, cacheable, lastChance, reply, heads, cut, header, body, t')
    ensures var kept := if LetsBodyThrough(heads) then Concat(reply.chunks) else [];
            && t'.file + t'.buffer == t.file + kept
            && t'.sizeWritten == body.sizeWritten == |t.file| + |kept|
  {
    BodyOfReply(header, reply, body);
    AgainKeepsBytes(body, cacheable, lastChance, heads, |reply.trailers|);
    assert t.file + t.buffer == t.file && t.file + [] == t.file;
    if Final(heads).Some? {
      FinalIsNoRedirect(heads);
      VerdictOfHeader(t, cacheable, lastChance, StatusOf(Final(heads).value));
    }
  }

  /** Whatever a mirror sends: the process panics, exactly if a body follows although there are only redirects, or a success
      status is reported by the transfer library while there is no byte, neither from before nor from the body. */
  lemma PanicsExactlyWhen(parse: HeaderParser, t: Transfer, cacheable: bool, lastChance: bool, reply: Reply,
                          heads: seq<Head>, cut: seq<seq<bv8>>, t': Transfer, outcome: Outcome)
    requires Settled(parse) && Consists(parse, reply, heads, cut) && IsFresh(t)
    requires Served(t, cacheable, lastChance, parse, reply, t', outcome)
    ensures outcome == Panicked <==>
      || (Final(heads) == None && reply.chunks != [])
      || (&& reply.ok && IsSuccess(reply.responseCode) && t.sizeWritten == 0
          && Final(heads).Some? && !Aborts(StatusOf(Final(heads).value))
          && (LetsBodyThrough(heads) ==> Concat(reply.chunks) == []))
  {
    var header, body := HeadsTellAll(parse, t, cacheable, lastChance, reply, heads, cut, t', outcome);
    BodyIsLetThrough(t, cacheable, lastChance, reply, heads, cut, header, body, t');
    if Final(heads) == None && heads != [] {
      OnlyRedirects(heads);
    }
  }

  /** The number of bytes that are there after a reply. */
  function BytesAfter(t: Transfer, reply: Reply, heads: seq<Head>): nat {
    |t.file| + if LetsBodyThrough(heads) then |Concat(reply.chunks)| else 0
  }

  /** Whatever a mirror sends, unless the process panics: the result of the attempt. A missing package, and only that, is not
      an error of the mirror; and what has been transferred by a mirror that breaks off is not lost. */
  lemma ResultExactlyWhen(parse: HeaderParser, t: Transfer, cacheable: bool, lastChance: bool, reply: Reply,
                          heads: seq<Head>, cut: seq<seq<bv8>>, t': Transfer, outcome: Outcome)
    requires Settled(parse) && Consists(parse, reply, heads, cut) && IsFresh(t)
    requires Served(t, cacheable, lastChance, parse, reply, t', outcome) && outcome.Returned?
    ensures |t'.file + t'.buffer| == BytesAfter(t, reply, heads)
    ensures
      var (r, wellEnded, code, bytes) := (outcome.result, EndsWell(parse, reply, heads), reply.responseCode,
                                          BytesAfter(t, reply, heads));
      && (r.Complete? <==> wellEnded && 200 <= code <= 299)
      && (r == JobResult.Unavailable <==> wellEnded && code == 404)
      && (r == Error <==> if wellEnded then code != 404 && (code < 200 || code > 299) else bytes == 0)
      && (r.Partial? <==> !wellEnded && bytes > 0)
      && (r.Complete? ==> r.size == bytes) && (r.Partial? ==> r.continueAt == bytes)
  {
    var header, body := HeadsTellAll(parse, t, cacheable, lastChance, reply, heads, cut, t', outcome);
    BodyIsLetThrough(t, cacheable, lastChance, reply, heads, cut, header, body, t');
  }

  /** An attempt that succeeds, with any body: the file is whole, exactly if the first final head has status 200 or 206 and the
      body is what was missing, or it has another status and nothing was missing. */
  lemma CompleteIsWholeExactlyWhen(parse: HeaderParser, t: Transfer, cacheable: bool, lastChance: bool, reply: Reply,
                                   heads: seq<Head>, cut: seq<seq<bv8>>, t': Transfer, outcome: Outcome, content: seq<bv8>)
    requires Settled(parse) && Consists(parse, reply, heads, cut) && IsFresh(t)
    requires Served(t, cacheable, lastChance, parse, reply, t', outcome)
    requires t.file <= content
    requires outcome.Returned? && outcome.result.Complete?
    ensures Final(heads).Some?
    ensures outcome.result.size == |t'.file + t'.buffer|
    ensures t'.file + t'.buffer == content <==>
      if IsPayload(StatusOf(Final(heads).value)) then Concat(reply.chunks) == content[|t.file|..] else |t.file| == |content|
  {
    var header, body := HeadsTellAll(parse, t, cacheable, lastChance, reply, heads, cut, t', outcome);
    BodyIsLetThrough(t, cacheable, lastChance, reply, heads, cut, header, body, t');
    if Final(heads) == None && heads != [] {
      OnlyRedirects(heads);
    }
    RestIsUnique(t.file, Concat(reply.chunks), content);
    RestIsUnique(t.file, [], content);
  }

  lemma RestIsUnique(file: seq<bv8>, rest: seq<bv8>, content: seq<bv8>)
    requires file <= content
    ensures file + rest == content <==> rest == content[|file|..]
  {
    assert content == file + content[|file|..];
    if file + rest == content {
      assert rest == (file + rest)[|file|..];
    }
  }

  /** Status 203 for the rest of a package: success is reported, and the body is dropped. */
  lemma SuccessCanBePartial(parse: HeaderParser, t: Transfer, cacheable: bool, lastChance: bool, h: Head, content: seq<bv8>,
                            t': Transfer, outcome: Outcome)
    requires Settled(parse) && IsHead(parse, h) && h.code == 203
    requires IsFresh(t) && t.file != [] && t.file <= content && t.file != content
    requires Served(t, cacheable, lastChance, parse, Reply(h.lines, 203, [content[|t.file|..]], [], true), t', outcome)
    ensures outcome == Returned(Complete(|t.file|)) && t'.file + t'.buffer == t.file
  {
    var reply := Reply(h.lines, 203, [content[|t.file|..]], [], true);
    OneHead(parse, reply, h);
    var header, body := HeadsTellAll(parse, t, cacheable, lastChance, reply, [h], [], t', outcome);
    BodyIsLetThrough(t, cacheable, lastChance, reply, [h], [], header, body, t');
    assert t.file + [] == t.file;
  }

  /** A redirect that is not followed up, with a body. */
  lemma RedirectWithBodyPanics(parse: HeaderParser, t: Transfer, cacheable: bool, lastChance: bool, h: Head, data: seq<bv8>,
                               t': Transfer, outcome: Outcome)
    requires Settled(parse) && IsHead(parse, h) && IsRedirect(StatusOf(h)) && IsFresh(t)
    requires Served(t, cacheable, lastChance, parse, Reply(h.lines, h.code, [data], [], true), t', outcome)
    ensures outcome == Panicked
  {
    var reply := Reply(h.lines, h.code, [data], [], true);
    OneHead(parse, reply, h);
    PanicsExactlyWhen(parse, t, cacheable, lastChance, reply, [h], [], t', outcome);
  }

  /** A mirror that answers a fresh download with 204 makes the process panic. */
  lemma NoContentPanics(parse: HeaderParser, t: Transfer, cacheable: bool, lastChance: bool, h: Head, t': Transfer,
                        outcome: Outcome)
    requires Settled(parse) && IsHead(parse, h) && h.code == 204
    requires IsFresh(t) && t.file == []
    requires Served(t, cacheable, lastChance, parse, Reply(h.lines, 204, [], [], true), t', outcome)
    ensures outcome == Panicked
  {
    var reply := Reply(h.lines, 204, [], [], true);
    OneHead(parse, reply, h);
    PanicsExactlyWhen(parse, t, cacheable, lastChance, reply, [h], [], t', outcome);
  }

  /** A parser for the smallest of headers: the first byte says everything. */
  function ByFirstByte(received: seq<bv8>): ParseStatus {
    if received == [] then Incomplete
    else if received[0] == 1 then Parsed(103, None)
    else Parsed(200, Some(1))
  }

  /** An interim response before the final one breaks the rules on the last chance, and makes a fresh download panic. */
  lemma EarlyHintsBreakTheRules(t: Transfer, cacheable: bool, lastChance: bool, t': Transfer, outcome: Outcome)
    requires IsFresh(t) && t.file == []
    requires Served(t, cacheable, lastChance, ByFirstByte, Reply([[1], [2]], 200, [[7]], [], true), t', outcome)
    ensures outcome == Panicked
    ensures AttemptMessages(t'.sent, lastChance) <==> !lastChance
  {
    var reply, heads := Reply([[1], [2]], 200, [[7]], [], true), HintsAndFinal();
    EarlyHintsConsist();
    assert Final(heads) == Some(heads[0]) && !OneFinalHead(heads, []);
    PanicsExactlyWhen(ByFirstByte, t, cacheable, lastChance, reply, heads, [], t', outcome);
    RulesKeptExactlyWhen(ByFirstByte, t, cacheable, lastChance, reply, heads, [], t', outcome);
  }

  function HintsAndFinal(): seq<Head> {
    [Head([[1]], 103, None), Head([[2]], 200, Some(1))]
  }

  lemma EarlyHintsConsist()
    ensures Settled(ByFirstByte) && Consists(ByFirstByte, Reply([[1], [2]], 200, [[7]], [], true), HintsAndFinal(), [])
  {
    var heads := HintsAndFinal();
    assert Concat([[1]]) == [1] && Concat([[2]]) == [2];
    assert IsHead(ByFirstByte, heads[0]) && IsHead(ByFirstByte, heads[1]);
    assert LinesOf(heads) + [] == [[1], [2]] by {
      assert heads[1..][1..] == [] && LinesOf(heads[1..]) == [[2]];
    }
  }

  // ---- Honest mirrors ----

  /** The mirror has the content and honours a range that starts at the given offset: a payload is the rest of the content, or
      a part of that if the transfer breaks off; 416 is sent only if nothing is left; only 200 and 206 mean success. There are
      no interim responses and no trailers, and no body follows a redirect that is not followed up. */
  ghost predicate Honestly(reply: Reply, heads: seq<Head>, cut: seq<seq<bv8>>, content: seq<bv8>, start: nat)
    requires start <= |content|
  {
    && OneFinalHead(heads, cut) && reply.trailers == []
    && (reply.chunks != [] ==> Final(heads).Some?)
    && (Final(heads).Some? ==>
          var status := StatusOf(Final(heads).value);
          && (IsSuccess(status.code) ==> IsPayload(status))
          && RightStatus(status, |content| - start)
          && (IsPayload(status) ==>
                && Concat(reply.chunks) <= content[start..]
                && (reply.ok ==> Concat(reply.chunks) == content[start..])))
  }

  ghost predicate Honest(parse: HeaderParser, reply: Reply, content: seq<bv8>, start: nat)
    requires start <= |content|
  {
    exists heads, cut :: Consists(parse, reply, heads, cut) && Honestly(reply, heads, cut, content, start)
  }

  function RangeOffset(range: Option<nat>): nat {
    match range case None => 0 case Some(start) => start
  }

  ghost predicate HonestMirror(parse: HeaderParser, mirror: Mirror, content: seq<bv8>) {
    forall range {:trigger Honest(parse, mirror(range), content, RangeOffset(range))} ::
      RangeOffset(range) <= |content| ==> Honest(parse, mirror(range), content, RangeOffset(range))
  }

  lemma {:induction false} LastIsFinal(heads: seq<Head>, cut: seq<seq<bv8>>)
    requires OneFinalHead(heads, cut) && Final(heads).Some?
    ensures heads != [] && Final(heads).value == heads[|heads| - 1]
  {
    if IsRedirect(StatusOf(heads[0])) {
      assert OneFinalHead(heads[1..], cut) by {
        assert forall i :: 0 <= i < |heads[1..]| ==> heads[1..][i] == heads[i + 1];
      }
      LastIsFinal(heads[1..], cut);
    }
  }

  /** The header of an honest mirror announces and records the true size, before any body. */
  lemma HonestHead(t: Transfer, cacheable: bool, lastChance: bool, h: Head, content: seq<bv8>)
    requires IsFresh(t) && t.file <= content && |content| < U64_LIMIT
    requires !IsRedirect(StatusOf(h)) && RightStatus(StatusOf(h), |content| - |t.file|)
    ensures var after := AfterFinalHead(t, cacheable, lastChance, h, 0).0;
            && after.sent == MessagesOn(StatusOf(h), lastChance, |t.file|)
            && RightSizes(after.sent, |content|)
            && (IsReady(after.header) && cacheable ==> after.cfs == Some(Print(|content|)))
            && (!IsReady(after.header) ==> after.cfs == t.cfs)
            && (Completed in after.sent ==> |t.file| == |content|)
  {
    var messages := MessagesOn(StatusOf(h), lastChance, |t.file|);
    assert Repeat(messages, 1) == messages + Repeat(messages, 0) == messages;
    assert [] + messages == messages;
  }

  /** The messages of an honest mirror, if there is a final head or not. */
  lemma HonestMessages(t: Transfer, cacheable: bool, lastChance: bool, reply: Reply, heads: seq<Head>, cut: seq<seq<bv8>>,
                       header: (Transfer, bool), t': Transfer, content: seq<bv8>)
    requires IsFresh(t) && t.file <= content && |content| < U64_LIMIT
    requires Unfolds(t, cacheable, lastChance, reply, heads, cut, header, t', t')
    requires Honestly(reply, heads, cut, content, |t.file|)
    requires Final(heads) == None || LinesAfter(heads) + |cut| == 0
    ensures RightSizes(t'.sent, |content|)
    ensures Completed in t'.sent ==> |t.file| == |content|
    ensures LetsBodyThrough(heads) ==> t'.sent != [] && t'.sent[0].JobSize?
    ensures cacheable && IsReady(t'.header) ==> t'.cfs == Some(Print(|content|))
    ensures !IsReady(t'.header) ==> t'.cfs == t.cfs
    ensures IsReady(t'.header) <==> LetsBodyThrough(heads)
  {
    BodyOfReply(header, reply, t');
    ProgressAddsNothing(header.0.sent, t'.sent, |content|);
    if Final(heads).Some? {
      FinalIsNoRedirect(heads);
      VerdictOfHeader(t, cacheable, lastChance, StatusOf(Final(heads).value));
      HonestHead(t, cacheable, lastChance, Final(heads).value, content);
    }
  }

  lemma ProgressAddsNothing(earlier: seq<FlexoProgress>, sent: seq<FlexoProgress>, size: nat)
    requires OnlyProgress(earlier, sent)
    ensures RightSizes(earlier, size) ==> RightSizes(sent, size)
    ensures Completed in sent ==> Completed in earlier
  {
  }

  lemma HonestFile(t: Transfer, t': Transfer, kept: seq<bv8>, content: seq<bv8>, cacheable: bool)
    requires IsFresh(t) && Faithful(t, content, cacheable) && kept <= content[|t.file|..]
    requires t'.file + t'.buffer == t.file + kept && t'.sizeWritten == |t.file| + |kept|
    requires cacheable && IsReady(t'.header) ==> t'.cfs == Some(Print(|content|))
    requires !IsReady(t'.header) ==> t'.cfs == t.cfs && kept == []
    ensures Faithful(t', content, cacheable) && t.file <= t'.file + t'.buffer
    ensures kept == content[|t.file|..] ==> t'.file + t'.buffer == content
  {
    assert t.file + t.buffer == t.file && t.file + [] == t.file;
    assert content == t.file + content[|t.file|..];
  }

  /** An attempt with an honest mirror ends with a result, by the rules. */
  lemma HonestAttempt(parse: HeaderParser, t: Transfer, cacheable: bool, lastChance: bool, reply: Reply,
                      t': Transfer, outcome: Outcome, content: seq<bv8>)
    requires Settled(parse) && IsFresh(t) && Faithful(t, content, cacheable) && 0 < |content| < U64_LIMIT
    requires Honest(parse, reply, content, |t.file|)
    requires Served(t, cacheable, lastChance, parse, reply, t', outcome)
    ensures Faithful(t', content, cacheable) && t.file <= t'.file + t'.buffer
    ensures RightSizes(t'.sent, |content|) && AttemptMessages(t'.sent, lastChance)
    ensures Completed in t'.sent ==> |t.file| == |content|
    ensures outcome.Returned?
    ensures var r := outcome.result; r == Error || r == JobResult.Unavailable || r.Complete? || r.Partial?
    ensures outcome.result.Complete? ==> t'.file + t'.buffer == content && t'.sent != [] && t'.sent[0].JobSize?
  {
    var heads, cut :| Consists(parse, reply, heads, cut) && Honestly(reply, heads, cut, content, |t.file|);
    var header, body := HeadsTellAll(parse, t, cacheable, lastChance, reply, heads, cut, t', outcome);
    RulesKeptExactlyWhen(parse, t, cacheable, lastChance, reply, heads, cut, t', outcome);
    BodyIsLetThrough(t, cacheable, lastChance, reply, heads, cut, header, body, t');
    OneFinalHeadMeansNothingAfter(parse, heads, cut);
    HonestMessages(t, cacheable, lastChance, reply, heads, cut, header, t', content);
    HonestFile(t, t', if LetsBodyThrough(heads) then Concat(reply.chunks) else [], content, cacheable);
    HonestOutcome(parse, t, reply, heads, cut, body, outcome, content);
  }

  lemma HonestOutcome(parse: HeaderParser, t: Transfer, reply: Reply, heads: seq<Head>, cut: seq<seq<bv8>>, body: Transfer,
                      outcome: Outcome, content: seq<bv8>)
    requires |t.file| <= |content| && Honestly(reply, heads, cut, content, |t.file|) && content != []
    requires reply.ok || reply.chunks != [] ==> heads != [] && cut == []
    requires reply.responseCode == if heads == [] then 0 else heads[|heads| - 1].code
    requires body.sizeWritten == |t.file| + if LetsBodyThrough(heads) then |Concat(reply.chunks)| else 0
    requires Concludes(parse, reply, heads, body, outcome)
    ensures outcome.Returned? && !outcome.result.ClientError? && !outcome.result.UnexpectedInternalError?
    ensures outcome.result.Complete? ==> LetsBodyThrough(heads) && Concat(reply.chunks) == content[|t.file|..]
  {
    if Final(heads).Some? {
      LastIsFinal(heads, cut);
    } else if heads != [] {
      OnlyRedirects(heads);
    }
  }

  /** The mirror delivers the rest of the content and ends well. */
  ghost predicate Delivers(parse: HeaderParser, reply: Reply, content: seq<bv8>, start: nat)
    requires start <= |content|
  {
    exists heads, cut :: Consists(parse, reply, heads, cut) && HasTheRest(reply, heads, cut, content, start)
  }

  ghost predicate HasTheRest(reply: Reply, heads: seq<Head>, cut: seq<seq<bv8>>, content: seq<bv8>, start: nat)
    requires start <= |content|
  {
    && reply.ok && OneFinalHead(heads, cut) && Final(heads).Some?
    && (Final(heads).value.code == 200 || Final(heads).value.code == 206)
    && Final(heads).value.contentLength == Some(|content| - start)
    && Concat(reply.chunks) == content[start..]
  }

  /** With an honest mirror, an attempt succeeds exactly if the mirror delivers the rest. */
  lemma HonestSuccessExactlyWhen(parse: HeaderParser, t: Transfer, cacheable: bool, lastChance: bool, reply: Reply,
                                 t': Transfer, outcome: Outcome, content: seq<bv8>)
    requires Settled(parse) && IsFresh(t) && Faithful(t, content, cacheable) && 0 < |content| < U64_LIMIT
    requires Honest(parse, reply, content, |t.file|)
    requires Served(t, cacheable, lastChance, parse, reply, t', outcome)
    ensures outcome.Returned? && (outcome.result.Complete? <==> Delivers(parse, reply, content, |t.file|))
  {
    HonestAttempt(parse, t, cacheable, lastChance, reply, t', outcome, content);
    if outcome.result.Complete? {
      SuccessIsDelivered(parse, t, cacheable, lastChance, reply, t', outcome, content);
    }
    if Delivers(parse, reply, content, |t.file|) {
      DeliveryIsSuccess(parse, t, cacheable, lastChance, reply, t', outcome, content);
    }
  }

  lemma SuccessIsDelivered(parse: HeaderParser, t: Transfer, cacheable: bool, lastChance: bool, reply: Reply,
                           t': Transfer, outcome: Outcome, content: seq<bv8>)
    requires Settled(parse) && IsFresh(t) && |t.file| <= |content| && Honest(parse, reply, content, |t.file|)
    requires Served(t, cacheable, lastChance, parse, reply, t', outcome) && outcome.Returned? && outcome.result.Complete?
    ensures Delivers(parse, reply, content, |t.file|)
  {
    var heads, cut :| Consists(parse, reply, heads, cut) && Honestly(reply, heads, cut, content, |t.file|);
    ResultExactlyWhen(parse, t, cacheable, lastChance, reply, heads, cut, t', outcome);
    SuccessHasTheRest(parse, reply, heads, cut, content, |t.file|);
  }

  lemma DeliveryIsSuccess(parse: HeaderParser, t: Transfer, cacheable: bool, lastChance: bool, reply: Reply,
                          t': Transfer, outcome: Outcome, content: seq<bv8>)
    requires Settled(parse) && IsFresh(t) && |t.file| <= |content| && Delivers(parse, reply, content, |t.file|)
    requires Served(t, cacheable, lastChance, parse, reply, t', outcome) && outcome.Returned?
    ensures outcome.result.Complete?
  {
    var heads, cut :| Consists(parse, reply, heads, cut) && HasTheRest(reply, heads, cut, content, |t.file|);
    ResultExactlyWhen(parse, t, cacheable, lastChance, reply, heads, cut, t', outcome);
    LastIsFinal(heads, cut);
  }

  lemma SuccessHasTheRest(parse: HeaderParser, reply: Reply, heads: seq<Head>, cut: seq<seq<bv8>>, content: seq<bv8>, start: nat)
    requires start <= |content| && Consists(parse, reply, heads, cut) && Honestly(reply, heads, cut, content, start)
    requires EndsWell(parse, reply, heads) && 200 <= reply.responseCode <= 299
    ensures HasTheRest(reply, heads, cut, content, start)
  {
    if Final(heads).Some? {
      LastIsFinal(heads, cut);
    } else if heads != [] {
      OnlyRedirects(heads);
    }
  }

  // ---- Uncacheable orders ----

  lemma {:induction false} HeadersLeaveSideFile(t: Transfer, lastChance: bool, statuses: seq<ParseStatus>)
    ensures OnHeaders(t, false, lastChance, statuses).0.cfs == t.cfs
    decreases |statuses|
  {
    if statuses != [] {
      var (t', goOn) := OnHeader(t, false, lastChance, statuses[0]);
      if goOn {
        HeadersLeaveSideFile(t', lastChance, statuses[1..]);
      }
    }
  }

  /** Whatever a mirror sends: the transfer of an uncacheable package does not touch any side file. */
  lemma UncacheableLeavesSideFile(parse: HeaderParser, t: Transfer, lastChance: bool, reply: Reply, t': Transfer,
                                  outcome: Outcome)
    requires Served(t, false, lastChance, parse, reply, t', outcome)
    ensures t'.cfs == t.cfs
  {
    var header := AfterHeaders(t, false, lastChance, parse, reply);
    var body :| BodyDelivered(header, reply, body) && Ends(header, body, false, lastChance, parse, reply, t', outcome);
    HeadersLeaveSideFile(t, lastChance, Seen(parse, [], reply.header));
    BodyOfReply(header, reply, body);
    HeadersLeaveSideFile(body, lastChance, Seen(parse, Left(parse, [], reply.header), reply.trailers));
  }
}
