# Flexo, modelled and verified in Dafny

Flexo is a caching download proxy for packages. A client asks for a package; Flexo serves it from its cache, or starts
one worker that downloads it from a mirror while the package file is already being streamed to any number of clients.
When a mirror fails, the worker goes on with another one and appends to the same file. This project models that core
and proves what it is for: every client gets exactly the bytes it was promised, every order is downloaded once at a
time and ends, and the shared counters, guards, channels and locks stay right under any interleaving.

## How the model is built

| file | part of Flexo |
|---|---|
| `CompleteFileSize.dfy` | the side file (CFS) that records the complete size of a package |
| `ReplyHeaders.dfy` | Content-Length and Content-Range of the replies (section 14.4 of RFC 9110) |
| `CacheState.dfy` | the cache state of a package, and the decision taken on a request |
| `Download.dfy` | one attempt: header and body callbacks, the transfer as a whole, and the classification of its end |
| `MirrorReplies.dfy` | what mirrors may reply, head by head, and exactly for which replies an attempt goes wrong |
| `ProviderSelection.dfy` | scores, provider guards and their usage counts |
| `ProviderMetrics.dfy` | the shared usage and failure counters |
| `Attempts.dfy` | what the log of an order has to do with what the mirrors have sent, and when an order succeeds |
| `OrderLog.dfy`, `Failover.dfy` | the retry loop of one order, while other orders interfere, and the record it leaves |
| `GrowingFile.dfy` | the loop that streams a growing file |
| `Scheduler.dfy` | all orders together: a transition system with any number of workers |
| `Delivery.dfy` | one package end to end: a transition system with the disk, the worker and any number of clients |
| `EndToEnd.dfy` | the link between the two: an order, callback by callback, is a run of that transition system |
| `LockOrder.dfy` | all threads as programs over the six locks |
| `ClientHeader.dfy` | reading the request header from a socket |
| `MirrorSelection.dfy` | from the downloaded mirror list to the providers in use |

Code that changes things step by step is imperative: `TryUntilSuccess`, `GetProviderGuard`, `Header`, `Write`,
`PersistAndGetCacheState`, `TrySchedule`, `ServeGrowingFileLoop`, `SendPayload`, `ReadClientHeader` and the rest are
methods, on classes where the source has mutable objects. Each is proved against a function or a predicate, and the
lemmas are about those. Concurrency is modelled twice. Inside a method, `OtherOrders` changes everything shared in any
way between any two steps of the loop. In `Scheduler`, `Delivery` and `LockOrder`, an action is what a thread does under
one lock or between two locks; a run is a sequence of states and actions, `Reachable` says that some run leads to a
state, and the theorems hold in every reachable state, for any number of threads. `Scheduler` and the methods share their functions (the rating,
the effects on the counters, the decision on a request), so that they cannot drift apart; `EndToEnd` proves that
what `TryUntilSuccess` does, callback by callback, is a run of `Delivery`.

The callbacks, and `ServeFromProvider` with them, are modelled for every reply, the panics included. What is said about
whole orders and about delivery is for honest mirrors, which may break off, fail, redirect or lack a package at any time.

### Assumptions

- Mirrors agree on the content of a cacheable package (this is what flexo/src/mirror_flexo.rs:945 builds on), and they
  honour a range request: 206 with the rest (section 15.3.7 of RFC 9110), 416 only if nothing is left (section 15.5.17).
- An honest mirror means success with 200 or 206 only, sends no interim responses (section 15.2 of RFC 9110), no trailer
  fields (section 6.5 of RFC 9110), and no body with a redirect that is not followed up. `MirrorReplies.Honestly` states all
  this; `RulesKeptExactlyWhen`, `PanicsExactlyWhen`, `CompleteIsWholeExactlyWhen` and `SizeIsRightExactlyWhen` say exactly
  what happens otherwise.
- The header parser reads one head and ignores what comes after it, and the transfer library hands over the header line by
  line, before the body, and the trailer lines after it.
- A package is not empty and smaller than 2^64 bytes.
- Writing to disk succeeds, a package file that cannot be opened is left as it is, package files do not shrink, and
  `sendfile` transfers between 1 and `count` bytes.
- The buffered writer may pass on any part of its buffer at any time, and all of it when it is dropped.
- Choosing a provider, and computing the scores it needs, is one step under the lock of the counters.
- A custom provider does not share its identifier with a pool provider, and the counters are not reset while orders run.
- Arithmetic is that of a release build: 32-bit counters wrap around in both directions, and so does the 64-bit sum of what
  is there and what a mirror announces.

### Where the code does not do what one may expect

Each of these is kept as it is in the code, with the exact condition under which things go right and, where that takes
a run or a particular input, a lemma that reaches the failing case:

- The order leaves the set of orders in progress before its writer is flushed (flexo/src/lib.rs:630-652). If the package is
  asked for again and its file is opened in between, the file can end up with more than the content:
  `OpeningIsSafeExactlyWhen`, `PackageCanBeCorrupted`. The results about delivery, and `OrderKeepsFile`
  and `TryUntilSuccess` for the file of an order, are for runs in which nothing is pending when the file is opened.
- A success status without any byte, such as 204 on a fresh download, makes the process panic, and so does a body after a
  redirect that is not followed up: `PanicsExactlyWhen`, `NoContentPanics`, `RedirectWithBodyPanics`.
- After an interim response, the final one is not looked at, so that its body is dropped and messages are repeated. Trailer
  lines repeat the message of the head as well, so that a 404 with a trailer is reported more than once on the last chance:
  `RulesKeptExactlyWhen`, `EarlyHintsBreakTheRules`, `TrailersBreakTheRules`.
- Any status from 200 to 299 counts as success if there is a byte, but only for 200 and 206 is the body kept:
  `CompleteIsWholeExactlyWhen`, `SuccessCanBePartial`.
- A mirror that answers a range request with status 200 makes the recorded size wrong: `SizeIsRightExactlyWhen`,
  `SizeCanBeWrong`.
- A custom provider has no entry in the counters. Its first punishment creates an entry with zero failures, and the
  pardon then wraps around: `PardonUndoesPunishExactlyWhen`, `CustomOrderRestoresExactlyWhen`, `CustomCounterCanWrap`.
- If the program is killed while the side file of an incomplete package is written again, the incomplete size is taken
  for the complete one afterwards: `StopIsSafeExactlyWhen`, `SideFileCanBeTorn`.
- A client that resumes at or past the end is sent an invalid Content-Range:
  `ContentRangeValidExactlyWhenBytesRemain`, `RangeCanBeInvalid`.
- For request headers of more than 8192 bytes, the outcome may depend on how the network cuts them:
  `ChunkingDoesNotMatterExactlyWhen`, `ChunkingCanMatter`.

## Model

| member | source | states |
|---|---|---|
| CompleteFileSize.PrintThenParse | flexo/src/mirror_flexo.rs:556-583 | a recorded size is read back as it was written, for exactly the sizes that fit 64 bits |
| CompleteFileSize.ProperPrefixIsUnreadable | flexo/src/mirror_flexo.rs:560-575 | a reader that races the writer of the side file sees no size until the last byte is there |
| CompleteFileSize.DecimalMeansItsNumber | flexo/src/mirror_flexo.rs:891 | the printed text consists of digits and has the value of the number |
| ReplyHeaders.ContentRangeValidExactlyWhenBytesRemain | flexo/src/http_headers.rs:37-41 | the Content-Range of a resumed reply satisfies first <= last < total and fits the Content-Length, if and only if the client resumes before the end; the sum never wraps |
| ReplyHeaders.TotalIsTrueSizeExactlyWhenResumeIsInside | flexo/src/main.rs:743-747 | the saturating subtraction is exact, so that the announced total is the true size, if and only if the client does not resume past the end |
| CacheState.CacheEntry.CreateCfsFile | flexo/src/mirror_flexo.rs:881-899 | truncates the side file and writes the size |
| CacheState.CacheEntry.PersistAndGetCacheState | flexo/src/mirror_flexo.rs:506-554 | the cache state and the new disk in all cases: no file, recorded size, empty file removed, size assumed and recorded |
| CacheState.JobContext.BestProvider | flexo/src/lib.rs:525-543 | the custom provider with a guard of its own, or else a guard on the first pool provider with the least latency, whose usage count alone rises by one |
| CacheState.JobContext.TrySchedule | flexo/src/lib.rs:546-586 | the outcome for each decision; an order is inserted exactly when it is scheduled, and was not there before; no other outcome leaves an entry; only a redirect takes a guard, on the fastest provider that it names |
| CacheState.TruthfulExactlyWhen | flexo/src/mirror_flexo.rs:521-548 | the cache state tells the true size, if and only if it is not so that an incomplete, non-empty file has no readable side file |
| CacheState.PersistedIsStable | flexo/src/mirror_flexo.rs:506-554 | determining the cache state keeps the bytes and gives the same answer again |
| CacheState.DecisionIsRight | flexo/src/lib.rs:551-581 | with a right cache state: redirect if and only if the client resumes past what is there, cache if and only if the package is whole, download otherwise; hence cached or scheduled implies that the resume offset is inside |
| Download.DownloadState.constructor | flexo/src/mirror_flexo.rs:450-483 | an attempt starts at the length of the package file, which is created if it is missing |
| Download.DownloadState.Header | flexo/src/mirror_flexo.rs:800-878 | the effect of a header callback on any bytes: they add up to those received before, a redirect clears them, and every status has its messages, its side file and its verdict |
| Download.DownloadState.Write | flexo/src/mirror_flexo.rs:768-798 | the effect of a body callback: nothing for an unavailable file, otherwise the bytes are appended and counted |
| Download.DownloadState.ReleaseJobResources | flexo/src/lib.rs:409-414 | dropping the writer flushes its buffer |
| Download.HeaderKeepsFaithful | flexo/src/mirror_flexo.rs:831-846 | whatever the header, the side file has the true size as soon as a body may follow, and an announced size is the true one |
| Download.BodyKeepsFaithful | flexo/src/mirror_flexo.rs:768-798 | file and buffer stay the beginning of the content, of the length that was counted; error bodies leave them alone |
| Download.DeliverHeaders | flexo/src/mirror_flexo.rs:800-878 | for any header lines: the callbacks see what the lines add up to, and the first one that fails is the last |
| Download.DeliverBody | flexo/src/mirror_flexo.rs:768-798 | for any body: it panics if and only if there is a body and no final header, and otherwise the callbacks take effect one after the other |
| Download.BodiesAppend | flexo/src/mirror_flexo.rs:768-798 | over all body callbacks, whatever the buffered writer passes on when: exactly the body is appended after a payload header, nothing after any other, and only progress is reported |
| Download.ServeFromProvider | flexo/src/mirror_flexo.rs:344-433 | for every mirror and every reply: the range asked for is the number of bytes there are, the transfer becomes what the callbacks for header, body and trailer make of it, and the outcome, a panic included, follows from the reply and the number of bytes |
| Download.VerdictOfHeader | flexo/src/mirror_flexo.rs:817-873 | on one header: whether a body is let through, what the client is told (that the package is not available only on the last chance), and when the transfer is broken off |
| Download.SizeIsRightExactlyWhen | flexo/src/mirror_flexo.rs:831-846 | the recorded and announced size is right, if and only if the mirror answered 206 or nothing had been downloaded before |
| Download.SizeCanBeWrong | flexo/src/mirror_flexo.rs:831-846 | the failing input: status 200 for a download that resumes, with any number of bytes there |
| MirrorReplies.FirstFinalHeadDecides | flexo/src/mirror_flexo.rs:800-858 | over any heads and a head that is cut off: redirects leave no trace, the first other head decides, and its messages are sent once more for each header line after it |
| MirrorReplies.RulesKeptExactlyWhen | flexo/src/mirror_flexo.rs:800-873 | for every reply: the messages of the attempt keep to the rules, if and only if every head that is followed by another header line, be it in a head or in a trailer, is a redirect, or the first other head has no message |
| MirrorReplies.NeverProgressFirst | flexo/src/main.rs:700-721 | for every reply and every parser: the first message of an attempt is never progress, so that the waiting thread does not panic |
| MirrorReplies.EarlyHintsBreakTheRules | flexo/src/mirror_flexo.rs:800-873 | the failing input: status 103 before status 200 breaks the rules on the last chance, and makes a fresh download panic |
| MirrorReplies.TrailersBreakTheRules | flexo/src/mirror_flexo.rs:800-873 | the failing input: status 404 and one trailer line, which make the attempt report twice on the last chance that the package is not available |
| MirrorReplies.PanicsExactlyWhen | flexo/src/mirror_flexo.rs:398-403 | for every reply: the process panics, if and only if a body follows although there are only redirects, or a success status ends a transfer without a byte from before or from the body |
| MirrorReplies.ResultExactlyWhen | flexo/src/mirror_flexo.rs:395-432 | for every reply that does not make the process panic: "unavailable" if and only if the transfer ends well with status 404, an error if and only if it ends well with another status outside 200-299 or is broken off without a byte, and otherwise the number of bytes there, as complete or partial |
| MirrorReplies.NoContentPanics | flexo/src/mirror_flexo.rs:398-403 | the failing input: status 204 on a fresh download |
| MirrorReplies.RedirectWithBodyPanics | flexo/src/mirror_flexo.rs:768-798 | the failing input: a body with a redirect that is not followed up |
| MirrorReplies.CompleteIsWholeExactlyWhen | flexo/src/mirror_flexo.rs:398-403 | for every reply: a result of success means a whole file, if and only if the first final head has status 200 or 206 and the body is what was missing, or it has another status and nothing was missing |
| MirrorReplies.SuccessCanBePartial | flexo/src/mirror_flexo.rs:398-403 | the failing input: status 203 with the missing rest, which is dropped, and still reported as success |
| MirrorReplies.HonestAttempt | flexo/src/mirror_flexo.rs:344-433 | with an honest mirror an attempt never panics, the file stays a beginning of the content with its size recorded first, success means the whole content with its size announced first, and the messages keep to the rules with right sizes |
| MirrorReplies.HonestSuccessExactlyWhen | flexo/src/mirror_flexo.rs:398-402 | with an honest mirror, a transfer is complete if and only if the mirror delivers all of the rest with status 200 or 206 and ends well |
| MirrorReplies.UncacheableLeavesSideFile | flexo/src/mirror_flexo.rs:842-844 | for every reply and every parser: the transfer of an uncacheable package does not touch the side file |
| Attempts.AttemptIsRight | flexo/src/lib.rs:232-254 | an attempt with an honest mirror, on whatever is on disk, keeps file, side file and messages right |
| Attempts.AttemptSucceedsExactlyWhen | flexo/src/lib.rs:232-258 | with an honest mirror, an attempt succeeds if and only if the package file can be opened and the mirror delivers the rest |
| Attempts.AttemptIsBlamedExactlyWhen | flexo/src/lib.rs:255-272 | for every reply: an attempt counts against its provider if and only if the transfer is broken off, or ends well with a status that neither means success nor is 404; a missing package and a file that cannot be opened do not count |
| Attempts.OrderSucceedsExactlyWhen | flexo/src/lib.rs:282-293 | an order succeeds if and only if its last attempt can open the file and is delivered the rest |
| Attempts.ReachedMirrorSuffices | flexo/src/lib.rs:207-293 | an order that reaches a mirror that delivers ends there, and succeeds unless the file cannot be opened |
| Attempts.OneMirrorSuffices | flexo/src/lib.rs:207-293 | a retryable order with at most 25 providers, one of which delivers, succeeds if and only if the file can be opened for its last attempt, whatever the other providers do |
| Attempts.UncacheableOrderLeavesSideFile | flexo/src/mirror_flexo.rs:842-844 | the same over all attempts of an order: an uncacheable package never has its side file touched |
| Attempts.HonestMirrorsExist | flexo/src/mirror_flexo.rs:945 | the assumptions can be met: for every package, there is a mirror that is honest and always delivers |
| ProviderMetrics.PardonSubtracts | flexo/src/lib.rs:355-368 | a pardon lowers each counter by exactly its share modulo 2^32, keeps the set of entries, and changes nothing else |
| ProviderMetrics.PardonUndoesPunishExactlyWhen | flexo/src/lib.rs:107-111 | pardoning a punishment restores the counters, wrapped or not, if and only if the provider had an entry; otherwise the counter ends at its maximum |
| ProviderMetrics.SharedMetrics.Pardon | flexo/src/lib.rs:355-368 | the loop takes back one failure per punishment, with the 32-bit wrap-around of the decrement |
| ProviderSelection.ProviderGuards.GetProviderGuard | flexo/src/provider_guards.rs:20-40 | the guard is on the first provider with the smallest score among those not excluded; exactly its usage count rises by one |
| ProviderSelection.ProviderGuards.CandidatesWithScores | flexo/src/provider_guards.rs:24-30 | the candidates in list order, each with its score at its current load |
| ProviderSelection.CandidatesAreComplete | flexo/src/provider_guards.rs:24-30 | no provider that is not excluded is left out, and the list order is kept |
| ProviderSelection.MinimumIsChoice | flexo/src/provider_guards.rs:31-33 | the first minimum over the candidates beats every other provider of the pool |
| ProviderSelection.ChoiceExists | flexo/src/provider_guards.rs:31-33 | there is a minimum as soon as one provider is not excluded |
| ProviderSelection.ChoiceIsUnique | flexo/src/provider_guards.rs:31-33 | the rule determines the provider |
| ProviderSelection.ChoiceIsTheBest | flexo/src/mirror_flexo.rs:926-977 | the chosen provider has failed least; among equals, cacheable orders go to the least load and then the least latency, uncacheable ones to the least latency |
| ProviderSelection.UncacheableOrdersStick | flexo/src/mirror_flexo.rs:945-977 | two uncacheable orders with equal failure counts and exclusions choose the same provider whatever the two loads are |
| ProviderSelection.BalancedAllocation | flexo/src/mirror_flexo.rs:926-943 | in every run of m acquisitions over n equally failing providers, each one is held floor(m/n) or ceil(m/n) times |
| ProviderSelection.AcquisitionKeepsLevel | flexo/src/mirror_flexo.rs:926-943 | an acquisition for a cacheable order never lets two loads drift apart by more than one |
| OrderLog.CandidatesLeft | flexo/src/lib.rs:350 | at most one candidate is left if and only if every provider is excluded or just chosen |
| OrderLog.RunningHasNext | flexo/src/lib.rs:207-288 | an order that goes on has tried as many providers as it has made attempts, and has one left |
| OrderLog.EveryProviderAtMostOnce | flexo/src/lib.rs:207-288 | an order ends within min(25, n) attempts and tries no provider twice |
| OrderLog.FailureMeansEverywhere | flexo/src/lib.rs:228-288 | a retryable order with at most 25 providers ends in a retryable failure only if every single provider has failed it |
| OrderLog.OrderKeepsFile | flexo/src/lib.rs:211-288 | across all attempts the package file only grows, stays a beginning of the content with its true size recorded, and is whole on success |
| OrderLog.OrderKeepsProtocol | flexo/src/lib.rs:228-281 | over a whole order: progress is preceded by the size in the same attempt and is never first, every size is right, and a final word is the last message, never sent by a success; an order that succeeds has announced the size, or completion, first |
| OrderLog.NetEffectOfOrder | flexo/src/lib.rs:255-291 | for every state of the counters: what carrying out the operations of an order makes of a failure counter. One failure is left for each provider that broke off or erred on the way if the order succeeds, and none if it does not; but the first punishment of a custom provider without an entry is missed |
| OrderLog.FailedOrderRestoresCounters | flexo/src/lib.rs:281-291 | a failed order on pool providers leaves every failure counter as it was |
| OrderLog.CustomOrderRestoresExactlyWhen | flexo/src/lib.rs:281-291 | a failed order on a custom provider leaves its counter as it was, if and only if it punished nobody or there was an entry before; otherwise the counter is at its maximum |
| OrderLog.UsagesAfterOrder | flexo/src/lib.rs:341-349 | an order adds one usage to each pool provider that it tried, and none to any other, whether it succeeds or not |
| OrderLog.PunishedOnce | flexo/src/lib.rs:255-268 | punished are exactly the providers whose attempt was partial or in error, each once |
| Failover.CheckDuplicates | flexo/src/lib.rs:514-523 | the check passes if and only if all identifiers are distinct |
| Failover.ReceiveContentLength | flexo/src/main.rs:700-721 | what the serving thread concludes from the first message, for every message that can be first, from a timeout, and from a closed channel |
| Failover.GetChannel | flexo/src/lib.rs:146-169 | a new channel, or one that earlier jobs have used: no range is in force on it |
| Failover.RunAttempt | flexo/src/lib.rs:232-254 | what an attempt reports and leaves on disk is what the transfer from its mirror made of the reply; without a channel, it is the error that tells why |
| Failover.SelectProvider | flexo/src/lib.rs:296-353 | the custom provider, or the minimum under the score of the kind of order among those not excluded, and whether it is the last one |
| Failover.TryOnce | flexo/src/lib.rs:211-288 | one round of the loop under interference: a provider not tried before, the right last-chance flag, and its exact effects on counters and disk |
| Failover.TryProviders | flexo/src/lib.rs:207-288 | the loop terminates, and its log, messages, punished providers and counter operations fit together |
| Failover.TryUntilSuccess | flexo/src/lib.rs:197-294 | the order leaves a finished log in which every attempt has happened with its mirror, and a pardon of exactly its punishments unless it succeeded; it succeeds if and only if its last attempt is delivered the rest, and whenever it reaches a mirror that delivers |
| GrowingFile.ClientFileSource.SendPayload | flexo/src/main.rs:1043-1060 | the bytes between the two offsets arrive once and in order; on an error, a beginning of them; and there is an error if and only if a call fails |
| GrowingFile.ClientFileSource.SendPayloadAndFlush | flexo/src/main.rs:1028-1041 | the same with the flush: an error if and only if a call or the flush fails |
| GrowingFile.TransferExactly | flexo/src/main.rs:1043-1060 | a transfer gets to its end if and only if none of its calls fails, and the call that fails is the last one |
| GrowingFile.ClientFileSource.Send | flexo/src/main.rs:770-784 | what the client has been sent goes on without a gap from where it was |
| GrowingFile.OnePollMore | flexo/src/main.rs:800-832 | one poll more: growth pays for as many polls as the stall limit, no growth lengthens the stall by one |
| GrowingFile.PollOnce | flexo/src/main.rs:800-832 | one iteration for any environment of polls, calls and flushes: its outcome is determined by the environment, and what has arrived is sent without a gap |
| GrowingFile.ServeGrowingFileLoop | flexo/src/main.rs:789-833 | for any announced length D and stall limit M: sends a beginning of the content from the resume offset, and all that was seen unless sending failed; success means at least D bytes, and exactly D unless less was announced than there is; a poll error if and only if the last poll failed, a send error if and only if a call or a flush failed, the stall error if and only if there was no growth for M polls; at most D*M polls; one sleep after each poll that neither finishes nor fails |
| GrowingFile.OkExactlyWhen | flexo/src/main.rs:789-833 | if nothing fails, the loop succeeds if and only if the file gets far enough before it has stalled for M polls |
| GrowingFile.ServeFromGrowingFile | flexo/src/main.rs:835-873 | the same with the header and with M = 20000: for the right length, as many bytes follow on success as announced, and the Content-Range is valid if and only if bytes remain |
| GrowingFile.ServeFromCompleteFile | flexo/src/main.rs:1001-1020 | the same for a complete file, where the subtraction does not underflow; an error if and only if a call or the flush fails |
| ClientHeader.ClientStream.Read | flexo/src/mirror_flexo.rs:1075-1090 | a read fails, or appends the next bytes of the stream within the buffer; zero means that the peer has closed |
| ClientHeader.ReadClientHeader | flexo/src/mirror_flexo.rs:1067-1111 | the loop stays inside the buffer, terminates, and gives the outcome that the bytes, their chunking and the read errors determine |
| ClientHeader.AnyChunking | flexo/src/mirror_flexo.rs:1067-1111 | the outcome in terms of the bytes alone, whatever the chunking, as long as no read fails |
| ClientHeader.ChunkingDoesNotMatterExactlyWhen | flexo/src/mirror_flexo.rs:1067-1111 | for a parser whose verdicts are final, the outcome is independent of the chunking if and only if the stream has at most 8192 bytes or is still undecided one byte later |
| ClientHeader.ChunkingCanMatter | flexo/src/mirror_flexo.rs:1067-1111 | the failing input: a stream of 8193 bytes that is refused if it arrives at once, and answered if it arrives in two parts |
| ClientHeader.ErrorsExactlyWhen | flexo/src/mirror_flexo.rs:1083-1087 | for every chunking: reading times out if and only if the loop gets to a read that hits the time limit or would block, and fails if and only if it gets to one that fails otherwise |
| Scheduler.StepKeepsInvariant | flexo/src/lib.rs:197-672 | every action of every thread keeps the invariants of orders, counters, guards and handles |
| Scheduler.ReachableStatesAreOk | flexo/src/lib.rs:197-672 | the invariants hold in every reachable state |
| Scheduler.OneDownloadPerOrder | flexo/src/lib.rs:546-662 | no two workers are at the same order, and the set of orders in progress is exactly that of the active workers |
| Scheduler.FailuresAreAccountedFor | flexo/src/lib.rs:255-291 | at any time of any run, the failure counter of a provider is the number of orders that have succeeded after punishing it, plus the number of orders in flight that hold it punished, modulo 2^32 |
| Scheduler.FailuresAreBlames | flexo/src/lib.rs:255-291 | the same in terms of what has happened: the failure counter is the number of orders that in this run had a transfer from the provider broken off or ended in error, and have not been settled as failures, modulo 2^32 |
| Scheduler.FailureCountsExactlyWhen | flexo/src/lib.rs:259-268 | a step changes the counters for a partial or erroneous attempt, and for no other |
| Scheduler.PardonWrapsExactlyWhen | flexo/src/lib.rs:355-368 | under any concurrency, the pardon of a pool order lowers the counter by one, unless, and exactly if, these punishments are a multiple of 2^32 |
| Scheduler.CustomFailuresAreAccountedFor | flexo/src/lib.rs:107-111 | at any time of any run, a custom provider has an entry if and only if it has ever been punished, and its counter is one short of the punishments that are left behind or held, modulo 2^32 |
| Scheduler.UsagesAreCounted | flexo/src/lib.rs:341-349 | at any time of any run, the usage counter of a provider is the number of times that it was selected, modulo 2^32 |
| Scheduler.UncacheableOrdersStickTogether | flexo/src/lib.rs:323-340 | in any run, whatever else happens, all uncacheable orders go to the same pool provider first as long as no failure counter changes |
| Scheduler.CustomCounterCanWrap | flexo/src/lib.rs:107-111 | the failing case is reachable: one failed order of a custom provider takes its counter to the maximum |
| Scheduler.LoadIsNumberOfGuards | flexo/src/provider_guards.rs:48-63 | the usage count of a provider is one more than the number of workers and redirecting threads that hold a guard on it, at any time |
| Scheduler.RedirectsCanEnd | flexo/src/provider_guards.rs:48-63 | a guard that is held for a redirect can be dropped at any time, and then the usage count of its provider falls by one |
| Scheduler.TransfersAreIsolated | flexo/src/mirror_flexo.rs:385-393 | a running transfer owns its handle alone, and its range is the one its own file asks for, whatever the handle was used for before |
| Scheduler.IdleHandlesAreFree | flexo/src/lib.rs:146-169 | an idle handle holds no job, belongs to one provider and to no worker |
| Scheduler.HandleTaken | flexo/src/mirror_flexo.rs:650-668 | reusing a handle resets it and hands it to one worker only |
| Scheduler.HandleKeptExactlyWhen | flexo/src/lib.rs:631-657 | the handle of a successful order becomes the idle handle of its provider, no other result leaves one, and none still holds a job |
| Scheduler.OnlySuccessAddsHandles | flexo/src/lib.rs:631-637 | nothing but the end of a successful order adds an idle handle |
| Scheduler.NoChannelExactly | flexo/src/lib.rs:146-169 | when the file cannot be opened, the idle handle of the provider is gone, nobody is punished, and the error tells whether the path was missing |
| Scheduler.RangeSet | flexo/src/mirror_flexo.rs:385-393 | setting the range for one transfer does not touch any other |
| Scheduler.WhenAllOrdersAreOver | flexo/src/lib.rs:618-662 | when all workers are done, whatever their results, no order is left in progress, each failure counter is the number of orders that succeeded after punishing the provider, and no guard is left but those of redirects |
| Scheduler.NoEarlySurrender | flexo/src/lib.rs:228-288 | an order that gives up has tried 25 providers, or all eligible ones, or must not be retried |
| Scheduler.WorkersNeverGetStuck | flexo/src/lib.rs:207-291 | every worker that is not done can take its next step; the unwrap of the minimum is safe |
| Scheduler.CandidateExists | flexo/src/provider_guards.rs:31-33 | a worker at the head of its loop has a candidate |
| Scheduler.StepLowersRank | flexo/src/lib.rs:207-288 | every step of a worker brings it closer to its end |
| Scheduler.OrdersTerminate | flexo/src/lib.rs:207-288 | in any run, all workers together take at most 250 steps per order |
| Delivery.StepKeepsInvariant | flexo/src/mirror_flexo.rs:768-899 | every careful step of the workers, of leaving writers, of every client, and every restart, keeps disk, transfer and clients right |
| Delivery.ReachableStatesAreOk | flexo/src/main.rs:240-359 | the invariant holds in every reachable state |
| Delivery.ClientsGetPrefixes | flexo/src/main.rs:789-833 | wherever mirrors break off and whatever the other threads do, each client has been sent a beginning of the content from its resume offset, every byte once and in order |
| Delivery.FinishedMeansWhole | flexo/src/main.rs:789-873 | a reply that ends well has delivered all of the rest, as many bytes as announced, with a valid range if and only if bytes remained |
| Delivery.FirstMessageIsRight | flexo/src/main.rs:700-721 | the first message is never progress, so the panic is unreachable; its size is right; and no subtraction for a complete file underflows |
| Delivery.FileGrowsAlongContent | flexo/src/mirror_flexo.rs:450-483 | over attempts, orders and restarts, the file never shrinks and never departs from the content, and every buffer that is still to be flushed continues it |
| Delivery.RecordedSizeIsRight | flexo/src/main.rs:724-741 | whoever reads the side file, at any moment, finds the true size or none |
| Delivery.StopIsSafeExactlyWhen | flexo/src/mirror_flexo.rs:506-554 | after a stop in any reachable state the cache state is right, if and only if the size of an incomplete package was not just being written again |
| Delivery.OpeningIsSafeExactlyWhen | flexo/src/lib.rs:630-652 | with orders removed before their writers are released: opening the package file keeps it a beginning of the content on every careful continuation, if and only if nothing is pending at that moment |
| Delivery.PackageCanBeCorrupted | flexo/src/lib.rs:630-652 | for every package there is a run that leaves more than the content in its file |
| Delivery.SideFileCanBeTorn | flexo/src/mirror_flexo.rs:881-899 | the failing case of a stop is reachable: a torn side file beside an incomplete package |
| Delivery.RangeCanBeInvalid | flexo/src/http_headers.rs:37-41 | the failing case of the range is reachable: a client that asks for the rest of a package that it has |
| Delivery.NewClientIsOk | flexo/src/main.rs:279-358 | a new client is served from cache only if the file is the whole content, and waits for a worker only if it resumes inside the file |
| Delivery.ArrivalExactlyWhen | flexo/src/main.rs:279-358 | a new client waits for the side file if and only if a worker is busy; otherwise it is redirected if and only if it resumes past what is there, served from cache if and only if the package is whole, and gets a worker if and only if something is missing |
| Delivery.HeaderKeepsTransfer | flexo/src/mirror_flexo.rs:831-853 | the size is recorded before it is announced, and "completed" is announced only for a whole file |
| Delivery.CompleteFileServesEverybody | flexo/src/main.rs:789-833 | once the file is complete, a client can always go on, each step brings it closer, and it ends well unless it is given up |
| Delivery.EveryClientCanBeServed | flexo/src/main.rs:279-358 | liveness: with the whole package there, each client that is being served, or has heard what it waits for, can be served to the end by steps of its own, and has then been sent all that it asked for |
| EndToEnd.AttemptsAreRuns | flexo/src/mirror_flexo.rs:344-433 | refinement: whatever an honest mirror replies, and whatever the buffered writer passes on, what the callbacks make of the transfer is reachable in the transition system, with the first message at the scheduling client |
| EndToEnd.OrdersAreRuns | flexo/src/lib.rs:618-662 | the same for a whole order with honest mirrors, as `TryUntilSuccess` logs it: from opening the file for the first attempt to dropping the last writer, it is a run, with its first message at the scheduling client |
| EndToEnd.SuccessServesTheClient | flexo/src/main.rs:279-358 | from the request to the last byte: an order that succeeds leaves the whole package, and the client that scheduled it can be served all that it asked for |
| LockOrder.ThreadsRespectRanks | flexo/src/lib.rs:152-672 | every thread, however many requests it serves or attempts it makes, takes locks in ascending rank and gives all back |
| LockOrder.RequestRespects | flexo/src/lib.rs:556-574 | scheduling takes the job context, then the orders in progress, then the selection lock |
| LockOrder.AttemptRespects | flexo/src/lib.rs:220-268 | an attempt takes the selection lock only inside the lock of the counters, and the channels alone |
| LockOrder.WorkerDoesItsOrder | flexo/src/lib.rs:618-662 | under its locks, a worker carries out exactly the operations of its order on the counters, in order, with one selection and one look at the idle channels for each attempt, one removal of the order, and a channel put back after success |
| LockOrder.DecisionIsAtomic | flexo/src/lib.rs:546-586 | the decision on a package and the choice of a provider to redirect to are made without giving up the job context or the orders in progress |
| LockOrder.SelectionIsAtomic | flexo/src/lib.rs:220-225 | a provider is selected and its use counted without giving up the counters |
| LockOrder.NobodyInterferes | flexo/src/lib.rs:556-574 | mutual exclusion: what a thread uses is protected by a lock that it holds and nobody else does |
| LockOrder.NobodyWaitsForever | flexo/src/provider_guards.rs:23-31 | deadlock freedom: in every reachable state, if a thread is unfinished then some thread can move |
| LockOrder.EverybodyFinishes | flexo/src/lib.rs:618-662 | from every reachable state all threads can finish, with every lock free in the end |
| LockOrder.MovesAreBounded | flexo/src/lib.rs:618-662 | in whatever order they move, the threads move only as often as they have operations left |
| MirrorSelection.Deduplicate | flexo/src/mirror_fetch.rs:189-202 | keeps exactly the first mirror with each URL, in the order of the list |
| MirrorSelection.AnyStableSortIsTheSame | flexo/src/mirror_flexo.rs:1012 | whatever sort keeps the promise of the library (a stable, ascending permutation) has the same result, so that everything below holds for any of them |
| MirrorSelection.ConsideredAreTheBest | flexo/src/mirror_flexo.rs:1012-1024 | only eligible mirrors are probed, no more than the limit, and an eligible one that is not probed has lost to as many mirrors as the limit allows, none with a higher score |
| MirrorSelection.RatedProviders | flexo/src/mirror_flexo.rs:1006-1065 | the providers are exactly the mirrors that are considered and answer, in ascending latency |
| MirrorSelection.RatedProvidersRetry | flexo/src/mirror_flexo.rs:979-1004 | at most five runs, all but the first with relaxed settings; the first that finds a provider counts, and none is found only if all runs are in vain |
| MirrorSelection.ProvidersAreEligible | flexo/src/mirror_flexo.rs:1014-1024 | every provider is a mirror of the list that passes all filters and has answered |
| MirrorSelection.EligibleAreProviders | flexo/src/mirror_flexo.rs:1014-1024 | the converse: without a limit, every mirror that passes all filters and answers is a provider |
| MirrorSelection.ProvidersAreDistinct | flexo/src/mirror_flexo.rs:1053-1064 | if the list has no duplicates then neither have the providers |
| MirrorSelection.SelectAutomatically | flexo/src/main.rs:550-593 | from the downloaded list to the job context: each provider is the first mirror with its URL, meets the settings (blacklist, protocol, IP versions, country, and a score of at most the maximum, or 3.0 more from the second run on), and has answered; without a limit, the providers are all of these, and earlier runs had none; ascending latency; distinct identifiers, so that the duplicate check never fires |
| MirrorSelection.EligibleExactlyWhen | flexo/src/mirror_fetch.rs:136-145 | the filters of a run let a mirror through if and only if it meets each setting |

## Left out

- OrderLog.OrderKeepsProtocol: is about mirrors that send no interim responses and no trailers; MirrorReplies.RulesKeptExactlyWhen says exactly for which replies an attempt keeps to the rules, and MirrorReplies.NeverProgressFirst is for all of them.
- Failover.TryUntilSuccess: the total time limit is left out, because the code only logs when it is exceeded (flexo/src/lib.rs:214-219).
- Scheduler.StepKeepsInvariant: the counters are not reset (flexo/src/lib.rs:450) while orders run, and a custom provider is not in the pool, because the counters of the two kinds of providers obey different laws.
- Scheduler.OrdersTerminate: a transfer is one step of its worker, because its length is up to the mirror and to the speed limits of the transfer library.
- Delivery.ReachableStatesAreOk: is about runs in which nothing is pending when the package file is opened and the program is not stopped with a torn side file; Delivery.OpeningIsSafeExactlyWhen and Delivery.StopIsSafeExactlyWhen show that neither can be given up.
- Delivery.PersistedIsRight: the side file that is created for a file found without one is written in one step, because that file is complete and a torn write changes nothing.
- Delivery.FinishedMeansWhole: uncacheable packages are not streamed in this model, because mirrors need not agree on them.
- GrowingFile.ClientFileSource.SendPayload: a `sendfile` call that transfers nothing without an error is excluded; the code would repeat it forever.
- MirrorSelection.SelectAutomatically: the timeout of a probe is part of the given probe results, and scores are real numbers instead of floating-point ones.
- libcurl, httparse, sockets and the file system are environments with the contracts above; options other than the range are not modelled.
- Receive timeouts, I/O errors and closed connections are outcomes that may happen at any time; no clock is modelled.
- The panic monitor and the poisoning of locks, logging, and the messages for integration tests do not affect the kept state.
- Configuration, TOML and environment parsing, SI units and the storage of latency results.
- External cache purging, the cleanup of uncacheable files by age, and the status and metrics endpoints beyond their locks.
- URI joining, path checks, custom-repository path rewriting and the text of header lines.
