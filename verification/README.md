# Retries and effects of the Spooler Go client

A model, with proofs, of how one operation of the client runs: a loop of
attempts over one request body, judged by a retry policy, reported as one error.
The question it answers is what that can have done on the server, and what the
caller may conclude from the error.

| module | what it models |
|---|---|
| `GoErrors`, `Opacity` | error values as an inductive tree, the order in which `errors.Is` and `errors.As` visit it, and the wrapper that hides its cause |
| `RequestBody` | a source with a position, measured once and opened again per attempt |
| `RetryAfter`, `Backoff` | delays: the header, and the exponential strategy over the reals |
| `HttpClient` | `Client.Do`: the loop of attempts on a wire and a clock |
| `CallLaws` | what every finished call satisfies |
| `Policy` | the retry policies, the classifier of a failure, the error reported |
| `Effects` | commits and verdicts over every run, for every budget |
| `Server` | an append's server, and a network that loses and replaces answers |
| `PayloadStream` | the payload stream and the two ways to take a payload |
| `Operations` | the control flow of send, ack-and-send and receive |
| `Doer` | the general retry loop with schedule resets |
| `Paging` | iteration over pages |

How a run is described. The environment of a call is a script, one entry per
attempt: the context, the clock, the strategy's delay, whether the source seeks
back, how much of the body the transport takes, the reply, and whether the server
committed. A statement over every script is one over every behaviour of network,
server and clock, for that run. `HttpClient.Conforms` says which numbers of
requests and which reasons to stop a script allows; `Client.Do` is proved to
conform, and `CallLaws.CallIsDetermined` that nothing else does. The single loop
of the source is cut into `Prepare`, `BeforeAttempt`, `Request`, `OneTurn` and
`Attempt`, in the order of its lines.

Assumptions, each a named hypothesis or a field:

- `Effects.Honest`: which replies can follow a commit, as the API documents it.
  `Server.RunIsHonest` derives it from a server.
- `Effects.NamedKindsSettled`: the kinds retried by name come with a status that
  changed nothing. Needed for at-most-once only; `Effects.AtMostOnceIff` and
  `Effects.BusyFiveHundredCommitsTwice` show what happens without it.
- `Effects.Clean`: a search of what the transport or a decoder returns finds no
  status error of this package. No other package can build one, and no error a
  call returns leads to one (`Policy.ReportHidesStatus`), so a payload reader may
  fail with such an error (`Policy.PayloadMayFailWithReport`).
- `Effects.DialsDoNotRefuse` and `Effects.ForeignStart`: a failed lookup or dial
  returns no refusal of this package, and what keeps a call from starting is no
  error of another call. Only `Effects.VerdictIsPlain` assumes them.
- `Call.badRequest`: building a request fails for every attempt or for none, since
  method and URL do not change. This is what makes "an error after any attempt is
  the list of attempts" true.
- No redirect is followed, and the transport has stopped reading a body before the
  next attempt starts.

Where the code does not do what is written about it:

- client.go:70-75 says an unknown result is returned at once. A status of the
  unknown class that names a kind retried by name is retried
  (`Policy.RetriedUnknown`, `Effects.BusyFiveHundredCommitsTwice`).
- errors.go:105-108 says anything but the contract is reachable as text only, and
  errors.go:148 keeps `ErrInvalidRequest` for what is refused before sending. A
  payload reader that fails with a refusal of the package, from a client of its
  own, exposes the whole transport error, and the send matches
  `ErrInvalidRequest` although it was sent (`Policy.LeakingPayload`). Exactly when,
  for every error a call can come to: `Policy.RpcOpaqueIff` for the first and
  `Policy.RpcRefusalIff` for the second; in terms of the last failure,
  `Policy.ReportIsOpaqueIff` and `Policy.ReportsRefusalIff`.
- errors.go:69-71 says `ErrResultUnknown` matches a failure that leaves the result
  unknown. It also matches two kinds of failure that sent nothing: a lookup that
  fails with an error matching both sentinels (`Effects.UnsentReadsAsUnknown`),
  and a seek of the caller's source that fails with such an error or with the
  leaking error of another call (`Effects.SeekReadsAsUnknown`). Exactly when, over
  every call that fails: `Effects.VerdictIsExact`.
- internal/httputil/codec.go:12-14 reserves -1 for an unknown size. A seeker that
  stands past its end declares the negative distance
  (`RequestBody.SeekableExactIff`).
- internal/backoff/backoff.go:111-117 returns nil for success. A `StopError`
  holding nil returns nil for a failure (`Doer.StopNilSucceeds`, `Doer.NilIff`).

## Model

| member | source | states |
|---|---|---|
| Effects.AtMostOneCommit | client.go:1651-1696 | over every run under `retry` or `retrySend`, for every budget and body: at most one attempt commits, and only the last made |
| Effects.AtMostOnceIff | client.go:1659-1673 | for every call, body, budget and deadline: all honest runs commit with the last attempt only, if and only if the call cannot get to a second attempt or its policy approves no unknown failure a reply can produce |
| Effects.BusyFiveHundredCommitsTwice | client.go:1659-1665 | with any body that can be sent again, a 500 naming queue_busy is retried up to the budget and commits every time |
| Effects.ClassifierCovers | client.go:1716-1748 | the classifier is exact against the documented table: success or unknown if and only if the change may have happened |
| Effects.VerdictIsExact | client.go:203-215 | over every call that fails, requests made or not, and every policy: the error matches ErrResultUnknown if and only if an attempt was unknown, whatever came later, or no request was made and another call's unknown attempts are in reach, or the report shows a cause that carries the sentinel; an error that does not match proves no commit |
| Effects.VerdictIsPlain | client.go:1704-1714 | over every call that fails: if no lookup, dial or start fails with an error of this package's making, the error matches if and only if some attempt was unknown |
| Effects.UnsentReadsAsUnknown | errors.go:123-124 | an unsent attempt whose error matches both sentinels makes the error match although no attempt is unknown |
| Effects.SeekReadsAsUnknown | internal/httputil/stream.go:34-46 | a failed seek of the caller's source sends nothing and can make the error match all the same |
| Effects.RetriedAreTransient | client.go:1654-1696 | every reply a default policy follows with another request is an answer the documentation calls transient for that operation: 503, 429, or a kind retried by name |
| Effects.SettleRetries | client.go:1651-1674 | over every run of a settle or a read, both ways: only a 503, a 429, queue_busy or queue_creating, whatever the status, is followed by another request, and none of them is ever refused one by the policy |
| Effects.AppendRetries | client.go:1676-1702 | the same for an append with dedup_in_flight; with the opt-in also for every reply after which the change may have happened, a lost connection included |
| Effects.TransientMeansSpent | internal/httputil/client.go:201-253 | an error ending on 503 or 429 means the budget, the context, the deadline or the body ended the retries |
| Policy.RetriedUnknown | client.go:1654-1748 | exactly which failures the default policies approve although their result is unknown |
| Policy.TransientTable | client.go:1651-1696 | the default policies as a table of status and named kind, both ways; what got no answer is never transient |
| Policy.ReportsUnknown | client.go:203-215 | for every list of failures, when the report matches ErrResultUnknown, both ways |
| Policy.MatchesUnknownIff | client.go:1708-1714 | for every error a call can come to, when its report matches ErrResultUnknown, both ways |
| Policy.RpcMatches | client.go:203-215 | for every error a call can come to and every sentinel, when the report matches it |
| Policy.RpcRefusalIff | errors.go:148-156 | for every error a call can come to, the report matches ErrInvalidRequest if and only if the error leads to no answer and matches |
| Policy.RpcOpaqueIff | errors.go:105-132 | for every error a call can come to, requests made or not, exactly when its report hides everything that is not contract |
| Policy.ReportsLast | errors.go:597-641 | for every list of failures, when the report matches ErrUnavailable and each kind: the last answer's own, or what a last failure that reads as a refusal matches itself |
| Policy.GatewayIsText | errors.go:602-613 | an answer that is not the API's is reported as text and gives a search nothing but the conditions |
| Policy.ReportsRefusalIff | errors.go:148-156 | the report matches ErrInvalidRequest if and only if the last failure is no answer and matches it, sent or not |
| Policy.ReportMatches | errors.go:109-132 | for every list of failures and every sentinel, when the report matches it: the context sentinels only of a last failure without an answer, cancellation hiding a deadline |
| Policy.ReportHidesStatus | errors.go:105-108 | no error of a call leads a search to a status error, the leaking case included |
| Policy.PayloadMayFailWithReport | internal/httputil/client.go:432-446 | a payload that fails with another call's error gives a failure to which every result here applies |
| Policy.AnswerIsReachable | errors.go:597-621 | a search of an API answer's error finds that kind, message and details, then the conditions, and nothing more |
| Policy.ReportIsOpaqueIff | errors.go:105-132 | a call's error hides attempts and transport exactly when its last failure is an answer or does not match the refusal sentinel |
| Policy.LeakingPayload | errors.go:122-124 | a payload failing with a refusal exposes the transport error and matches ErrInvalidRequest |
| Opacity.OpaqueIff | errors.go:105-132 | for every cause tree, the wrapper leaks exactly when the cause matches the refusal sentinel without being an API error, or is one whose details hold something not permitted |
| Opacity.ReachExact | errors.go:109-132 | for every cause tree, what errors.Is answers on the wrapper for every sentinel and kind; cancellation wins over a deadline |
| Opacity.ResultErrorIdempotent | errors.go:136-146 | wrapping twice changes nothing, and wrapping neither makes nor hides a refusal |
| GoErrors.WalkClient | errors.go:105-115 | the nodes a search of a client error visits, in order |
| GoErrors.AsStatusOfAttempts | internal/httputil/client.go:385-397 | a search for a status error in a call's failures is one in its last failure |
| Server.RunIsHonest | client.go:1716-1748 | every run of server and network meets the hypotheses on environments, and the log grows by exactly the commits |
| Server.AckAndSendOnce | client.go:881-892 | an ack-and-send appends at most one copy under every policy and budget |
| Server.AppendErrorSound | errors.go:69-79 | the error of an append that appended matches ErrResultUnknown; one that does not match proves nothing was appended; one ending on the server's stale-lease answer matches ErrStaleToken |
| Server.RetryAfterCommit | client.go:884-888 | once an ack-and-send has committed, no retry succeeds or appends; exactly one copy stays; the error matches ErrResultUnknown, and ErrStaleToken when the server's own answer is the last |
| Server.SuccessIsEffective | client.go:837-840 | success means an effect: the server answered the last attempt, which appended unless a send's key was held, and the code says which; an ack-and-send that succeeds appended exactly one copy |
| Server.SendCopies | client.go:741-750 | copies appended are at most the unknown attempts, plus one on success, and never more than the attempts the client was given |
| Server.SendMayRepeat | client.go:741-745 | with the opt-in, a body that can be sent again and a forgetful server, that bound is met: one copy per attempt |
| Server.KeyedSendOnce | client.go:745-747 | with a key the server remembers, at most one copy under every policy |
| Server.DefaultSendOnce | client.go:1676-1696 | without the opt-in a send appends at most one copy, key or not |
| HttpClient.Client.Do | internal/httputil/client.go:157-370 | every call conforms to the declarative account: requests on the wire, waits, ids, stop reason, code and error |
| HttpClient.Client.BeforeAttempt | internal/httputil/client.go:201-263 | the checks ahead of a request, in their order, with the error each one returns |
| HttpClient.Client.Init | internal/httputil/client.go:63-95 | the first use fixes the base URL's verdict and the prefix of the request ids; later uses change neither |
| HttpClient.PrefixShape | internal/httputil/client.go:81-92 | the ids' prefix is the host name without slashes at its ends, a slash, the random bytes and a dash; different random bytes give different prefixes |
| CallLaws.RequestIdsDiffer | internal/httputil/client.go:478-480 | no two requests of a client carry the same id, of whichever calls |
| HttpClient.SentExact | internal/httputil/client.go:461-476 | a failure of the body's reader always counts as sent; otherwise a lookup anywhere, then the outermost network operation, decides |
| HttpClient.PayloadFailureIsSent | internal/httputil/client.go:432-446 | a payload error counts as sent whatever it wraps |
| CallLaws.CallIsDetermined | internal/httputil/client.go:197-370 | the account leaves nothing open: a script allows one number of requests and one reason to stop |
| CallLaws.RequestCount | internal/httputil/client.go:201 | a call makes one request or at most as many as it was given attempts, and ends for want of attempts only with exactly that many made |
| CallLaws.RequestAllowed | internal/httputil/client.go:201-263 | what holds ahead of every request: an uncut wait, a well-formed request, and for a retry a live context, the policy's consent, a body that can be sent again, and time before the deadline |
| CallLaws.StopMeans | internal/httputil/client.go:201-370 | what each way to end says of the script, and the code or error it comes with |
| CallLaws.StartsIff | internal/httputil/client.go:162-196 | exactly what lets a call start |
| CallLaws.ErrorListsAttempts | internal/httputil/client.go:115-119 | an error after a request lists every attempt's failure, each but the last approved by the policy |
| CallLaws.FailureRecords | internal/httputil/client.go:294-364 | each attempt's failure by its reply: an answer by status, body and description, a missing one by its error, a 2xx whose body does not decode by that |
| CallLaws.RetriedReplies | internal/httputil/client.go:294-327 | no request follows a success |
| CallLaws.ReplayFidelity | internal/httputil/client.go:207-227 | every attempt offers exactly the measured bytes of a seekable source from where it stood, under exactly that length, whatever earlier attempts read |
| CallLaws.PayloadOffers | internal/httputil/client.go:190-227 | what each kind of payload offers and declares at every request: marshalled bytes, a seekable source, a bare reader, nothing |
| CallLaws.OneShotGoesOutOnce | internal/httputil/stream.go:72-75 | a source that cannot seek is sent at most once under any policy, and with attempts left a failure ends the call before the next wait |
| CallLaws.WaitDiscipline | internal/httputil/client.go:228-253 | a wait is the longer of the strategy's delay and the one parsed from the answer right before it; a failure without a response and an absent or malformed header ask for nothing; no retry outlives the deadline |
| CallLaws.WaitsAsked | internal/httputil/client.go:329-335 | an answer that asks for a number of seconds below 2^31 is given them, and the first wait is the strategy's own |
| CallLaws.FiveRequestsWait | client.go:152-159 | five requests of the default client are separated by 4.5s to 7.4375s in all, whatever the jitter |
| RequestBody.SeekableExactIff | internal/httputil/stream.go:28-56 | declared length equals delivered length exactly when the source does not stand past its end; which bytes those are; and a size of its own within the source is the one declared |
| RequestBody.BareReaderOffers | internal/httputil/stream.go:58-62 | a bare reader offers what is left of it, up to the size it states, and declares that size or an unknown one |
| RequestBody.Encode | internal/httputil/stream.go:28-70 | measuring leaves the source where it stood and fails exactly when a seek does |
| RequestBody.StreamBody.Open | internal/httputil/stream.go:72-105 | every open offers the same bytes; it fails only on a second use that cannot seek back |
| RequestBody.Reader.Read | internal/httputil/stream.go:93-97 | reads take successive prefixes of what is pending, within the limit |
| Backoff.DelayBounds | internal/backoff/backoff.go:42-64 | a delay lies in [0, limit] and within the jitter's share of the nominal delay, cut at the limit |
| Backoff.JitterExact | internal/backoff/backoff.go:52-64 | the delay for every sample: 0 gives the lower end of the jitter's share, one half the nominal delay, and what reaches the limit is the limit |
| Backoff.NominalMeaning | internal/backoff/backoff.go:43-49 | no delay ahead of the first attempt, the base first, a factor more each time, and what stands in for settings left out |
| Backoff.DelayMonotone | internal/backoff/backoff.go:42-64 | without jitter and with a factor of at least one, delays never shrink |
| Backoff.DelaySaturates | internal/backoff/backoff.go:49-54 | once the nominal delay reaches the limit, every later delay is the limit, whatever the samples |
| Backoff.ClientTotalWait | client.go:152-159 | the default client's four delays sum to 4.5s at least and 7.4375s at most |
| RetryAfter.Parse | internal/httputil/client.go:581-598 | never negative, never past int64, malformed exactly when neither digits below 2^31 nor a date, and then zero; a date gives the time left until it, cut to int64, and a past one nothing |
| RetryAfter.SecondsRoundTrip | internal/httputil/client.go:586-589 | printing and parsing is the identity on seconds below 2^31 and malformed beyond |
| RetryAfter.SignedIsMalformed | internal/httputil/client.go:583-584 | a signed number is malformed, not a delay |
| Doer.Do | internal/backoff/backoff.go:118-144 | every run that ends is a legal one: calls made, delays asked for, answer returned |
| Doer.LegalMeans | internal/backoff/backoff.go:118-144 | what a legal run says of the script: calls within the bound, when it went on after a result, and which of the results or context errors it returned |
| Doer.LegalUnique | internal/backoff/backoff.go:118-144 | a script allows one legal run only |
| Doer.NilIff | internal/backoff/backoff.go:127-143 | the loop reports success exactly when the last call returned nil or a StopError holding nil; its own exhaustion error never appears |
| Doer.StopNilSucceeds | internal/backoff/backoff.go:131-133 | under every bound, a StopError holding nil makes a failed run a success |
| Doer.PositionMeaning | internal/backoff/backoff.go:137-141 | the delay asked for counts the attempts since the start or the last one that ran for the reset time or longer |
| Doer.PlainSchedule | internal/backoff/backoff.go:105-108 | without resets the schedule is 0, 1, 2 and so on |
| PayloadStream.EndsExactlyOnce | client.go:217-267 | for every sequence of reads and closes: open until the first terminal call, then closed once and ended once with its verdict |
| PayloadStream.EndOf | client.go:229-267 | the one ending by the call that caused it: a failed read with its error, a close or an end of payload with what closing the body came to |
| PayloadStream.ReadReturns | client.go:229-247 | both end-of-file sentinels come back as they are, any other failure wrapped once, and no failure where the body had none |
| PayloadStream.CleanEndIff | client.go:254-266 | the operation ends without error exactly when a close or the end of the payload ended it and closing worked |
| PayloadStream.DataStream.Read | client.go:229-247 | one read: bytes, the error as the caller sees it, and the stream's next state |
| PayloadStream.DataStream.Close | client.go:249-252 | a close reports the stored result of the only close made |
| PayloadStream.HandleDataOK | client.go:1512-1544 | a stream is handed over open; otherwise the payload is read whole, closed once and ended once, without an error exactly when the first read to fail met the end of the payload and closing worked; a read's failure is returned as one of unknown result, a failing close included |
| PayloadStream.GatheredAt | client.go:1527-1528 | the payload holds every chunk whole and at its place, the one that came with the failure included |
| PayloadStream.UnreadPayloadIsUnknown | client.go:1532-1540 | a payload that could not be read leaves the result unknown |
| Operations.Spooler.Append | client.go:782-845 | refusals, exactly the listed ones, send nothing; otherwise no error exactly when the call succeeded, an unknown result always reported, a report without it proving no commit, at-most-once without the opt-in; at most five requests by default, each carrying the data, the source from where it stood, or nothing, under that length, none past the context or the deadline; and the policy gives up only on what is not transient |
| Operations.AppendOffers | client.go:810-813 | what an append's body holds by what the request has: the data and its length, a source from where it stands, or nothing |
| Operations.Spooler.Recv | client.go:1067-1128 | the requests on the wire and their bound; every path ends the operation exactly once with the error returned, except a stream handed over open, which it is exactly when asked for; a buffered payload comes without an error exactly when it was read to its end and closing worked; an error with a lease matches ErrResultUnknown; the policy gives up only on what is not transient |
| Operations.TakeAnswer | client.go:1109-1127 | 200 gives a lease and its payload, 204 nothing and no error, any other success an error; the operation ends once with it |
| Operations.Spooler.Call | client.go:180-215 | the call as made, its failure as reported |
| Paging.Listing.Iterate | iter.go:8-31 | an iteration follows the chain of cursors from the sequence's own; item j of page i is delivered at the earlier pages' lengths plus j, a failure once and last with its error; all of it without a limit, else up to one event past the limit, and no page is fetched once that is reached |
| Paging.WholeChain | iter.go:8-31 | over a chain that ends, a consumer without a limit gets exactly the pages' items, each in its place, and every page is fetched |
| Paging.Listing.constructor | iter.go:33-49 | the start is captured when the sequence is made |
| Paging.FaultOnlyLast | iter.go:14-19 | an error is given once and last, and it is the last page's |

## Left out

- HTTP itself, TLS, dialing, redirects and the transport's own replays: a round trip is one step with a reply.
- JSON, header and time formats, URL building, and the parsing of details: an answer's status, kind, message and details are given.
- HTTP dates: `RetryAfter.Parse` takes their reading as a function.
- Floating-point rounding in delays: the arithmetic is over the reals.
- Closing a request body that was opened but not sent, and sources that close: the sources of this package do not.
- Concurrent use of one client: a call is sequential, `sync.Once` is a guarded step, and the request counter does not wrap.
- The settles, queue operations and inspection: they are the call of `Operations.Spooler.Call` with `retry`, or the receive path.
- HttpClient.Client.Init: does not model the building of the HTTP transport, a call that cannot fail.
- Doer.Do: does not model a run that never ends; an unbounded configuration needs an attempt at which the run ends.
- Paging.Listing.Iterate: does not model a chain that never ends under a consumer that never stops, nor pages that change between fetches; another iteration of the same sequence appears only by the cursor it leaves in the shared request.
- Operations.Spooler.Append: does not model header and query fields, which have no part in the control flow.
- A request performed after a later attempt of the same call: an unanswered attempt is performed in its own turn or never.
- Hooks, dumps, redaction, `Clone`, `Try`, version and enum tables.
