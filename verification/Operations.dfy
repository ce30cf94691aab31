/** The operations' control flow: what is refused before any request, the policy
    and body of the call, and the error that comes back. */
module Operations {
  import opened GoErrors
  import opened Policy
  import opened RequestBody
  import opened HttpClient
  import opened CallLaws
  import opened Effects
  import opened PayloadStream
  import RetryAfter

  const DEFAULT_ATTEMPTS: int := 5

  /** A send or, with a lease, an ack-and-send. A data source exposes Read, or
      Read and Seek, and never a size. */
  datatype AppendRequest = AppendRequest(
    spool: string, queue: string, lease: Option<string>,
    data: Option<seq<Byte>>, source: Option<Source>, retryUnknown: bool)

  datatype RecvRequest = RecvRequest(spool: string, queue: string, waitSeconds: Option<int>, stream: bool)

  /** What the caller's context and the request's URL contribute to a call. */
  datatype Setting = Setting(deadline: Option<int>, badRequest: Option<Err>)

  predicate AppendRefused(apiKey: string, r: AppendRequest) {
    || apiKey == "" || r.spool == "" || r.queue == "" || r.lease == Some("")
    || (r.data.Some? && r.source.Some?)
  }

  predicate RecvRefused(apiKey: string, r: RecvRequest) {
    || apiKey == "" || r.spool == "" || r.queue == ""
    || (r.waitSeconds.Some? && r.waitSeconds.value < 0)
  }

  function AppendCall(attempts: int, r: AppendRequest, s: Setting): Call {
    Call("POST", if attempts != 0 then attempts else DEFAULT_ATTEMPTS,
         Some(if r.retryUnknown then RetrySendUnknown else RetrySend),
         false, false, true, true, s.deadline, s.badRequest)
  }

  function RecvCall(attempts: int, s: Setting): Call {
    Call("POST", if attempts != 0 then attempts else DEFAULT_ATTEMPTS,
         Some(Retry), false, true, true, true, s.deadline, s.badRequest)
  }

  /** The body of an append: in-memory data is a sized, seekable reader of its
      own, and no data is no body. */
  function AppendBody(r: AppendRequest): Encoded
    reads if r.source.Some? then {r.source.value} else {}
  {
    match r.source
    case Some(src) => EncodeSource(src.data, src.pos, src.seekable, src.sized)
    case None =>
      if r.data.Some? && r.data.value != [] then EncodeSource(r.data.value, 0, true, Some(|r.data.value|))
      else Absent
  }

  /** The body of the HTTP request: the caller's source, or a reader over the data. */
  method AppendPayload(r: AppendRequest) returns (p: Payload)
    requires r.data.None? || r.source.None?
    ensures p.Readable? ==> if r.source.Some? then p.src == r.source.value else fresh(p.src)
    ensures EncodePayload(p) == AppendBody(r)
  {
    p := Nothing;
    if r.source.Some? {
      p := Readable(r.source.value);
    } else if r.data.Some? && |r.data.value| > 0 {
      var src := new Source(r.data.value, true, Some(|r.data.value|));
      p := Readable(src);
    }
  }

  /** What the body of an append holds, by what the request has. */
  lemma AppendOffers(r: AppendRequest)
    requires r.source.Some? ==> r.source.value.sized.None?
    ensures var enc := AppendBody(r);
            match r.source
            case None =>
              var d := if r.data.Some? then r.data.value else [];
              enc.Offer() == d && enc.Declared() == |d|
            case Some(src) =>
              && (src.pos <= |src.data| ==> enc.Offer() == src.data[src.pos..])
              && (src.seekable && src.pos <= |src.data| ==> enc.Declared() == |src.data| - src.pos)
              && (!src.seekable ==> enc.Declared() == -1)
  {
    match r.source
    case None =>
      if r.data.Some? {
        SeekableExactIff(r.data.value, 0, Some(|r.data.value|));
      }
    case Some(src) =>
      SeekableExactIff(src.data, src.pos, None);
      BareReaderOffers(src.data, src.pos, None);
  }

  lemma AppendGivesUp(c: Call, enc: Encoded, env: Env, n: nat, stop: StopReason, optIn: bool)
    requires Conforms(c, enc, env, n, stop)
    requires if optIn then Follows(c, RetrySendUnknown) else Follows(c, RetrySend)
    ensures stop == Refused && Clean(env, n) ==>
              n > 0 && match env.turn(n - 1).reply
                       case NoResponse(e) => optIn ==> !RequestSent(e)
                       case Response(code, _, _, desc, _) =>
                         && code != 503 && code != 429
                         && !(desc.Some? && desc.value.kind == Listed(DedupInFlight))
                         && (optIn ==> code < 500 || code == 507)
  {
    hide RetrySend, RetrySendUnknown, RequestSent, RetryAfter.Parse;
    StopMeans(c, enc, env, n, stop);
    if stop == Refused && Clean(env, n) {
      AppendRetries(c, enc, env, n, stop, n - 1, optIn);
    }
  }

  lemma AppendVerdict(c: Call, enc: Encoded, env: Env, n: nat, stop: StopReason, optIn: bool)
    requires Conforms(c, enc, env, n, stop)
    requires !optIn ==> Follows(c, RetrySend)
    ensures stop == NotStarted ==> n == 0
    ensures n == 0 ==> !SomeUnknown(c, env, n)
    ensures stop == Succeeded ==> CallError(c, env, n, stop).None?
    ensures stop !in {NotStarted, Succeeded} ==> CallError(c, env, n, stop).Some?
    ensures n > 0 && stop != Succeeded ==>
              var e := RpcError(Attempts(Failures(c, env, n)));
              && CallError(c, env, n, stop) == Some(Attempts(Failures(c, env, n)))
              && (SomeUnknown(c, env, n) ==> Is(e, Bare(ResultUnknown)))
              && (Honest(env, n) && !Is(e, Bare(ResultUnknown)) ==> forall i: nat | i < n :: !env.turn(i).committed)
    ensures !optIn && Honest(env, n) && Clean(env, n) && NamedKindsSettled(env, n)
            ==> forall i: nat | i < n - 1 :: !env.turn(i).committed
  {
    hide Is, RpcError, RequestSent, Gate, OutcomeOf, RetrySend, RetryAfter.Parse;
    StartedFails(c, enc, env, n, stop);
    if n > 0 && stop != Succeeded {
      ErrorListsAttempts(c, enc, env, n, stop);
      VerdictIsExact(c, enc, env, n, stop, Attempts(Failures(c, env, n)));
    }
    if !optIn && Honest(env, n) && Clean(env, n) && NamedKindsSettled(env, n) {
      AtMostOneCommit(c, enc, env, n, stop);
    }
  }

  lemma SettleGivesUp(c: Call, enc: Encoded, env: Env, n: nat, stop: StopReason)
    requires Conforms(c, enc, env, n, stop) && Follows(c, Retry)
    ensures stop == Refused && Clean(env, n) ==>
              n > 0 && (env.turn(n - 1).reply.Response? ==>
                          var r := env.turn(n - 1).reply;
                          && r.code != 503 && r.code != 429
                          && !(r.desc.Some? && r.desc.value.kind in {Listed(QueueBusy), Listed(QueueCreating)}))
  {
    hide Retry, RequestSent, RetryAfter.Parse;
    StopMeans(c, enc, env, n, stop);
    if stop == Refused && Clean(env, n) {
      SettleRetries(c, enc, env, n, stop, n - 1);
    }
  }

  /** The laws of any call, for one made with a client's attempts and a setting. */
  lemma SettingHolds(attempts: int, s: Setting, c: Call, enc: Encoded, env: Env, ids: Ids, n: nat, stop: StopReason)
    requires Conforms(c, enc, env, n, stop)
    requires c.attempts == (if attempts == 0 then 5 else attempts) && c.deadline == s.deadline && c.badRequest == s.badRequest
    ensures n <= 1 || n <= if attempts == 0 then 5 else attempts
    ensures s.badRequest.Some? ==> n == 0
    ensures |Exchanges(enc, env, ids, n)| == n
    ensures forall i: nat | 0 < i < n ::
              && env.turn(i).ctxErr.None?
              && (s.deadline.Some? ==> env.turn(i).now + Exchanges(enc, env, ids, n)[i].wait <= s.deadline.value)
  {
    hide Gate, ExchangeAt, RetryAfter.Parse, RequestSent, OutcomeOf;
    RequestCount(c, enc, env, n, stop);
    if n > 0 {
      RequestAllowed(c, enc, env, n, stop, 0);
    }
    forall i: nat | 0 < i < n
      ensures env.turn(i).ctxErr.None?
      ensures s.deadline.Some? ==> env.turn(i).now + Exchanges(enc, env, ids, n)[i].wait <= s.deadline.value
    {
      RequestAllowed(c, enc, env, n, stop, i);
      WaitDiscipline(c, enc, env, ids, n, stop, i);
    }
  }

  class Spooler {
    const apiKey: string
    const attempts: int
    const http: HttpClient.Client

    constructor (apiKey: string, attempts: int, http: HttpClient.Client)
      ensures this.apiKey == apiKey && this.attempts == attempts && this.http == http
    {
      this.apiKey, this.attempts, this.http := apiKey, attempts, http;
    }

    /** do: the call, its failure reported as the package's error. */
    method Call(w: World, c: HttpClient.Call, p: Payload, env: Env)
      returns (code: int, err: Option<Err>, ghost n: nat, ghost stop: StopReason)
      requires http.Valid() && w.waited == 0
      modifies http, w, if p.Readable? then {p.src} else {}
      ensures http.Valid()
      ensures Conforms(c, old(EncodePayload(p)), env, n, stop)
      ensures w.requests == old(w.requests) + Exchanges(old(EncodePayload(p)), env, Ids(http.prefix, old(http.reqID)), n)
      ensures code == CallCode(c, env, n, stop)
      ensures stop == NotStarted <==> Preparation(http.baseErr, c, p, env.seeks).Some?
      ensures var e := if stop == NotStarted then Preparation(http.baseErr, c, p, env.seeks) else CallError(c, env, n, stop);
              err == match e case None => None case Some(x) => Some(RpcError(x))
    {
      var e: Option<Err>;
      code, e, n, stop := http.Do(w, c, p, env);
      err := match e case None => None case Some(x) => Some(RpcError(x));
    }

    /** Send and AckAndSend. A refused request sends nothing. Otherwise an error
        after a request reports an unknown result if any attempt's was; without
        the opt-in at most the last attempt can have committed; and an in-memory
        payload or a seekable source is offered whole at every attempt. */
    method Append(w: World, r: AppendRequest, s: Setting, env: Env)
      returns (err: Option<Err>, ghost n: nat, ghost stop: StopReason)
      requires http.Valid() && w.waited == 0
      requires r.source.Some? ==> r.source.value.sized.None?
      modifies http, w, if r.source.Some? then {r.source.value} else {}
      ensures http.Valid()
      ensures apiKey == "" || r.spool == "" || r.queue == "" || r.lease == Some("") || (r.data.Some? && r.source.Some?)
              <==> AppendRefused(apiKey, r)
      ensures AppendRefused(apiKey, r) ==> err == Some(Refusal()) && n == 0 && w.requests == old(w.requests)
      ensures !AppendRefused(apiKey, r) ==>
                var c := AppendCall(attempts, r, s);
                && Conforms(c, old(AppendBody(r)), env, n, stop)
                && w.requests == old(w.requests) + Exchanges(old(AppendBody(r)), env, Ids(http.prefix, old(http.reqID)), n)
                && (stop == Succeeded <==> err.None?)
                && (n > 0 && stop != Succeeded ==> err == Some(RpcError(Attempts(Failures(c, env, n)))))
                && (err.Some? && SomeUnknown(c, env, n) ==> Is(err.value, Bare(ResultUnknown)))
                && (err.Some? && Honest(env, n) && !Is(err.value, Bare(ResultUnknown))
                    ==> forall i: nat | i < n :: !env.turn(i).committed)
                && (!r.retryUnknown && Honest(env, n) && Clean(env, n) && NamedKindsSettled(env, n)
                    ==> forall i: nat | i < n - 1 :: !env.turn(i).committed)
      // The requests this call added to the wire: how many, when, and what each carries.
      ensures n <= 1 || n <= if attempts == 0 then 5 else attempts
      ensures |w.requests| == |old(w.requests)| + n && old(w.requests) <= w.requests
      ensures s.badRequest.Some? ==> n == 0
      ensures forall i: nat | 0 < i < n ::
                && env.turn(i).ctxErr.None?
                && (s.deadline.Some? ==> env.turn(i).now + w.requests[|old(w.requests)| + i].wait <= s.deadline.value)
      ensures forall x | x in w.requests[|old(w.requests)|..] ::
                match r.source
                case None =>
                  var d := if r.data.Some? then r.data.value else [];
                  x.offered == d && x.declared == |d|
                case Some(src) =>
                  && (old(src.pos) <= |src.data| ==> x.offered == src.data[old(src.pos)..])
                  && (src.seekable && old(src.pos) <= |src.data| ==> x.declared == |src.data| - old(src.pos))
                  && (!src.seekable ==> x.declared == -1)
      // The policy gives up only on an answer that is not transient and, with the
      // opt-in, one after which nothing can have changed.
      ensures stop == Refused && Clean(env, n) ==>
                n > 0 && match env.turn(n - 1).reply
                         case NoResponse(e) => r.retryUnknown ==> !RequestSent(e)
                         case Response(code, _, _, desc, _) =>
                           && code != 503 && code != 429
                           && !(desc.Some? && desc.value.kind == Listed(DedupInFlight))
                           && (r.retryUnknown ==> code < 500 || code == 507)
    {
      hide Is, RpcError, RequestSent, Gate, OutcomeOf, ExchangeAt, Retry, RetrySend, RetrySendUnknown, Exchanges,
           FailureOf, WaitBefore, Honest, Clean, NamedKindsSettled, CarriesUnknown, RetryAfter.Parse,
           SomeUnknown, CallError, Failures, Conforms, EncodePayload, AppendBody, Preparation;
      n, stop := 0, NotStarted;
      AppendOffers(r);
      if apiKey == "" || r.spool == "" || r.queue == "" || r.lease == Some("") {
        return Some(Refusal()), 0, NotStarted;
      }
      if r.data.Some? && r.source.Some? {
        return Some(Refusal()), 0, NotStarted;
      }
      var p := AppendPayload(r);
      var c := AppendCall(attempts, r, s);
      var code;
      code, err, n, stop := Call(w, c, p, env);
      ghost var enc := old(AppendBody(r));
      ghost var ids := Ids(http.prefix, old(http.reqID));
      assert w.requests[|old(w.requests)|..] == Exchanges(enc, env, ids, n);
      RequestsCarry(enc, env, ids, n);
      SettingHolds(attempts, s, c, enc, env, ids, n, stop);
      AppendGivesUp(c, enc, env, n, stop, r.retryUnknown);
      AppendVerdict(c, enc, env, n, stop, r.retryUnknown);
    }

    /** Recv: once the request is accepted the operation is ended exactly once,
        with the error returned, on every path but one: a payload handed over as
        a stream leaves it open, for the stream to end. */
    method Recv(w: World, r: RecvRequest, s: Setting, env: Env, body: Upstream, op: Operation)
      returns (ok: bool, data: seq<Byte>, rc: DataStream?, err: Option<Err>, ghost n: nat, ghost stop: StopReason)
      requires http.Valid() && w.waited == 0
      requires op.ends == [] && body.next == 0 && body.closes == 0
      modifies http, w, body, op
      ensures http.Valid()
      ensures apiKey == "" || r.spool == "" || r.queue == "" || (r.waitSeconds.Some? && r.waitSeconds.value < 0)
              <==> RecvRefused(apiKey, r)
      ensures RecvRefused(apiKey, r) ==>
                err == Some(Refusal()) && !ok && rc == null && op.ends == [] && w.requests == old(w.requests)
      ensures !RecvRefused(apiKey, r) ==>
                var c := RecvCall(attempts, s);
                && Conforms(c, Absent, env, n, stop)
                && w.requests == old(w.requests) + Exchanges(Absent, env, Ids(http.prefix, old(http.reqID)), n)
                && (ok <==> stop == Succeeded && env.turn(n - 1).reply.code == 200)
                && (!ok && err.None? <==> stop == Succeeded && env.turn(n - 1).reply.code == 204)
                && (n > 0 && stop != Succeeded ==> err == Some(RpcError(Attempts(Failures(c, env, n)))))
      ensures !RecvRefused(apiKey, r) && rc == null ==> op.ends == [err]
      ensures rc != null ==>
                && r.stream && ok && err.None? && op.ends == [] && body.closes == 0
                && rc.body == body && rc.done == op && rc.State() == FRESH
      ensures ok ==> (rc != null <==> r.stream)
      ensures ok ==> rc != null || (body.closes == 1 && data == Gathered(body.chunks, FirstStop(body.chunks) + 1))
      ensures !ok ==> rc == null && data == []
      ensures ok && err.Some? ==> Is(err.value, Bare(ResultUnknown))
      // A buffered payload comes without an error exactly when it was read to its
      // end and closing worked; k is the first read to fail.
      ensures ok && !r.stream ==>
                forall k: nat :: ChunkAt(body.chunks, k).err.Some? && (forall i: nat | i < k :: ChunkAt(body.chunks, i).err.None?) ==>
                  var e := ChunkAt(body.chunks, k).err.value;
                  && (err.None? <==> e == Bare(EndOfFile) && body.closeErr.None?)
                  && (e != Bare(EndOfFile) ==> err == Some(Client(e, [Bare(ResultUnknown)])))
                  && |data| == Length(body.chunks, k + 1)
      // The requests this call added to the wire, and when its policy gives up.
      ensures n <= 1 || n <= if attempts == 0 then 5 else attempts
      ensures |w.requests| == |old(w.requests)| + n && old(w.requests) <= w.requests
      ensures s.badRequest.Some? ==> n == 0
      ensures forall i: nat | 0 < i < n ::
                && env.turn(i).ctxErr.None?
                && (s.deadline.Some? ==> env.turn(i).now + w.requests[|old(w.requests)| + i].wait <= s.deadline.value)
      ensures forall x | x in w.requests[|old(w.requests)|..] :: x.offered == [] && x.declared == 0
      ensures stop == Refused && Clean(env, n) ==>
                n > 0 && (env.turn(n - 1).reply.Response? ==>
                            var a := env.turn(n - 1).reply;
                            && a.code != 503 && a.code != 429
                            && !(a.desc.Some? && a.desc.value.kind in {Listed(QueueBusy), Listed(QueueCreating)}))
    {
      hide RpcError, Exchanges, Gate, Preparation, EncodeError, OutcomeOf, Is, FailureOf, WaitBefore, Clean, Conforms, CallError,
           CallCode, Failures, Gathered,
           RequestSent, RetryAfter.Parse, Retry, Length, ExchangeAt;
      data, rc, ok, n, stop := [], null, false, 0, NotStarted;
      if apiKey == "" || r.spool == "" || r.queue == "" {
        return false, [], null, Some(Refusal()), 0, NotStarted;
      }
      if r.waitSeconds.Some? && r.waitSeconds.value < 0 {
        return false, [], null, Some(Refusal()), 0, NotStarted;
      }
      var c := RecvCall(attempts, s);
      var code, e;
      code, e, n, stop := Call(w, c, Nothing, env);
      ghost var ids := Ids(http.prefix, old(http.reqID));
      assert w.requests[|old(w.requests)|..] == Exchanges(Absent, env, ids, n);
      RequestsCarry(Absent, env, ids, n);
      SettingHolds(attempts, s, c, Absent, env, ids, n, stop);
      SettleGivesUp(c, Absent, env, n, stop);
      RecvOutcome(c, env, n, stop);
      if e.Some? {
        op.Done(e);
        return false, [], null, e, n, stop;
      }
      ok, data, rc, err := TakeAnswer(code, r.stream, body, op);
    }
  }

  /** What is left of a receive once it was answered with success. */
  method TakeAnswer(code: int, stream: bool, body: Upstream, op: Operation)
    returns (ok: bool, data: seq<Byte>, rc: DataStream?, err: Option<Err>)
    requires op.ends == [] && body.next == 0 && body.closes == 0
    modifies body, op
    ensures ok <==> code == 200
    ensures !ok ==> rc == null && data == [] && (err.None? <==> code == 204)
    ensures rc == null ==> op.ends == [err]
    ensures ok ==> (rc != null <==> stream)
    ensures rc != null ==>
              && err.None? && op.ends == [] && body.closes == 0
              && rc.body == body && rc.done == op && rc.State() == FRESH
    ensures ok && !stream ==> body.closes == 1 && data == Gathered(body.chunks, FirstStop(body.chunks) + 1)
    ensures ok && err.Some? ==> Is(err.value, Bare(ResultUnknown))
    ensures ok && !stream ==>
              forall k: nat :: ChunkAt(body.chunks, k).err.Some? && (forall i: nat | i < k :: ChunkAt(body.chunks, i).err.None?) ==>
                var e := ChunkAt(body.chunks, k).err.value;
                && (err.None? <==> e == Bare(EndOfFile) && body.closeErr.None?)
                && (e != Bare(EndOfFile) ==> err == Some(Client(e, [Bare(ResultUnknown)])))
                && |data| == Length(body.chunks, k + 1)
  {
    hide Is, Length, Gathered;
    if code == 200 {
      data, rc, err := HandleDataOK(body, stream, op);
      var failed := BufferError(ChunkAt(body.chunks, FirstStop(body.chunks)), body.closeErr);
      if failed.Some? {
        UnreadPayloadIsUnknown(failed.value);
      }
      return true, data, rc, err;
    }
    ok, data, rc := false, [], null;
    var _ := body.Close();
    err := if code == 204 then None else ResultError(Some(Text("unexpected success status")));
    op.Done(err);
  }

  lemma RecvOutcome(c: HttpClient.Call, env: Env, n: nat, stop: StopReason)
    requires Conforms(c, Absent, env, n, stop) && c.stream
    ensures stop == Succeeded ==> CallError(c, env, n, stop).None?
                                  && env.turn(n - 1).reply.Response? && CallCode(c, env, n, stop) == env.turn(n - 1).reply.code
    ensures stop !in {NotStarted, Succeeded} ==> CallError(c, env, n, stop).Some?
    ensures n > 0 && stop != Succeeded ==> CallError(c, env, n, stop) == Some(Attempts(Failures(c, env, n)))
  {
    StopMeans(c, Absent, env, n, stop);
    StartedFails(c, Absent, env, n, stop);
    if n > 0 && stop != Succeeded {
      ErrorListsAttempts(c, Absent, env, n, stop);
    }
  }
}
