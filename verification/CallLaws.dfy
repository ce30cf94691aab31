/** What every finished call satisfies, whatever its environment did. */
module CallLaws {
  import opened GoErrors
  import opened RequestBody
  import opened HttpClient
  import RetryAfter
  import Backoff

  // ---------- the account is complete ----------

  lemma NotShorter(c: Call, enc: Encoded, env: Env, n: nat, stop: StopReason, n': nat, stop': StopReason)
    requires Conforms(c, enc, env, n, stop) && Conforms(c, enc, env, n', stop')
    requires stop != NotStarted && stop' != NotStarted
    ensures n <= n'
  {
    hide Gate, OutcomeOf;
    var made := Made(c, enc, env, n');
    var failed := n' > 0 && Fails(c, env, n' - 1);
    NotFailed(c, env, n', stop');
  }

  lemma NotFailed(c: Call, env: Env, n: nat, stop: StopReason)
    ensures n > 0 && (OutcomeOf(c, env.turn(n - 1)).Done? || OutcomeOf(c, env.turn(n - 1)).Lost?) ==> !Fails(c, env, n - 1)
  {
  }

  /** The environment determines the call: how many requests it makes and why it
      ends, hence its error, its waits and everything it sends. */
  lemma CallIsDetermined(c: Call, enc: Encoded, env: Env, n: nat, stop: StopReason, n': nat, stop': StopReason)
    requires Conforms(c, enc, env, n, stop) && Conforms(c, enc, env, n', stop')
    requires stop != NotStarted && stop' != NotStarted
    ensures n == n' && stop == stop'
  {
    NotShorter(c, enc, env, n, stop, n', stop');
    NotShorter(c, enc, env, n', stop', n, stop);
  }

  // ---------- the call in terms of its script ----------

  /** A call makes no more requests than it was given attempts, one at least
      being granted, and it ends for want of attempts only with all of them made. */
  lemma RequestCount(c: Call, enc: Encoded, env: Env, n: nat, stop: StopReason)
    requires Conforms(c, enc, env, n, stop)
    ensures n <= 1 || n <= c.attempts
    ensures stop == BudgetSpent ==> n == if c.attempts >= 1 then c.attempts else 1
  {
  }

  /** What holds ahead of every request: it is well formed; its wait was not cut
      short; and, of a retry, that the context had not ended, the policy took the
      failure before it, the body could be sent again and there was time. */
  lemma RequestAllowed(c: Call, enc: Encoded, env: Env, n: nat, stop: StopReason, i: nat)
    requires Conforms(c, enc, env, n, stop) && i < n
    ensures c.badRequest.None?
    ensures env.turn(i).cut.Some? ==> WaitBefore(env, i) <= 0
    ensures i > 0 ==>
              && env.turn(i).ctxErr.None?
              && c.retry.Some? && c.retry.value(Failures(c, env, n)[i - 1])
              && (enc.Streamed? && enc.size != 0 ==> enc.reopens && env.turn(i).rewind.None?)
              && (c.deadline.Some? ==> env.turn(i).now + WaitBefore(env, i) <= c.deadline.value)
  {
    hide RetryAfter.Parse, RequestSent, WaitBefore;
    assert Made(c, enc, env, i);
    if i > 0 {
      FailuresAt(c, env, n, i - 1);
    }
  }

  /** What each request is recorded as, if it fails: an answer by its status,
      body and description, a missing one by its error. */
  lemma FailureRecords(c: Call, env: Env, n: nat, i: nat)
    requires i < n
    ensures match env.turn(i).reply
            case NoResponse(e) => Failures(c, env, n)[i] == Transport(RequestSent(e), e)
            case Response(code, _, body, desc, decodeErr) =>
              && (!(200 <= code < 300) ==> Failures(c, env, n)[i] == Status(code, body, desc))
              && (200 <= code < 300 && !c.stream && c.receives && c.method_ != "HEAD" && code !in {204, 205} && decodeErr.Some?
                  ==> Failures(c, env, n)[i] == BodyFailure(code, decodeErr.value))
  {
    hide RequestSent;
    FailuresAt(c, env, n, i);
  }

  /** Only an answer outside 2xx, or none, is followed by another request. */
  lemma RetriedReplies(c: Call, enc: Encoded, env: Env, n: nat, stop: StopReason, i: nat)
    requires Conforms(c, enc, env, n, stop) && i < n
    requires i + 1 < n || (i + 1 == n && stop !in {Succeeded, BodyLost})
    ensures env.turn(i).reply.Response? ==> !(200 <= env.turn(i).reply.code < 300)
  {
    hide RetryAfter.Parse, RequestSent, Gate;
    assert Fails(c, env, i);
  }

  /** What each way to end says of the script, and the error it comes with. */
  lemma StopMeans(c: Call, enc: Encoded, env: Env, n: nat, stop: StopReason)
    requires Conforms(c, enc, env, n, stop)
    ensures stop in {Succeeded, BodyLost} ==>
              n > 0 && env.turn(n - 1).reply.Response? && 200 <= env.turn(n - 1).reply.code < 300
              && CallCode(c, env, n, stop) == env.turn(n - 1).reply.code
    ensures n > 0 && env.turn(n - 1).reply.Response? && 200 <= env.turn(n - 1).reply.code < 300 ==>
              var r := env.turn(n - 1).reply;
              stop == if !c.stream && c.receives && c.method_ != "HEAD" && r.code != 204 && r.code != 205 && r.decodeErr.Some?
                      then BodyLost else Succeeded
    ensures stop == ContextEnded ==> n > 0 && env.turn(n).ctxErr.Some?
    ensures stop == Refused ==> n > 0 && env.turn(n).ctxErr.None?
                                && !(c.retry.Some? && c.retry.value(Failures(c, env, n)[n - 1]))
    ensures stop == BodyGone ==> n > 0 && enc.Streamed? && enc.size != 0 && (!enc.reopens || env.turn(n).rewind.Some?)
    ensures stop == TooLate ==> n > 0 && c.deadline.Some? && env.turn(n).now + WaitBefore(env, n) > c.deadline.value
    ensures stop == WaitCut ==> WaitBefore(env, n) > 0 && env.turn(n).cut.Some?
    ensures stop == WaitCut && n == 0 ==>
              CallError(c, env, n, stop) == Some(Bare(if env.turn(0).cut.value.WasCanceled? then Canceled else DeadlineExceeded))
    ensures stop == Malformed ==> n == 0 && c.badRequest.Some? && CallError(c, env, n, stop) == c.badRequest
    ensures stop == Succeeded ==> CallError(c, env, n, stop).None?
  {
    hide RetryAfter.Parse, RequestSent, WaitBefore;
    if n > 0 {
      FailuresAt(c, env, n, n - 1);
      assert Made(c, enc, env, 0);
    }
  }

  /** Exactly what lets a call start. */
  lemma StartsIff(base: Option<Err>, c: Call, p: Payload, seeks: SeekFaults)
    ensures Preparation(base, c, p, seeks).None? <==>
              && base.None?
              && (p == Nothing || c.sendCodec)
              && (c.receives ==> c.recvCodec)
              && p != NotAReader
              && (p.Value? ==> p.marshalled.Ok?)
              && (p.Readable? && p.src.seekable ==> seeks.current.None? && seeks.end.None? && seeks.restore.None?)
    ensures base.Some? ==> Preparation(base, c, p, seeks) == base
  {
  }

  // ---------- failures ----------

  /** An error after a request is the list of every attempt's failure, each but
      the last one approved by the policy; and a malformed request, being the
      same at every attempt, is never discovered after one was sent. */
  lemma ErrorListsAttempts(c: Call, enc: Encoded, env: Env, n: nat, stop: StopReason)
    requires Conforms(c, enc, env, n, stop) && n > 0 && stop != Succeeded
    ensures stop != Malformed
    ensures CallError(c, env, n, stop) == Some(Attempts(Failures(c, env, n)))
    ensures forall i: nat | i < n - 1 :: Approved(c, Failures(c, env, n)[i])
    ensures forall i: nat | i < n - 1 :: env.turn(i).reply.NoResponse? || !HttpSuccess(env.turn(i).reply.code)
    ensures stop == BodyLost ==> !c.stream && c.receives && c.method_ != "HEAD" && CallCode(c, env, n, stop) !in {204, 205}
  {
    hide RetryAfter.Parse, RequestSent;
    assert Made(c, enc, env, 0);
    forall i: nat | i < n - 1
      ensures Approved(c, Failures(c, env, n)[i])
      ensures env.turn(i).reply.NoResponse? || !HttpSuccess(env.turn(i).reply.code)
    {
      FailuresAt(c, env, n, i);
      assert Made(c, enc, env, i + 1);
      assert Fails(c, env, i);
    }
  }

  /** A started call that does not succeed has an error to return. */
  lemma StartedFails(c: Call, enc: Encoded, env: Env, n: nat, stop: StopReason)
    requires Conforms(c, enc, env, n, stop)
    ensures stop !in {NotStarted, Succeeded} ==> CallError(c, env, n, stop).Some?
  {
    hide RetryAfter.Parse;
  }

  // ---------- bodies ----------

  /** Every attempt of a call offers, under the same declared length, the bytes
      of the source from where it stood at the start, however much of the body
      the transport took at any earlier attempt; what it takes is a prefix. */
  lemma {:induction false} ReplayFidelity(data: seq<Byte>, pos: nat, sized: Option<int>, env: Env, ids: Ids, n: nat, i: nat)
    requires pos <= |data| && i < n
    ensures var x := Exchanges(EncodeSource(data, pos, true, sized), env, ids, n)[i];
            var size := MeasuredSize(|data|, pos, true, sized);
            && 0 <= size <= |data| - pos
            && x.declared == size && x.offered == data[pos..pos + size]
            && x.sent <= x.offered
            && (env.turn(i).taken >= x.declared ==> x.sent == x.offered)
  {
    var enc := EncodeSource(data, pos, true, sized);
    ExchangesAt(enc, env, ids, n, i);
    SeekableExactIff(data, pos, sized);
  }

  /** What a body offers, and declares, at every request: marshalled bytes whole;
      a seekable source without a size of its own from where it stands; a bare
      reader too, its length unknown; and nothing for no payload. */
  lemma PayloadOffers(p: Payload)
    ensures var enc := EncodePayload(p);
            match p
            case Nothing => enc.Offer() == [] && enc.Declared() == 0
            case Value(Ok(bytes)) => enc.Offer() == bytes && enc.Declared() == |bytes|
            case Readable(src) =>
              && (src.pos <= |src.data| && src.sized.None? ==> enc.Offer() == src.data[src.pos..])
              && (src.seekable && src.pos <= |src.data| && src.sized.None? ==> enc.Declared() == |src.data| - src.pos)
              && (!src.seekable && src.sized.None? ==> enc.Declared() == -1)
            case _ => true
  {
    match p
    case Readable(src) =>
      SeekableExactIff(src.data, src.pos, src.sized);
      BareReaderOffers(src.data, src.pos, src.sized);
    case _ =>
  }

  /** Requests carry what the body offers, whole and under its length, however
      many there are. */
  lemma RequestsCarry(enc: Encoded, env: Env, ids: Ids, n: nat)
    ensures |Exchanges(enc, env, ids, n)| == n
    ensures forall x | x in Exchanges(enc, env, ids, n) :: x.offered == enc.Offer() && x.declared == enc.Declared()
  {
    forall i: nat | i < n
      ensures Exchanges(enc, env, ids, n)[i].offered == enc.Offer() && Exchanges(enc, env, ids, n)[i].declared == enc.Declared()
    {
      ExchangesAt(enc, env, ids, n, i);
    }
  }

  /** No two requests of a client carry the same id, of whichever calls. */
  lemma RequestIdsDiffer(a: Ids, i: nat, b: Ids, j: nat)
    requires a.prefix == b.prefix && a.last + i != b.last + j
    ensures RequestIdOf(a, i) != RequestIdOf(b, j)
  {
    hide RetryAfter.Decimal, RetryAfter.DigitsValue;
    var x, y := RetryAfter.Decimal(a.last + i + 1), RetryAfter.Decimal(b.last + j + 1);
    RetryAfter.DecimalValue(a.last + i + 1);
    RetryAfter.DecimalValue(b.last + j + 1);
    assert (a.prefix + x)[|a.prefix|..] == x && (b.prefix + y)[|b.prefix|..] == y;
  }

  /** A source that cannot be sent back goes out at most once, under any policy
      and budget: the call ends on the first attempt's failure, and no wait for
      a second attempt is entered. */
  lemma OneShotGoesOutOnce(c: Call, enc: Encoded, env: Env, n: nat, stop: StopReason)
    requires Conforms(c, enc, env, n, stop)
    requires enc.Streamed? && !enc.reopens && enc.size != 0
    ensures n <= 1
    ensures n == 1 && c.attempts > 1 ==> stop in {Succeeded, BodyLost, ContextEnded, Refused, BodyGone}
  {
    if n >= 1 {
      assert Gate(c, enc, env, 1).Some?;
      assert !Made(c, enc, env, 1);
    }
  }

  // ---------- waits ----------

  /** The answer's header is absent or malformed. */
  predicate NoDelayAsked(env: Env, t: Turn) {
    t.reply.Response?
    && (t.reply.retryAfter == "" || RetryAfter.Parse(t.answeredAt, t.reply.retryAfter, env.date).malformed)
  }

  /** The wait before a request: the strategy's delay or what the answer right
      before it asked for, whichever is longer. Nothing older counts: a failure
      without a response and a header that is absent or malformed ask for
      nothing. And no retry outlives the deadline. */
  lemma WaitDiscipline(c: Call, enc: Encoded, env: Env, ids: Ids, n: nat, stop: StopReason, i: nat)
    requires Conforms(c, enc, env, n, stop)
    requires 0 < i && (i < n || (i == n && stop == WaitCut))
    ensures var wait, before := WaitBefore(env, i), env.turn(i - 1);
            && wait >= env.turn(i).delay
            && (before.reply.Response? && before.reply.retryAfter != "" ==>
                  var asked := RetryAfter.Parse(before.answeredAt, before.reply.retryAfter, env.date).delay;
                  wait >= asked && (wait == env.turn(i).delay || wait == asked))
            && (env.turn(i - 1).reply.NoResponse? || NoDelayAsked(env, env.turn(i - 1)) ==> wait == RetryAfter.Max(env.turn(i).delay, 0))
            && (c.deadline.Some? ==> env.turn(i).now + wait <= c.deadline.value)
    ensures i < n ==> Exchanges(enc, env, ids, n)[i].wait == RetryAfter.Max(WaitBefore(env, i), 0)
  {
    hide RetryAfter.Parse;
    if i < n {
      assert Made(c, enc, env, i);
      ExchangesAt(enc, env, ids, n, i);
    }
  }

  /** The first wait is the strategy's own; and an answer that asks for a number
      of seconds below 2^31 is given them. */
  lemma WaitsAsked(env: Env, i: nat, sec: nat)
    ensures WaitBefore(env, 0) == RetryAfter.Max(env.turn(0).delay, 0)
    ensures i > 0 && sec < 0x8000_0000 && env.turn(i - 1).reply.Response?
            && env.turn(i - 1).reply.retryAfter == RetryAfter.Decimal(sec) ==>
              WaitBefore(env, i) == RetryAfter.Max(env.turn(i).delay, sec * 1_000_000_000)
  {
    hide RetryAfter.Parse;
    RetryAfter.DecimalValue(sec);
    if i > 0 {
      RetryAfter.SecondsRoundTrip(sec, env.turn(i - 1).answeredAt, env.date);
    }
  }

  function TotalWait(xs: seq<Exchange>): int {
    if xs == [] then 0 else TotalWait(xs[..|xs| - 1]) + xs[|xs| - 1].wait
  }

  lemma {:induction false} TotalWaitOf(enc: Encoded, env: Env, ids: Ids, n: nat)
    requires n > 0
    ensures TotalWait(Exchanges(enc, env, ids, n))
         == TotalWait(Exchanges(enc, env, ids, n - 1)) + RetryAfter.Max(WaitBefore(env, n - 1), 0)
  {
    var xs := Exchanges(enc, env, ids, n);
    assert xs[..|xs| - 1] == Exchanges(enc, env, ids, n - 1);
  }

  /** Delays drawn from the client's own strategy. */
  ghost predicate ClientDelays(env: Env, sample: nat -> real) {
    forall i: nat :: Backoff.Sample(sample(i)) && env.turn(i).delay == Backoff.Delay(Backoff.ClientBackoff(), i, sample(i))
  }

  /** No response, no header, or a header that comes to no delay. */
  predicate AsksNothing(env: Env, t: Turn) {
    || t.reply.NoResponse?
    || t.reply.retryAfter == ""
    || RetryAfter.Parse(t.answeredAt, t.reply.retryAfter, env.date).delay == 0
  }

  /** With the client's strategy and no answer asking for more, five requests
      are separated by 4.5s to 7.4375s of waiting in all, whatever the jitter. */
  lemma FiveRequestsWait(c: Call, enc: Encoded, env: Env, ids: Ids, stop: StopReason, sample: nat -> real)
    requires Conforms(c, enc, env, 5, stop) && ClientDelays(env, sample)
    requires forall i: nat | i < 4 :: AsksNothing(env, env.turn(i))
    ensures 4500 * Backoff.MILLISECOND <= TotalWait(Exchanges(enc, env, ids, 5)) <= 7_437_500_000
  {
    forall i: nat | i + 1 < 5 ensures AskedDelay(env, env.turn(i)) == 0 {
      assert AsksNothing(env, env.turn(i));
    }
    Backoff.ClientTotalWait(sample(0), sample(1), sample(2), sample(3), sample(4));
    WaitsAreDelays(env, enc, ids, sample, 5);
    SumOfFive(sample);
  }

  lemma {:induction false} WaitsAreDelays(env: Env, enc: Encoded, ids: Ids, sample: nat -> real, n: nat)
    requires ClientDelays(env, sample)
    requires forall i: nat | i + 1 < n :: AskedDelay(env, env.turn(i)) == 0
    ensures TotalWait(Exchanges(enc, env, ids, n)) == SumDelays(sample, n)
  {
    hide RetryAfter.Parse, Backoff.Delay;
    if n > 0 {
      WaitsAreDelays(env, enc, ids, sample, n - 1);
      TotalWaitOf(enc, env, ids, n);
      Backoff.DelayBounds(Backoff.ClientBackoff(), n - 1, sample(n - 1));
    }
  }

  lemma SumOfFive(sample: nat -> real)
    ensures var e := Backoff.ClientBackoff();
            SumDelays(sample, 5) == Backoff.Delay(e, 0, sample(0)) + Backoff.Delay(e, 1, sample(1))
              + Backoff.Delay(e, 2, sample(2)) + Backoff.Delay(e, 3, sample(3)) + Backoff.Delay(e, 4, sample(4))
  {
    hide Backoff.Delay;
    assert SumDelays(sample, 2) == Backoff.Delay(Backoff.ClientBackoff(), 0, sample(0)) + Backoff.Delay(Backoff.ClientBackoff(), 1, sample(1));
    assert SumDelays(sample, 4) == SumDelays(sample, 2) + Backoff.Delay(Backoff.ClientBackoff(), 2, sample(2)) + Backoff.Delay(Backoff.ClientBackoff(), 3, sample(3));
  }

  function SumDelays(sample: nat -> real, n: nat): int {
    if n == 0 then 0 else SumDelays(sample, n - 1) + Backoff.Delay(Backoff.ClientBackoff(), n - 1, sample(n - 1))
  }
}
