/** What a call may have done on the server, over every run: at most one commit
    under the default policies, and an unknown-result verdict that is exact. */
module Effects {
  import opened GoErrors
  import opened Policy
  import opened RequestBody
  import opened HttpClient
  import opened CallLaws

  // ---------- hypotheses about the environment ----------

  /** What the API documents: a success was applied; of the other answers only a
      5xx that is neither 503 nor 507 may have been; and a request that got no
      answer may have been unless it was not sent. */
  predicate MayCommit(r: Reply) {
    match r
    case NoResponse(e) => RequestSent(e)
    case Response(code, _, _, _, _) => HttpSuccess(code) || (code >= 500 && code != 503 && code != 507)
  }

  ghost predicate Honest(env: Env, n: nat) {
    forall i: nat | i < n :: env.turn(i).committed ==> MayCommit(env.turn(i).reply)
  }

  /** The transport and the decoders return none of this package's own types. */
  ghost predicate Clean(env: Env, n: nat) {
    forall i: nat | i < n :: CleanReply(env.turn(i).reply)
  }

  predicate CleanReply(r: Reply) {
    match r
    case NoResponse(e) => NoStatus(e)
    case Response(_, _, _, _, Some(e)) => NoStatus(e)
    case Response(_, _, _, _, None) => true
  }

  /** The kinds the policies retry by name come with a status that says nothing
      was changed. */
  ghost predicate NamedKindsSettled(env: Env, n: nat) {
    forall i: nat | i < n :: SettledReply(env.turn(i).reply)
  }

  predicate SettledReply(r: Reply) {
    r.Response? && !HttpSuccess(r.code)
    && ErrorKindOf(Status(r.code, r.body, r.desc)) in {QueueBusy, QueueCreating, DedupInFlight}
    ==> r.code < 500 || r.code == 503 || r.code == 507
  }

  ghost predicate Follows(c: Call, p: Err -> bool) {
    c.retry.Some? && forall e :: c.retry.value(e) == p(e)
  }

  /** The classifier covers everything that may have committed: what is neither
      a success nor recorded as unknown changed nothing. */
  lemma ClassifierCovers(c: Call, t: Turn)
    ensures MayCommit(t.reply) <==> OutcomeOf(c, t).Done? || AttemptUnknown(FailureOf(c, t))
  {
    hide RequestSent;
  }

  // ---------- at most one commit ----------

  /** The policy approves no failure of unknown result among a call's own. */
  ghost predicate ApprovesSettledOnly(c: Call, env: Env, n: nat) {
    forall i: nat | i < n && Fails(c, env, i) :: Approved(c, FailureOf(c, env.turn(i))) ==> !AttemptUnknown(FailureOf(c, env.turn(i)))
  }

  lemma OnlyTheLastCommits(c: Call, enc: Encoded, env: Env, n: nat, stop: StopReason)
    requires Conforms(c, enc, env, n, stop) && Honest(env, n) && ApprovesSettledOnly(c, env, n)
    ensures forall i: nat | i < n - 1 :: !env.turn(i).committed
  {
    hide RetryAfter.Parse, RequestSent;
    forall i: nat | i < n - 1 ensures !env.turn(i).committed {
      assert Fails(c, env, i);
      assert Made(c, enc, env, i + 1);
      ClassifierCovers(c, env.turn(i));
    }
  }

  lemma FailureShape(c: Call, t: Turn)
    requires CleanReply(t.reply) && !OutcomeOf(c, t).Done?
    ensures IsFailure(FailureOf(c, t))
  {
  }

  /** At most one attempt of a call commits, and only the last one made can be
      it, under the policies for settles and reads and for appends, for every
      budget and every environment. */
  lemma AtMostOneCommit(c: Call, enc: Encoded, env: Env, n: nat, stop: StopReason)
    requires Conforms(c, enc, env, n, stop)
    requires Follows(c, Retry) || Follows(c, RetrySend)
    requires Honest(env, n) && Clean(env, n) && NamedKindsSettled(env, n)
    ensures forall i: nat | i < n - 1 :: !env.turn(i).committed
    ensures forall i: nat, j: nat | i < n && j < n && env.turn(i).committed && env.turn(j).committed :: i == j
  {
    hide RetryAfter.Parse, RequestSent, Retry, RetrySend;
    forall i: nat | i < n && Fails(c, env, i) && Approved(c, FailureOf(c, env.turn(i)))
      ensures !AttemptUnknown(FailureOf(c, env.turn(i)))
    {
      var t := env.turn(i);
      assert CleanReply(t.reply) && SettledReply(t.reply);
      FailureShape(c, t);
      RetriedUnknown(FailureOf(c, t));
    }
    OnlyTheLastCommits(c, enc, env, n, stop);
  }

  // ---------- the hypothesis is needed, for any policy ----------

  /** The run in which every attempt meets the same reply, within any deadline,
      and commits or does not. */
  function SameReply(c: Call, reply: Reply, committed: bool): Env {
    var now := if c.deadline.Some? then c.deadline.value else 0;
    var t := HttpClient.Turn(None, None, 0, now, None, 0, reply, 0, committed);
    Env(SeekFaults(None, None, None), (_: nat) => t, (_: string) => None, "")
  }

  /** The call can get to a second attempt at all: its budget allows one, its
      request is well formed, and its body is one that can be sent again. */
  predicate Repeatable(c: Call, enc: Encoded) {
    && c.attempts >= 2
    && c.badRequest.None?
    && (enc.Streamed? && enc.size != 0 ==> enc.reopens)
  }

  lemma {:induction false} NotRepeatable(c: Call, enc: Encoded, env: Env, n: nat, stop: StopReason)
    requires Conforms(c, enc, env, n, stop) && !Repeatable(c, enc)
    ensures n <= 1
  {
    hide RetryAfter.Parse, RequestSent;
    var first, second := Made(c, enc, env, 0), Made(c, enc, env, 1);
  }

  /** A policy that approves one unknown failure has a run in which every
      attempt up to the budget commits. */
  lemma UnknownApprovedRepeats(c: Call, enc: Encoded, reply: Reply)
    requires Repeatable(c, enc) && CleanReply(reply) && Judge(c, reply).Retryable?
    requires reply.Response? ==> reply.retryAfter == ""
    requires Approved(c, Judge(c, reply).err) && AttemptUnknown(Judge(c, reply).err)
    ensures var env := SameReply(c, reply, true);
            && Honest(env, Budget(c)) && Clean(env, Budget(c))
            && Conforms(c, enc, env, Budget(c), BudgetSpent)
            && forall i: nat :: env.turn(i).committed
  {
    hide RetryAfter.Parse, RequestSent;
    var env := SameReply(c, reply, true);
    forall i: nat ensures Made(c, enc, env, i) && Fails(c, env, i) {
      assert WaitBefore(env, i) == 0;
      assert FailureOf(c, env.turn(i)) == Judge(c, reply).err;
    }
    ClassifierCovers(c, env.turn(0));
  }

  /** The policy approves no unknown failure that a reply can produce. */
  ghost predicate ApprovesNoUnknown(c: Call) {
    forall r: Reply :: CleanReply(r) && Judge(c, r).Retryable? && Approved(c, Judge(c, r).err)
                       ==> !AttemptUnknown(Judge(c, r).err)
  }

  ghost predicate AtMostOnce(c: Call, enc: Encoded) {
    forall env: Env, n: nat, stop :: Honest(env, n) && Clean(env, n) && Conforms(c, enc, env, n, stop)
                       ==> forall i: nat | i < n - 1 :: !env.turn(i).committed
  }

  /** Every honest run of a call, whatever its body, budget and deadline, commits
      with its last attempt only, if and only if the call cannot get to a second
      attempt or its policy approves no unknown failure. */
  lemma AtMostOnceIff(c: Call, enc: Encoded)
    ensures AtMostOnce(c, enc) <==> !Repeatable(c, enc) || ApprovesNoUnknown(c)
  {
    if Repeatable(c, enc) && !ApprovesNoUnknown(c) {
      UnknownApprovedViolates(c, enc);
    } else {
      forall env: Env, n: nat, stop | Honest(env, n) && Clean(env, n) && Conforms(c, enc, env, n, stop)
        ensures forall i: nat | i < n - 1 :: !env.turn(i).committed
      {
        if Repeatable(c, enc) {
          NoUnknownApproved(c, env, n);
          OnlyTheLastCommits(c, enc, env, n, stop);
        } else {
          NotRepeatable(c, enc, env, n, stop);
        }
      }
    }
  }

  lemma NoUnknownApproved(c: Call, env: Env, n: nat)
    requires ApprovesNoUnknown(c) && Clean(env, n)
    ensures ApprovesSettledOnly(c, env, n)
  {
    hide RequestSent;
    forall i: nat | i < n && Fails(c, env, i) && Approved(c, FailureOf(c, env.turn(i)))
      ensures !AttemptUnknown(FailureOf(c, env.turn(i)))
    {
      assert CleanReply(env.turn(i).reply);
    }
  }

  lemma UnknownApprovedViolates(c: Call, enc: Encoded)
    requires Repeatable(c, enc) && !ApprovesNoUnknown(c)
    ensures !AtMostOnce(c, enc)
  {
    hide RetryAfter.Parse, RequestSent;
    var r: Reply :| CleanReply(r) && Judge(c, r).Retryable? && Approved(c, Judge(c, r).err) && AttemptUnknown(Judge(c, r).err);
    var r' := if r.Response? then r.(retryAfter := "") else r;
    assert Judge(c, r') == Judge(c, r);
    UnknownApprovedRepeats(c, enc, r');
    var env, n := SameReply(c, r', true), Budget(c);
    assert Honest(env, n) && Clean(env, n) && Conforms(c, enc, env, n, BudgetSpent);
    assert env.turn(0).committed;
  }

  /** A 500 that names queue_busy: retried, although its result is unknown, so
      the call commits at every attempt. */
  lemma BusyFiveHundredCommitsTwice(c: Call, enc: Encoded)
    requires Repeatable(c, enc) && Follows(c, Retry)
    ensures var reply := Response(500, "", "", Some(Desc(Listed(QueueBusy), "", None)), None);
            var env := SameReply(c, reply, true);
            && !SettledReply(reply)
            && Conforms(c, enc, env, Budget(c), BudgetSpent)
            && env.turn(0).committed && env.turn(1).committed
  {
    var reply := Response(500, "", "", Some(Desc(Listed(QueueBusy), "", None)), None);
    var f := Status(500, "", reply.desc);
    AsStatusOfFailure(f);
    UnknownApprovedRepeats(c, enc, reply);
  }

  // ---------- the verdict is exact ----------

  lemma FailuresAreFailures(c: Call, enc: Encoded, env: Env, n: nat, stop: StopReason)
    requires Conforms(c, enc, env, n, stop) && Clean(env, n) && n > 0 && stop != Succeeded
    ensures AreFailures(Failures(c, env, n))
    ensures Last(Failures(c, env, n)) == FailureOf(c, env.turn(n - 1))
  {
    hide RetryAfter.Parse, RequestSent, IsFailure;
    forall i: nat | i < n ensures IsFailure(Failures(c, env, n)[i]) {
      FailuresAt(c, env, n, i);
      assert i < n - 1 ==> Fails(c, env, i);
      assert CleanReply(env.turn(i).reply);
      FailureShape(c, env.turn(i));
    }
  }

  predicate SomeUnknown(c: Call, env: Env, n: nat) {
    exists i: nat | i < n :: AttemptUnknown(FailureOf(c, env.turn(i)))
  }

  lemma UnknownInFailures(c: Call, env: Env, n: nat)
    requires n > 0
    ensures AnyUnknown(Failures(c, env, n)) <==> SomeUnknown(c, env, n)
  {
    hide AttemptUnknown, FailureOf;
    var fs := Failures(c, env, n);
    forall i: nat | i < n ensures fs[i] == FailureOf(c, env.turn(i)) {
      FailuresAt(c, env, n, i);
    }
    if SomeUnknown(c, env, n) {
      var i: nat :| i < n && AttemptUnknown(FailureOf(c, env.turn(i)));
      assert fs[i] in fs;
    }
  }

  /** The error a finished call comes to: any that keeps it from starting, or
      the one the started call ends with. */
  ghost predicate FailsWith(c: Call, env: Env, n: nat, stop: StopReason, e: Err) {
    stop == NotStarted || CallError(c, env, n, stop) == Some(e)
  }

  /** Under every policy and for every call that fails, one that makes no request
      included: the returned error matches the unknown-result sentinel exactly
      when an attempt of the call was unknown, no later one settling it, or the
      call made none and failed with the attempts of another call in reach, or
      the report shows a cause that carries the sentinel itself. An error that
      does not match proves that nothing was committed. */
  lemma VerdictIsExact(c: Call, enc: Encoded, env: Env, n: nat, stop: StopReason, e: Err)
    requires Conforms(c, enc, env, n, stop) && FailsWith(c, env, n, stop, e)
    ensures n > 0 ==> e == Attempts(Failures(c, env, n))
    ensures Is(RpcError(e), Bare(ResultUnknown)) <==>
              SomeUnknown(c, env, n) || (n == 0 && ResultUnknownIn(e)) || CarriesUnknown(e)
    ensures Honest(env, n) && !Is(RpcError(e), Bare(ResultUnknown)) ==> forall i: nat | i < n :: !env.turn(i).committed
  {
    hide RetryAfter.Parse, RequestSent, Is, RpcError, AttemptUnknown, AsStatus, AsAttempts, ResultUnknownIn, Gate;
    MatchesUnknownIff(e);
    if n > 0 {
      ErrorListsAttempts(c, enc, env, n, stop);
      AsAttemptsOfList(Failures(c, env, n));
      UnknownInFailures(c, env, n);
    }
    if Honest(env, n) && !SomeUnknown(c, env, n) {
      forall i: nat | i < n ensures !env.turn(i).committed {
        assert i < n - 1 ==> Fails(c, env, i);
        ClassifierCovers(c, env.turn(i));
      }
    }
  }

  /** What a failed lookup or dial returns is no refusal of this package. */
  ghost predicate DialsDoNotRefuse(env: Env, n: nat) {
    forall i: nat | i < n && env.turn(i).reply.NoResponse? && !RequestSent(env.turn(i).reply.err) ::
      !Is(env.turn(i).reply.err, Bare(InvalidRequest))
  }

  /** Nor is what keeps a call from starting: it is no error of another call. */
  predicate ForeignStart(e: Err) {
    !e.Api? && AsAttempts(e).None? && !Is(e, Bare(InvalidRequest))
  }

  /** Under these hypotheses the verdict has no exception; in particular a call
      that made no request never matches. */
  lemma VerdictIsPlain(c: Call, enc: Encoded, env: Env, n: nat, stop: StopReason, e: Err)
    requires Conforms(c, enc, env, n, stop) && FailsWith(c, env, n, stop, e)
    requires DialsDoNotRefuse(env, n) && (n == 0 ==> ForeignStart(e))
    ensures Is(RpcError(e), Bare(ResultUnknown)) <==> SomeUnknown(c, env, n)
  {
    hide RetryAfter.Parse, RequestSent, Is, RpcError, Walk, Gate;
    VerdictIsExact(c, enc, env, n, stop, e);
    if n > 0 && Is(e, Bare(InvalidRequest)) && !SomeUnknown(c, env, n) {
      LastOfList(c, enc, env, n, stop);
      var t := env.turn(n - 1);
      if t.reply.NoResponse? {
        TransportMatches(t.reply.err, RequestSent(t.reply.err), Bare(InvalidRequest));
      }
    }
  }

  lemma LastOfList(c: Call, enc: Encoded, env: Env, n: nat, stop: StopReason)
    requires Conforms(c, enc, env, n, stop) && n > 0
    ensures var last := FailureOf(c, env.turn(n - 1));
            && (Is(Attempts(Failures(c, env, n)), Bare(InvalidRequest)) <==> Is(last, Bare(InvalidRequest)))
            && (last.Status? ==> !Is(last, Bare(InvalidRequest)))
  {
    hide RetryAfter.Parse, RequestSent, OutcomeOf, Gate;
    var fs, last := Failures(c, env, n), FailureOf(c, env.turn(n - 1));
    WalkAttempts(fs);
    assert Walk(Attempts(fs)) == [Attempts(fs)] + Walk(last);
    if last.Status? {
      assert Walk(last) == [last];
    }
  }

  lemma TransportMatches(cause: Err, sent: bool, target: Err)
    requires target.Bare?
    ensures Is(Transport(sent, cause), target) <==> Is(cause, target)
  {
    WalkOver(Transport(sent, cause), cause);
    assert Walk(Transport(sent, cause)) == [Transport(sent, cause)] + Walk(cause);
  }

  /** A lookup that fails with an error matching both sentinels: it was not sent,
      no attempt is unknown, and yet the report matches. */
  function ClaimingDial(): Reply {
    NoResponse(Dns([Foreign({InvalidRequest, ResultUnknown}, [])]))
  }

  lemma UnsentReadsAsUnknown(c: Call, enc: Encoded)
    requires c.attempts <= 1 && c.badRequest.None?
    ensures var env := SameReply(c, ClaimingDial(), false);
            && Conforms(c, enc, env, 1, BudgetSpent) && Honest(env, 1) && Clean(env, 1)
            && !SomeUnknown(c, env, 1)
            && Is(RpcError(Attempts(Failures(c, env, 1))), Bare(ResultUnknown))
  {
    hide Is, Walk, RpcError, RequestSent, NoStatus, RetryAfter.Parse;
    var env, e := SameReply(c, ClaimingDial(), false), ClaimingDial().err;
    WalkClaimingDial();
    OneFailedDial(c, enc, e);
    TransportMatches(e, false, Bare(InvalidRequest));
    TransportMatches(e, false, Bare(ResultUnknown));
    FailuresAt(c, env, 1, 0);
    VerdictIsExact(c, enc, env, 1, BudgetSpent, Attempts(Failures(c, env, 1)));
    ReportsUnknown(Failures(c, env, 1));
  }

  /** A seek of the caller's source that fails with the leaking error of another
      call, or with any error matching both sentinels: nothing is sent, and yet
      the error returned matches. */
  lemma SeekReadsAsUnknown(c: Call, enc: Encoded, env: Env, src: Source, e: Err)
    requires src.seekable && c.sendCodec && (c.receives ==> c.recvCodec)
    requires e == RpcError(Attempts([RefusedPayload()])) || e == Foreign({InvalidRequest, ResultUnknown}, [])
    requires env.seeks.current == Some(e)
    ensures Preparation(None, c, Readable(src), env.seeks) == Some(e) && NoStatus(e)
    ensures Conforms(c, enc, env, 0, NotStarted) && FailsWith(c, env, 0, NotStarted, e)
    ensures Is(RpcError(e), Bare(ResultUnknown))
  {
    hide Is, Walk, RpcError;
    if e == Foreign({InvalidRequest, ResultUnknown}, []) {
      ClaimingError();
    } else {
      LeakingReport();
    }
    NoStatusFound(e);
    MatchesUnknownIff(e);
  }

  lemma ClaimingError()
    ensures var e := Foreign({InvalidRequest, ResultUnknown}, []);
            NoStatus(e) && Is(e, Bare(InvalidRequest)) && Is(e, Bare(ResultUnknown))
  {
    var e := Foreign({InvalidRequest, ResultUnknown}, []);
    assert Walk(e) == [e];
    assert e in Walk(e) && Matches(e, Bare(InvalidRequest)) && Matches(e, Bare(ResultUnknown));
  }

  lemma LeakingReport()
    ensures var e := RpcError(Attempts([RefusedPayload()]));
            NoStatus(e) && Is(e, Bare(InvalidRequest)) && Is(e, Bare(ResultUnknown))
  {
    hide Is, Walk, RpcError;
    var fs := [RefusedPayload()];
    LeakingPayload();
    ReportHidesStatus(fs);
    ReportsRefusalIff(fs);
    assert RefusedPayload() in fs && AttemptUnknown(RefusedPayload());
    ReportsUnknown(fs);
  }

  lemma OneFailedDial(c: Call, enc: Encoded, e: Err)
    requires c.attempts <= 1 && c.badRequest.None? && !RequestSent(e)
    ensures var env := SameReply(c, NoResponse(e), false);
            && Conforms(c, enc, env, 1, BudgetSpent)
            && FailureOf(c, env.turn(0)) == Transport(false, e)
  {
    hide RequestSent, RetryAfter.Parse;
    var env := SameReply(c, NoResponse(e), false);
    assert Made(c, enc, env, 0) && Fails(c, env, 0);
  }

  lemma WalkClaimingDial()
    ensures var e := ClaimingDial().err;
            && !RequestSent(e) && NoStatus(e)
            && Is(e, Bare(InvalidRequest)) && Is(e, Bare(ResultUnknown))
  {
    var e := ClaimingDial().err;
    var inner := Foreign({InvalidRequest, ResultUnknown}, []);
    WalkOver(e, inner);
    assert Walk(inner) == [inner];
    assert Walk(e) == [e, inner];
    assert inner in Walk(e) && e in Walk(e);
    assert Matches(inner, Bare(InvalidRequest)) && Matches(inner, Bare(ResultUnknown));
    SentExact(e, 0);
  }

  /** Which replies are followed by another request under the policy for settles
      and reads, and which are not when the policy is what ends the call: a 503,
      a 429 and the two kinds it names, whatever their status, and no other. */
  lemma SettleRetries(c: Call, enc: Encoded, env: Env, n: nat, stop: StopReason, i: nat)
    requires Conforms(c, enc, env, n, stop) && Clean(env, n) && i < n && Follows(c, Retry)
    ensures var r := env.turn(i).reply;
            var transient := && r.Response?
                             && (|| r.code == 503 || r.code == 429
                                 || (r.desc.Some? && r.desc.value.kind in {Listed(QueueBusy), Listed(QueueCreating)}));
            && (i + 1 < n ==> transient)
            && (i + 1 == n && stop == Refused ==> !transient)
  {
    hide Retry;
    ApprovalOf(c, enc, env, n, stop, i);
    var r, f := env.turn(i).reply, FailureOf(c, env.turn(i));
    if r.Response? {
      TransientTable(r.code, r.body, r.desc, f);
    } else {
      TransientTable(0, "", None, f);
    }
  }

  /** The same for an append, whose own kind is the key still in flight; with the
      opt-in, also for every reply after which the change may have happened, a
      lost connection included. */
  lemma AppendRetries(c: Call, enc: Encoded, env: Env, n: nat, stop: StopReason, i: nat, optIn: bool)
    requires Conforms(c, enc, env, n, stop) && Clean(env, n) && i < n
    requires if optIn then Follows(c, RetrySendUnknown) else Follows(c, RetrySend)
    ensures var r := env.turn(i).reply;
            var transient := && r.Response?
                             && (|| r.code == 503 || r.code == 429
                                 || (r.desc.Some? && r.desc.value.kind == Listed(DedupInFlight)));
            var unsettled := match r
                             case NoResponse(e) => RequestSent(e)
                             case Response(code, _, _, _, _) => code >= 500 && code != 503 && code != 507;
            && (i + 1 < n ==> transient || (optIn && unsettled))
            && (i + 1 == n && stop == Refused ==> !transient && !(optIn && unsettled))
  {
    hide RetrySend, RequestSent;
    ApprovalOf(c, enc, env, n, stop, i);
    var r, f := env.turn(i).reply, FailureOf(c, env.turn(i));
    if r.Response? {
      TransientTable(r.code, r.body, r.desc, f);
    } else {
      TransientTable(0, "", None, f);
    }
  }

  lemma ApprovalOf(c: Call, enc: Encoded, env: Env, n: nat, stop: StopReason, i: nat)
    requires Conforms(c, enc, env, n, stop) && Clean(env, n) && i < n
    ensures var f := FailureOf(c, env.turn(i));
            && (i + 1 < n ==> Approved(c, f))
            && (i + 1 == n && stop == Refused ==> !Approved(c, f))
            && (i + 1 < n || (i + 1 == n && stop == Refused) ==>
                  && IsFailure(f)
                  && match env.turn(i).reply
                     case NoResponse(e) => f == Transport(RequestSent(e), e)
                     case Response(code, _, body, desc, _) => f == Status(code, body, desc))
  {
    hide RetryAfter.Parse, RequestSent, IsFailure, WaitBefore;
    assert CleanReply(env.turn(i).reply);
    if i + 1 < n {
      assert Fails(c, env, i) && Made(c, enc, env, i + 1);
      FailureShape(c, env.turn(i));
    } else if stop == Refused {
      assert Fails(c, env, i);
      FailureShape(c, env.turn(i));
    }
  }

  /** Every attempt that is retried by default was answered, with one of the
      conditions documented as transient for that operation. */
  lemma RetriedAreTransient(c: Call, enc: Encoded, env: Env, n: nat, stop: StopReason, i: nat)
    requires Conforms(c, enc, env, n, stop) && Clean(env, n) && i + 1 < n
    requires Follows(c, Retry) || Follows(c, RetrySend)
    ensures var r := env.turn(i).reply;
            && r.Response?
            && (|| r.code == 503 || r.code == 429
                || (Follows(c, Retry) && r.desc.Some? && r.desc.value.kind in {Listed(QueueBusy), Listed(QueueCreating)})
                || (Follows(c, RetrySend) && r.desc.Some? && r.desc.value.kind == Listed(DedupInFlight)))
  {
    hide RetryAfter.Parse, RequestSent, Retry, RetrySend;
    if Follows(c, Retry) {
      SettleRetries(c, enc, env, n, stop, i);
    } else {
      AppendRetries(c, enc, env, n, stop, i, false);
    }
  }

  /** An error that ends on a transient answer was not given up on: the budget,
      the context, the deadline or the body ended the retries. */
  lemma TransientMeansSpent(c: Call, enc: Encoded, env: Env, n: nat, stop: StopReason)
    requires Conforms(c, enc, env, n, stop) && n > 0 && stop != Succeeded
    requires Follows(c, Retry) || Follows(c, RetrySend) || Follows(c, RetrySendUnknown)
    requires FailureOf(c, env.turn(n - 1)).Status? && FailureOf(c, env.turn(n - 1)).code in {503, 429}
    ensures stop in {BudgetSpent, ContextEnded, BodyGone, TooLate, WaitCut}
  {
    hide RetryAfter.Parse, RequestSent;
    ErrorListsAttempts(c, enc, env, n, stop);
    AsStatusOfFailure(FailureOf(c, env.turn(n - 1)));
  }
}
