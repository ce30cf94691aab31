/** The server behind an append, as far as the client's documentation states
    it, and a network that may lose or replace what passes through it.
    A call's environment is then a run of the two, and the effect of the call is
    counted in the server's log. */
module Server {
  import opened GoErrors
  import opened Policy
  import opened RequestBody
  import opened HttpClient
  import opened CallLaws
  import opened Effects

  /** The log holds, per message, the operation it came from; a lease is live
      while it is in leases; dedup maps the remembered keys to log positions. */
  datatype State = State(log: seq<nat>, leases: set<nat>, dedup: map<nat, nat>)

  /** Send, or ack-and-send when there is a lease; origin identifies the call. */
  datatype Op = Op(origin: nat, lease: Option<nat>, key: Option<nat>)

  function Answer(code: int, kind: WireKind): (r: Reply)
    ensures r.Response?
  {
    Response(code, "", "", if kind == Missing then None else Some(Desc(kind, "", None)), None)
  }

  predicate Claimed(op: Op, s: State) {
    op.key.Some? && op.key.value in s.dedup
  }

  predicate Stale(op: Op, s: State) {
    op.lease.Some? && op.lease.value !in s.leases
  }

  predicate Commits(op: Op, s: State) {
    !Stale(op, s) && !Claimed(op, s)
  }

  /** The operation as the server performs it: the lease goes and the message
      comes in one step, if at all. A repeated key is a success for a send, a refusal for an
      ack-and-send. */
  function Perform(op: Op, s: State): State {
    if !Commits(op, s) then s
    else State(
      s.log + [op.origin],
      if op.lease.Some? then s.leases - {op.lease.value} else s.leases,
      if op.key.Some? then s.dedup[op.key.value := |s.log|] else s.dedup)
  }

  function OwnAnswer(op: Op, s: State): (r: Reply)
    ensures r.Response?
  {
    if Stale(op, s) then Answer(410, Listed(StaleToken))
    else if !Claimed(op, s) then Answer(201, Missing)
    else if op.lease.Some? then Answer(409, Listed(DedupClaimed))
    else Answer(200, Missing)
  }

  /** What becomes of one attempt: it is not sent; it gets no answer, performed
      or not; it is turned away before it is performed; the server or a gateway
      answers with a status of the unknown class, performed or not; or it gets
      the server's own answer, whose body may not decode. */
  datatype Fate =
    | Unsent(err: Err)
    | Unanswered(err: Err, performed: bool)
    | TurnedAway(reply: Reply)
    | Broken(reply: Reply, performed: bool)
    | Answered(garbled: Option<Err>)

  predicate LegalFate(f: Fate) {
    match f
    case Unsent(err) => !RequestSent(err) && NoStatus(err)
    case Unanswered(err, _) => RequestSent(err) && NoStatus(err)
    case TurnedAway(reply) => reply.Response? && !HttpSuccess(reply.code) && reply.decodeErr.None?
    case Broken(reply, _) =>
      reply.Response? && reply.decodeErr.None? && reply.code >= 500 && reply.code != 503 && reply.code != 507
    case Answered(garbled) => garbled.Some? ==> NoStatus(garbled.value)
  }

  predicate Performed(f: Fate) {
    match f
    case Unanswered(_, performed) => performed
    case Broken(_, performed) => performed
    case Answered(_) => true
    case _ => false
  }

  function FateReply(f: Fate, op: Op, s: State): Reply {
    match f
    case Unsent(err) => NoResponse(err)
    case Unanswered(err, _) => NoResponse(err)
    case TurnedAway(reply) => reply
    case Broken(reply, _) => reply
    case Answered(garbled) => OwnAnswer(op, s).(decodeErr := garbled)
  }

  function Copies(op: Op, s: State): nat {
    multiset(s.log)[op.origin]
  }

  /** What others may do between two attempts: anything but append under this
      call's name or revive its lease. Its key may be forgotten or claimed. */
  ghost predicate Drift(op: Op, s: State, s': State) {
    && Copies(op, s') == Copies(op, s)
    && (Stale(op, s) ==> Stale(op, s'))
  }

  /** One attempt: others interfere, then the attempt meets its fate. */
  datatype Step = Step(seen: State, fate: Fate)

  ghost predicate StepOk(op: Op, s: State, step: Step, s': State, t: Turn) {
    && Drift(op, s, step.seen)
    && LegalFate(step.fate)
    && t.reply == FateReply(step.fate, op, step.seen)
    && t.committed == (Performed(step.fate) && Commits(op, step.seen))
    && s' == if Performed(step.fate) then Perform(op, step.seen) else step.seen
  }

  /** The turns of a call are those of this run of the server. */
  ghost predicate ServerRun(op: Op, env: Env, n: nat, states: seq<State>, steps: seq<Step>) {
    && |states| == n + 1 && |steps| == n
    && forall i: nat | i < n :: StepOk(op, states[i], steps[i], states[i + 1], env.turn(i))
  }

  function CommitCount(env: Env, n: nat): nat {
    if n == 0 then 0 else CommitCount(env, n - 1) + if env.turn(n - 1).committed then 1 else 0
  }

  function UnknownCount(c: Call, env: Env, n: nat): nat {
    if n == 0 then 0
    else UnknownCount(c, env, n - 1) + if AttemptUnknown(FailureOf(c, env.turn(n - 1))) then 1 else 0
  }

  /** The count of commits is what it is called. */
  lemma {:induction false} CommitsCounted(env: Env, n: nat)
    ensures CommitCount(env, n) == |set i: nat | i < n && env.turn(i).committed|
  {
    if n > 0 {
      CommitsCounted(env, n - 1);
      var now, before := set i: nat | i < n && env.turn(i).committed, set i: nat | i < n - 1 && env.turn(i).committed;
      assert now == if env.turn(n - 1).committed then before + {n - 1} else before;
    }
  }

  predicate UnknownAt(c: Call, env: Env, i: nat) {
    AttemptUnknown(FailureOf(c, env.turn(i)))
  }

  /** And so is that of the attempts left unknown. */
  lemma {:induction false} UnknownsCounted(c: Call, env: Env, n: nat)
    ensures UnknownCount(c, env, n) == |set i: nat | i < n && UnknownAt(c, env, i)|
  {
    hide AttemptUnknown, FailureOf;
    if n > 0 {
      UnknownsCounted(c, env, n - 1);
      var now, before := set i: nat | i < n && UnknownAt(c, env, i), set i: nat | i < n - 1 && UnknownAt(c, env, i);
      if UnknownAt(c, env, n - 1) {
        assert now == before + {n - 1};
      } else {
        assert now == before;
      }
    }
  }

  // ---------- the run justifies the hypotheses on environments ----------

  lemma StepIsHonest(op: Op, s: State, step: Step, s': State, t: Turn)
    requires StepOk(op, s, step, s', t)
    ensures CleanReply(t.reply)
    ensures t.committed ==> MayCommit(t.reply)
    ensures t.committed ==> Copies(op, s') == Copies(op, s) + 1
    ensures !t.committed ==> Copies(op, s') == Copies(op, s)
  {
    hide RequestSent, NoStatus;
    if t.committed {
      assert s' == Perform(op, step.seen);
    }
  }

  /** The server's runs are honest and clean, and the log grows by exactly the
      attempts that committed. */
  lemma {:induction false} RunIsHonest(op: Op, env: Env, n: nat, states: seq<State>, steps: seq<Step>)
    requires ServerRun(op, env, n, states, steps)
    ensures Honest(env, n) && Clean(env, n)
    ensures Copies(op, states[n]) == Copies(op, states[0]) + CommitCount(env, n)
  {
    hide RequestSent, NoStatus, Copies, CleanReply;
    if n > 0 {
      RunIsHonest(op, env, n - 1, states[..n], steps[..n - 1]);
      StepIsHonest(op, states[n - 1], steps[n - 1], states[n], env.turn(n - 1));
    }
  }

  lemma {:induction false} NoCommits(env: Env, n: nat)
    ensures (forall i: nat | i < n :: !env.turn(i).committed) <==> CommitCount(env, n) == 0
  {
    if n > 0 {
      NoCommits(env, n - 1);
    }
  }

  // ---------- ack-and-send ----------

  lemma {:induction false} LeaseSpent(op: Op, env: Env, n: nat, states: seq<State>, steps: seq<Step>)
    requires ServerRun(op, env, n, states, steps) && op.lease.Some?
    ensures CommitCount(env, n) <= 1
    ensures CommitCount(env, n) == 1 ==> Stale(op, states[n])
  {
    hide RequestSent, NoStatus, Copies;
    if n > 0 {
      LeaseSpent(op, env, n - 1, states[..n], steps[..n - 1]);
      assert StepOk(op, states[n - 1], steps[n - 1], states[n], env.turn(n - 1));
    }
  }

  /** An ack-and-send appends at most one copy, under every policy, one that
      retries unknown results included, and every budget. */
  lemma AckAndSendOnce(op: Op, env: Env, n: nat, states: seq<State>, steps: seq<Step>)
    requires ServerRun(op, env, n, states, steps) && op.lease.Some?
    ensures Copies(op, states[0]) <= Copies(op, states[n]) <= Copies(op, states[0]) + 1
  {
    RunIsHonest(op, env, n, states, steps);
    LeaseSpent(op, env, n, states, steps);
  }

  lemma StaleAnswer(c: Call, op: Op, s: State, step: Step, s': State, t: Turn)
    requires StepOk(op, s, step, s', t) && step.fate.Answered? && Stale(op, step.seen)
    ensures FailureOf(c, t) == Status(410, "", Some(Desc(Listed(StaleToken), "", None)))
  {
  }

  lemma StaleReport(fs: seq<Err>)
    requires AreFailures(fs) && Last(fs) == Status(410, "", Some(Desc(Listed(StaleToken), "", None)))
    ensures Is(RpcError(Attempts(fs)), KindError(StaleToken))
  {
    hide Is;
    ReportsLast(fs, StaleToken);
  }

  /** The error of an append that appended matches the unknown-result sentinel;
      one that does not proves that nothing was appended; and an error ending on
      the server's own stale-lease answer matches the stale-token kind as well. */
  lemma AppendErrorSound(c: Call, enc: Encoded, op: Op, env: Env, n: nat, stop: StopReason,
                         states: seq<State>, steps: seq<Step>)
    requires Conforms(c, enc, env, n, stop) && n > 0 && stop != Succeeded
    requires ServerRun(op, env, n, states, steps)
    ensures var e := RpcError(Attempts(Failures(c, env, n)));
            && (Copies(op, states[n]) > Copies(op, states[0]) ==> Is(e, Bare(ResultUnknown)))
            && (!Is(e, Bare(ResultUnknown)) ==> Copies(op, states[n]) == Copies(op, states[0]))
            && (steps[n - 1].fate.Answered? && Stale(op, steps[n - 1].seen) ==> Is(e, KindError(StaleToken)))
  {
    hide RequestSent, NoStatus, Copies, Is, AttemptUnknown, RpcError, LooksRefused, OutcomeOf, FailureOf, Gate;
    RunIsHonest(op, env, n, states, steps);
    ErrorListsAttempts(c, enc, env, n, stop);
    VerdictIsExact(c, enc, env, n, stop, Attempts(Failures(c, env, n)));
    NoCommits(env, n);
    if steps[n - 1].fate.Answered? && Stale(op, steps[n - 1].seen) {
      FailuresAreFailures(c, enc, env, n, stop);
      StaleAnswer(c, op, states[n - 1], steps[n - 1], states[n], env.turn(n - 1));
      StaleReport(Failures(c, env, n));
    }
  }

  lemma SuccessIsAnswered(c: Call, op: Op, s: State, step: Step, s': State, t: Turn)
    requires StepOk(op, s, step, s', t) && OutcomeOf(c, t).Done?
    ensures step.fate.Answered? && !Stale(op, step.seen)
    ensures t.committed <==> !Claimed(op, step.seen)
    ensures t.reply.Response? && t.reply.code == if t.committed then 201 else 200
    ensures op.lease.Some? ==> t.committed
  {
    hide RequestSent, NoStatus, Copies;
  }

  /** Success means an effect: the server itself answered the last attempt, which
      appended unless a send's key was held already, and the code tells which;
      and an ack-and-send that succeeds has appended exactly one copy. */
  lemma SuccessIsEffective(c: Call, enc: Encoded, op: Op, env: Env, n: nat, states: seq<State>, steps: seq<Step>)
    requires Conforms(c, enc, env, n, Succeeded) && ServerRun(op, env, n, states, steps)
    ensures steps[n - 1].fate.Answered?
    ensures env.turn(n - 1).committed <==> !Claimed(op, steps[n - 1].seen)
    ensures CallCode(c, env, n, Succeeded) == if env.turn(n - 1).committed then 201 else 200
    ensures env.turn(n - 1).committed ==> Copies(op, states[n]) >= Copies(op, states[0]) + 1
    ensures op.lease.Some? ==> env.turn(n - 1).committed && Copies(op, states[n]) == Copies(op, states[0]) + 1
  {
    hide RequestSent, NoStatus, Copies, OutcomeOf, Gate;
    assert StepOk(op, states[n - 1], steps[n - 1], states[n], env.turn(n - 1));
    SuccessIsAnswered(c, op, states[n - 1], steps[n - 1], states[n], env.turn(n - 1));
    RunIsHonest(op, env, n, states, steps);
    if env.turn(n - 1).committed {
      CommitCounts(env, n, n - 1);
    }
    if op.lease.Some? {
      LeaseSpent(op, env, n, states, steps);
    }
  }

  lemma {:induction false} StaysStale(op: Op, env: Env, n: nat, states: seq<State>, steps: seq<Step>, i: nat, k: nat)
    requires ServerRun(op, env, n, states, steps) && op.lease.Some?
    requires i < k <= n && env.turn(i).committed
    ensures Stale(op, states[k]) && (k < n ==> Stale(op, steps[k].seen))
  {
    hide RequestSent, NoStatus, Copies;
    if k == i + 1 {
      assert StepOk(op, states[i], steps[i], states[k], env.turn(i));
    } else {
      StaysStale(op, env, n, states, steps, i, k - 1);
      assert StepOk(op, states[k - 1], steps[k - 1], states[k], env.turn(k - 1));
    }
    if k < n {
      assert StepOk(op, states[k], steps[k], states[k + 1], env.turn(k));
    }
  }

  lemma {:induction false} CommitCounts(env: Env, n: nat, i: nat)
    requires i < n && env.turn(i).committed
    ensures CommitCount(env, n) >= 1
  {
    if i < n - 1 {
      CommitCounts(env, n - 1, i);
    }
  }

  /** A stale lease is never answered with success. */
  lemma StaleIsNoSuccess(c: Call, op: Op, s: State, step: Step, s': State, t: Turn)
    requires StepOk(op, s, step, s', t) && Stale(op, step.seen)
    ensures !OutcomeOf(c, t).Done? && !t.committed
  {
    hide RequestSent, NoStatus, Copies;
  }

  /** The retry of an ack-and-send that committed: exactly the one copy stays,
      the call does not succeed, its error matches the unknown-result sentinel,
      and the stale-token kind too when the server's own answer is the last. */
  lemma RetryAfterCommit(c: Call, enc: Encoded, op: Op, env: Env, n: nat, stop: StopReason,
                         states: seq<State>, steps: seq<Step>, i: nat)
    requires Conforms(c, enc, env, n, stop) && ServerRun(op, env, n, states, steps) && op.lease.Some?
    requires i < n - 1 && env.turn(i).committed
    ensures stop != Succeeded
    ensures Copies(op, states[n]) == Copies(op, states[0]) + 1
    ensures forall j: nat | i < j < n :: !env.turn(j).committed
    ensures var e := RpcError(Attempts(Failures(c, env, n)));
            && CallError(c, env, n, stop) == Some(Attempts(Failures(c, env, n)))
            && Is(e, Bare(ResultUnknown))
            && (steps[n - 1].fate.Answered? ==> Is(e, KindError(StaleToken)))
  {
    hide RequestSent, NoStatus, Copies, Is, AttemptUnknown, RpcError, LooksRefused, OutcomeOf, FailureOf, Gate;
    forall j: nat | i < j < n ensures !OutcomeOf(c, env.turn(j)).Done? && !env.turn(j).committed {
      StaysStale(op, env, n, states, steps, i, j);
      assert StepOk(op, states[j], steps[j], states[j + 1], env.turn(j));
      StaleIsNoSuccess(c, op, states[j], steps[j], states[j + 1], env.turn(j));
    }
    RunIsHonest(op, env, n, states, steps);
    LeaseSpent(op, env, n, states, steps);
    CommitCounts(env, n, i);
    StaysStale(op, env, n, states, steps, i, n - 1);
    ErrorListsAttempts(c, enc, env, n, stop);
    AppendErrorSound(c, enc, op, env, n, stop, states, steps);
  }

  // ---------- send ----------

  lemma {:induction false} CommitsAreUnknown(c: Call, env: Env, n: nat)
    requires Honest(env, n) && forall i: nat | i < n :: !OutcomeOf(c, env.turn(i)).Done?
    ensures CommitCount(env, n) <= UnknownCount(c, env, n) <= n
  {
    hide RequestSent, AttemptUnknown, OutcomeOf;
    if n > 0 {
      CommitsAreUnknown(c, env, n - 1);
      ClassifierCovers(c, env.turn(n - 1));
    }
  }

  /** A send appends at most one copy per attempt of unknown result, plus one if
      it succeeded, under every policy; hence no more than the budget. */
  lemma SendCopies(c: Call, enc: Encoded, op: Op, env: Env, n: nat, stop: StopReason,
                   states: seq<State>, steps: seq<Step>)
    requires Conforms(c, enc, env, n, stop) && stop != NotStarted
    requires ServerRun(op, env, n, states, steps)
    ensures Copies(op, states[n]) - Copies(op, states[0])
            <= (if stop == Succeeded then UnknownCount(c, env, n - 1) + 1 else UnknownCount(c, env, n))
            <= n <= (if c.attempts >= 1 then c.attempts else 1)
  {
    hide RequestSent, AttemptUnknown, Copies, Gate;
    RunIsHonest(op, env, n, states, steps);
    var m := if stop == Succeeded then n - 1 else n;
    forall i: nat | i < m ensures !OutcomeOf(c, env.turn(i)).Done? {
      assert i < n - 1 ==> Fails(c, env, i);
    }
    CommitsAreUnknown(c, env, m);
  }

  /** The key is not forgotten while the call lasts. */
  ghost predicate Remembers(op: Op, n: nat, states: seq<State>, steps: seq<Step>)
    requires |states| == n + 1 && |steps| == n
  {
    forall i: nat | i < n :: Claimed(op, states[i]) ==> Claimed(op, steps[i].seen)
  }

  lemma {:induction false} KeyClaimed(op: Op, env: Env, n: nat, states: seq<State>, steps: seq<Step>)
    requires ServerRun(op, env, n, states, steps) && op.key.Some? && Remembers(op, n, states, steps)
    ensures CommitCount(env, n) <= 1
    ensures CommitCount(env, n) == 1 ==> Claimed(op, states[n])
  {
    hide RequestSent, NoStatus, Copies;
    if n > 0 {
      KeyClaimed(op, env, n - 1, states[..n], steps[..n - 1]);
      assert StepOk(op, states[n - 1], steps[n - 1], states[n], env.turn(n - 1));
    }
  }

  /** With a key the server keeps remembering, a send appends at most one copy
      under every policy. */
  lemma KeyedSendOnce(op: Op, env: Env, n: nat, states: seq<State>, steps: seq<Step>)
    requires ServerRun(op, env, n, states, steps) && op.key.Some? && Remembers(op, n, states, steps)
    ensures Copies(op, states[n]) <= Copies(op, states[0]) + 1
  {
    RunIsHonest(op, env, n, states, steps);
    KeyClaimed(op, env, n, states, steps);
  }

  /** Without the opt-in, a send needs no key to append at most one copy. */
  lemma DefaultSendOnce(c: Call, enc: Encoded, op: Op, env: Env, n: nat, stop: StopReason,
                        states: seq<State>, steps: seq<Step>)
    requires Conforms(c, enc, env, n, stop) && Follows(c, RetrySend) && NamedKindsSettled(env, n)
    requires ServerRun(op, env, n, states, steps)
    ensures Copies(op, states[n]) <= Copies(op, states[0]) + 1
  {
    hide RequestSent, NoStatus, Copies, Gate, OutcomeOf, RetrySend, StepOk;
    RunIsHonest(op, env, n, states, steps);
    AtMostOneCommit(c, enc, env, n, stop);
    if n > 0 {
      NoCommits(env, n - 1);
    }
  }

  // ---------- the bound is met ----------

  /** A forgetful server lets a send that retries unknown results append as many
      copies as its budget has attempts. */
  lemma SendMayRepeat(c: Call, enc: Encoded, op: Op) returns (states: seq<State>, steps: seq<Step>)
    requires Repeatable(c, enc) && Follows(c, RetrySendUnknown) && op.lease.None?
    ensures var env, n := SameReply(c, Answer(504, Missing), true), if c.attempts >= 1 then c.attempts else 1;
            && Conforms(c, enc, env, n, BudgetSpent)
            && ServerRun(op, env, n, states, steps)
            && Copies(op, states[n]) == Copies(op, states[0]) + n
  {
    hide RequestSent;
    var reply := Answer(504, Missing);
    var env := SameReply(c, reply, true);
    UnknownApprovedRepeats(c, enc, reply);
    states, steps := [State([], {}, map[])], [];
    for i := 0 to Budget(c)
      invariant ServerRun(op, env, i, states, steps)
      invariant states[0] == State([], {}, map[])
    {
      var s := states[i];
      var seen := s.(dedup := map[]);
      var step := Step(seen, Broken(reply, true));
      assert StepOk(op, s, step, Perform(op, seen), env.turn(i));
      states, steps := states + [Perform(op, seen)], steps + [step];
    }
    RunIsHonest(op, env, Budget(c), states, steps);
    AllCommits(env, Budget(c));
  }

  lemma {:induction false} AllCommits(env: Env, n: nat)
    requires forall i: nat | i < n :: env.turn(i).committed
    ensures CommitCount(env, n) == n
  {
    if n > 0 {
      AllCommits(env, n - 1);
    }
  }
}
