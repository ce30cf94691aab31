/** The per-operation retry policies, the classifier of one attempt's failure,
    and the error a call reports for all its failures. */
module Policy {
  import opened GoErrors
  import opened Opacity

  // ---------- what an answer names ----------

  function ToKind(wire: WireKind): Kind {
    match wire
    case Listed(k) => k
    case _ => NoKnownKind
  }

  function ErrorKindOf(status: Err): Kind
    requires status.Status?
  {
    match status.desc
    case None => NoKnownKind
    case Some(d) => ToKind(d.kind)
  }

  predicate HasDetails(kind: Kind) {
    kind in {UnknownHeader, RetentionLimit, QueueLimit, QueueNotFound,
             QueueReplaced, DedupClaimed, RateLimited, SpoolFull}
  }

  // ---------- the policies ----------

  predicate Retry(err: Err) {
    match AsStatus(err)
    case None => false
    case Some(s) =>
      || ErrorKindOf(s) in {QueueBusy, QueueCreating}
      || s.code in {503, 429}
  }

  predicate RetrySend(err: Err) {
    match AsStatus(err)
    case None => false
    case Some(s) =>
      || ErrorKindOf(s) == DedupInFlight
      || s.code in {503, 429}
  }

  predicate RetrySendUnknown(err: Err) {
    RetrySend(err) || AttemptUnknown(err)
  }

  /** The classifier of a single failure: true when the server may have applied
      the operation. */
  predicate AttemptUnknown(err: Err) {
    match err
    case Status(code, _, _) => code >= 500 && code != 507 && code != 503
    case Transport(sent, _) => sent
    case BodyFailure(_, _) => true
    case _ => false
  }

  predicate ResultUnknownIn(err: Err) {
    match AsAttempts(err)
    case None => false
    case Some(a) => exists f | f in a.failures :: AttemptUnknown(f)
  }

  // ---------- the report ----------

  function HttpError(err: Err): Err {
    match AsStatus(err)
    case None => err
    case Some(s) =>
      if s.desc.None? || (s.desc.value.kind == Missing && s.desc.value.message == "") then
        GatewayText(s.code, s.body)
      else
        var kind := ToKind(s.desc.value.kind);
        Api(kind, s.desc.value.message,
            if HasDetails(kind) && s.desc.value.details.Some?
            then Some(Detail(kind, s.desc.value.details.value)) else None)
  }

  function StatusCondition(err: Err): Option<Err> {
    match AsStatus(err)
    case None => None
    case Some(s) =>
      if ErrorKindOf(s) != NoKnownKind then None
      else if s.code == 503 then Some(Bare(Unavailable))
      else None
  }

  function Conditions(err: Err): (conds: seq<Err>)
    ensures Sentinels(conds)
  {
    (match StatusCondition(err) case None => [] case Some(c) => [c])
    + if ResultUnknownIn(err) then [Bare(ResultUnknown)] else []
  }

  function RpcError(err: Err): Err {
    Client(HttpError(err), Conditions(err))
  }

  // ---------- what a recorded failure looks like ----------

  /** A search of what the transport or a decoder returned finds no status
      error: no other package can build one, and no error this package returns
      leads to one (ReportHidesStatus). */
  predicate NoStatus(cause: Err) {
    forall x | x in Walk(cause) :: !x.Status?
  }

  lemma NoStatusFound(cause: Err)
    requires NoStatus(cause)
    ensures AsStatus(cause).None?
  {
    hide Walk;
  }

  predicate IsFailure(f: Err) {
    match f
    case Status(_, _, _) => true
    case Transport(_, cause) => NoStatus(cause)
    case BodyFailure(_, cause) => NoStatus(cause)
    case _ => false
  }

  lemma AsStatusOfFailure(f: Err)
    requires IsFailure(f)
    ensures AsStatus(f) == if f.Status? then Some(f) else None
  {
    match f
    case Status(_, _, _) =>
    case Transport(_, cause) => WalkOver(f, cause);
    case BodyFailure(_, cause) => WalkOver(f, cause);
  }

  // ---------- theorems about single failures ----------

  /** The one way a policy that means to retry only what changed nothing
      approves an unknown result: a kind it retries by name, answered with a
      status of the unknown class. */
  lemma RetriedUnknown(f: Err)
    requires IsFailure(f)
    ensures Retry(f) && AttemptUnknown(f) <==>
              && f.Status? && ErrorKindOf(f) in {QueueBusy, QueueCreating}
              && f.code >= 500 && f.code != 503 && f.code != 507
    ensures RetrySend(f) && AttemptUnknown(f) <==>
              && f.Status? && ErrorKindOf(f) == DedupInFlight
              && f.code >= 500 && f.code != 503 && f.code != 507
  {
    AsStatusOfFailure(f);
  }

  /** The table of what is transient, by status and by the kind a body names: a
      named kind counts whatever the status, and the two statuses whatever the
      kind. What got no answer is never transient. */
  lemma TransientTable(code: int, body: string, desc: Option<Desc>, other: Err)
    ensures Retry(Status(code, body, desc)) <==>
              || code == 503 || code == 429
              || (desc.Some? && desc.value.kind in {Listed(QueueBusy), Listed(QueueCreating)})
    ensures RetrySend(Status(code, body, desc)) <==>
              || code == 503 || code == 429
              || (desc.Some? && desc.value.kind == Listed(DedupInFlight))
    ensures IsFailure(other) && !other.Status? ==> !Retry(other) && !RetrySend(other)
  {
    AsStatusOfFailure(Status(code, body, desc));
    if IsFailure(other) {
      AsStatusOfFailure(other);
    }
  }

  // ---------- theorems about the report ----------

  predicate AreFailures(fs: seq<Err>) {
    fs != [] && forall f | f in fs :: IsFailure(f)
  }

  function Last(fs: seq<Err>): Err
    requires fs != []
  {
    fs[|fs| - 1]
  }

  /** A payload's or a transport's error that itself matches the refusal
      sentinel: the branch in which the report exposes its cause. */
  predicate LooksRefused(fs: seq<Err>)
    requires fs != []
  {
    !Last(fs).Status? && Is(Last(fs), Bare(InvalidRequest))
  }

  lemma SearchAttempts(fs: seq<Err>, target: Err)
    requires AreFailures(fs) && (target.Bare? || target.KindError?)
    ensures AsStatus(Attempts(fs)) == if Last(fs).Status? then Some(Last(fs)) else None
    ensures AsAttempts(Attempts(fs)) == Some(Attempts(fs))
    ensures Is(Attempts(fs), target) <==> Is(Last(fs), target)
  {
    AsStatusOfAttempts(fs);
    AsStatusOfFailure(Last(fs));
    WalkAttempts(fs);
    assert Walk(Attempts(fs)) == [Attempts(fs)] + Walk(Last(fs));
  }

  /** The cause a report wraps: its last answer, or the attempts themselves. */
  lemma ReportShape(fs: seq<Err>)
    requires AreFailures(fs)
    ensures var cause, conds := HttpError(Attempts(fs)), Conditions(Attempts(fs));
            && LeafDetails(cause)
            && (forall c | c in conds :: Permitted(c))
            && (if Last(fs).Status? then cause.Api? || cause.GatewayText? else cause == Attempts(fs))
            && (LooksRefused(fs) <==> !cause.Api? && Is(cause, Bare(InvalidRequest)))
            && (cause.GatewayText? ==> Walk(cause) == [cause])
  {
    SearchAttempts(fs, Bare(InvalidRequest));
    var cause := HttpError(Attempts(fs));
    if cause.GatewayText? {
      assert Walk(cause) == [cause];
    }
  }

  /** What an answer becomes: an error with no sentinel in reach. */
  lemma AnswerMatches(e: Err, s: Sentinel, k: Kind)
    requires AsStatus(e).Some?
    ensures var h := HttpError(e);
            && !Is(h, Bare(s))
            && (Is(h, KindError(k)) <==> h.Api? && h.kind == k)
            && (h.Api? <==> AsStatus(e).value.desc.Some?
                            && (AsStatus(e).value.desc.value.kind != Missing || AsStatus(e).value.desc.value.message != ""))
            && (h.Api? ==> h.kind == ErrorKindOf(AsStatus(e).value))
  {
    var h := HttpError(e);
    if h.Api? {
      ApiMatches(h, s, k);
    } else {
      assert Walk(h) == [h];
    }
  }

  /** For every error a call can come to, before or after a request, what
      errors.Is answers on its report for a sentinel: the conditions; and, of an
      error that leads to no answer, whatever it matches itself if it is the
      API's own or reads as a refusal, otherwise only the context sentinels,
      cancellation hiding a deadline. */
  lemma RpcMatches(e: Err, s: Sentinel)
    ensures Is(RpcError(e), Bare(s)) <==>
              || Bare(s) in Conditions(e)
              || (AsStatus(e).None? && Is(e, Bare(s))
                  && (|| e.Api?
                      || Is(e, Bare(InvalidRequest))
                      || s == Canceled
                      || (s == DeadlineExceeded && !Is(e, Bare(Canceled)))))
  {
    hide Is, Walk, Matches, AsStatus, Conditions;
    ReachExact(HttpError(e), Conditions(e), s, NoKnownKind);
    if AsStatus(e).Some? {
      AnswerMatches(e, s, NoKnownKind);
    }
  }

  lemma ConditionsOf(e: Err)
    ensures Bare(ResultUnknown) in Conditions(e) <==> ResultUnknownIn(e)
    ensures Bare(Unavailable) in Conditions(e) <==>
              AsStatus(e).Some? && AsStatus(e).value.code == 503 && ErrorKindOf(AsStatus(e).value) == NoKnownKind
    ensures Bare(InvalidRequest) !in Conditions(e)
  {
    hide AsStatus, ResultUnknownIn;
  }

  /** The branch in which a report shows a cause that carries the sentinel of an
      unknown result on its own account. */
  predicate CarriesUnknown(e: Err) {
    AsStatus(e).None? && (e.Api? || Is(e, Bare(InvalidRequest))) && Is(e, Bare(ResultUnknown))
  }

  /** For every error a call can come to: its report matches the unknown-result
      sentinel exactly when a list of attempts within reach has an unknown one,
      or the report shows a cause that carries the sentinel itself. */
  lemma MatchesUnknownIff(e: Err)
    ensures Is(RpcError(e), Bare(ResultUnknown)) <==> ResultUnknownIn(e) || CarriesUnknown(e)
  {
    hide Is, RpcError, Conditions, AsStatus, ResultUnknownIn;
    RpcMatches(e, ResultUnknown);
    ConditionsOf(e);
  }

  /** For every error a call can come to: its report reads as a request refused
      before sending exactly when the error leads to no answer and matches. */
  lemma RpcRefusalIff(e: Err)
    ensures Is(RpcError(e), Bare(InvalidRequest)) <==> AsStatus(e).None? && Is(e, Bare(InvalidRequest))
  {
    hide Is, RpcError, Conditions, AsStatus;
    RpcMatches(e, InvalidRequest);
    ConditionsOf(e);
  }

  /** For every error a call can come to: its report hides everything but what
      is permitted exactly when the error leads to an answer, is an API error
      whose details are, or is any other that does not match the refusal. */
  lemma RpcOpaqueIff(e: Err)
    ensures Opaque(RpcError(e)) <==>
              || AsStatus(e).Some?
              || (if e.Api? then PermittedDetails(e) else !Is(e, Bare(InvalidRequest)))
  {
    hide AsStatus, Opaque, Is, ResultUnknownIn;
    OpaqueIff(HttpError(e), Conditions(e));
    if AsStatus(e).Some? {
      AnswerMatches(e, InvalidRequest, NoKnownKind);
      if HttpError(e).Api? {
        AnswerDetails(e);
      }
    }
  }

  lemma AnswerDetails(e: Err)
    requires AsStatus(e).Some? && HttpError(e).Api?
    ensures PermittedDetails(HttpError(e))
  {
    hide AsStatus;
    var h := HttpError(e);
    if h.details.Some? {
      assert Walk(h.details.value) == [h.details.value];
    }
  }

  /** The same for a call that made requests, in terms of its last failure. */
  lemma ReportMatches(fs: seq<Err>, s: Sentinel)
    requires AreFailures(fs)
    ensures Is(RpcError(Attempts(fs)), Bare(s)) <==>
              || Bare(s) in Conditions(Attempts(fs))
              || (!Last(fs).Status? && Is(Last(fs), Bare(s))
                  && (|| LooksRefused(fs)
                      || s == Canceled
                      || (s == DeadlineExceeded && !Is(Last(fs), Bare(Canceled)))))
  {
    hide Is, Walk, Matches, RpcError, Conditions;
    RpcMatches(Attempts(fs), s);
    SearchAttempts(fs, Bare(s));
    SearchAttempts(fs, Bare(InvalidRequest));
    SearchAttempts(fs, Bare(Canceled));
  }

  predicate AnyUnknown(fs: seq<Err>) {
    exists f | f in fs :: AttemptUnknown(f)
  }

  lemma AsAttemptsOfList(fs: seq<Err>)
    ensures AsAttempts(Attempts(fs)) == Some(Attempts(fs))
    ensures ResultUnknownIn(Attempts(fs)) <==> AnyUnknown(fs)
  {
  }

  /** The returned error matches the unknown-result sentinel exactly when some
      attempt was unknown, whatever came after it, or when its last failure reads
      as a refusal and itself carries that sentinel. */
  lemma ReportsUnknown(fs: seq<Err>)
    requires AreFailures(fs)
    ensures Is(RpcError(Attempts(fs)), Bare(ResultUnknown)) <==>
              AnyUnknown(fs) || (LooksRefused(fs) && Is(Last(fs), Bare(ResultUnknown)))
  {
    hide Is, RpcError, Conditions, AnyUnknown;
    ReportMatches(fs, ResultUnknown);
    ConditionsOf(Attempts(fs));
    AsAttemptsOfList(fs);
  }

  /** The returned error reads as a request refused before sending exactly when
      its last failure does, sent or not. */
  lemma ReportsRefusalIff(fs: seq<Err>)
    requires AreFailures(fs)
    ensures Is(RpcError(Attempts(fs)), Bare(InvalidRequest)) <==> LooksRefused(fs)
  {
    hide Is, RpcError, Conditions;
    ReportMatches(fs, InvalidRequest);
    ConditionsOf(Attempts(fs));
  }

  /** Decision and report agree: the error returned carries the kind and the
      condition of the very answer the policy saw last, and of no other failure
      unless that one reads as a refusal and matches them itself. */
  lemma ReportsLast(fs: seq<Err>, k: Kind)
    requires AreFailures(fs)
    ensures Is(RpcError(Attempts(fs)), Bare(Unavailable)) <==>
              || (&& Last(fs).Status? && Last(fs).code == 503
                  && (Last(fs).desc.Some? && Last(fs).desc.value.kind.Listed? ==> Last(fs).desc.value.kind.kind == NoKnownKind))
              || (LooksRefused(fs) && Is(Last(fs), Bare(Unavailable)))
    ensures Is(RpcError(Attempts(fs)), KindError(k)) <==>
              || (&& Last(fs).Status? && Last(fs).desc.Some?
                  && (match Last(fs).desc.value.kind
                      case Listed(named) => named == k
                      case Unlisted(_) => k == NoKnownKind
                      case Missing => k == NoKnownKind && Last(fs).desc.value.message != ""))
              || (LooksRefused(fs) && Is(Last(fs), KindError(k)))
  {
    hide Is, Walk, Matches, Conditions, AsStatus;
    var e := Attempts(fs);
    ReportMatches(fs, Unavailable);
    ConditionsOf(e);
    SearchAttempts(fs, KindError(k));
    SearchAttempts(fs, Bare(InvalidRequest));
    ReachExact(HttpError(e), Conditions(e), Unavailable, k);
    if AsStatus(e).Some? {
      AnswerMatches(e, InvalidRequest, k);
    }
  }

  /** No error of a call leads a search to a status error, the leaking case
      included; so a failure that wraps such an error has none either. */
  lemma ReportHidesStatus(fs: seq<Err>)
    requires AreFailures(fs)
    ensures NoStatus(RpcError(Attempts(fs)))
  {
    hide Shown, Walk, Is, HttpError, Conditions;
    var cause, conds := HttpError(Attempts(fs)), Conditions(Attempts(fs));
    ShownHidesStatus(fs);
    WalkClient(cause, conds);
    assert Walk(RpcError(Attempts(fs))) == [RpcError(Attempts(fs))] + Shown(cause) + conds by {
      ShownIs(cause);
    }
  }

  /** A payload reader may fail with the error of another call of the package:
      the hypothesis on failures still holds of what the transport makes of it. */
  lemma PayloadMayFailWithReport(fs: seq<Err>, claims: set<Sentinel>, sent: bool)
    requires AreFailures(fs)
    ensures IsFailure(Transport(sent, Foreign(claims, [BodyRead(RpcError(Attempts(fs)))])))
  {
    hide Walk, RpcError, AreFailures;
    var inner := RpcError(Attempts(fs));
    ReportHidesStatus(fs);
    WalkOver(BodyRead(inner), inner);
    WalkOver(Foreign(claims, [BodyRead(inner)]), BodyRead(inner));
  }

  lemma ShownIs(cause: Err)
    ensures Shown(cause) == match Contract(cause) case None => [] case Some(x) => Walk(x)
  {
  }

  lemma ShownHidesStatus(fs: seq<Err>)
    requires AreFailures(fs)
    ensures forall x | x in Shown(HttpError(Attempts(fs))) :: !x.Status?
  {
    hide Size, SizeAll, HttpError, LooksRefused, IsFailure;
    var cause := HttpError(Attempts(fs));
    ReportShape(fs);
    if cause.Api? {
      WalkApi(cause);
    } else if Is(cause, Bare(InvalidRequest)) {
      FailureHidesStatus(Last(fs));
      WalkAttempts(fs);
      assert Shown(cause) == [Attempts(fs)] + Walk(Last(fs));
    } else {
      assert forall x | x in Shown(cause) :: x.Bare?;
    }
  }

  lemma FailureHidesStatus(f: Err)
    requires IsFailure(f) && !f.Status?
    ensures NoStatus(f)
  {
    WalkOver(f, f.cause);
  }

  /** A call's error hides its attempts and everything of the transport exactly
      when it ended on an answer, or on a failure that does not itself match
      the refusal sentinel. */
  lemma ReportIsOpaqueIff(fs: seq<Err>)
    requires AreFailures(fs)
    ensures Opaque(RpcError(Attempts(fs))) <==> !LooksRefused(fs)
  {
    hide Is, RpcError, Opaque;
    RpcOpaqueIff(Attempts(fs));
    SearchAttempts(fs, Bare(InvalidRequest));
  }

  /** A call that ended on an answer of the API gives a search that answer's
      kind, message and parsed details, then the conditions, and nothing else. */
  lemma AnswerIsReachable(fs: seq<Err>, d: Desc)
    requires AreFailures(fs) && Last(fs).Status? && Last(fs).desc == Some(d)
    requires d.kind != Missing || d.message != ""
    ensures var nodes := Walk(RpcError(Attempts(fs)));
            var detailed := {UnknownHeader, RetentionLimit, QueueLimit, QueueNotFound,
                             QueueReplaced, DedupClaimed, RateLimited, SpoolFull};
            var kind := match d.kind case Listed(k) => k case _ => NoKnownKind;
            var shown := if kind in detailed && d.details.Some? then 2 else 1;
            && |nodes| == 1 + shown + |Conditions(Attempts(fs))|
            && nodes[1].Api? && nodes[1].kind == kind && nodes[1].message == d.message
            && (shown == 2 ==> nodes[2] == Detail(kind, d.details.value))
            && nodes[1 + shown..] == Conditions(Attempts(fs))
  {
    hide Walk, Is, Conditions;
    SearchAttempts(fs, Bare(InvalidRequest));
    var api := HttpError(Attempts(fs));
    WalkApi(api);
    WalkClient(api, Conditions(Attempts(fs)));
  }

  lemma WalkGateway(code: int, body: string)
    ensures Walk(GatewayText(code, body)) == [GatewayText(code, body)]
    ensures Contract(GatewayText(code, body)).None?
  {
  }

  /** A call that ended on an answer that is not the API's gives a search nothing
      but the conditions: the error is text, of the status and the body. */
  lemma GatewayIsText(fs: seq<Err>)
    requires AreFailures(fs) && Last(fs).Status?
    requires Last(fs).desc.Some? ==> Last(fs).desc.value.kind == Missing && Last(fs).desc.value.message == ""
    ensures RpcError(Attempts(fs)).cause == GatewayText(Last(fs).code, Last(fs).body)
    ensures Walk(RpcError(Attempts(fs)))[1..] == Conditions(Attempts(fs))
  {
    hide Walk, Is, Conditions;
    SearchAttempts(fs, Bare(InvalidRequest));
    var text := HttpError(Attempts(fs));
    WalkGateway(Last(fs).code, Last(fs).body);
    WalkClient(text, Conditions(Attempts(fs)));
  }

  /** In the leaking case every node of the failed attempt is within reach. */
  lemma RefusedExposesAll(fs: seq<Err>, x: Err)
    requires AreFailures(fs) && LooksRefused(fs) && x in Walk(Last(fs))
    ensures x in Walk(RpcError(Attempts(fs)))
  {
    ReportShape(fs);
    WalkClient(Attempts(fs), Conditions(Attempts(fs)));
    WalkAttempts(fs);
    var shown := Walk(Attempts(fs));
    assert shown == [Attempts(fs)] + Walk(Last(fs)) && x in shown;
    assert Walk(RpcError(Attempts(fs)))
        == [RpcError(Attempts(fs))] + shown + Conditions(Attempts(fs));
  }

  /** What the transport returns for a payload whose own reader failed with one
      of the package's refusals; the reader may well use a client of its own. */
  function RefusedPayload(): Err {
    Transport(true, Foreign({}, [BodyRead(Refusal())]))
  }

  lemma WalkRefusal()
    ensures var wrapped := Foreign({}, [Bare(InvalidRequest)]);
            Walk(Refusal()) == [Refusal(), wrapped, Bare(InvalidRequest)]
  {
    hide Size, SizeAll;
    var wrapped := Foreign({}, [Bare(InvalidRequest)]);
    WalkOver(wrapped, Bare(InvalidRequest));
    assert Walk(wrapped) == [wrapped, Bare(InvalidRequest)];
    assert Contract(wrapped) == Some(wrapped) by {
      assert Bare(InvalidRequest) in Walk(wrapped);
    }
    WalkClient(wrapped, []);
  }

  lemma WalkRefusedPayload()
    ensures var wrapped := Foreign({}, [Bare(InvalidRequest)]);
            Walk(RefusedPayload()) == [RefusedPayload(), RefusedPayload().cause, BodyRead(Refusal()),
                                       Refusal(), wrapped, Bare(InvalidRequest)]
  {
    hide Walk;
    WalkRefusal();
    WalkOver(BodyRead(Refusal()), Refusal());
    WalkOver(RefusedPayload().cause, BodyRead(Refusal()));
    WalkOver(RefusedPayload(), RefusedPayload().cause);
  }

  /** Such a payload makes the send's error expose the transport error and match
      the refusal sentinel, although the request was sent. */
  lemma LeakingPayload()
    ensures var fs := [RefusedPayload()];
            && AreFailures(fs) && LooksRefused(fs)
            && !Opaque(RpcError(Attempts(fs)))
            && RefusedPayload() in Walk(RpcError(Attempts(fs)))
            && Bare(InvalidRequest) in Walk(RpcError(Attempts(fs)))
  {
    hide Walk;
    var fs := [RefusedPayload()];
    WalkRefusedPayload();
    WalkOver(RefusedPayload(), RefusedPayload().cause);
    assert forall x | x in Walk(RefusedPayload().cause) :: x in Walk(RefusedPayload());
    assert AreFailures(fs);
    assert Bare(InvalidRequest) in Walk(Last(fs));
    assert LooksRefused(fs);
    ReportIsOpaqueIff(fs);
    RefusedExposesAll(fs, RefusedPayload());
    RefusedExposesAll(fs, Bare(InvalidRequest));
  }
}
