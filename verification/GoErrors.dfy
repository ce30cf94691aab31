/** Errors as Go builds and searches them: an inductive tree of error values,
    the order in which errors.Is and errors.As visit it, and the package's own
    wrapper, whose Unwrap hides everything that is not part of its contract. */
module GoErrors {

  datatype Option<+T> = None | Some(value: T)

  datatype Result<+T> = Ok(value: T) | Failed(error: Err)

  /** Error values compared by identity. */
  datatype Sentinel =
    | Canceled | DeadlineExceeded
    | InvalidRequest | ResultUnknown | Unavailable
    | EndOfFile | UnexpectedEndOfFile
    | Exhausted

  datatype Kind =
    | NoKnownKind
    | InvalidToken | DedupDisabled | UnknownHeader | RetentionLimit | QueueLimit
    | QueueNotFound | SpoolNotFound | QueueExists | QueueCreating | QueueDeleting
    | QueueBusy | NotFailed | DedupInFlight | DedupClaimed | StaleToken
    | PayloadTooLarge | RateLimited | OperationUnconfirmed | SpoolFull
    | QueueReplaced | Unauthenticated | AccountSuspended | AccountBlocked

  /** The kind as an answer's body spells it: absent (or empty), a name this
      package does not know, or one it does. */
  datatype WireKind = Missing | Unlisted(name: string) | Listed(kind: Kind)

  /** A decoded error body; details are the text of those that parsed. */
  datatype Desc = Desc(kind: WireKind, message: string, details: Option<string>)

  datatype Err =
    | Bare(sentinel: Sentinel)
    | Text(text: string)
    | GatewayText(code: int, body: string)
      // Any error of another package: the sentinels its own Is method claims,
      // and what it unwraps to.
    | Foreign(claims: set<Sentinel>, causes: seq<Err>)
    | KindError(kind: Kind)
    | Detail(kind: Kind, text: string)
    | Api(kind: Kind, message: string, details: Option<Err>)
    | Status(code: int, body: string, desc: Option<Desc>)
    | Transport(sent: bool, cause: Err)
    | BodyFailure(code: int, cause: Err)
    | Attempts(failures: seq<Err>)
    | Client(cause: Err, conds: seq<Err>)
    | BodyRead(cause: Err)
    | Dns(causes: seq<Err>)
    | NetOp(op: string, causes: seq<Err>)
    | Stop(inner: Option<Err>)

  function Size(e: Err): (n: nat)
    ensures n >= 1
    decreases e
  {
    match e
    case Foreign(_, causes) => 1 + SizeAll(causes)
    case Api(_, _, Some(d)) => 1 + Size(d)
    case Transport(_, cause) => 1 + Size(cause)
    case BodyFailure(_, cause) => 1 + Size(cause)
    case Attempts(failures) => 1 + SizeAll(failures)
    case Client(cause, conds) => 1 + Size(cause) + SizeAll(conds)
    case BodyRead(cause) => 1 + Size(cause)
    case Dns(causes) => 1 + SizeAll(causes)
    case NetOp(_, causes) => 1 + SizeAll(causes)
    case Stop(Some(x)) => 1 + Size(x)
    case _ => 1
  }

  function SizeAll(es: seq<Err>): nat
    decreases es
  {
    if es == [] then 0 else Size(es[0]) + SizeAll(es[1..])
  }

  lemma MemberSize(es: seq<Err>, i: nat)
    requires i < |es|
    ensures Size(es[i]) <= SizeAll(es)
  {
    if i > 0 {
      MemberSize(es[1..], i - 1);
    }
  }

  /** What an error's Unwrap method returns, as a list in both of its forms. */
  function Unwrap(e: Err): (kids: seq<Err>)
    ensures SizeAll(kids) < Size(e)
    decreases Size(e), 0
  {
    match e
    case Foreign(_, causes) => causes
    case Api(_, _, Some(d)) => [d]
    case Transport(_, cause) => [cause]
    case BodyFailure(_, cause) => [cause]
    case Attempts(failures) =>
      if failures == [] then []
      else
        MemberSize(failures, |failures| - 1);
        [failures[|failures| - 1]]
    case Client(cause, conds) =>
      (match Contract(cause)
       case None => conds
       case Some(x) =>
         assert ([x] + conds)[1..] == conds;
         [x] + conds)
    case BodyRead(cause) => [cause]
    case Dns(causes) => causes
    case NetOp(_, causes) => causes
    case Stop(Some(x)) => [x]
    case _ => []
  }

  /** What a client error exposes of its cause: the API's own error, a local
      refusal as it is, a context error by its sentinel, or nothing. */
  function Contract(cause: Err): (x: Option<Err>)
    ensures x.Some? ==> Size(x.value) <= Size(cause)
    decreases Size(cause), 4
  {
    if cause.Api? then Some(cause)
    else if Is(cause, Bare(InvalidRequest)) then Some(cause)
    else if Is(cause, Bare(Canceled)) then Some(Bare(Canceled))
    else if Is(cause, Bare(DeadlineExceeded)) then Some(Bare(DeadlineExceeded))
    else None
  }

  /** Every node a search visits, in the order it visits them: the error
      itself, then each tree it unwraps to, depth first. */
  function Walk(e: Err): (nodes: seq<Err>)
    ensures nodes != [] && nodes[0] == e
    decreases Size(e), 2
  {
    [e] + WalkAll(Unwrap(e))
  }

  function WalkAll(es: seq<Err>): seq<Err>
    decreases SizeAll(es), 3
  {
    if es == [] then [] else Walk(es[0]) + WalkAll(es[1..])
  }

  /** Whether a single node matches a target: by identity, or because its own
      Is method says so. */
  predicate Matches(x: Err, target: Err) {
    || x == target
    || (x.Api? && target.KindError? && x.kind == target.kind)
    || (x.Foreign? && target.Bare? && target.sentinel in x.claims)
  }

  /** errors.Is; targets are the sentinels and the kind errors. */
  predicate Is(e: Err, target: Err)
    decreases Size(e), 3
  {
    exists x | x in Walk(e) :: Matches(x, target)
  }

  /** errors.As for one type: the first visited node that is of it. */
  function First(nodes: seq<Err>, p: Err -> bool): (r: Option<Err>)
    ensures r.Some? ==> r.value in nodes && p(r.value)
    ensures r.None? <==> forall x | x in nodes :: !p(x)
  {
    if nodes == [] then None
    else if p(nodes[0]) then Some(nodes[0])
    else First(nodes[1..], p)
  }

  function AsStatus(e: Err): (r: Option<Err>)
    ensures r.Some? ==> r.value.Status?
  {
    First(Walk(e), (x: Err) => x.Status?)
  }

  function AsAttempts(e: Err): (r: Option<Err>)
    ensures r.Some? ==> r.value.Attempts?
  {
    First(Walk(e), (x: Err) => x.Attempts?)
  }

  /** resultError: the wrapper goes around whatever does not have it yet. */
  function ResultError(err: Option<Err>): Option<Err> {
    match err
    case None => None
    case Some(Client(_, _)) => err
    case Some(e) => Some(Client(e, []))
  }

  /** A local refusal: the text wraps the sentinel with %w. */
  function Refusal(): Err {
    Client(Foreign({}, [Bare(InvalidRequest)]), [])
  }

  lemma WalkOne(e: Err)
    ensures WalkAll([e]) == Walk(e)
  {
    assert [e][1..] == [];
  }

  lemma WalkAttempts(failures: seq<Err>)
    requires failures != []
    ensures Walk(Attempts(failures)) == [Attempts(failures)] + Walk(failures[|failures| - 1])
  {
    WalkOne(failures[|failures| - 1]);
  }

  lemma WalkOver(e: Err, cause: Err)
    requires Unwrap(e) == [cause]
    ensures Walk(e) == [e] + Walk(cause)
  {
    WalkOne(cause);
  }

  lemma FirstSkips(nodes: seq<Err>, more: seq<Err>, p: Err -> bool)
    requires forall x | x in nodes :: !p(x)
    ensures First(nodes + more, p) == First(more, p)
  {
    if nodes == [] {
      assert nodes + more == more;
    } else {
      assert (nodes + more)[1..] == nodes[1..] + more;
      FirstSkips(nodes[1..], more, p);
    }
  }

  /** A search for a status error in a call's failures sees the last one only. */
  lemma AsStatusOfAttempts(failures: seq<Err>)
    requires failures != []
    ensures AsStatus(Attempts(failures)) == AsStatus(failures[|failures| - 1])
  {
    WalkAttempts(failures);
    FirstSkips([Attempts(failures)], Walk(failures[|failures| - 1]), (x: Err) => x.Status?);
  }

  /** Conditions are sentinels, so they are visited as they stand. */
  predicate Sentinels(es: seq<Err>) {
    forall e | e in es :: e.Bare?
  }

  lemma WalkSentinels(es: seq<Err>)
    requires Sentinels(es)
    ensures WalkAll(es) == es
  {
    if es != [] {
      assert Walk(es[0]) == [es[0]];
      WalkSentinels(es[1..]);
      assert es == [es[0]] + es[1..];
    }
  }

  /** Everything a client error gives a search: itself, then what its contract
      exposes, then its conditions. */
  lemma WalkClient(cause: Err, conds: seq<Err>)
    requires Sentinels(conds)
    ensures var shown := match Contract(cause) case None => [] case Some(x) => Walk(x);
            Walk(Client(cause, conds)) == [Client(cause, conds)] + shown + conds
  {
    hide Size, SizeAll;
    WalkSentinels(conds);
    var kids := Unwrap(Client(cause, conds));
    match Contract(cause)
    case None =>
      assert kids == conds;
    case Some(x) =>
      assert kids == [x] + conds && kids[1..] == conds;
      assert WalkAll(kids) == Walk(x) + conds;
  }
}
