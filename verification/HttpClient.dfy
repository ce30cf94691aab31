/** One call: the loop of attempts of the HTTP client, proved against a
    declarative account of what any finished call did on the wire. */
module HttpClient {
  import opened GoErrors
  import opened RequestBody
  import RetryAfter

  // ---------- the environment ----------

  datatype CtxEnd = WasCanceled | TimedOut

  function CtxErr(c: CtxEnd): Err {
    match c
    case WasCanceled => Bare(Canceled)
    case TimedOut => Bare(DeadlineExceeded)
  }

  /** What the transport answers a request: no response, or a status with its
      Retry-After header (empty when absent), the start of its body, the error
      object decoded from it, and, of a success, how decoding its body fails. */
  datatype Reply =
    | NoResponse(err: Err)
    | Response(code: int, retryAfter: string, body: string, desc: Option<Desc>, decodeErr: Option<Err>)

  /** Everything outside the client's control at one attempt: the context's
      error when the attempt is considered, whether the source seeks back, the
      strategy's delay, the clock, whether the context ends the wait, how much
      of the body the transport reads, its reply and when that came, and
      whether the server committed the operation. */
  datatype Turn = Turn(
    ctxErr: Option<CtxEnd>,
    rewind: Option<Err>,
    delay: int,
    now: int,
    cut: Option<CtxEnd>,
    taken: nat,
    reply: Reply,
    answeredAt: int,
    committed: bool)

  /** The script of a call: its attempts, the seeks of the measurement, the
      reading of HTTP dates, and the random bytes of the client's first use. */
  datatype Env = Env(seeks: SeekFaults, turn: nat -> Turn, date: string -> Option<int>, random: string)

  // ---------- one call's parameters ----------

  /** badRequest is http.NewRequestWithContext's verdict; it depends on the
      method and the URL only, which every attempt shares. */
  datatype Call = Call(
    method_: string,
    attempts: int,
    retry: Option<Err -> bool>,
    receives: bool,
    stream: bool,
    sendCodec: bool,
    recvCodec: bool,
    deadline: Option<int>,
    badRequest: Option<Err>)

  datatype Payload =
    | Nothing
    | Value(marshalled: Result<seq<Byte>>)
    | Readable(src: Source)
    | NotAReader

  // ---------- one attempt ----------

  predicate HttpSuccess(code: int) {
    200 <= code < 300
  }

  predicate HasBody(method_: string, code: int) {
    method_ != "HEAD" && code != 204 && code != 205
  }

  /** Whether a transport error leaves open that the request was sent. */
  predicate RequestSent(err: Err) {
    if First(Walk(err), (x: Err) => x.BodyRead?).Some? then true
    else if First(Walk(err), (x: Err) => x.Dns?).Some? then false
    else
      match First(Walk(err), (x: Err) => x.NetOp?)
      case Some(op) => op.op != "dial"
      case None => true
  }

  lemma FirstAt(nodes: seq<Err>, p: Err -> bool, k: nat)
    requires k < |nodes| && p(nodes[k]) && forall j: nat | j < k :: !p(nodes[j])
    ensures First(nodes, p) == Some(nodes[k])
  {
    if k > 0 {
      FirstAt(nodes[1..], p, k - 1);
    }
  }

  /** An error the body's reader marked counts as sent, whatever else is in its
      tree. Otherwise a lookup anywhere
      rules sending out, and failing that the outermost network operation
      decides: a dial does, any other leaves it open, and so does none. */
  lemma SentExact(err: Err, k: nat)
    ensures var nodes := Walk(err);
            && ((exists x | x in nodes :: x.BodyRead?) ==> RequestSent(err))
            && ((forall x | x in nodes :: !x.BodyRead?) && (exists x | x in nodes :: x.Dns?) ==> !RequestSent(err))
            && ((forall x | x in nodes :: !x.BodyRead? && !x.Dns? && !x.NetOp?) ==> RequestSent(err))
            && ((forall x | x in nodes :: !x.BodyRead? && !x.Dns?)
                && k < |nodes| && nodes[k].NetOp? && (forall j: nat | j < k :: !nodes[j].NetOp?)
                ==> (RequestSent(err) <==> nodes[k].op != "dial"))
  {
    var nodes := Walk(err);
    hide Walk;
    if k < |nodes| && nodes[k].NetOp? && forall j: nat | j < k :: !nodes[j].NetOp? {
      FirstAt(nodes, (x: Err) => x.NetOp?, k);
    }
  }

  /** bodyReader.Read: what the request's reader makes of its source's error. */
  function MarkRead(err: Err): Err {
    if err == Bare(EndOfFile) then err else BodyRead(err)
  }

  /** A payload error that wraps a failed dial of its own still counts as sent;
      the end of the payload stays what it is. */
  lemma PayloadFailureIsSent(cause: Err, claims: set<Sentinel>)
    requires cause != Bare(EndOfFile)
    ensures MarkRead(Bare(EndOfFile)) == Bare(EndOfFile)
    ensures RequestSent(Foreign(claims, [MarkRead(cause)]))
  {
    var e := Foreign(claims, [MarkRead(cause)]);
    WalkOver(e, MarkRead(cause));
    assert MarkRead(cause) in Walk(e);
  }

  datatype Outcome = Done(code: int) | Retryable(err: Err) | Lost(code: int, err: Err)

  function Judge(c: Call, reply: Reply): Outcome {
    match reply
    case NoResponse(e) => Retryable(Transport(RequestSent(e), e))
    case Response(code, _, body, desc, decodeErr) =>
      if !HttpSuccess(code) then Retryable(Status(code, body, desc))
      else if !c.stream && c.receives && HasBody(c.method_, code) && decodeErr.Some?
      then Lost(code, BodyFailure(code, decodeErr.value))
      else Done(code)
  }

  function OutcomeOf(c: Call, t: Turn): Outcome {
    Judge(c, t.reply)
  }

  /** The failure the attempt records, if it is one. */
  function FailureOf(c: Call, t: Turn): Err {
    match OutcomeOf(c, t)
    case Done(_) => Text("")
    case Retryable(e) => e
    case Lost(_, e) => e
  }

  /** The delay an answer asks for: none without a response, and none when the
      header is absent or malformed. */
  function ReplyDelay(env: Env, at: int, reply: Reply): int {
    if reply.NoResponse? || reply.retryAfter == "" then 0
    else RetryAfter.Parse(at, reply.retryAfter, env.date).delay
  }

  function AskedDelay(env: Env, t: Turn): int {
    ReplyDelay(env, t.answeredAt, t.reply)
  }

  // ---------- whether attempt i is made ----------

  function Budget(c: Call): (n: nat)
    ensures n >= 1
  {
    if c.attempts < 1 then 1 else c.attempts
  }

  predicate Approved(c: Call, err: Err) {
    c.retry.Some? && c.retry.value(err)
  }

  /** The wait before attempt i. */
  function WaitBefore(env: Env, i: nat): int {
    var asked := if i == 0 then 0 else AskedDelay(env, env.turn(i - 1));
    RetryAfter.Max(env.turn(i).delay, asked)
  }

  predicate Opens(enc: Encoded, t: Turn, i: nat) {
    i > 0 && enc.Streamed? && enc.size != 0 ==> enc.reopens && t.rewind.None?
  }

  predicate PastDeadline(c: Call, env: Env, i: nat) {
    i > 0 && c.deadline.Some? && env.turn(i).now + WaitBefore(env, i) > c.deadline.value
  }

  datatype StopReason =
    | NotStarted | Succeeded | BodyLost | BudgetSpent
    | ContextEnded | Refused | BodyGone | TooLate | WaitCut | Malformed

  /** Why attempt i is not made, given that every earlier one failed. */
  function Gate(c: Call, enc: Encoded, env: Env, i: nat): (r: Option<StopReason>)
    ensures r.Some? ==> r.value !in {NotStarted, Succeeded, BodyLost, BudgetSpent}
  {
    var t := env.turn(i);
    if i > 0 && t.ctxErr.Some? then Some(ContextEnded)
    else if i > 0 && !Approved(c, FailureOf(c, env.turn(i - 1))) then Some(Refused)
    else if !Opens(enc, t, i) then Some(BodyGone)
    else if PastDeadline(c, env, i) then Some(TooLate)
    else if WaitBefore(env, i) > 0 && t.cut.Some? then Some(WaitCut)
    else if c.badRequest.Some? then Some(Malformed)
    else None
  }

  // ---------- a finished call ----------

  predicate Made(c: Call, enc: Encoded, env: Env, i: nat) {
    Gate(c, enc, env, i).None?
  }

  predicate Fails(c: Call, env: Env, i: nat) {
    OutcomeOf(c, env.turn(i)).Retryable?
  }

  /** n attempts were made, and every one of them can be retried. */
  ghost predicate Progress(c: Call, enc: Encoded, env: Env, n: nat) {
    && (forall i: nat | i < n :: Made(c, enc, env, i))
    && (forall i: nat | i < n :: Fails(c, env, i))
  }

  /** n attempts were made, all allowed, all but the last a failure that can be
      retried; and stop says why there was no further one. */
  ghost predicate Conforms(c: Call, enc: Encoded, env: Env, n: nat, stop: StopReason) {
    && n <= Budget(c)
    && (forall i: nat | i < n :: Made(c, enc, env, i))
    && (forall i: nat | i < n - 1 :: Fails(c, env, i))
    && match stop
       case NotStarted => n == 0
       case Succeeded => n > 0 && OutcomeOf(c, env.turn(n - 1)).Done?
       case BodyLost => n > 0 && OutcomeOf(c, env.turn(n - 1)).Lost?
       case BudgetSpent => n == Budget(c) && Fails(c, env, n - 1)
       case _ => n < Budget(c) && (n > 0 ==> Fails(c, env, n - 1)) && Gate(c, enc, env, n) == Some(stop)
  }

  function Failures(c: Call, env: Env, n: nat): (fs: seq<Err>)
    ensures |fs| == n
  {
    if n == 0 then [] else Failures(c, env, n - 1) + [FailureOf(c, env.turn(n - 1))]
  }

  /** One request on the wire: its id, the wait right before it, the declared
      length, what its body held and what the transport read of it. */
  datatype Exchange = Exchange(id: string, wait: int, declared: int, offered: seq<Byte>, sent: seq<Byte>)

  /** Where a client's request ids stand: their prefix and the last one used. */
  datatype Ids = Ids(prefix: string, last: nat)

  function RequestIdOf(ids: Ids, i: nat): string {
    ids.prefix + RetryAfter.Decimal(ids.last + i + 1)
  }

  /** strings.Trim(s, "/"). */
  function TrimSlashes(s: string): string {
    if s != [] && s[0] == '/' then TrimSlashes(s[1..])
    else if s != [] && s[|s| - 1] == '/' then TrimSlashes(s[..|s| - 1])
    else s
  }

  /** The request ids' prefix: the trimmed host name, if there is one, and the
      hexadecimal random bytes. */
  function PrefixOf(hostname: string, random: string): string {
    (if hostname != "" then TrimSlashes(hostname) + "/" else "") + random + "-"
  }

  /** The prefix ends in the random bytes and a dash, so clients that drew
      different ones of a length never share it; ahead of them stands nothing, or
      the host name with no slash at either end and one after it. */
  lemma PrefixShape(hostname: string, random: string, other: string)
    ensures var host := PrefixOf(hostname, random)[..|PrefixOf(hostname, random)| - |random| - 1];
            && PrefixOf(hostname, random) == host + random + "-"
            && (hostname == "" ==> host == "")
            && (hostname != "" ==>
                  && host != "" && host[|host| - 1] == '/'
                  && (|host| > 1 ==> host[0] != '/' && host[|host| - 2] != '/'))
    ensures hostname != "" && hostname[0] != '/' && hostname[|hostname| - 1] != '/'
            ==> PrefixOf(hostname, random) == hostname + "/" + random + "-"
    ensures random != other && |random| == |other| ==> PrefixOf(hostname, random) != PrefixOf(hostname, other)
  {
    var host := if hostname != "" then TrimSlashes(hostname) + "/" else "";
    var a, b := PrefixOf(hostname, random), PrefixOf(hostname, other);
    assert a == host + random + "-" && b == host + other + "-";
    assert a[..|a| - |random| - 1] == host;
    assert a[|host|..|a| - 1] == random;
    if |random| == |other| {
      assert b[|host|..|b| - 1] == other;
    }
    Trimmed(hostname);
  }

  lemma {:induction false} Trimmed(s: string)
    ensures var t := TrimSlashes(s);
            t != "" ==> t[0] != '/' && t[|t| - 1] != '/'
    decreases |s|
  {
    if s != [] && s[0] == '/' {
      Trimmed(s[1..]);
    } else if s != [] && s[|s| - 1] == '/' {
      Trimmed(s[..|s| - 1]);
    }
  }

  function ExchangeAt(enc: Encoded, env: Env, ids: Ids, i: nat): Exchange {
    Exchange(RequestIdOf(ids, i), RetryAfter.Max(WaitBefore(env, i), 0), enc.Declared(), enc.Offer(),
             enc.Offer()[..Min(env.turn(i).taken, |enc.Offer()|)])
  }

  function Exchanges(enc: Encoded, env: Env, ids: Ids, n: nat): (xs: seq<Exchange>)
    ensures |xs| == n
  {
    if n == 0 then [] else Exchanges(enc, env, ids, n - 1) + [ExchangeAt(enc, env, ids, n - 1)]
  }

  lemma {:induction false} FailuresAt(c: Call, env: Env, n: nat, i: nat)
    requires i < n
    ensures Failures(c, env, n)[i] == FailureOf(c, env.turn(i))
  {
    if i < n - 1 {
      FailuresAt(c, env, n - 1, i);
    }
  }

  lemma {:induction false} ExchangesAt(enc: Encoded, env: Env, ids: Ids, n: nat, i: nat)
    requires i < n
    ensures Exchanges(enc, env, ids, n)[i] == ExchangeAt(enc, env, ids, i)
  {
    hide ExchangeAt;
    if i < n - 1 {
      ExchangesAt(enc, env, ids, n - 1, i);
    }
  }

  /** The error of a finished call that started. */
  function CallError(c: Call, env: Env, n: nat, stop: StopReason): Option<Err> {
    if stop == Succeeded then None
    else if stop == Malformed then c.badRequest
    else if n > 0 then Some(Attempts(Failures(c, env, n)))
    else if env.turn(0).cut.Some? then Some(CtxErr(env.turn(0).cut.value))
    else None
  }

  function CallCode(c: Call, env: Env, n: nat, stop: StopReason): int {
    if n > 0 && stop in {Succeeded, BodyLost} && env.turn(n - 1).reply.Response?
    then env.turn(n - 1).reply.code else 0
  }

  // ---------- what keeps a call from starting ----------

  function EncodeError(p: Payload, seeks: SeekFaults): Option<Err> {
    match p
    case Value(Failed(e)) => Some(e)
    case NotAReader => Some(Text("does not implement io.Reader"))
    case Readable(src) => MeasureError(src.seekable, seeks)
    case _ => None
  }

  function Preparation(base: Option<Err>, c: Call, p: Payload, seeks: SeekFaults): Option<Err> {
    if base.Some? then base
    else if !p.Nothing? && !c.sendCodec then Some(Text("send codec must be set"))
    else if c.receives && !c.recvCodec then Some(Text("recv codec must be set"))
    else EncodeError(p, seeks)
  }

  function EncodePayload(p: Payload): Encoded
    reads if p.Readable? then {p.src} else {}
  {
    match p
    case Value(Ok(bytes)) => Memory(bytes)
    case Readable(src) => EncodeSource(src.data, src.pos, src.seekable, src.sized)
    case _ => Absent
  }

  // ---------- the wire and the clock ----------

  class World {
    var requests: seq<Exchange>
    var waited: int

    constructor ()
      ensures requests == [] && waited == 0
    {
      requests, waited := [], 0;
    }

    /** Enters a wait of d, which the end of the context cuts short. */
    method Sleep(d: int, cut: Option<CtxEnd>) returns (err: Option<Err>)
      modifies this`waited
      ensures waited == old(waited) + d
      ensures err == match cut case Some(c) => Some(CtxErr(c)) case None => None
    {
      waited := waited + d;
      err := match cut case Some(c) => Some(CtxErr(c)) case None => None;
    }

    /** One round trip: the transport reads some of the body, and replies. */
    method RoundTrip(id: string, declared: int, body: Reader?, t: Turn) returns (r: Reply)
      modifies this, body, if body != null then {body.src} else {}
      ensures r == t.reply && waited == 0
      ensures requests == old(requests) + [
                var offered := if body != null then old(body.Pending()) else [];
                Exchange(id, old(waited), declared, offered, offered[..Min(t.taken, |offered|)])]
    {
      hide Clip, Rest;
      var offered, sent := [], [];
      if body != null {
        offered := body.Pending();
        sent := body.Read(t.taken);
      }
      requests := requests + [Exchange(id, waited, declared, offered, sent)];
      waited := 0;
      r := t.reply;
    }
  }

  // ---------- the client ----------

  datatype Body =
    | NoBody
    | Bytes(bytes: seq<Byte>)
    | Stream(sb: StreamBody)
  {
    ghost function Model(): Encoded {
      match this
      case NoBody => Absent
      case Bytes(bytes) => Memory(bytes)
      case Stream(sb) => sb.Model()
    }

    function Size(): (n: int)
      ensures n == Model().Declared()
    {
      match this
      case NoBody => 0
      case Bytes(bytes) => |bytes|
      case Stream(sb) => sb.size
    }
  }

  /** What a body encoded for this payload looks like before its first use. */
  ghost predicate FreshBody(b: Body, p: Payload)
    reads if b.Stream? then {b.sb, b.sb.src} else {}
  {
    b.Stream? ==> p.Readable? && b.sb.src == p.src && b.sb.Valid() && !b.sb.used
  }

  /** A body after this many attempts have been made with it. */
  ghost predicate BodyAt(b: Body, attempts: nat)
    reads if b.Stream? then {b.sb, b.sb.src} else {}
  {
    b.Stream? ==> b.sb.Valid() && (b.sb.used <==> attempts > 0 && b.sb.size != 0)
  }

  /** A reader opened on the body, which nothing has read from yet. */
  ghost predicate ReaderOf(r: Reader?, b: Body)
    reads r, if r != null then {r.src} else {}, if b.Stream? then {b.sb} else {}
  {
    if r == null then b.Model().Offer() == []
    else r.Pending() == b.Model().Offer() && (b.Stream? ==> r.src == b.sb.src && b.sb.used)
  }

  class Client {
    const baseErr: Option<Err>   // what parsing the base URL comes to
    var once: bool
    var initErr: Option<Err>
    const hostname: string
    var prefix: string
    var reqID: nat

    ghost predicate Valid()
      reads this
    {
      once ==> initErr == baseErr
    }

    constructor (baseErr: Option<Err>, hostname: string)
      ensures Valid() && !once && this.baseErr == baseErr && this.hostname == hostname && reqID == 0
    {
      this.baseErr, this.hostname := baseErr, hostname;
      once, initErr, prefix, reqID := false, None, "", 0;
    }

    /** The first use parses the base URL and, if that works, makes up the
        prefix of the request ids; every later use finds what it left. */
    method Init(random: string) returns (err: Option<Err>)
      requires Valid()
      modifies this`once, this`initErr, this`prefix
      ensures Valid() && once && err == baseErr
      ensures prefix == if old(once) || baseErr.Some? then old(prefix) else PrefixOf(hostname, random)
    {
      if !once {
        once, initErr := true, baseErr;
        if baseErr.None? {
          var host := "";
          if hostname != "" {
            host := TrimSlashes(hostname) + "/";
          }
          prefix := host + random + "-";
        }
      }
      err := initErr;
    }

    method RequestID() returns (id: string)
      modifies this`reqID
      ensures reqID == old(reqID) + 1
      ensures id == prefix + RetryAfter.Decimal(reqID)
    {
      reqID := reqID + 1;
      id := prefix + RetryAfter.Decimal(reqID);
    }

    /** The payload's codec: JSON for values, the stream codec for readers. */
    method Encode(p: Payload, seeks: SeekFaults) returns (r: Result<Body>)
      modifies if p.Readable? then {p.src} else {}
      ensures EncodeError(p, seeks) == match r case Failed(e) => Some(e) case Ok(_) => None
      ensures r.Ok? ==> r.value.Model() == old(EncodePayload(p))
      ensures r.Ok? && r.value.Stream? ==>
                && p.Readable? && fresh(r.value.sb) && r.value.sb.src == p.src
                && r.value.sb.Valid() && !r.value.sb.used
    {
      match p
      case Nothing => r := Ok(NoBody);
      case Value(Failed(e)) => r := Failed(e);
      case Value(Ok(bytes)) => r := Ok(Bytes(bytes));
      case NotAReader => r := Failed(Text("does not implement io.Reader"));
      case Readable(src) =>
        var sb := RequestBody.Encode(src, seeks);
        match sb
        case Failed(e) => r := Failed(e);
        case Ok(b) => r := Ok(Stream(b));
    }

    /** Opens the body for one attempt; an empty one needs no opening. */
    method OpenBody(b: Body, fault: Option<Err>) returns (r: Result<Reader?>)
      requires b.Stream? ==> b.sb.Valid()
      modifies if b.Stream? then {b.sb, b.sb.src} else {}
      ensures b.Stream? ==> b.sb.Valid()
      ensures r.Failed? <==> b.Stream? && b.sb.size != 0 && old(b.sb.used) && (!b.sb.seeker || fault.Some?)
      ensures b.Stream? ==> b.sb.used == (old(b.sb.used) || (r.Ok? && b.sb.size != 0))
      ensures r.Ok? ==>
                && ReaderOf(r.value, b)
                && (r.value != null ==> fresh(r.value) && (!b.Stream? ==> fresh(r.value.src)))
    {
      if b.Size() == 0 {
        return Ok(null);
      }
      match b
      case NoBody =>
        assert false;
      case Bytes(bytes) =>
        var mem := new Source(bytes, true, None);
        var rd := new Reader(mem, -1);
        return Ok(rd);
      case Stream(sb) =>
        var o := sb.Open(fault);
        match o
        case Failed(e) => return Failed(e);
        case Ok(rd) => return Ok(rd);
    }

    /** Everything that precedes the first attempt. */
    method Prepare(c: Call, p: Payload, seeks: SeekFaults, random: string) returns (r: Result<Body>)
      requires Valid()
      modifies this`once, this`initErr, this`prefix, if p.Readable? then {p.src} else {}
      ensures Valid()
      ensures once && prefix == if old(once) || baseErr.Some? then old(prefix) else PrefixOf(hostname, random)
      ensures Preparation(baseErr, c, p, seeks) == match r case Failed(e) => Some(e) case Ok(_) => None
      ensures r.Ok? ==> r.value.Model() == old(EncodePayload(p)) && FreshBody(r.value, p) && (r.value.Stream? ==> fresh(r.value.sb))
    {
      var err := Init(random);
      if err.Some? {
        return Failed(err.value);
      }
      if !p.Nothing? && !c.sendCodec {
        return Failed(Text("send codec must be set"));
      }
      if c.receives && !c.recvCodec {
        return Failed(Text("recv codec must be set"));
      }
      r := Encode(p, seeks);
    }

    /** The part of the loop ahead of the request: should there be an attempt,
        can the body be opened, is there time to wait, and the wait itself. */
    method BeforeAttempt(w: World, c: Call, body: Body, env: Env, attempt: nat, errs: seq<Err>, retryAfter: int)
      returns (gate: Option<StopReason>, err: Option<Err>, reader: Reader?)
      requires BodyAt(body, attempt) && w.waited == 0
      requires errs == Failures(c, env, attempt)
      requires retryAfter == if attempt == 0 then 0 else AskedDelay(env, env.turn(attempt - 1))
      modifies w`waited, if body.Stream? then {body.sb, body.sb.src} else {}
      ensures gate == Gate(c, body.Model(), env, attempt)
      ensures gate.Some? ==> err == CallError(c, env, attempt, gate.value)
      ensures w.waited == if gate in {None, Some(Malformed), Some(WaitCut)}
                          then RetryAfter.Max(WaitBefore(env, attempt), 0) else 0
      ensures body.Stream? ==> body.sb.Valid()
      ensures gate.None? ==> BodyAt(body, attempt + 1) && ReaderOf(reader, body)
      ensures gate.None? && reader != null ==>
                fresh(reader) && (!body.Stream? ==> fresh(reader.src))
    {
      hide RetryAfter.Parse, RequestSent, Encoded.Offer;
      var t := env.turn(attempt);
      reader := null;
      err := if errs == [] then None else Some(Attempts(errs));
      if |errs| > 0 {
        if t.ctxErr.Some? {
          return Some(ContextEnded), err, null;
        }
        if !Approved(c, errs[|errs| - 1]) {
          return Some(Refused), err, null;
        }
      }
      var open := OpenBody(body, t.rewind);
      if open.Failed? {
        if errs == [] {
          assert false;  // a first open does not fail
        }
        return Some(BodyGone), err, null;
      }
      var wait := RetryAfter.Max(t.delay, retryAfter);
      if c.deadline.Some? && |errs| > 0 && t.now + wait > c.deadline.value {
        return Some(TooLate), err, null;
      }
      if wait > 0 {
        var ended := w.Sleep(wait, t.cut);
        if ended.Some? {
          return Some(WaitCut), if errs == [] then ended else err, null;
        }
      }
      if c.badRequest.Some? {
        return Some(Malformed), c.badRequest, null;
      }
      return None, None, open.value;
    }

    /** The request itself, under its own id. */
    method Request(w: World, body: Body, reader: Reader?, env: Env, attempt: nat) returns (reply: Reply)
      requires ReaderOf(reader, body) && BodyAt(body, attempt + 1)
      requires w.waited == RetryAfter.Max(WaitBefore(env, attempt), 0)
      modifies this`reqID, w, reader, if reader != null then {reader.src} else {}
      ensures BodyAt(body, attempt + 1)
      ensures reply == env.turn(attempt).reply && reqID == old(reqID) + 1 && w.waited == 0
      ensures attempt <= old(reqID) ==>
                w.requests == old(w.requests) + [ExchangeAt(body.Model(), env, Ids(prefix, old(reqID) - attempt), attempt)]
    {
      hide RetryAfter.Parse;
      var id := RequestID();
      reply := w.RoundTrip(id, body.Size(), reader, env.turn(attempt));
    }

    /** One turn of the loop: it either ends the call, or records a failure and
        the delay that came with it. */
    method OneTurn(w: World, c: Call, body: Body, env: Env, attempt: nat, errs: seq<Err>, retryAfter: int)
      returns (stop: Option<StopReason>, code: int, err: Option<Err>, delay: int, ghost n: nat)
      requires BodyAt(body, attempt) && w.waited == 0
      requires attempt < Budget(c) && Progress(c, body.Model(), env, attempt)
      requires errs == Failures(c, env, attempt)
      requires retryAfter == if attempt == 0 then 0 else AskedDelay(env, env.turn(attempt - 1))
      modifies this`reqID, w, if body.Stream? then {body.sb, body.sb.src} else {}
      ensures n == attempt || n == attempt + 1
      ensures stop.Some? ==>
                && stop.value !in {NotStarted, BudgetSpent}
                && Conforms(c, body.Model(), env, n, stop.value)
                && err == CallError(c, env, n, stop.value) && code == CallCode(c, env, n, stop.value)
      ensures stop.None? ==>
                && n == attempt + 1 && BodyAt(body, n)
                && Progress(c, body.Model(), env, n)
                && err == Some(FailureOf(c, env.turn(attempt)))
                && delay == AskedDelay(env, env.turn(attempt))
      ensures reqID == old(reqID) + n - attempt
      ensures n == attempt ==> w.requests == old(w.requests)
      ensures n > attempt && attempt <= old(reqID) ==>
                w.requests == old(w.requests) + [ExchangeAt(body.Model(), env, Ids(prefix, old(reqID) - attempt), attempt)]
      ensures w.waited == if stop in {Some(Malformed), Some(WaitCut)} then RetryAfter.Max(WaitBefore(env, n), 0) else 0
    {
      hide RetryAfter.Parse, RequestSent, Encoded.Offer, ExchangeAt, WaitBefore, Gate;
      var gate, stopErr, reader := BeforeAttempt(w, c, body, env, attempt, errs, retryAfter);
      if gate.Some? {
        return gate, 0, stopErr, 0, attempt;
      }
      assert Made(c, body.Model(), env, attempt);
      var reply := Request(w, body, reader, env, attempt);
      n := attempt + 1;
      match Judge(c, reply)
      case Done(status) =>
        return Some(Succeeded), status, None, 0, n;
      case Lost(status, e) =>
        return Some(BodyLost), status, Some(Attempts(errs + [e])), 0, n;
      case Retryable(e) =>
        return None, 0, Some(e), ReplyDelay(env, env.turn(attempt).answeredAt, reply), n;
    }

    /** The loop of attempts. */
    method Attempt(w: World, c: Call, body: Body, env: Env)
      returns (code: int, err: Option<Err>, ghost n: nat, ghost stop: StopReason)
      requires BodyAt(body, 0) && w.waited == 0
      modifies this`reqID, w, if body.Stream? then {body.sb, body.sb.src} else {}
      ensures stop != NotStarted && Conforms(c, body.Model(), env, n, stop)
      ensures err == CallError(c, env, n, stop) && code == CallCode(c, env, n, stop)
      ensures w.requests == old(w.requests) + Exchanges(body.Model(), env, Ids(prefix, old(reqID)), n)
      ensures w.waited == if stop in {Malformed, WaitCut} then RetryAfter.Max(WaitBefore(env, n), 0) else 0
      ensures reqID == old(reqID) + n
    {
      hide Gate, OutcomeOf, FailureOf, AskedDelay, WaitBefore, ExchangeAt, BodyAt;
      var errs: seq<Err> := [];
      var retryAfter := 0;
      var attempt := 0;
      while attempt < Budget(c)
        invariant attempt <= Budget(c) && |errs| == attempt
        invariant BodyAt(body, attempt) && Progress(c, body.Model(), env, attempt)
        invariant errs == Failures(c, env, attempt)
        invariant retryAfter == if attempt == 0 then 0 else AskedDelay(env, env.turn(attempt - 1))
        invariant w.requests == old(w.requests) + Exchanges(body.Model(), env, Ids(prefix, old(reqID)), attempt)
        invariant w.waited == 0 && reqID == old(reqID) + attempt
      {
        var ended, status, e, delay, m := OneTurn(w, c, body, env, attempt, errs, retryAfter);
        if ended.Some? {
          return status, e, m, ended.value;
        }
        errs := errs + [e.value];
        retryAfter := delay;
        attempt := attempt + 1;
      }
      if |errs| == 0 {
        assert false;  // the budget is at least one
      }
      return 0, Some(Attempts(errs)), attempt, BudgetSpent;
    }

    /** Do: up to the budget of attempts, while the policy allows. */
    method Do(w: World, c: Call, p: Payload, env: Env)
      returns (code: int, err: Option<Err>, ghost n: nat, ghost stop: StopReason)
      requires Valid() && w.waited == 0
      modifies this, w, if p.Readable? then {p.src} else {}
      ensures Valid()
      ensures stop == NotStarted <==> Preparation(baseErr, c, p, env.seeks).Some?
      ensures Conforms(c, old(EncodePayload(p)), env, n, stop)
      ensures err == if stop == NotStarted then Preparation(baseErr, c, p, env.seeks) else CallError(c, env, n, stop)
      ensures code == CallCode(c, env, n, stop)
      ensures w.requests == old(w.requests) + Exchanges(old(EncodePayload(p)), env, Ids(prefix, old(reqID)), n)
      ensures w.waited == if stop in {Malformed, WaitCut} then RetryAfter.Max(WaitBefore(env, n), 0) else 0
      ensures reqID == old(reqID) + n
      ensures once && prefix == if old(once) || baseErr.Some? then old(prefix) else PrefixOf(hostname, env.random)
    {
      var prepared := Prepare(c, p, env.seeks, env.random);
      match prepared
      case Failed(e) =>
        return 0, Some(e), 0, NotStarted;
      case Ok(body) =>
        code, err, n, stop := Attempt(w, c, body, env);
    }
  }
}
