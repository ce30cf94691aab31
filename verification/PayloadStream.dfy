/** A payload handed back unread, and the ways an operation that returns one
    comes to its end. */
module PayloadStream {
  import opened GoErrors
  import opened RequestBody

  datatype Chunk = Chunk(bytes: seq<Byte>, err: Option<Err>)

  /** The transport's body. Reads are the caller's script; closing it always
      comes to the same answer. */
  class Upstream {
    const chunks: seq<Chunk>
    const closeErr: Option<Err>
    var next: nat
    var closes: nat

    constructor (chunks: seq<Chunk>, closeErr: Option<Err>)
      ensures this.chunks == chunks && this.closeErr == closeErr && next == 0 && closes == 0
    {
      this.chunks, this.closeErr, next, closes := chunks, closeErr, 0, 0;
    }

    /** Past its script the body is at its end. */
    method Read() returns (c: Chunk)
      modifies this`next
      ensures c == ChunkAt(chunks, old(next)) && next == old(next) + 1
    {
      c := ChunkAt(chunks, next);
      next := next + 1;
    }

    method Close() returns (err: Option<Err>)
      modifies this`closes
      ensures err == closeErr && closes == old(closes) + 1
    {
      closes := closes + 1;
      err := closeErr;
    }
  }

  function ChunkAt(chunks: seq<Chunk>, i: nat): Chunk {
    if i < |chunks| then chunks[i] else Chunk([], Some(Bare(EndOfFile)))
  }

  /** The operation's done callback, with what it was called with. */
  class Operation {
    var ends: seq<Option<Err>>

    constructor ()
      ensures ends == []
    {
      ends := [];
    }

    method Done(err: Option<Err>)
      modifies this
      ensures ends == old(ends) + [err]
    {
      ends := ends + [err];
    }
  }

  // ---------- the stream as a value ----------

  /** A read failure as the caller sees it: the two end-of-file sentinels as
      they are, anything else as the package's error. */
  function Seen(err: Err): Err {
    if Is(err, Bare(EndOfFile)) then Bare(EndOfFile)
    else if Is(err, Bare(UnexpectedEndOfFile)) then Bare(UnexpectedEndOfFile)
    else ResultError(Some(err)).value
  }

  /** What the operation ends with, when err ends it: a clean end or a close is
      no failure, unless closing the body is. */
  function Verdict(err: Option<Err>, closeErr: Option<Err>): Option<Err> {
    if err.None? || err.value == Bare(EndOfFile) then ResultError(closeErr) else err
  }

  datatype View = View(once: bool, err: Option<Err>, closes: nat, ends: seq<Option<Err>>)

  datatype Event = Reading(chunk: Chunk) | Closing

  predicate Terminal(e: Event) {
    e.Closing? || e.chunk.err.Some?
  }

  function Ending(e: Event): Option<Err> {
    match e
    case Closing => None
    case Reading(chunk) => if chunk.err.Some? then Some(Seen(chunk.err.value)) else None
  }

  function After(v: View, e: Event, closeErr: Option<Err>, hasDone: bool): View {
    if v.once || !Terminal(e) then v
    else View(true, ResultError(closeErr), v.closes + 1,
              v.ends + if hasDone then [Verdict(Ending(e), closeErr)] else [])
  }

  class DataStream {
    const body: Upstream
    const done: Operation?
    var once: bool
    var err: Option<Err>

    ghost function State(): View
      reads this, body, done
    {
      View(once, err, body.closes, if done != null then done.ends else [])
    }

    constructor (body: Upstream, done: Operation?)
      ensures this.body == body && this.done == done
      ensures State() == View(false, None, body.closes, if done != null then done.ends else [])
    {
      this.body, this.done, once, err := body, done, false, None;
    }

    method Read() returns (bytes: seq<Byte>, e: Option<Err>)
      modifies this, body, done
      ensures var c := ChunkAt(body.chunks, old(body.next));
              && bytes == c.bytes
              && e == Ending(Reading(c))
              && State() == After(old(State()), Reading(c), body.closeErr, done != null)
              && body.next == old(body.next) + 1
    {
      var c := body.Read();
      if c.err.None? {
        return c.bytes, None;
      }
      e := Some(Seen(c.err.value));
      Finish(e);
      bytes := c.bytes;
    }

    /** Close reports the close's own result, now and at every later call. */
    method Close() returns (e: Option<Err>)
      modifies this, body, done
      ensures State() == After(old(State()), Closing, body.closeErr, done != null)
      ensures e == State().err && body.next == old(body.next)
    {
      Finish(None);
      e := err;
    }

    method Finish(e: Option<Err>)
      modifies this, body, done
      ensures body.next == old(body.next)
      ensures old(once) ==> State() == old(State())
      ensures !old(once) ==>
                State() == View(true, ResultError(body.closeErr), old(body.closes) + 1,
                                old(State()).ends + if done != null then [Verdict(e, body.closeErr)] else [])
    {
      if !once {
        once := true;
        var closeErr := body.Close();
        err := ResultError(closeErr);
        if done != null {
          var end := if e == Some(Bare(EndOfFile)) then None else e;
          if end.None? {
            end := err;
          }
          done.Done(end);
        }
      }
    }
  }

  // ---------- laws over every sequence of calls ----------

  function Run(v: View, events: seq<Event>, closeErr: Option<Err>): View {
    if events == [] then v
    else After(Run(v, events[..|events| - 1], closeErr), events[|events| - 1], closeErr, true)
  }

  const FRESH: View := View(false, None, 0, [])

  predicate FirstTerminal(events: seq<Event>, i: nat) {
    && i < |events| && Terminal(events[i])
    && forall j: nat | j < i :: !Terminal(events[j])
  }

  /** However reads and closes are interleaved, the operation is still open while
      nothing terminal has happened; from the first terminal call on, the body
      has been closed once and the operation ended once, with the verdict of
      that call, and every close reports the same stored result. */
  lemma {:induction false} EndsExactlyOnce(events: seq<Event>, closeErr: Option<Err>)
    ensures (forall i: nat | i < |events| :: !Terminal(events[i])) ==> Run(FRESH, events, closeErr) == FRESH
    ensures forall i: nat :: FirstTerminal(events, i) ==>
              Run(FRESH, events, closeErr) == View(true, ResultError(closeErr), 1, [Verdict(Ending(events[i]), closeErr)])
  {
    hide Seen;
    if events != [] {
      var k := |events| - 1;
      var before := events[..k];
      EndsExactlyOnce(before, closeErr);
      forall i: nat | FirstTerminal(events, i)
        ensures Run(FRESH, events, closeErr) == View(true, ResultError(closeErr), 1, [Verdict(Ending(events[i]), closeErr)])
      {
        if i < k {
          assert FirstTerminal(before, i);
        } else {
          assert forall j: nat | j < k :: before[j] == events[j];
        }
      }
    }
  }

  /** What the operation ends with, by the first call that is a close or a
      failing read: after a close, and at the end of the payload, what closing
      the body came to; a payload cut short by its sentinel; anything else as
      the package's own error. The body is closed once and the close's result is
      what every close reports. */
  lemma EndOf(events: seq<Event>, closeErr: Option<Err>, i: nat)
    requires i < |events| && (events[i].Closing? || events[i].chunk.err.Some?)
    requires forall j: nat | j < i :: events[j].Reading? && events[j].chunk.err.None?
    ensures var v := Run(FRESH, events, closeErr);
            var closed := match closeErr case None => None
                          case Some(e) => Some(if e.Client? then e else Client(e, []));
            && v.closes == 1 && v.err == closed
            && (events[i].Closing? ==> v.ends == [closed])
            && (events[i].Reading? ==>
                  var e := events[i].chunk.err.value;
                  v.ends == [if Is(e, Bare(EndOfFile)) then closed
                             else if Is(e, Bare(UnexpectedEndOfFile)) then Some(Bare(UnexpectedEndOfFile))
                             else if e.Client? then Some(e) else Some(Client(e, []))])
  {
    hide Is;
    assert FirstTerminal(events, i);
    EndsExactlyOnce(events, closeErr);
  }

  /** What one read returns: the two end-of-file sentinels as they are, anything
      else as the package's own error, and no error but the body's. */
  lemma ReadReturns(c: Chunk)
    ensures c.err.None? ==> Ending(Reading(c)).None?
    ensures c.err.Some? ==>
              Ending(Reading(c)) == Some(if Is(c.err.value, Bare(EndOfFile)) then Bare(EndOfFile)
                                         else if Is(c.err.value, Bare(UnexpectedEndOfFile)) then Bare(UnexpectedEndOfFile)
                                         else if c.err.value.Client? then c.err.value else Client(c.err.value, []))
  {
    hide Is;
  }

  /** The operation is reported as clean exactly when the first terminal call was
      a close or met the end of the payload, and closing the body worked. */
  lemma CleanEndIff(events: seq<Event>, closeErr: Option<Err>, i: nat)
    requires FirstTerminal(events, i)
    ensures Run(FRESH, events, closeErr).ends == [None] <==>
              && closeErr.None?
              && (events[i].Closing? || Is(events[i].chunk.err.value, Bare(EndOfFile)))
  {
    EndsExactlyOnce(events, closeErr);
  }

  // ---------- the buffered path ----------

  /** The bytes of the first n chunks. */
  function Gathered(chunks: seq<Chunk>, n: nat): seq<Byte> {
    if n == 0 then [] else Gathered(chunks, n - 1) + ChunkAt(chunks, n - 1).bytes
  }

  /** How many bytes the first n reads give. */
  function Length(chunks: seq<Chunk>, n: nat): nat {
    if n == 0 then 0 else Length(chunks, n - 1) + |ChunkAt(chunks, n - 1).bytes|
  }

  /** What is gathered is every chunk, whole and at its place. */
  lemma {:induction false} GatheredAt(chunks: seq<Chunk>, n: nat, i: nat)
    ensures |Gathered(chunks, n)| == Length(chunks, n)
    ensures i < n ==>
              var from := Length(chunks, i);
              from + |ChunkAt(chunks, i).bytes| <= |Gathered(chunks, n)|
              && Gathered(chunks, n)[from..from + |ChunkAt(chunks, i).bytes|] == ChunkAt(chunks, i).bytes
  {
    if n > 0 {
      GatheredAt(chunks, n - 1, i);
      var before, last := Gathered(chunks, n - 1), ChunkAt(chunks, n - 1).bytes;
      assert Gathered(chunks, n) == before + last;
      if i == n - 1 {
        assert (before + last)[|before|..|before| + |last|] == last;
      } else if i < n - 1 {
        var from, to := Length(chunks, i), Length(chunks, i) + |ChunkAt(chunks, i).bytes|;
        assert (before + last)[from..to] == before[from..to];
      }
    }
  }

  /** The first read to fail, end of file included. */
  predicate StopsAt(chunks: seq<Chunk>, k: nat) {
    && ChunkAt(chunks, k).err.Some?
    && forall i: nat | i < k :: ChunkAt(chunks, i).err.None?
  }

  function StopFrom(chunks: seq<Chunk>, i: nat): (k: nat)
    requires forall j: nat | j < i :: ChunkAt(chunks, j).err.None?
    ensures StopsAt(chunks, k)
    decreases |chunks| - i
  {
    if ChunkAt(chunks, i).err.Some? then i else StopFrom(chunks, i + 1)
  }

  /** Every body is at its end at some point. */
  function FirstStop(chunks: seq<Chunk>): (k: nat)
    ensures StopsAt(chunks, k)
  {
    StopFrom(chunks, 0)
  }

  lemma OneStop(chunks: seq<Chunk>)
    ensures forall k: nat :: ChunkAt(chunks, k).err.Some? && (forall i: nat | i < k :: ChunkAt(chunks, i).err.None?)
                             ==> k == FirstStop(chunks)
  {
  }

  /** The outcome of reading and then closing: the read's failure first. */
  function BufferError(last: Chunk, closeErr: Option<Err>): Option<Err> {
    if last.err.Some? && last.err.value != Bare(EndOfFile) then last.err else closeErr
  }

  function UnreadPayload(e: Err): Err {
    Client(e, [Bare(ResultUnknown)])
  }

  /** A payload that could not be read leaves the result unknown. */
  lemma UnreadPayloadIsUnknown(e: Err)
    ensures Is(UnreadPayload(e), Bare(ResultUnknown))
  {
    WalkClient(e, [Bare(ResultUnknown)]);
    assert Bare(ResultUnknown) in Walk(UnreadPayload(e));
  }

  /** handleDataOK: a stream is handed over with the operation open; otherwise
      the payload is read whole, the body closed once and the operation ended
      once, with the error returned, and what was read before a failure is kept. */
  method HandleDataOK(body: Upstream, stream: bool, done: Operation)
    returns (p: seq<Byte>, rc: DataStream?, err: Option<Err>)
    requires body.next == 0
    modifies body, done
    ensures stream ==>
              && fresh(rc) && rc.body == body && rc.done == done && p == [] && err.None?
              && rc.State() == View(false, None, old(body.closes), old(done.ends))
    ensures !stream ==>
              && rc == null
              && p == Gathered(body.chunks, FirstStop(body.chunks) + 1)
              && body.closes == old(body.closes) + 1 && done.ends == old(done.ends) + [err]
              && err == match BufferError(ChunkAt(body.chunks, FirstStop(body.chunks)), body.closeErr)
                        case None => None case Some(e) => Some(UnreadPayload(e))
    // The same in terms of the first read to fail: no error exactly at the end of
    // the payload and with a close that works; a read's failure first.
    ensures !stream ==>
              forall k: nat :: ChunkAt(body.chunks, k).err.Some? && (forall i: nat | i < k :: ChunkAt(body.chunks, i).err.None?) ==>
                var e := ChunkAt(body.chunks, k).err.value;
                && (err.None? <==> e == Bare(EndOfFile) && body.closeErr.None?)
                && (e != Bare(EndOfFile) ==> err == Some(Client(e, [Bare(ResultUnknown)])))
                && (e == Bare(EndOfFile) && body.closeErr.Some? ==> err == Some(Client(body.closeErr.value, [Bare(ResultUnknown)])))
                && |p| == Length(body.chunks, k + 1)
  {
    if stream {
      rc := new DataStream(body, done);
      return [], rc, None;
    }
    ghost var k := FirstStop(body.chunks);
    OneStop(body.chunks);
    GatheredAt(body.chunks, k + 1, 0);
    p, err := [], None;
    var reading := true;
    while reading
      invariant body.closes == old(body.closes) && done.ends == old(done.ends)
      invariant p == Gathered(body.chunks, body.next)
      invariant if reading then body.next <= k && err.None?
                else body.next == k + 1 && err == BufferError(ChunkAt(body.chunks, k), None)
      decreases reading, k - body.next
    {
      var c := body.Read();
      p := p + c.bytes;
      if c.err.Some? {
        reading := false;
        if c.err.value != Bare(EndOfFile) {
          err := c.err;
        }
      }
    }
    var closeErr := body.Close();
    if err.None? {
      err := closeErr;
    }
    if err.Some? {
      err := Some(UnreadPayload(err.value));
    }
    done.Done(err);
    rc := null;
  }
}
