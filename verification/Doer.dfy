/** The general retry loop: a schedule that a long-running attempt resets, a
    bound on the calls, and a StopError that ends the loop from inside. */
module Doer {
  import opened GoErrors

  /** strategy is Strategy.Delay; maxAttempts <= 0 is unbounded, resetAfter <= 0
      never resets. */
  datatype Config = Config(strategy: nat -> int, maxAttempts: int, resetAfter: int)

  /** What the surroundings decide at one iteration: whether the context ends
      the wait, what the function returns and how long it ran, and the
      context's error afterwards. */
  datatype Turn = Turn(cut: Option<Err>, result: Option<Err>, ran: int, ctxAfter: Option<Err>)

  function AsStop(e: Err): (r: Option<Err>)
    ensures r.Some? ==> r.value.Stop?
  {
    First(Walk(e), (x: Err) => x.Stop?)
  }

  /** Wait: a zero delay does not look at the context. */
  predicate WaitCut(c: Config, t: Turn, sched: nat) {
    c.strategy(sched) != 0 && t.cut.Some?
  }

  predicate RanLong(c: Config, t: Turn) {
    c.resetAfter > 0 && t.ran >= c.resetAfter
  }

  /** The loop's answer if it ends right after this call. */
  function Ends(t: Turn): Option<Option<Err>> {
    match t.result
    case None => Some(None)
    case Some(e) =>
      match AsStop(e)
      case Some(stop) => Some(stop.inner)
      case None => if t.ctxAfter.Some? then Some(t.result) else None
  }

  /** The index just after the latest long-running attempt before i. */
  function Restart(c: Config, turn: nat -> Turn, i: nat): (k: nat)
    ensures k <= i
  {
    if i == 0 then 0
    else if RanLong(c, turn(i - 1)) then i
    else Restart(c, turn, i - 1)
  }

  /** The schedule position of attempt i: the failures since that restart. */
  function Position(c: Config, turn: nat -> Turn, i: nat): nat {
    i - Restart(c, turn, i)
  }

  /** Attempt i is reached and made: its wait is not cut short. */
  predicate Called(c: Config, turn: nat -> Turn, i: nat) {
    !WaitCut(c, turn(i), Position(c, turn, i))
  }

  predicate GoesOn(turn: nat -> Turn, i: nat) {
    Ends(turn(i)).None?
  }

  /** A finished run: how many calls were made, the positions asked of the
      strategy, and the loop's answer. */
  ghost predicate Legal(c: Config, turn: nat -> Turn, calls: nat, asked: seq<nat>, err: Option<Err>) {
    && (forall i: nat | i < |asked| :: asked[i] == Position(c, turn, i))
    && (forall i: nat | i < calls :: Called(c, turn, i))
    && (forall i: nat | i < calls - 1 :: GoesOn(turn, i))
    && (c.maxAttempts > 0 ==> calls <= c.maxAttempts)
    && if |asked| == calls + 1 then
         && !Called(c, turn, calls)
         && (c.maxAttempts > 0 ==> calls < c.maxAttempts)
         && (calls > 0 ==> GoesOn(turn, calls - 1))
         && err == if calls > 0 then turn(calls - 1).result else turn(0).cut
       else
         && |asked| == calls > 0
         && match Ends(turn(calls - 1))
            case Some(answer) => err == answer
            case None => calls == c.maxAttempts && err == turn(calls - 1).result
  }

  /** Attempt h, if reached, ends an unbounded run. */
  predicate Halts(c: Config, turn: nat -> Turn, h: nat) {
    || c.maxAttempts > 0
    || !GoesOn(turn, h)
    || !Called(c, turn, h)
  }

  function FirstError(a: Option<Err>, b: Option<Err>): Option<Err> {
    if a.Some? then a else b
  }

  method Do(c: Config, turn: nat -> Turn, ghost horizon: nat)
    returns (err: Option<Err>, calls: nat, asked: seq<nat>)
    requires Halts(c, turn, horizon)
    ensures Legal(c, turn, calls, asked, err)
  {
    hide AsStop;
    var err0: Option<Err> := None;
    var sched := 0;
    calls, asked := 0, [];
    var i := 0;
    while c.maxAttempts <= 0 || i < c.maxAttempts
      invariant 0 <= i == calls == |asked| && sched == Position(c, turn, i)
      invariant c.maxAttempts > 0 ==> i <= c.maxAttempts
      invariant c.maxAttempts <= 0 ==> i <= horizon
      invariant forall j: nat | j < i :: asked[j] == Position(c, turn, j)
      invariant forall j: nat | j < i :: Called(c, turn, j)
      invariant forall j: nat | j < i :: GoesOn(turn, j)
      invariant err0 == if i > 0 then turn(i - 1).result else None
      decreases if c.maxAttempts > 0 then c.maxAttempts - i else horizon + 1 - i
    {
      asked := asked + [sched];
      if c.strategy(sched) != 0 && turn(i).cut.Some? {
        assert !Called(c, turn, i) && (i > 0 ==> GoesOn(turn, i - 1));
        return FirstError(err0, turn(i).cut), calls, asked;
      }
      calls := calls + 1;
      err0 := turn(i).result;
      if err0.None? {
        return None, calls, asked;
      }
      var stop := AsStop(err0.value);
      if stop.Some? {
        return stop.value.inner, calls, asked;
      }
      if turn(i).ctxAfter.Some? {
        return FirstError(err0, turn(i).ctxAfter), calls, asked;
      }
      if c.resetAfter > 0 && turn(i).ran >= c.resetAfter {
        sched := 0;
      } else {
        sched := sched + 1;
      }
      i := i + 1;
    }
    assert GoesOn(turn, calls - 1);
    err := FirstError(err0, Some(Bare(Exhausted)));
  }

  /** Legal determines the run: nothing about it is left open. */
  lemma LegalUnique(c: Config, turn: nat -> Turn,
                    n: nat, a: seq<nat>, e: Option<Err>, n': nat, a': seq<nat>, e': Option<Err>)
    requires Legal(c, turn, n, a, e) && Legal(c, turn, n', a', e')
    ensures n == n' && a == a' && e == e'
  {
    LegalNotShorter(c, turn, n, a, e, n', a', e');
    LegalNotShorter(c, turn, n', a', e', n, a, e);
    assert |a| == |a'|;
  }

  lemma LegalNotShorter(c: Config, turn: nat -> Turn,
                        n: nat, a: seq<nat>, e: Option<Err>, n': nat, a': seq<nat>, e': Option<Err>)
    requires Legal(c, turn, n, a, e) && Legal(c, turn, n', a', e')
    ensures n <= n'
  {
    var called := Called(c, turn, n');
    var wentOn := n' > 0 && GoesOn(turn, n' - 1);
  }

  /** What a legal run is, in terms of its script: no wait of a call was cut
      short; every call but the last failed, with no StopError and the context
      alive; and the answer is the inner error of a StopError, else the last
      call's, the context's own standing in only when no call was made. */
  lemma LegalMeans(c: Config, turn: nat -> Turn, calls: nat, asked: seq<nat>, err: Option<Err>)
    requires Legal(c, turn, calls, asked, err)
    ensures c.maxAttempts > 0 ==> calls <= c.maxAttempts
    ensures |asked| == calls || |asked| == calls + 1
    ensures forall i: nat | i < calls :: turn(i).cut.Some? ==> c.strategy(asked[i]) == 0
    ensures forall i: nat | i + 1 < calls ::
              turn(i).result.Some? && AsStop(turn(i).result.value).None? && turn(i).ctxAfter.None?
    ensures calls == 0 ==> |asked| == 1 && err == turn(0).cut && err.Some?
    ensures |asked| == calls + 1 ==> turn(calls).cut.Some? && c.strategy(asked[calls]) != 0
    ensures calls > 0 ==>
              var last := turn(calls - 1);
              match last.result
              case None => err.None?
              case Some(e) =>
                if AsStop(e).Some? then err == AsStop(e).value.inner
                else err == Some(e) && (last.ctxAfter.Some? || |asked| == calls + 1 || calls == c.maxAttempts)
  {
    hide AsStop;
    forall i: nat | i < calls
      ensures turn(i).cut.Some? ==> c.strategy(asked[i]) == 0
      ensures i + 1 < calls ==> turn(i).result.Some? && AsStop(turn(i).result.value).None? && turn(i).ctxAfter.None?
    {
      assert Called(c, turn, i);
      assert i + 1 < calls ==> GoesOn(turn, i);
    }
  }

  /** The loop reports success exactly when the last call returned nil, or
      returned a StopError holding nil; and its own exhaustion error never
      stands in for the function's. */
  lemma NilIff(c: Config, turn: nat -> Turn, calls: nat, asked: seq<nat>, err: Option<Err>)
    requires Legal(c, turn, calls, asked, err)
    ensures err.None? <==>
              && calls > 0
              && |asked| == calls
              && (|| turn(calls - 1).result.None?
                  || AsStop(turn(calls - 1).result.value) == Some(Stop(None)))
    ensures err == Some(Bare(Exhausted)) ==>
              || (calls == 0 && turn(0).cut == err)
              || (calls > 0 && turn(calls - 1).result == err)
              || (calls > 0 && turn(calls - 1).result.Some? && AsStop(turn(calls - 1).result.value) == Some(Stop(err)))
  {
    if calls > 0 && |asked| == calls {
      var t := turn(calls - 1);
      if t.result.Some? {
        var stop := AsStop(t.result.value);
        if stop.Some? {
          assert stop.value == Stop(stop.value.inner);
        }
      }
    }
  }

  /** Stop(nil) makes the loop report success although the function failed. */
  lemma StopNilSucceeds(c: Config)
    ensures var turn := (_: nat) => Turn(None, Some(Stop(None)), 0, None);
            Legal(c, turn, 1, [0], None)
  {
    var e := Stop(None);
    assert Walk(e) == [e];
    assert AsStop(e) == Some(e);
  }

  /** What a position counts: it is the distance to a point that is the start
      or follows a long-running attempt, with none of those since. */
  lemma {:induction false} PositionMeaning(c: Config, turn: nat -> Turn, i: nat)
    ensures var k := i - Position(c, turn, i);
            && (k == 0 || turn(k - 1).ran >= c.resetAfter > 0)
            && forall j: nat | k <= j < i :: c.resetAfter <= 0 || turn(j).ran < c.resetAfter
  {
    if i > 0 && !RanLong(c, turn(i - 1)) {
      PositionMeaning(c, turn, i - 1);
    }
  }

  /** Without resets the i-th delay asked for is the i-th of the schedule. */
  lemma {:induction false} PlainSchedule(c: Config, turn: nat -> Turn, i: nat)
    requires c.resetAfter <= 0
    ensures Position(c, turn, i) == i
  {
    if i > 0 {
      PlainSchedule(c, turn, i - 1);
    }
  }
}
