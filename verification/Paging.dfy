/** Iteration over pages: a loop that follows cursors and pushes items to a
    consumer, proved equal to flattening the chain of pages. */
module Paging {
  import opened GoErrors

  datatype Page<T> = Page(items: seq<T>, next: string)

  /** What the consumer is given: an item, or the error that ends the iteration. */
  datatype Event<T> = Item(item: T) | Fault(err: Err)

  /** The listing operation, as a function of the cursor it is asked for. */
  type Fetch<T> = string -> Result<Page<T>>

  // ---------- the chain of pages ----------

  /** The chain from a cursor ends, by a last page or an error, within n pages. */
  predicate Ends<T>(fetch: Fetch<T>, after: string, n: nat)
    decreases n
  {
    n > 0 && match fetch(after)
             case Failed(_) => true
             case Ok(page) => page.next == "" || Ends(fetch, page.next, n - 1)
  }

  /** The cursors of the first n pages of the chain, fewer if it ends before. */
  function Cursors<T>(fetch: Fetch<T>, after: string, n: nat): seq<string>
    decreases n
  {
    if n == 0 then []
    else [after] + match fetch(after)
                   case Failed(_) => []
                   case Ok(page) => if page.next == "" then [] else Cursors(fetch, page.next, n - 1)
  }

  function Items<T>(items: seq<T>): (es: seq<Event<T>>)
    ensures |es| == |items| && forall i: nat | i < |items| :: es[i] == Item(items[i])
  {
    seq(|items|, i requires 0 <= i < |items| => Item(items[i]))
  }

  function PageEvents<T>(r: Result<Page<T>>): seq<Event<T>> {
    match r
    case Failed(e) => [Fault(e)]
    case Ok(page) => Items(page.items)
  }

  /** What a list of pages holds, in order. */
  function Flatten<T>(fetch: Fetch<T>, cursors: seq<string>): seq<Event<T>> {
    if cursors == [] then []
    else Flatten(fetch, cursors[..|cursors| - 1]) + PageEvents(fetch(cursors[|cursors| - 1]))
  }

  lemma {:induction false} FlattenPrefix<T>(fetch: Fetch<T>, a: seq<string>, b: seq<string>)
    requires a <= b
    ensures Flatten(fetch, a) <= Flatten(fetch, b)
  {
    if |a| < |b| {
      FlattenPrefix(fetch, a, b[..|b| - 1]);
    } else {
      assert a == b;
    }
  }

  /** How many of these events a consumer takes: one past its limit at most. */
  function Cap(limit: Option<nat>, total: nat): nat {
    if limit.Some? && limit.value + 1 < total then limit.value + 1 else total
  }

  /** The iteration comes to its end within n pages: the chain does, or the
      consumer has had enough. */
  predicate Suffices<T>(fetch: Fetch<T>, start: string, n: nat, limit: Option<nat>) {
    || Ends(fetch, start, n)
    || (limit.Some? && |Flatten(fetch, Cursors(fetch, start, n))| > limit.value)
  }

  /** What an iteration amounts to: the consumer took everything the chain
      holds, or the part of it up to its limit; and no page was fetched that was
      not needed: those before the last one did not hold what it took. */
  ghost predicate Iterated<T>(fetch: Fetch<T>, start: string, n: nat, limit: Option<nat>,
                              cursors: seq<string>, taken: seq<Event<T>>) {
    var chain := Cursors(fetch, start, n);
    var all := Flatten(fetch, chain);
    && taken == all[..Cap(limit, |all|)]
    && taken <= Flatten(fetch, cursors)
    && [] != cursors <= chain
    && (|taken| == |all| && (limit.None? || |taken| <= limit.value) ==> cursors == chain)
    && (limit.Some? ==> |Flatten(fetch, cursors[..|cursors| - 1])| <= limit.value)
  }

  /** The pages at cursors come first, and left more from after are to come. */
  ghost predicate Follows<T>(fetch: Fetch<T>, start: string, n: nat, cursors: seq<string>, after: string, left: nat) {
    && Cursors(fetch, start, n) == cursors + Cursors(fetch, after, left)
    && (Ends(fetch, start, n) ==> Ends(fetch, after, left))
  }

  lemma FirstPage<T>(fetch: Fetch<T>, start: string, n: nat)
    ensures Follows(fetch, start, n, [], start, n) && Flatten(fetch, []) == []
  {
    assert [] + Cursors(fetch, start, n) == Cursors(fetch, start, n);
  }

  lemma FlattenSnoc<T>(fetch: Fetch<T>, cursors: seq<string>, after: string)
    ensures Flatten(fetch, cursors + [after]) == Flatten(fetch, cursors) + PageEvents(fetch(after))
  {
    assert (cursors + [after])[..|cursors + [after]| - 1] == cursors;
  }

  lemma MorePages<T>(fetch: Fetch<T>, start: string, n: nat, limit: Option<nat>,
                     cursors: seq<string>, after: string, left: nat)
    requires Suffices(fetch, start, n, limit) && Follows(fetch, start, n, cursors, after, left)
    requires limit.Some? ==> |Flatten(fetch, cursors)| <= limit.value
    ensures left > 0
  {
    assert left == 0 ==> cursors + Cursors(fetch, after, left) == cursors;
  }

  lemma NextPage<T>(fetch: Fetch<T>, start: string, n: nat, cursors: seq<string>, after: string, left: nat)
    requires Follows(fetch, start, n, cursors, after, left) && left > 0
    ensures var now, page := cursors + [after], fetch(after);
            && now <= Cursors(fetch, start, n)
            && Flatten(fetch, now) == Flatten(fetch, cursors) + PageEvents(page)
            && (if page.Ok? && page.value.next != "" then Follows(fetch, start, n, now, page.value.next, left - 1)
                else now == Cursors(fetch, start, n))
  {
    hide Flatten, PageEvents;
    var now, page := cursors + [after], fetch(after);
    FlattenSnoc(fetch, cursors, after);
    if page.Ok? && page.value.next != "" {
      var rest := Cursors(fetch, page.value.next, left - 1);
      assert Cursors(fetch, after, left) == [after] + rest;
      assert cursors + ([after] + rest) == now + rest;
      assert Cursors(fetch, start, n) == now + rest;
    } else {
      assert Cursors(fetch, after, left) == [after];
    }
  }

  lemma IteratedAtStop<T>(fetch: Fetch<T>, start: string, n: nat, limit: Option<nat>,
                          cursors: seq<string>, taken: seq<Event<T>>)
    requires [] != cursors <= Cursors(fetch, start, n)
    requires taken <= Flatten(fetch, cursors)
    requires limit.Some? ==> |Flatten(fetch, cursors[..|cursors| - 1])| <= limit.value
    requires if limit.Some? && |taken| > limit.value then |taken| == limit.value + 1
             else taken == Flatten(fetch, cursors) && cursors == Cursors(fetch, start, n)
    ensures Iterated(fetch, start, n, limit, cursors, taken)
  {
    FlattenPrefix(fetch, cursors, Cursors(fetch, start, n));
  }

  // ---------- what an iteration delivers, item by item ----------

  function PageSize<T>(r: Result<Page<T>>): nat {
    match r
    case Failed(_) => 0
    case Ok(page) => |page.items|
  }

  /** How many items the first i pages hold. */
  function Offset<T>(fetch: Fetch<T>, cursors: seq<string>, i: nat): nat
    requires i <= |cursors|
  {
    if i == 0 then 0 else Offset(fetch, cursors, i - 1) + PageSize(fetch(cursors[i - 1]))
  }

  /** How many events these pages come to: an error is one, and ends them. */
  function EventCount<T>(fetch: Fetch<T>, cursors: seq<string>): nat
    requires cursors != []
  {
    Offset(fetch, cursors, |cursors|) + if fetch(cursors[|cursors| - 1]).Failed? then 1 else 0
  }

  /** The cursors are a chain from the start, each page naming the next. */
  ghost predicate IsChain<T>(fetch: Fetch<T>, start: string, cursors: seq<string>) {
    && cursors != [] && cursors[0] == start
    && forall i: nat | i + 1 < |cursors| ::
         fetch(cursors[i]).Ok? && fetch(cursors[i]).value.next != "" && cursors[i + 1] == fetch(cursors[i]).value.next
  }

  /** Every item of every page stands at its place, as far as events were taken,
      and so does the error that ends the chain. */
  ghost predicate InPlace<T>(fetch: Fetch<T>, cursors: seq<string>, events: seq<Event<T>>) {
    && (forall i: nat, j: nat | i < |cursors| && fetch(cursors[i]).Ok? && j < |fetch(cursors[i]).value.items|
                                && Offset(fetch, cursors, i) + j < |events| ::
          events[Offset(fetch, cursors, i) + j] == Item(fetch(cursors[i]).value.items[j]))
    && (cursors != [] && fetch(cursors[|cursors| - 1]).Failed? && Offset(fetch, cursors, |cursors|) < |events| ==>
          events[Offset(fetch, cursors, |cursors|)] == Fault(fetch(cursors[|cursors| - 1]).error))
  }

  /** All of it: the pages of a chain in order, to the chain's end without a
      limit, and with one to a single event past it, no page being fetched once
      that is reached. */
  ghost predicate Delivers<T>(fetch: Fetch<T>, start: string, limit: Option<nat>,
                              cursors: seq<string>, taken: seq<Event<T>>) {
    && IsChain(fetch, start, cursors)
    && InPlace(fetch, cursors, taken)
    && var count, last := EventCount(fetch, cursors), fetch(cursors[|cursors| - 1]);
       match limit
       case None => |taken| == count && (last.Ok? ==> last.value.next == "")
       case Some(l) =>
         && |taken| == (if l + 1 < count then l + 1 else count)
         && Offset(fetch, cursors, |cursors| - 1) <= l
         && (count <= l && last.Ok? ==> last.value.next == "")
  }

  lemma {:induction false} OffsetOfPrefix<T>(fetch: Fetch<T>, a: seq<string>, b: seq<string>, i: nat)
    requires a <= b && i <= |a|
    ensures Offset(fetch, a, i) == Offset(fetch, b, i)
  {
    if i > 0 {
      OffsetOfPrefix(fetch, a, b, i - 1);
    }
  }

  lemma {:induction false} OffsetGrows<T>(fetch: Fetch<T>, cursors: seq<string>, i: nat, k: nat)
    requires i <= k <= |cursors|
    ensures Offset(fetch, cursors, i) <= Offset(fetch, cursors, k)
  {
    if i < k {
      OffsetGrows(fetch, cursors, i, k - 1);
    }
  }

  lemma {:induction false} FlattenCount<T>(fetch: Fetch<T>, cursors: seq<string>)
    requires forall i: nat | i < |cursors| :: fetch(cursors[i]).Ok?
    ensures |Flatten(fetch, cursors)| == Offset(fetch, cursors, |cursors|)
  {
    if cursors != [] {
      var before := cursors[..|cursors| - 1];
      assert forall i: nat | i < |before| :: before[i] == cursors[i];
      FlattenCount(fetch, before);
      OffsetOfPrefix(fetch, before, cursors, |before|);
    }
  }

  lemma {:induction false} FlattenItem<T>(fetch: Fetch<T>, cursors: seq<string>, i: nat, j: nat)
    requires forall k: nat | k + 1 < |cursors| :: fetch(cursors[k]).Ok?
    requires i < |cursors| && fetch(cursors[i]).Ok? && j < |fetch(cursors[i]).value.items|
    ensures Offset(fetch, cursors, i) + j < |Flatten(fetch, cursors)|
    ensures Flatten(fetch, cursors)[Offset(fetch, cursors, i) + j] == Item(fetch(cursors[i]).value.items[j])
  {
    var before := cursors[..|cursors| - 1];
    assert forall k: nat | k < |before| :: before[k] == cursors[k];
    OffsetOfPrefix(fetch, before, cursors, if i < |before| then i else |before|);
    if i < |before| {
      FlattenItem(fetch, before, i, j);
    } else {
      FlattenCount(fetch, before);
    }
  }

  /** The flattened pages, only the last of which may be an error, by position. */
  lemma FlattenInPlace<T>(fetch: Fetch<T>, cursors: seq<string>)
    requires cursors != [] && forall i: nat | i + 1 < |cursors| :: fetch(cursors[i]).Ok?
    ensures |Flatten(fetch, cursors)| == EventCount(fetch, cursors)
    ensures InPlace(fetch, cursors, Flatten(fetch, cursors))
  {
    var before := cursors[..|cursors| - 1];
    assert forall k: nat | k < |before| :: before[k] == cursors[k];
    FlattenCount(fetch, before);
    OffsetOfPrefix(fetch, before, cursors, |before|);
    var events := Flatten(fetch, cursors);
    forall i: nat, j: nat | i < |cursors| && fetch(cursors[i]).Ok? && j < |fetch(cursors[i]).value.items|
                            && Offset(fetch, cursors, i) + j < |events|
      ensures events[Offset(fetch, cursors, i) + j] == Item(fetch(cursors[i]).value.items[j])
    {
      FlattenItem(fetch, cursors, i, j);
    }
  }

  lemma {:induction false} CursorsChain<T>(fetch: Fetch<T>, start: string, n: nat, i: nat)
    requires i + 1 < |Cursors(fetch, start, n)|
    ensures var cs := Cursors(fetch, start, n);
            fetch(cs[i]).Ok? && fetch(cs[i]).value.next != "" && cs[i + 1] == fetch(cs[i]).value.next
    decreases n
  {
    if i > 0 {
      CursorsChain(fetch, fetch(start).value.next, n - 1, i - 1);
    } else {
      assert Cursors(fetch, start, n)[1] == Cursors(fetch, fetch(start).value.next, n - 1)[0];
    }
  }

  lemma {:induction false} ChainEnd<T>(fetch: Fetch<T>, start: string, n: nat)
    requires Ends(fetch, start, n)
    ensures var cs := Cursors(fetch, start, n);
            cs != [] && (fetch(cs[|cs| - 1]).Ok? ==> fetch(cs[|cs| - 1]).value.next == "")
    decreases n
  {
    if fetch(start).Ok? && fetch(start).value.next != "" {
      ChainEnd(fetch, fetch(start).value.next, n - 1);
    }
  }

  lemma IteratedDelivers<T>(fetch: Fetch<T>, start: string, n: nat, limit: Option<nat>,
                            cursors: seq<string>, taken: seq<Event<T>>)
    requires Suffices(fetch, start, n, limit) && Iterated(fetch, start, n, limit, cursors, taken)
    ensures Delivers(fetch, start, limit, cursors, taken)
  {
    var chain := Cursors(fetch, start, n);
    var all := Flatten(fetch, chain);
    forall i: nat | i + 1 < |chain|
      ensures fetch(chain[i]).Ok? && fetch(chain[i]).value.next != "" && chain[i + 1] == fetch(chain[i]).value.next
    {
      CursorsChain(fetch, start, n, i);
    }
    assert forall i: nat | i < |cursors| :: cursors[i] == chain[i];
    assert IsChain(fetch, start, cursors);
    FlattenInPlace(fetch, cursors);
    FlattenPrefix(fetch, cursors, chain);
    PrefixInPlace(fetch, cursors, taken, Flatten(fetch, cursors));
    LastOffset(fetch, start, n, limit, cursors, taken);
    if Ends(fetch, start, n) {
      ChainEnd(fetch, start, n);
    }
  }

  lemma PrefixInPlace<T>(fetch: Fetch<T>, cursors: seq<string>, a: seq<Event<T>>, b: seq<Event<T>>)
    requires a <= b && InPlace(fetch, cursors, b)
    ensures InPlace(fetch, cursors, a)
  {
  }

  lemma LastOffset<T>(fetch: Fetch<T>, start: string, n: nat, limit: Option<nat>,
                      cursors: seq<string>, taken: seq<Event<T>>)
    requires Iterated(fetch, start, n, limit, cursors, taken) && IsChain(fetch, start, cursors)
    ensures limit.Some? ==> Offset(fetch, cursors, |cursors| - 1) <= limit.value
  {
    var before := cursors[..|cursors| - 1];
    OffsetOfPrefix(fetch, before, cursors, |before|);
    if before != [] {
      assert forall i: nat | i < |before| :: before[i] == cursors[i];
      FlattenInPlace(fetch, before);
    }
  }

  // ---------- the consumer ----------

  /** The loop body of a range statement. It wants more until it has taken limit
      items, if there is a limit; and before it returns it may run another
      iteration of the same sequence, which leaves its own cursor behind in the
      shared request. */
  class Consumer<T> {
    const limit: Option<nat>
    const noise: nat -> string
    var taken: seq<Event<T>>

    constructor (limit: Option<nat>, noise: nat -> string)
      ensures this.limit == limit && this.noise == noise && taken == []
    {
      this.limit, this.noise, taken := limit, noise, [];
    }

    predicate Wants()
      reads this
    {
      limit.Some? ==> |taken| <= limit.value
    }

    method Yield(e: Event<T>, shared: Listing<T>) returns (more: bool)
      modifies this`taken, shared`reqAfter
      ensures taken == old(taken) + [e] && more == Wants()
    {
      taken := taken + [e];
      shared.reqAfter := noise(|taken|);
      more := Wants();
    }
  }

  // ---------- the iterator ----------

  /** One sequence value: the cursor captured when it was made, the request its
      closure overwrites before every fetch, and the cursors it has asked for. */
  class Listing<T> {
    const fetch: Fetch<T>
    const start: string
    var reqAfter: string
    var asked: seq<string>

    /** Queues and Messages: the start is the request's own cursor. */
    constructor (fetch: Fetch<T>, reqAfter: string)
      ensures this.fetch == fetch && start == reqAfter && this.reqAfter == reqAfter && asked == []
    {
      this.fetch, start, this.reqAfter, asked := fetch, reqAfter, reqAfter, [];
    }

    /** The closure: it sets the cursor and lists the page. */
    method Get(after: string) returns (r: Result<Page<T>>)
      modifies this
      ensures r == fetch(after) && asked == old(asked) + [after]
    {
      reqAfter := after;
      asked := asked + [reqAfter];
      r := fetch(reqAfter);
    }

    /** Pushes a page's items until the consumer has had enough. */
    method Push(c: Consumer<T>, items: seq<T>) returns (more: bool)
      requires c.Wants()
      modifies this`reqAfter, c
      ensures old(c.taken) <= c.taken <= old(c.taken) + Items(items)
      ensures more == c.Wants()
      ensures more ==> c.taken == old(c.taken) + Items(items)
      ensures !more ==> |c.taken| == c.limit.value + 1
    {
      for i := 0 to |items|
        invariant c.taken == old(c.taken) + Items(items)[..i] && c.Wants()
      {
        more := c.Yield(Item(items[i]), this);
        if !more {
          return;
        }
      }
      more := true;
    }

    /** list: one iteration. Whatever the shared request holds, and whatever the
        consumer leaves in it between two items, it starts at the sequence's own
        cursor and follows the chain. */
    method Iterate(c: Consumer<T>, ghost n: nat) returns (ghost cursors: seq<string>)
      requires Suffices(fetch, start, n, c.limit) && c.taken == []
      modifies this, c
      ensures asked == old(asked) + cursors
      ensures Iterated(fetch, start, n, c.limit, cursors, c.taken)
      ensures Delivers(fetch, start, c.limit, cursors, c.taken)
    {
      hide Delivers, Flatten, Cursors, Ends, Suffices, Follows, Iterated;
      FirstPage(fetch, start, n);
      var after := start;
      ghost var left: nat := n;
      cursors := [];
      while true
        invariant left <= n && c.Wants()
        invariant Follows(fetch, start, n, cursors, after, left)
        invariant c.taken == Flatten(fetch, cursors) && asked == old(asked) + cursors
        decreases left
      {
        ghost var before := cursors;
        MorePages(fetch, start, n, c.limit, cursors, after, left);
        NextPage(fetch, start, n, cursors, after, left);
        var page := Get(after);
        cursors := cursors + [after];
        assert cursors[..|cursors| - 1] == before;
        if page.Failed? {
          var _ := c.Yield(Fault(page.error), this);
          IteratedAtStop(fetch, start, n, c.limit, cursors, c.taken);
          IteratedDelivers(fetch, start, n, c.limit, cursors, c.taken);
          return;
        }
        var more := Push(c, page.value.items);
        if !more || page.value.next == "" {
          IteratedAtStop(fetch, start, n, c.limit, cursors, c.taken);
          IteratedDelivers(fetch, start, n, c.limit, cursors, c.taken);
          return;
        }
        after, left := page.value.next, left - 1;
      }
    }
  }

  // ---------- laws of an iteration ----------

  /** Over a chain that ends, a consumer without a limit gets exactly the
      concatenation of the pages, and the whole chain is fetched. */
  lemma WholeChain<T>(fetch: Fetch<T>, start: string, n: nat, cursors: seq<string>, taken: seq<Event<T>>)
    requires Ends(fetch, start, n) && Iterated(fetch, start, n, None, cursors, taken)
    ensures cursors == Cursors(fetch, start, n) && taken == Flatten(fetch, cursors)
    ensures Delivers(fetch, start, None, cursors, taken)
  {
    IteratedDelivers(fetch, start, n, None, cursors, taken);
  }

  /** An error is given once and last. */
  lemma {:induction false} FaultOnlyLast<T>(fetch: Fetch<T>, start: string, n: nat, i: nat)
    requires i < |Flatten(fetch, Cursors(fetch, start, n))|
    requires Flatten(fetch, Cursors(fetch, start, n))[i].Fault?
    ensures i == |Flatten(fetch, Cursors(fetch, start, n))| - 1
    ensures var cs := Cursors(fetch, start, n);
            cs != [] && fetch(cs[|cs| - 1]) == Failed(Flatten(fetch, cs)[i].err)
  {
    var chain := Cursors(fetch, start, n);
    var before := Flatten(fetch, chain[..|chain| - 1]);
    forall j: nat | j < |chain| - 1 ensures fetch(chain[j]).Ok? {
      FaultInLast(fetch, start, n, j);
    }
    NoFaultWithout(fetch, chain[..|chain| - 1]);
    assert forall j: nat | j < |before| :: before[j] in before;
  }

  /** Every page of a chain but its last is a page. */
  lemma {:induction false} FaultInLast<T>(fetch: Fetch<T>, start: string, n: nat, j: nat)
    requires j < |Cursors(fetch, start, n)| - 1
    ensures fetch(Cursors(fetch, start, n)[j]).Ok?
    decreases n
  {
    if j > 0 {
      FaultInLast(fetch, fetch(start).value.next, n - 1, j - 1);
    }
  }

  lemma {:induction false} NoFaultWithout<T>(fetch: Fetch<T>, cursors: seq<string>)
    requires forall j: nat | j < |cursors| :: fetch(cursors[j]).Ok?
    ensures forall e | e in Flatten(fetch, cursors) :: e.Item?
  {
    if cursors != [] {
      NoFaultWithout(fetch, cursors[..|cursors| - 1]);
    }
  }
}
