/** What a search can find in an error an operation returned. A node a search
    does not visit cannot be matched by errors.Is, whatever the target, nor
    extracted by errors.As, whatever the type. */
module Opacity {
  import opened GoErrors

  /** The nodes the package's documentation lets a caller reach. */
  predicate Permitted(x: Err) {
    || x.Api?
    || x.Detail?
    || (x.Bare? && x.sentinel in {Canceled, DeadlineExceeded, ResultUnknown, Unavailable})
  }

  /** Nothing but permitted nodes below the returned error itself. */
  predicate Opaque(e: Err) {
    forall x | x in Walk(e)[1..] :: Permitted(x)
  }

  predicate Found(nodes: seq<Err>, target: Err) {
    exists x | x in nodes :: Matches(x, target)
  }

  function Shown(cause: Err): seq<Err> {
    match Contract(cause) case None => [] case Some(x) => Walk(x)
  }

  predicate LeafDetails(cause: Err) {
    cause.Api? && cause.details.Some? ==> cause.details.value.Detail?
  }

  lemma WalkApi(api: Err)
    requires api.Api? && LeafDetails(api)
    ensures Walk(api) == if api.details.Some? then [api, api.details.value] else [api]
  {
    if api.details.Some? {
      WalkOver(api, api.details.value);
      assert Walk(api.details.value) == [api.details.value];
    }
  }

  /** A permitted node that is not the API's error is a leaf, and no refusal. */
  lemma NoLeafRefuses(cause: Err)
    requires Permitted(cause) && !cause.Api?
    ensures !Is(cause, Bare(InvalidRequest))
  {
    assert Walk(cause) == [cause];
  }

  /** An API error built here has leaf details; one a caller built may carry
      anything in that field. */
  predicate PermittedDetails(api: Err)
    requires api.Api?
  {
    api.details.Some? ==> forall x | x in Walk(api.details.value) :: Permitted(x)
  }

  /** The wrapper leaks exactly when its cause matches the refusal sentinel
      without being the API's own error, for then the whole cause is exposed, or
      is one whose details hold something else. */
  lemma OpaqueIff(cause: Err, conds: seq<Err>)
    requires Sentinels(conds) && forall c | c in conds :: Permitted(c)
    ensures Opaque(Client(cause, conds)) <==>
              if cause.Api? then PermittedDetails(cause) else !Is(cause, Bare(InvalidRequest))
  {
    var e := Client(cause, conds);
    WalkClient(cause, conds);
    var shown := Shown(cause);
    assert Walk(e)[1..] == shown + conds;
    assert Opaque(e) <==> forall x | x in shown :: Permitted(x) by {
      forall x | x in shown ensures x in Walk(e)[1..] {}
    }
    if cause.Api? {
      ApiOpaque(cause);
    } else if Is(cause, Bare(InvalidRequest)) {
      if Permitted(cause) {
        NoLeafRefuses(cause);
      }
      assert cause in shown;
    } else {
      assert forall x | x in shown :: x == Bare(Canceled) || x == Bare(DeadlineExceeded);
    }
  }

  lemma ApiOpaque(api: Err)
    requires api.Api?
    ensures (forall x | x in Walk(api) :: Permitted(x)) <==> PermittedDetails(api)
  {
    if api.details.Some? {
      WalkOver(api, api.details.value);
      assert Walk(api) == [api] + Walk(api.details.value);
    } else {
      assert Walk(api) == [api];
    }
  }

  lemma IsOfClient(cause: Err, conds: seq<Err>, target: Err)
    requires Sentinels(conds) && (target.Bare? || target.KindError?)
    ensures Is(Client(cause, conds), target) <==> Found(Shown(cause), target) || target in conds
  {
    WalkClient(cause, conds);
    var nodes := Walk(Client(cause, conds));
    assert nodes == [Client(cause, conds)] + Shown(cause) + conds;
    assert Is(Client(cause, conds), target) <==> Found(nodes, target);
    forall x | x in Shown(cause) || x in conds ensures x in nodes {}
    if Found(nodes, target) {
      var x :| x in nodes && Matches(x, target);
      assert x in Shown(cause) || x in conds;
    }
    if target in conds {
      assert Matches(target, target);
    }
  }

  lemma FoundInShown(cause: Err, target: Err)
    requires target.Bare? || target.KindError?
    ensures Found(Shown(cause), target) <==>
              if cause.Api? || Is(cause, Bare(InvalidRequest)) then Is(cause, target)
              else if Is(cause, Bare(Canceled)) then target == Bare(Canceled)
              else Is(cause, Bare(DeadlineExceeded)) && target == Bare(DeadlineExceeded)
  {
    if cause.Api? || Is(cause, Bare(InvalidRequest)) {
      assert Shown(cause) == Walk(cause);
    } else if Is(cause, Bare(Canceled)) {
      assert Shown(cause) == [Bare(Canceled)] && Bare(Canceled) in Shown(cause);
    } else if Is(cause, Bare(DeadlineExceeded)) {
      assert Shown(cause) == [Bare(DeadlineExceeded)] && Bare(DeadlineExceeded) in Shown(cause);
    }
  }

  /** For every cause, what errors.Is answers on the wrapper: the conditions;
      then, of the API's error and of a refusal, whatever it matches itself; of
      anything else, one context sentinel, cancellation winning over a deadline
      when the cause carries both. */
  lemma ReachExact(cause: Err, conds: seq<Err>, s: Sentinel, k: Kind)
    requires Sentinels(conds)
    ensures Is(Client(cause, conds), Bare(s)) <==>
              || Bare(s) in conds
              || (Is(cause, Bare(s))
                  && (|| cause.Api?
                      || Is(cause, Bare(InvalidRequest))
                      || s == Canceled
                      || (s == DeadlineExceeded && !Is(cause, Bare(Canceled)))))
    ensures Is(Client(cause, conds), KindError(k)) <==>
              (cause.Api? || Is(cause, Bare(InvalidRequest))) && Is(cause, KindError(k))
  {
    hide Is, Found, Shown;
    IsOfClient(cause, conds, Bare(s));
    IsOfClient(cause, conds, KindError(k));
    FoundInShown(cause, Bare(s));
    FoundInShown(cause, KindError(k));
  }

  /** An answer of the API matches its own kind and nothing else. */
  lemma ApiMatches(api: Err, s: Sentinel, k: Kind)
    requires api.Api? && LeafDetails(api)
    ensures !Is(api, Bare(s)) && (Is(api, KindError(k)) <==> api.kind == k)
  {
    WalkApi(api);
    assert api in Walk(api);
  }

  /** Wrapping twice changes nothing, and wrapping makes no refusal of an error
      that is none, nor hides one that is. */
  lemma ResultErrorIdempotent(err: Option<Err>)
    ensures ResultError(ResultError(err)) == ResultError(err)
    ensures err.Some? ==> ResultError(err).Some? && ResultError(err).value.Client?
    ensures err.Some? ==> (Is(ResultError(err).value, Bare(InvalidRequest)) <==> Is(err.value, Bare(InvalidRequest)))
  {
    if err.Some? && !err.value.Client? {
      ReachExact(err.value, [], InvalidRequest, NoKnownKind);
    }
  }
}
