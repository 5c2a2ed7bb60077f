/** Process-level leases for background jobs: a two-way index between leases and the external
    aliases of their jobs, pruned by time to live. */
module LeasePool {
  import opened Counting
  import opened Wrappers

  datatype Alias = Alias(kind: string, id: string)

  datatype Lease = Lease(bucket: string, kind: string, expiresAt: real, ids: set<string>)

  datatype Pool = Pool(leases: map<nat, Lease>, external: map<Alias, nat>)

  datatype Limits = Limits(maxGlobal: nat, maxPerKey: nat, ttl: real)

  /** The limits the constructor accepts. */
  predicate Accepted(l: Limits) {
    1 <= l.maxGlobal <= 256 && 1 <= l.maxPerKey <= l.maxGlobal && 300.0 <= l.ttl <= 86_400.0
  }

  function Named(kind: string, ids: set<string>): set<Alias> {
    set id | id in ids :: Alias(kind, id)
  }

  function Aliases(lease: Lease): set<Alias> {
    Named(lease.kind, lease.ids)
  }

  /** The alias map is exactly the inverse of the leases' alias sets. */
  ghost predicate Exact(p: Pool) {
    && (forall a | a in p.external :: p.external[a] in p.leases && a in Aliases(p.leases[p.external[a]]))
    && (forall t, a | t in p.leases && a in Aliases(p.leases[t]) :: a in p.external && p.external[a] == t)
  }

  function Drop(p: Pool, token: nat): Pool {
    if token in p.leases then Pool(p.leases - {token}, p.external - Aliases(p.leases[token])) else p
  }

  /** The pool without the leases whose time has come. */
  function Prune(p: Pool, now: real): Pool {
    var leases := map t | t in p.leases && p.leases[t].expiresAt > now :: p.leases[t];
    Pool(leases, map a | a in p.external && p.external[a] in leases :: p.external[a])
  }

  function HeldBy(p: Pool, bucket: string): set<nat> {
    set t | t in p.leases && p.leases[t].bucket == bucket
  }

  /** The alias map with a job's aliases pointed at a token. */
  function Pointed(external: map<Alias, nat>, kind: string, ids: set<string>, token: nat): map<Alias, nat> {
    map a | a in external.Keys + Named(kind, ids) :: if a in Named(kind, ids) then token else external[a]
  }

  function Added(p: Pool, token: nat, lease: Lease): Pool {
    Pool(p.leases[token := lease], Pointed(p.external, lease.kind, lease.ids, token))
  }

  /** The lease takes on further aliases and a new expiry. */
  function Extended(p: Pool, token: nat, ids: set<string>, expiresAt: real): Pool
    requires token in p.leases
  {
    var lease := p.leases[token];
    Pool(p.leases[token := lease.(ids := lease.ids + ids, expiresAt := expiresAt)],
         Pointed(p.external, lease.kind, ids, token))
  }

  function Bound(p: Pool, kind: string, ids: set<string>): set<nat> {
    set id | id in ids && Alias(kind, id) in p.external :: p.external[Alias(kind, id)]
  }

  // ---------------------------------------------------------------------------
  // Operations. Each takes the clock reading it prunes with.
  // ---------------------------------------------------------------------------

  datatype Op =
    | TryAcquire(kind: string, bucket: string, ids: set<string>, drawn: nat)
    | Restore(kind: string, bucket: string, ids: set<string>, drawn: nat)
    | Bind(token: nat, ids: set<string>)
    | RenewExternal(alias: Alias)
    | Release(token: nat)
    | ReleaseExternal(alias: Alias)

  /** What an operation did: the pool, and the lease it granted or renewed. Restore conflicts when it
      raises instead. */
  datatype Outcome = Outcome(pool: Pool, touched: Option<nat>, answer: Answer)

  datatype Answer = Granted(token: nat) | Full | Conflict | Did(done: bool)

  /** A token drawn for a new lease is not in use. */
  predicate DrawnFresh(p: Pool, op: Op, now: real) {
    (op.TryAcquire? || op.Restore?) ==> op.drawn !in Prune(p, now).leases
  }

  function Apply(before: Pool, l: Limits, op: Op, now: real): Outcome {
    var p := Prune(before, now);
    match op
    case TryAcquire(kind, bucket, ids, drawn) =>
      if |p.leases| >= l.maxGlobal || |HeldBy(p, bucket)| >= l.maxPerKey || Bound(p, kind, ids) != {} then
        Outcome(p, None, Full)
      else
        Outcome(Added(p, drawn, Lease(bucket, kind, now + l.ttl, ids)), Some(drawn), Granted(drawn))
    case Restore(kind, bucket, ids, drawn) =>
      var existing := Bound(p, kind, ids);
      if existing == {} then
        Outcome(Added(p, drawn, Lease(bucket, kind, now + l.ttl, ids)), Some(drawn), Granted(drawn))
      else if |existing| != 1 then Outcome(p, None, Conflict)
      else
        var held := Only(existing);
        if held !in p.leases || p.leases[held].bucket != bucket then Outcome(p, None, Conflict)
        else Outcome(Extended(p, held, ids, now + l.ttl), Some(held), Granted(held))
    case Bind(token, ids) =>
      if token !in p.leases || !(Bound(p, p.leases[token].kind, ids) <= {token}) then Outcome(p, None, Did(false))
      else Outcome(Extended(p, token, ids, now + l.ttl), Some(token), Did(true))
    case RenewExternal(alias) =>
      if alias !in p.external || p.external[alias] !in p.leases then Outcome(p, None, Did(false))
      else
        var token := p.external[alias];
        Outcome(Extended(p, token, {}, now + l.ttl), Some(token), Did(true))
    case Release(token) => Outcome(Drop(p, token), None, Did(token in p.leases))
    case ReleaseExternal(alias) =>
      if alias in p.external then Outcome(Drop(p, p.external[alias]), None, Did(p.external[alias] in p.leases))
      else Outcome(p, None, Did(false))
  }

  function Only(s: set<nat>): (x: nat)
    requires |s| == 1
    ensures s == {x}
  {
    SingletonUnique(s);
    var x :| x in s;
    x
  }

  lemma SingletonUnique(s: set<nat>)
    requires |s| == 1
    ensures forall x, y | x in s && y in s :: x == y
    ensures forall x | x in s :: s == {x}
  {
    forall x | x in s ensures s == {x} {
      assert |s - {x}| == 0;
    }
  }

  // ---------------------------------------------------------------------------
  // Exactness
  // ---------------------------------------------------------------------------

  /** Dropping a lease removes its own aliases and nobody else's. */
  lemma DropExact(p: Pool, token: nat)
    requires Exact(p)
    ensures Exact(Drop(p, token))
    ensures forall a :: a in Drop(p, token).external <==> a in p.external && p.external[a] != token
    ensures forall a | a in Drop(p, token).external :: Drop(p, token).external[a] == p.external[a]
  {
  }

  lemma PruneExact(p: Pool, now: real)
    requires Exact(p)
    ensures Exact(Prune(p, now))
    ensures forall a :: a in Prune(p, now).external <==> a in p.external && p.leases[p.external[a]].expiresAt > now
  {
  }

  lemma AddedExact(p: Pool, token: nat, lease: Lease)
    requires Exact(p) && token !in p.leases
    requires forall a | a in Aliases(lease) :: a !in p.external
    ensures Exact(Added(p, token, lease))
  {
  }

  lemma ExtendedExact(p: Pool, token: nat, ids: set<string>, expiresAt: real)
    requires Exact(p) && token in p.leases && Bound(p, p.leases[token].kind, ids) <= {token}
    ensures Exact(Extended(p, token, ids, expiresAt))
  {
    var lease := p.leases[token].(ids := p.leases[token].ids + ids, expiresAt := expiresAt);
    forall a | a in Aliases(lease) && a in p.external ensures p.external[a] == token {
      if a.id in ids {
        assert p.external[Alias(lease.kind, a.id)] in Bound(p, lease.kind, ids);
      } else {
        assert a in Aliases(p.leases[token]);
      }
    }
  }

  /** Every operation keeps the alias map the inverse of the alias sets. */
  lemma ApplyExact(p: Pool, l: Limits, op: Op, now: real)
    requires Exact(p) && DrawnFresh(p, op, now)
    ensures Exact(Apply(p, l, op, now).pool)
  {
    hide Exact, Prune, Added, Extended, Drop, Bound, Aliases, Pointed, HeldBy;
    PruneExact(p, now);
    var q := Prune(p, now);
    match op
    case TryAcquire(kind, bucket, ids, drawn) =>
      if Bound(q, kind, ids) == {} {
        BoundMembers(q, Lease(bucket, kind, now + l.ttl, ids));
        AddedExact(q, drawn, Lease(bucket, kind, now + l.ttl, ids));
      }
    case Restore(kind, bucket, ids, drawn) =>
      var existing := Bound(q, kind, ids);
      if existing == {} {
        BoundMembers(q, Lease(bucket, kind, now + l.ttl, ids));
        AddedExact(q, drawn, Lease(bucket, kind, now + l.ttl, ids));
      } else if |existing| == 1 {
        BoundKind(q, kind, ids, Only(existing));
        ExtendedExact(q, Only(existing), ids, now + l.ttl);
      }
    case Bind(token, ids) =>
      if token in q.leases && Bound(q, q.leases[token].kind, ids) <= {token} {
        ExtendedExact(q, token, ids, now + l.ttl);
      }
    case RenewExternal(alias) =>
      if alias in q.external && q.external[alias] in q.leases {
        BoundEmpty(q, q.leases[q.external[alias]].kind);
        ExtendedExact(q, q.external[alias], {}, now + l.ttl);
      }
    case Release(token) => DropExact(q, token);
    case ReleaseExternal(alias) =>
      if alias in q.external { DropExact(q, q.external[alias]); }
  }

  lemma BoundEmpty(p: Pool, kind: string)
    ensures Bound(p, kind, {}) == {}
  {
  }

  lemma BoundMembers(p: Pool, l: Lease)
    ensures forall a | a in Aliases(l) && a in p.external :: p.external[a] in Bound(p, l.kind, l.ids)
  {
    forall a | a in Aliases(l) && a in p.external ensures p.external[a] in Bound(p, l.kind, l.ids) {
      assert a == Alias(l.kind, a.id) && a.id in l.ids;
    }
  }

  /** A lease some alias of a kind points to is of that kind. */
  lemma BoundKind(p: Pool, kind: string, ids: set<string>, token: nat)
    requires Exact(p) && token in Bound(p, kind, ids)
    ensures token in p.leases && p.leases[token].kind == kind
  {
    var id :| id in ids && Alias(kind, id) in p.external && p.external[Alias(kind, id)] == token;
    assert Alias(kind, id) in Aliases(p.leases[token]);
  }

  // ---------------------------------------------------------------------------
  // Limits and time to live
  // ---------------------------------------------------------------------------

  /** A granted slot leaves both counts within the limits, however many leases were restored before. */
  lemma GrantWithinLimits(p: Pool, l: Limits, kind: string, bucket: string, ids: set<string>, drawn: nat, now: real)
    requires DrawnFresh(p, TryAcquire(kind, bucket, ids, drawn), now)
    ensures var out := Apply(p, l, TryAcquire(kind, bucket, ids, drawn), now);
            out.answer.Granted? ==> |out.pool.leases| <= l.maxGlobal && |HeldBy(out.pool, bucket)| <= l.maxPerKey
  {
    hide Prune, Bound, Added, HeldBy;
    var q := Prune(p, now);
    AddedCounts(q, drawn, Lease(bucket, kind, now + l.ttl, ids));
  }

  lemma AddedCounts(p: Pool, token: nat, lease: Lease)
    requires token !in p.leases
    ensures |Added(p, token, lease).leases| == |p.leases| + 1
    ensures |HeldBy(Added(p, token, lease), lease.bucket)| == |HeldBy(p, lease.bucket)| + 1
  {
    var q := p.leases[token := lease];
    assert q.Keys == p.leases.Keys + {token};
    assert |q| == |q.Keys| && |p.leases| == |p.leases.Keys|;
    HeldByLeases(p, Pool(q, p.external), token, lease);
    assert HeldBy(Added(p, token, lease), lease.bucket) == HeldBy(Pool(q, p.external), lease.bucket);
  }

  lemma HeldByLeases(p: Pool, q: Pool, token: nat, lease: Lease)
    requires token !in p.leases && q.leases == p.leases[token := lease]
    ensures |HeldBy(q, lease.bucket)| == |HeldBy(p, lease.bucket)| + 1
  {
    assert HeldBy(q, lease.bucket) == HeldBy(p, lease.bucket) + {token};
  }

  datatype Event = Event(op: Op, now: real)

  function Run(p: Pool, l: Limits, es: seq<Event>): Pool {
    if es == [] then p else Apply(Run(p, l, es[..|es| - 1]), l, es[|es| - 1].op, es[|es| - 1].now).pool
  }

  predicate AllFresh(p: Pool, l: Limits, es: seq<Event>) {
    es == [] ||
    (AllFresh(p, l, es[..|es| - 1]) && DrawnFresh(Run(p, l, es[..|es| - 1]), es[|es| - 1].op, es[|es| - 1].now))
  }

  const EMPTY := Pool(map[], map[])

  /** The lease the i-th operation of a run granted or renewed. */
  function Touched(l: Limits, es: seq<Event>, i: nat): Option<nat>
    requires i < |es|
  {
    Apply(Run(EMPTY, l, es[..i]), l, es[i].op, es[i].now).touched
  }

  lemma {:induction false} RunExact(l: Limits, es: seq<Event>)
    requires AllFresh(EMPTY, l, es)
    ensures Exact(Run(EMPTY, l, es))
  {
    if es != [] {
      var n := |es| - 1;
      RunExact(l, es[..n]);
      ApplyExact(Run(EMPTY, l, es[..n]), l, es[n].op, es[n].now);
    }
  }

  /** The i-th operation is the last to have granted or renewed the lease, and the lease expires one
      time to live after that operation's reading. */
  ghost predicate RenewedAt(l: Limits, es: seq<Event>, t: nat, i: nat, expiresAt: real) {
    && i < |es|
    && Touched(l, es, i) == Some(t)
    && expiresAt == es[i].now + l.ttl
    && (forall j | i < j < |es| :: Touched(l, es, j) != Some(t))
  }

  /** No lease outlives its time to live: over any run, with readings in any order, each lease left after
      the last operation was last renewed by some operation read less than one time to live before. */
  lemma {:induction false} NoLeaseOutlivesItsTtl(l: Limits, es: seq<Event>, t: nat)
    requires t in Run(EMPTY, l, es).leases && l.ttl > 0.0
    ensures exists i :: RenewedAt(l, es, t, i, Run(EMPTY, l, es).leases[t].expiresAt)
    ensures es[|es| - 1].now < Run(EMPTY, l, es).leases[t].expiresAt
  {
    hide Apply;
    var n := |es| - 1;
    var p := Run(EMPTY, l, es[..n]);
    var out := Apply(p, l, es[n].op, es[n].now);
    ApplyExpiry(p, l, es[n].op, es[n].now, t);
    if out.touched == Some(t) {
      assert RenewedAt(l, es, t, n, out.pool.leases[t].expiresAt);
    } else {
      NoLeaseOutlivesItsTtl(l, es[..n], t);
      var i :| RenewedAt(l, es[..n], t, i, p.leases[t].expiresAt);
      forall j: nat | j < n ensures Touched(l, es[..n], j) == Touched(l, es, j) {
        assert es[..n][..j] == es[..j];
      }
      assert RenewedAt(l, es, t, i, out.pool.leases[t].expiresAt);
    }
  }

  lemma ApplyExpiry(p: Pool, l: Limits, op: Op, now: real, t: nat)
    requires l.ttl > 0.0
    ensures var out := Apply(p, l, op, now);
            t in out.pool.leases ==>
              && out.pool.leases[t].expiresAt > now
              && (if out.touched == Some(t) then out.pool.leases[t].expiresAt == now + l.ttl
                  else t in p.leases && out.pool.leases[t] == p.leases[t])
  {
  }

  // ---------------------------------------------------------------------------
  // What each operation means for the leases
  // ---------------------------------------------------------------------------

  predicate Live(p: Pool, t: nat, now: real) {
    t in p.leases && p.leases[t].expiresAt > now
  }

  function LiveLeases(p: Pool, now: real): set<nat> {
    set t | t in p.leases && Live(p, t, now)
  }

  function LiveOf(p: Pool, bucket: string, now: real): set<nat> {
    set t | t in p.leases && Live(p, t, now) && p.leases[t].bucket == bucket
  }

  /** The alias is bound to a live lease. */
  predicate BoundLive(p: Pool, a: Alias, now: real) {
    a in p.external && Live(p, p.external[a], now)
  }

  /** All leases but those named are as they were, and gone if their time has come. */
  ghost predicate OthersStay(p: Pool, q: Pool, now: real, but: set<nat>) {
    forall t | t !in but :: (t in q.leases <==> Live(p, t, now)) && (t in q.leases ==> q.leases[t] == p.leases[t])
  }

  lemma PrunedIsLive(p: Pool, now: real)
    requires Exact(p)
    ensures forall t :: t in Prune(p, now).leases <==> Live(p, t, now)
    ensures forall t | t in Prune(p, now).leases :: Prune(p, now).leases[t] == p.leases[t]
    ensures forall a :: a in Prune(p, now).external <==> BoundLive(p, a, now)
    ensures forall a | a in Prune(p, now).external :: Prune(p, now).external[a] == p.external[a]
    ensures Prune(p, now).leases.Keys == LiveLeases(p, now)
    ensures forall bucket :: HeldBy(Prune(p, now), bucket) == LiveOf(p, bucket, now)
  {
    PruneExact(p, now);
  }

  /** A renewal succeeds exactly if the alias is bound to a live lease; that lease then has a whole time to live
      ahead, and nothing else changes. */
  lemma RenewRenews(p: Pool, l: Limits, a: Alias, now: real)
    requires Exact(p)
    ensures var out := Apply(p, l, Op.RenewExternal(a), now);
            && out.answer == Did(BoundLive(p, a, now))
            && (BoundLive(p, a, now) ==>
                  && p.external[a] in out.pool.leases
                  && out.pool.leases[p.external[a]] == p.leases[p.external[a]].(expiresAt := now + l.ttl)
                  && OthersStay(p, out.pool, now, {p.external[a]}))
            && (!BoundLive(p, a, now) ==> OthersStay(p, out.pool, now, {}))
  {
    PrunedIsLive(p, now);
    PruneExact(p, now);
    hide Prune, Pointed, Exact;
    if BoundLive(p, a, now) {
      assert p.leases[p.external[a]].ids + {} == p.leases[p.external[a]].ids;
    }
  }

  /** Each of the aliases is unbound, bound to a lease whose time has come, or bound to the lease. */
  predicate FreeFor(p: Pool, kind: string, ids: set<string>, token: nat, now: real) {
    forall id | id in ids && BoundLive(p, Alias(kind, id), now) :: p.external[Alias(kind, id)] == token
  }

  /** The live leases the aliases are bound to. */
  function LiveBound(p: Pool, kind: string, ids: set<string>, now: real): (bound: set<nat>)
    ensures forall t | t in bound :: Live(p, t, now)
  {
    set id | id in ids && BoundLive(p, Alias(kind, id), now) :: p.external[Alias(kind, id)]
  }

  lemma BoundIsLiveBound(p: Pool, kind: string, ids: set<string>, now: real)
    requires Exact(p)
    ensures Bound(Prune(p, now), kind, ids) == LiveBound(p, kind, ids, now)
  {
    hide Prune, Exact, Live, HeldBy, LiveOf, LiveLeases;
    PrunedIsLive(p, now);
  }

  lemma FreeForIff(p: Pool, kind: string, ids: set<string>, token: nat, now: real)
    ensures LiveBound(p, kind, ids, now) <= {token} <==> FreeFor(p, kind, ids, token, now)
  {
    hide Live;
    forall id | id in ids && BoundLive(p, Alias(kind, id), now)
      ensures p.external[Alias(kind, id)] in LiveBound(p, kind, ids, now)
    {
    }
  }

  /** Binding succeeds exactly if the lease is live and no alias is bound to another live one; the lease then has the
      aliases besides its own, and a whole time to live ahead. */
  lemma BindBinds(p: Pool, l: Limits, token: nat, ids: set<string>, now: real)
    requires Exact(p)
    ensures var out := Apply(p, l, Op.Bind(token, ids), now);
            var free := Live(p, token, now) && FreeFor(p, p.leases[token].kind, ids, token, now);
            && out.answer == Did(free)
            && (free ==>
                  && token in out.pool.leases
                  && out.pool.leases[token] == p.leases[token].(ids := p.leases[token].ids + ids, expiresAt := now + l.ttl)
                  && OthersStay(p, out.pool, now, {token}))
            && (!free ==> OthersStay(p, out.pool, now, {}))
  {
    hide Prune, Pointed, Exact, Bound, HeldBy, LiveOf, LiveLeases, LiveBound, FreeFor, BoundLive;
    PrunedIsLive(p, now);
    if Live(p, token, now) {
      BoundIsLiveBound(p, p.leases[token].kind, ids, now);
      FreeForIff(p, p.leases[token].kind, ids, token, now);
    }
  }

  /** Releasing succeeds exactly if the lease is live; it is gone either way. */
  lemma ReleaseDrops(p: Pool, l: Limits, token: nat, now: real)
    requires Exact(p)
    ensures var out := Apply(p, l, Op.Release(token), now);
            out.answer == Did(Live(p, token, now)) && token !in out.pool.leases && OthersStay(p, out.pool, now, {token})
  {
    PrunedIsLive(p, now);
    hide Prune, Exact;
  }

  lemma ReleaseExternalDrops(p: Pool, l: Limits, a: Alias, now: real)
    requires Exact(p)
    ensures var out := Apply(p, l, Op.ReleaseExternal(a), now);
            && out.answer == Did(BoundLive(p, a, now))
            && a !in out.pool.external
            && OthersStay(p, out.pool, now, if a in p.external then {p.external[a]} else {})
            && (a in p.external ==> p.external[a] !in out.pool.leases)
  {
    PrunedIsLive(p, now);
    PruneExact(p, now);
    if BoundLive(p, a, now) { DropExact(Prune(p, now), p.external[a]); }
    hide Prune;
  }

  /** A slot is granted exactly while fewer leases live than either limit allows and none of the aliases is bound to
      one; the lease is the one asked for, with a whole time to live ahead. */
  lemma AcquireGrants(p: Pool, l: Limits, kind: string, bucket: string, ids: set<string>, drawn: nat, now: real)
    requires Exact(p) && DrawnFresh(p, Op.TryAcquire(kind, bucket, ids, drawn), now)
    ensures var out := Apply(p, l, Op.TryAcquire(kind, bucket, ids, drawn), now);
            var room := && |LiveLeases(p, now)| < l.maxGlobal && |LiveOf(p, bucket, now)| < l.maxPerKey
                        && forall id | id in ids :: !BoundLive(p, Alias(kind, id), now);
            && out.answer == (if room then Granted(drawn) else Full)
            && (room ==>
                  && drawn in out.pool.leases && out.pool.leases[drawn] == Lease(bucket, kind, now + l.ttl, ids)
                  && OthersStay(p, out.pool, now, {drawn}))
            && (!room ==> OthersStay(p, out.pool, now, {}))
  {
    hide Prune, Pointed, Exact, Bound, HeldBy, LiveOf, LiveLeases, LiveBound, BoundLive, Live;
    PrunedIsLive(p, now);
    var q := Prune(p, now);
    assert |q.leases| == |q.leases.Keys|;
    BoundIsLiveBound(p, kind, ids, now);
    LiveBoundAny(p, kind, ids, now);
  }

  lemma LiveBoundAny(p: Pool, kind: string, ids: set<string>, now: real)
    ensures LiveBound(p, kind, ids, now) == {} <==> forall id | id in ids :: !BoundLive(p, Alias(kind, id), now)
  {
    hide Live;
    forall id | id in ids && BoundLive(p, Alias(kind, id), now)
      ensures p.external[Alias(kind, id)] in LiveBound(p, kind, ids, now)
    {
    }
  }

  /** Restoring conflicts exactly if two of the aliases are bound to different live leases or one to a live lease of
      another owner; then nothing but the expired leases goes. */
  predicate Clash(p: Pool, kind: string, bucket: string, ids: set<string>, now: real) {
    var held := LiveBound(p, kind, ids, now);
    |held| > 1 || exists t :: t in held && p.leases[t].bucket != bucket
  }

  /** Without a conflict the one lease the aliases are bound to, or a new one, has them and a whole time to live
      ahead; the limits play no part. */
  lemma RestoreRestores(p: Pool, l: Limits, kind: string, bucket: string, ids: set<string>, drawn: nat, now: real)
    requires Exact(p) && DrawnFresh(p, Op.Restore(kind, bucket, ids, drawn), now)
    ensures var out := Apply(p, l, Op.Restore(kind, bucket, ids, drawn), now);
            var held := LiveBound(p, kind, ids, now);
            && (if Clash(p, kind, bucket, ids, now) then out.answer == Conflict
                else out.answer.Granted? && (if held == {} then out.answer.token == drawn else held == {out.answer.token}))
            && (out.answer.Conflict? ==> OthersStay(p, out.pool, now, {}))
            && (out.answer.Granted? ==>
                  && var t := out.answer.token;
                  && t in out.pool.leases
                  && OthersStay(p, out.pool, now, {t})
                  && if held == {} then out.pool.leases[t] == Lease(bucket, kind, now + l.ttl, ids)
                     else t in p.leases && out.pool.leases[t] == p.leases[t].(ids := p.leases[t].ids + ids, expiresAt := now + l.ttl))
  {
    hide Prune, Pointed, Exact, Bound, HeldBy, LiveOf, LiveLeases, LiveBound, BoundLive;
    PrunedIsLive(p, now);
    BoundIsLiveBound(p, kind, ids, now);
    var held := LiveBound(p, kind, ids, now);
    if held != {} && |held| == 1 {
      assert Only(held) in held && Live(p, Only(held), now);
    }
  }

  // ---------------------------------------------------------------------------
  // The pool as the source keeps it
  // ---------------------------------------------------------------------------

  function Elems(ids: seq<string>): set<string> {
    set id | id in ids
  }

  lemma PointedOne(external: map<Alias, nat>, kind: string, ids: set<string>, id: string, token: nat)
    ensures Pointed(external, kind, ids + {id}, token) == Pointed(external, kind, ids, token)[Alias(kind, id) := token]
  {
    assert Named(kind, ids + {id}) == Named(kind, ids) + {Alias(kind, id)};
  }

  lemma PointedNone(external: map<Alias, nat>, kind: string, token: nat)
    ensures Pointed(external, kind, {}, token) == external
  {
  }

  lemma BoundIff(p: Pool, kind: string, ids: seq<string>)
    ensures Bound(p, kind, Elems(ids)) != {} <==> exists id | id in ids :: Alias(kind, id) in p.external
  {
    forall id | id in ids && Alias(kind, id) in p.external
      ensures p.external[Alias(kind, id)] in Bound(p, kind, Elems(ids))
    {
    }
  }

  class BackgroundJobLeasePool {
    const limits: Limits
    var leases: map<nat, Lease>
    var external: map<Alias, nat>

    ghost function State(): Pool
      reads this
    {
      Pool(leases, external)
    }

    ghost predicate Valid()
      reads this
    {
      Exact(State())
    }

    /** Other limits raise an error. */
    constructor (limits: Limits)
      requires Accepted(limits)
      ensures Valid() && State() == EMPTY && this.limits == limits
    {
      this.limits := limits;
      leases, external := map[], map[];
    }

    /** Pops the lease's aliases one by one, in any order, wherever they point. */
    method DropLocked(token: nat) returns (dropped: bool)
      requires Valid()
      modifies this
      ensures Valid() && State() == Drop(old(State()), token) && dropped == (token in old(leases))
    {
      DropExact(State(), token);
      if token !in leases { return false; }
      var lease := leases[token];
      leases := leases - {token};
      var ids := lease.ids;
      while ids != {}
        invariant ids <= lease.ids && leases == old(leases) - {token}
        invariant external == old(external) - (set id | id in lease.ids - ids :: Alias(lease.kind, id))
        decreases |ids|
      {
        var id :| id in ids;
        external := external - {Alias(lease.kind, id)};
        ids := ids - {id};
      }
      assert (set id | id in lease.ids - ids :: Alias(lease.kind, id)) == Aliases(lease);
      return true;
    }

    /** Drops the expired leases of a snapshot one by one, in any order. */
    method PruneLocked(now: real)
      requires Valid()
      modifies this
      ensures Valid() && State() == Prune(old(State()), now)
    {
      var tokens := leases.Keys;
      while tokens != {}
        invariant Valid() && tokens <= leases.Keys
        invariant forall t :: t in leases <==> t in old(leases) && (t in tokens || old(leases)[t].expiresAt > now)
        invariant forall t | t in leases :: leases[t] == old(leases)[t]
        invariant forall a :: a in external <==> a in old(external) && old(external)[a] in leases
        invariant forall a | a in external :: external[a] == old(external)[a]
        decreases |tokens|
      {
        var t :| t in tokens;
        tokens := tokens - {t};
        if leases[t].expiresAt <= now {
          DropExact(State(), t);
          var _ := DropLocked(t);
        }
      }
      assert leases == Prune(old(State()), now).leases;
      assert external == Prune(old(State()), now).external;
    }

    /** Points the aliases at the token, one after the other. */
    method Point(kind: string, ids: seq<string>, token: nat)
      modifies this`external
      ensures external == Pointed(old(external), kind, Elems(ids), token)
    {
      for i := 0 to |ids|
        invariant external == Pointed(old(external), kind, Elems(ids[..i]), token)
      {
        assert ids[..i + 1] == ids[..i] + [ids[i]];
        PointedOne(old(external), kind, Elems(ids[..i]), ids[i], token);
        assert Elems(ids[..i + 1]) == Elems(ids[..i]) + {ids[i]};
        external := external[Alias(kind, ids[i]) := token];
      }
      assert ids[..|ids|] == ids;
    }

    method TryAcquire(kind: string, bucket: string, ids: seq<string>, drawn: nat, now: real) returns (token: Option<nat>)
      requires Valid() && DrawnFresh(State(), Op.TryAcquire(kind, bucket, Elems(ids), drawn), now)
      modifies this
      ensures var out := Apply(old(State()), limits, Op.TryAcquire(kind, bucket, Elems(ids), drawn), now);
              State() == out.pool && out.answer == (if token.Some? then Granted(token.value) else Full)
      ensures Valid()
    {
      hide Exact, Pointed, Bound, Aliases;
      ApplyExact(State(), limits, Op.TryAcquire(kind, bucket, Elems(ids), drawn), now);
      PruneLocked(now);
      BoundIff(State(), kind, ids);
      if |leases| >= limits.maxGlobal { return None; }
      var held := set t | t in leases && leases[t].bucket == bucket;
      assert held == HeldBy(State(), bucket);
      if |held| >= limits.maxPerKey { return None; }
      if exists id | id in ids :: Alias(kind, id) in external { return None; }
      leases := leases[drawn := Lease(bucket, kind, now + limits.ttl, Elems(ids))];
      Point(kind, ids, drawn);
      return Some(drawn);
    }

    /** None is the conflict error. */
    method Restore(kind: string, bucket: string, ids: seq<string>, drawn: nat, now: real) returns (token: Option<nat>)
      requires Valid() && DrawnFresh(State(), Op.Restore(kind, bucket, Elems(ids), drawn), now)
      modifies this
      ensures var out := Apply(old(State()), limits, Op.Restore(kind, bucket, Elems(ids), drawn), now);
              State() == out.pool && out.answer == (if token.Some? then Granted(token.value) else Conflict)
      ensures Valid()
    {
      hide Exact, Pointed, Aliases, Prune;
      ApplyExact(State(), limits, Op.Restore(kind, bucket, Elems(ids), drawn), now);
      PruneLocked(now);
      var existing := CollectBound(kind, ids);
      if existing != {} {
        if |existing| != 1 { return None; }
        var held := Only(existing);
        if held !in leases || leases[held].bucket != bucket { return None; }
        BoundKind(State(), kind, Elems(ids), held);
        leases := leases[held := leases[held].(ids := leases[held].ids + Elems(ids))];
        Point(kind, ids, held);
        leases := leases[held := leases[held].(expiresAt := now + limits.ttl)];
        return Some(held);
      }
      leases := leases[drawn := Lease(bucket, kind, now + limits.ttl, Elems(ids))];
      Point(kind, ids, drawn);
      return Some(drawn);
    }

    /** The tokens the aliases are bound to. */
    method CollectBound(kind: string, ids: seq<string>) returns (tokens: set<nat>)
      ensures tokens == Bound(State(), kind, Elems(ids))
    {
      tokens := {};
      for i := 0 to |ids|
        invariant tokens == Bound(State(), kind, Elems(ids[..i]))
      {
        assert Elems(ids[..i + 1]) == Elems(ids[..i]) + {ids[i]};
        if Alias(kind, ids[i]) in external { tokens := tokens + {external[Alias(kind, ids[i])]}; }
      }
      assert ids[..|ids|] == ids;
    }

    method Bind(token: nat, ids: seq<string>, now: real) returns (done: bool)
      requires Valid()
      modifies this
      ensures var out := Apply(old(State()), limits, Op.Bind(token, Elems(ids)), now);
              State() == out.pool && out.answer == Did(done)
      ensures Valid()
    {
      hide Exact, Pointed, Aliases, Prune;
      ApplyExact(State(), limits, Op.Bind(token, Elems(ids)), now);
      PruneLocked(now);
      if token !in leases { return false; }
      var bound := CollectBound(leases[token].kind, ids);
      if !(bound <= {token}) { return false; }
      leases := leases[token := leases[token].(ids := leases[token].ids + Elems(ids))];
      Point(leases[token].kind, ids, token);
      leases := leases[token := leases[token].(expiresAt := now + limits.ttl)];
      return true;
    }

    method RenewExternal(alias: Alias, now: real) returns (done: bool)
      requires Valid()
      modifies this
      ensures var out := Apply(old(State()), limits, Op.RenewExternal(alias), now);
              State() == out.pool && out.answer == Did(done)
      ensures Valid()
    {
      hide Exact, Prune;
      ApplyExact(State(), limits, Op.RenewExternal(alias), now);
      PruneLocked(now);
      if alias !in external || external[alias] !in leases { return false; }
      PointedNone(external, leases[external[alias]].kind, external[alias]);
      assert leases[external[alias]].ids + {} == leases[external[alias]].ids;
      leases := leases[external[alias] := leases[external[alias]].(expiresAt := now + limits.ttl)];
      return true;
    }

    method Release(token: nat, now: real) returns (done: bool)
      requires Valid()
      modifies this
      ensures var out := Apply(old(State()), limits, Op.Release(token), now);
              State() == out.pool && out.answer == Did(done)
      ensures Valid()
    {
      hide Exact, Prune;
      PruneLocked(now);
      done := DropLocked(token);
    }

    method ReleaseExternal(alias: Alias, now: real) returns (done: bool)
      requires Valid()
      modifies this
      ensures var out := Apply(old(State()), limits, Op.ReleaseExternal(alias), now);
              State() == out.pool && out.answer == Did(done)
      ensures Valid()
    {
      hide Exact, Prune;
      PruneLocked(now);
      if alias !in external { return false; }
      done := DropLocked(external[alias]);
    }
  }
}
