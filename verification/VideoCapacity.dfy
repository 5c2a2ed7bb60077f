/** Users of the lease pool for durable video tasks: rebuilding the pool from two snapshots of the
    registry of tasks, and settling the lease of a video being created. */
module VideoCapacity {
  import opened LeasePool
  import opened Wrappers

  /** A nonterminal task as the durable registry lists it. */
  datatype VideoTask = VideoTask(principal: string, task: string)

  /** One visit of a reconciliation loop: a video task and the clock reading of the pool operation. */
  datatype Visit = Visit(video: VideoTask, now: real)

  /** How new tokens are drawn: never one in use. */
  type Draw = map<nat, Lease> -> nat

  ghost predicate Draws(draw: Draw) {
    forall leases :: draw(leases) !in leases
  }

  function TaskAlias(task: string): Alias {
    Alias("video", task)
  }

  function TaskAliases(vs: seq<Visit>): set<Alias> {
    set v | v in vs :: TaskAlias(v.video.task)
  }

  function RestoreOp(p: Pool, v: Visit, draw: Draw): Op {
    Op.Restore("video", v.video.principal, {v.video.task}, draw(Prune(p, v.now).leases))
  }

  /** The pool after restoring the tasks in order, up to the first conflict, and whether there was none. */
  function RestoreAll(p: Pool, l: Limits, vs: seq<Visit>, draw: Draw): (Pool, bool) {
    if vs == [] then (p, true)
    else
      var (q, ok) := RestoreAll(p, l, vs[..|vs| - 1], draw);
      if !ok then (q, false)
      else
        var out := Apply(q, l, RestoreOp(q, vs[|vs| - 1], draw), vs[|vs| - 1].now);
        (out.pool, out.answer.Granted?)
  }

  /** The pool after releasing the tasks in order, skipping those still live. */
  function ReleaseAll(p: Pool, l: Limits, vs: seq<Visit>, live: set<Alias>): Pool {
    if vs == [] then p
    else
      var q := ReleaseAll(p, l, vs[..|vs| - 1], live);
      var v := vs[|vs| - 1];
      if TaskAlias(v.video.task) in live then q
      else Apply(q, l, Op.ReleaseExternal(TaskAlias(v.video.task)), v.now).pool
  }

  /** Every reading lies in [lo, hi]. */
  predicate Within(vs: seq<Visit>, lo: real, hi: real) {
    forall v | v in vs :: lo <= v.now <= hi
  }

  /** The alias is bound to a lease that outlives a reading. */
  predicate Holds(p: Pool, a: Alias, hi: real) {
    a in p.external && p.external[a] in p.leases && p.leases[p.external[a]].expiresAt > hi
  }

  lemma TaskAliasesLast(vs: seq<Visit>)
    requires vs != []
    ensures TaskAliases(vs) == TaskAliases(vs[..|vs| - 1]) + {TaskAlias(vs[|vs| - 1].video.task)}
  {
    assert vs == vs[..|vs| - 1] + [vs[|vs| - 1]];
  }

  // ---------------------------------------------------------------------------
  // Restoring
  // ---------------------------------------------------------------------------

  /** Restoring one alias binds it to a lease of its principal and leaves the binding of every other
      alias; no lease changes owner. */
  lemma RestoreOne(p: Pool, l: Limits, v: Visit, draw: Draw)
    requires Exact(p) && Draws(draw)
    ensures Exact(Apply(p, l, RestoreOp(p, v, draw), v.now).pool)
    ensures var out := Apply(p, l, RestoreOp(p, v, draw), v.now);
            out.answer.Granted? ==>
              && out.answer.token in out.pool.leases
              && out.pool.external == Prune(p, v.now).external[TaskAlias(v.video.task) := out.answer.token]
              && out.pool.leases[out.answer.token].expiresAt == v.now + l.ttl
              && out.pool.leases[out.answer.token].bucket == v.video.principal
              && (out.answer.token in Prune(p, v.now).leases <==> TaskAlias(v.video.task) in Prune(p, v.now).external)
              && (TaskAlias(v.video.task) in Prune(p, v.now).external ==>
                    out.answer.token == p.external[TaskAlias(v.video.task)])
    ensures var out := Apply(p, l, RestoreOp(p, v, draw), v.now);
            !out.answer.Granted? <==>
              && TaskAlias(v.video.task) in Prune(p, v.now).external
              && p.leases[p.external[TaskAlias(v.video.task)]].bucket != v.video.principal
    ensures var out := Apply(p, l, RestoreOp(p, v, draw), v.now);
            forall t | t in Prune(p, v.now).leases ::
              && t in out.pool.leases
              && out.pool.leases[t].bucket == p.leases[t].bucket
              && out.pool.leases[t].expiresAt in {p.leases[t].expiresAt, v.now + l.ttl}
  {
    var op := RestoreOp(p, v, draw);
    ApplyExact(p, l, op, v.now);
    hide Exact;
    var q := Prune(p, v.now);
    var a := TaskAlias(v.video.task);
    BoundOne(q, v.video.task);
    PointedOnly(q.external, v.video.task, draw(q.leases));
    if a in q.external {
      PointedOnly(q.external, v.video.task, q.external[a]);
    }
  }

  lemma BoundOne(p: Pool, task: string)
    ensures Bound(p, "video", {task}) == if TaskAlias(task) in p.external then {p.external[TaskAlias(task)]} else {}
  {
  }

  lemma PointedOnly(external: map<Alias, nat>, task: string, token: nat)
    ensures Pointed(external, "video", {task}, token) == external[TaskAlias(task) := token]
  {
    assert Named("video", {task}) == {TaskAlias(task)};
  }

  /** What restoring one task does to an alias that holds its lease past `hi`. */
  lemma RestoreOneHolds(p: Pool, l: Limits, v: Visit, draw: Draw, hi: real, c: Alias)
    requires Exact(p) && Draws(draw) && v.now <= hi < v.now + l.ttl
    requires Apply(p, l, RestoreOp(p, v, draw), v.now).answer.Granted?
    ensures var q := Apply(p, l, RestoreOp(p, v, draw), v.now).pool;
            && (c == TaskAlias(v.video.task) ==> Holds(q, c, hi) && q.leases[q.external[c]].bucket == v.video.principal)
            && (Holds(p, c, hi) ==>
                  && Holds(q, c, hi)
                  && q.external[c] == p.external[c]
                  && q.leases[q.external[c]].bucket == p.leases[p.external[c]].bucket)
  {
    RestoreOne(p, l, v, draw);
    PruneExact(p, v.now);
    hide Apply, Exact;
  }

  /** Restoring never makes two aliases share a lease. */
  lemma RestoreOneSplits(p: Pool, l: Limits, v: Visit, draw: Draw, c: Alias, d: Alias)
    requires Exact(p) && Draws(draw)
    ensures var q := Apply(p, l, RestoreOp(p, v, draw), v.now).pool;
            c != d && c in q.external && d in q.external && q.external[c] == q.external[d] ==>
              c in p.external && d in p.external && p.external[c] == p.external[d]
  {
    RestoreOne(p, l, v, draw);
    PruneExact(p, v.now);
    var out := Apply(p, l, RestoreOp(p, v, draw), v.now);
    if out.answer.Granted? {
      hide Apply;
    }
  }

  /** From `p` to `q` the tasks came to hold leases past `hi`, everything that held one that long is bound
      as before to a lease of the same owner, and no two aliases came to share a lease. */
  ghost predicate Rebuilt(p: Pool, q: Pool, tasks: set<Alias>, hi: real) {
    && (forall c | c in tasks :: Holds(q, c, hi))
    && (forall c | Holds(p, c, hi) ::
          && Holds(q, c, hi)
          && q.external[c] == p.external[c]
          && q.leases[q.external[c]].bucket == p.leases[p.external[c]].bucket)
    && (forall c, d | c != d && c in q.external && d in q.external && q.external[c] == q.external[d] ::
          c in p.external && d in p.external && p.external[c] == p.external[d])
  }

  lemma RebuiltStep(p: Pool, q: Pool, l: Limits, tasks: set<Alias>, v: Visit, draw: Draw, hi: real)
    requires Exact(q) && Draws(draw) && v.now <= hi < v.now + l.ttl && Rebuilt(p, q, tasks, hi)
    requires Apply(q, l, RestoreOp(q, v, draw), v.now).answer.Granted?
    ensures Rebuilt(p, Apply(q, l, RestoreOp(q, v, draw), v.now).pool, tasks + {TaskAlias(v.video.task)}, hi)
  {
    hide Apply, Exact;
    var r := Apply(q, l, RestoreOp(q, v, draw), v.now).pool;
    forall c
      ensures c in tasks + {TaskAlias(v.video.task)} ==> Holds(r, c, hi)
      ensures Holds(p, c, hi) ==>
                && Holds(r, c, hi)
                && r.external[c] == p.external[c]
                && r.leases[r.external[c]].bucket == p.leases[p.external[c]].bucket
    {
      RestoreOneHolds(q, l, v, draw, hi, c);
    }
    forall c, d | c != d && c in r.external && d in r.external && r.external[c] == r.external[d]
      ensures c in p.external && d in p.external && p.external[c] == p.external[d]
    {
      RestoreOneSplits(q, l, v, draw, c, d);
    }
  }

  /** After an undisturbed pass without conflict every visited task holds a lease that outlives the pass, and
      everything that was going to is bound as before. */
  lemma {:induction false} RestoreAllRebuilds(p: Pool, l: Limits, vs: seq<Visit>, draw: Draw, lo: real, hi: real)
    requires Exact(p) && Draws(draw) && Within(vs, lo, hi) && hi < lo + l.ttl
    ensures Exact(RestoreAll(p, l, vs, draw).0)
    ensures RestoreAll(p, l, vs, draw).1 ==> Rebuilt(p, RestoreAll(p, l, vs, draw).0, TaskAliases(vs), hi)
  {
    if vs != [] {
      var n := |vs| - 1;
      var v := vs[n];
      TaskAliasesLast(vs);
      assert v in vs && forall u | u in vs[..n] :: u in vs;
      hide Apply, Exact, Rebuilt, TaskAliases, Prune, RestoreOp;
      RestoreAllRebuilds(p, l, vs[..n], draw, lo, hi);
      var (q, ok) := RestoreAll(p, l, vs[..n], draw);
      RestoreOne(q, l, v, draw);
      if ok && Apply(q, l, RestoreOp(q, v, draw), v.now).answer.Granted? {
        RebuiltStep(p, q, l, TaskAliases(vs[..n]), v, draw, hi);
      }
    }
  }

  // ---------------------------------------------------------------------------
  // Releasing
  // ---------------------------------------------------------------------------

  /** The leases the aliases to be released are bound to. */
  function Hit(p: Pool, vs: seq<Visit>, live: set<Alias>): set<nat> {
    set b | b in TaskAliases(vs) - live && b in p.external :: p.external[b]
  }

  /** Releasing removes leases and aliases and changes none of the rest; none of the released aliases is left. */
  lemma {:induction false} ReleaseAllShrinks(p: Pool, l: Limits, vs: seq<Visit>, live: set<Alias>)
    requires Exact(p)
    ensures var q := ReleaseAll(p, l, vs, live);
            && Exact(q)
            && (forall t | t in q.leases :: t in p.leases && q.leases[t] == p.leases[t])
            && (forall a | a in q.external :: a in p.external && q.external[a] == p.external[a])
            && (forall b | b in TaskAliases(vs) - live :: b !in q.external)
  {
    if vs != [] {
      var n := |vs| - 1;
      ReleaseAllShrinks(p, l, vs[..n], live);
      var q := ReleaseAll(p, l, vs[..n], live);
      TaskAliasesLast(vs);
      ReleaseOne(q, l, TaskAlias(vs[n].video.task), vs[n].now);
    }
  }

  lemma ReleaseOne(p: Pool, l: Limits, a: Alias, now: real)
    requires Exact(p)
    ensures var q := Apply(p, l, Op.ReleaseExternal(a), now).pool;
            && Exact(q)
            && a !in q.external
            && (forall t :: t in q.leases <==> t in p.leases && p.leases[t].expiresAt > now && (a in p.external ==> t != p.external[a]))
            && (forall t | t in q.leases :: q.leases[t] == p.leases[t])
            && (forall b :: b in q.external <==> b in p.external && p.external[b] in q.leases)
            && (forall b | b in q.external :: q.external[b] == p.external[b])
  {
    ApplyExact(p, l, Op.ReleaseExternal(a), now);
    PruneExact(p, now);
    DropExact(Prune(p, now), if a in p.external then p.external[a] else 0);
  }

  /** Of the leases that outlive the pass, exactly those some released alias was bound to are gone. */
  lemma {:induction false} ReleaseAllHits(p: Pool, l: Limits, vs: seq<Visit>, live: set<Alias>, lo: real, hi: real, t: nat)
    requires Exact(p) && Within(vs, lo, hi) && t in p.leases && p.leases[t].expiresAt > hi
    ensures t in ReleaseAll(p, l, vs, live).leases <==> t !in Hit(p, vs, live)
  {
    if vs != [] {
      var n := |vs| - 1;
      var a := TaskAlias(vs[n].video.task);
      ReleaseAllHits(p, l, vs[..n], live, lo, hi, t);
      ReleaseAllShrinks(p, l, vs[..n], live);
      var q := ReleaseAll(p, l, vs[..n], live);
      TaskAliasesLast(vs);
      if a !in live {
        ReleaseOne(q, l, a, vs[n].now);
        HitMore(p, vs, live);
        if t in q.leases && a in p.external && p.external[a] == t {
          AliasOfLease(p, q, a, t);
        }
      } else {
        assert Hit(p, vs, live) == Hit(p, vs[..n], live);
      }
    }
  }

  lemma AliasOfLease(p: Pool, q: Pool, a: Alias, t: nat)
    requires Exact(p) && Exact(q) && a in p.external && p.external[a] == t
    requires t in q.leases && q.leases[t] == p.leases[t]
    ensures a in q.external && q.external[a] == t
  {
    assert a in Aliases(q.leases[t]);
  }

  lemma HitMore(p: Pool, vs: seq<Visit>, live: set<Alias>)
    requires vs != [] && TaskAlias(vs[|vs| - 1].video.task) !in live
    ensures var a := TaskAlias(vs[|vs| - 1].video.task);
            Hit(p, vs, live) == Hit(p, vs[..|vs| - 1], live) + if a in p.external then {p.external[a]} else {}
  {
    TaskAliasesLast(vs);
  }

  // ---------------------------------------------------------------------------
  // Reconciliation
  // ---------------------------------------------------------------------------

  /** The registry gives a task one principal. */
  predicate OnePrincipal(vs: seq<Visit>) {
    forall u, v | u in vs && v in vs && u.video.task == v.video.task :: u.video.principal == v.video.principal
  }

  /** The task's alias is bound to a lease of somebody else. */
  predicate Foreign(p: Pool, v: VideoTask) {
    && TaskAlias(v.task) in p.external
    && p.external[TaskAlias(v.task)] in p.leases
    && p.leases[p.external[TaskAlias(v.task)]].bucket != v.principal
  }

  /** Every bound alias is bound to a lease of a visit's principal, or of the owner it had before. */
  ghost predicate Owned(p: Pool, q: Pool, vs: seq<Visit>) {
    forall c | c in q.external && q.external[c] in q.leases ::
      || (exists v | v in vs :: TaskAlias(v.video.task) == c && v.video.principal == q.leases[q.external[c]].bucket)
      || (c in p.external && p.external[c] in p.leases && p.leases[p.external[c]].bucket == q.leases[q.external[c]].bucket)
  }

  lemma OwnedStep(p: Pool, q: Pool, l: Limits, vs: seq<Visit>, v: Visit, draw: Draw)
    requires Exact(q) && Draws(draw) && Owned(p, q, vs)
    requires Apply(q, l, RestoreOp(q, v, draw), v.now).answer.Granted?
    ensures Owned(p, Apply(q, l, RestoreOp(q, v, draw), v.now).pool, vs + [v])
  {
    RestoreOne(q, l, v, draw);
    PruneExact(q, v.now);
    hide Apply;
    var r := Apply(q, l, RestoreOp(q, v, draw), v.now).pool;
    forall c | c in r.external && r.external[c] in r.leases
      ensures || (exists u | u in vs + [v] :: TaskAlias(u.video.task) == c && u.video.principal == r.leases[r.external[c]].bucket)
              || (c in p.external && p.external[c] in p.leases && p.leases[p.external[c]].bucket == r.leases[r.external[c]].bucket)
    {
      if c == TaskAlias(v.video.task) {
        assert v in vs + [v];
      } else {
        assert c in q.external && q.external[c] == r.external[c] && r.leases[r.external[c]].bucket == q.leases[q.external[c]].bucket;
        if u :| u in vs && TaskAlias(u.video.task) == c && u.video.principal == q.leases[q.external[c]].bucket {
          assert u in vs + [v];
        }
      }
    }
  }

  /** A pass in which no task is bound to somebody else's lease meets no conflict. */
  lemma {:induction false} NoForeignNoConflict(p: Pool, l: Limits, vs: seq<Visit>, draw: Draw)
    requires Exact(p) && Draws(draw) && OnePrincipal(vs)
    requires forall v | v in vs :: !Foreign(p, v.video)
    ensures RestoreAll(p, l, vs, draw).1
    ensures Exact(RestoreAll(p, l, vs, draw).0) && Owned(p, RestoreAll(p, l, vs, draw).0, vs)
  {
    if vs != [] {
      var n := |vs| - 1;
      assert vs == vs[..n] + [vs[n]];
      assert vs[n] in vs && forall u | u in vs[..n] :: u in vs;
      NoForeignNoConflict(p, l, vs[..n], draw);
      var q := RestoreAll(p, l, vs[..n], draw).0;
      RestoreOne(q, l, vs[n], draw);
      PruneExact(q, vs[n].now);
      OwnedStep(p, q, l, vs[..n], vs[n], draw);
    }
  }

  /** A pass over a task bound, past the end of the pass, to somebody else's lease stops with a conflict. */
  lemma {:induction false} ForeignConflicts(p: Pool, l: Limits, vs: seq<Visit>, draw: Draw, lo: real, hi: real, v: Visit)
    requires Exact(p) && Draws(draw) && OnePrincipal(vs) && Within(vs, lo, hi) && hi < lo + l.ttl
    requires v in vs && Foreign(p, v.video) && Holds(p, TaskAlias(v.video.task), hi)
    ensures !RestoreAll(p, l, vs, draw).1
  {
    var n := |vs| - 1;
    assert vs == vs[..n] + [vs[n]];
    assert vs[n] in vs && forall u | u in vs[..n] :: u in vs;
    if v in vs[..n] {
      ForeignConflicts(p, l, vs[..n], draw, lo, hi, v);
    } else {
      var (q, ok) := RestoreAll(p, l, vs[..n], draw);
      RestoreAllRebuilds(p, l, vs[..n], draw, lo, hi);
      RestoreOne(q, l, v, draw);
      PruneExact(q, v.now);
    }
  }

  /** The second half of a reconciliation, from the pool as the second snapshot finds it. */
  function Reconcile(interim: Pool, l: Limits, second: seq<Visit>, first: seq<Visit>, draw: Draw): (Pool, bool) {
    var (mid, ok) := RestoreAll(interim, l, second, draw);
    if ok then (ReleaseAll(mid, l, first, TaskAliases(second)), true) else (mid, false)
  }

  /** Some task only the first snapshot lists holds, past `hi`, the very lease the alias is bound to. */
  ghost predicate SharesWithStale(p: Pool, a: Alias, stale: set<Alias>, hi: real) {
    exists b | b in stale :: Holds(p, b, hi) && a in p.external && p.external[a] == p.external[b]
  }

  /** No lease runs out while the readings in [lo, hi] are taken. */
  ghost predicate NoneExpires(p: Pool, lo: real, hi: real) {
    forall t | t in p.leases :: p.leases[t].expiresAt <= lo || p.leases[t].expiresAt > hi
  }

  /** Two-snapshot reconciliation, when it meets no conflict. No alias of a task only in the first snapshot is
      left. An alias of the second snapshot keeps exactly one live lease if and only if the pool did not bind it
      to one lease together with such a task, that is, unless one lease stood for two tasks. */
  lemma Reconciled(interim: Pool, l: Limits, second: seq<Visit>, first: seq<Visit>, draw: Draw, lo: real, hi: real)
    requires Exact(interim) && Draws(draw)
    requires Within(second, lo, hi) && Within(first, lo, hi) && hi < lo + l.ttl && NoneExpires(interim, lo, hi)
    requires Reconcile(interim, l, second, first, draw).1
    ensures var final := Reconcile(interim, l, second, first, draw).0;
            var stale := TaskAliases(first) - TaskAliases(second);
            && Exact(final)
            && (forall b | b in stale :: b !in final.external)
            && (forall a | a in TaskAliases(second) :: Holds(final, a, hi) <==> !SharesWithStale(interim, a, stale, hi))
            && (forall a | a in TaskAliases(second) :: a in final.external <==> Holds(final, a, hi))
            && (forall c | c !in stale && Holds(interim, c, hi) && !SharesWithStale(interim, c, stale, hi) ::
                  Holds(final, c, hi) && final.external[c] == interim.external[c])
  {
    var mid := RestoreAll(interim, l, second, draw).0;
    var live := TaskAliases(second);
    var stale := TaskAliases(first) - live;
    var final := ReleaseAll(mid, l, first, live);
    RestoreAllRebuilds(interim, l, second, draw, lo, hi);
    ReleaseAllShrinks(mid, l, first, live);
    forall a | Holds(mid, a, hi)
      ensures Holds(final, a, hi) <==> mid.external[a] !in Hit(mid, first, live)
      ensures a in final.external <==> Holds(final, a, hi)
      ensures Holds(final, a, hi) ==> final.external[a] == mid.external[a]
    {
      ReleaseAllHits(mid, l, first, live, lo, hi, mid.external[a]);
      if mid.external[a] in final.leases { AliasOfLease(mid, final, a, mid.external[a]); }
    }
    forall a | Holds(mid, a, hi) && a !in stale
      ensures mid.external[a] in Hit(mid, first, live) <==> SharesWithStale(interim, a, stale, hi)
    {
      HitIsShared(interim, l, second, first, draw, lo, hi, a);
    }
  }

  lemma HitIsShared(interim: Pool, l: Limits, second: seq<Visit>, first: seq<Visit>, draw: Draw, lo: real, hi: real, a: Alias)
    requires Exact(interim) && Draws(draw)
    requires Within(second, lo, hi) && Within(first, lo, hi) && hi < lo + l.ttl && NoneExpires(interim, lo, hi)
    requires RestoreAll(interim, l, second, draw).1
    requires Holds(RestoreAll(interim, l, second, draw).0, a, hi) && a !in TaskAliases(first) - TaskAliases(second)
    ensures var mid := RestoreAll(interim, l, second, draw).0;
            mid.external[a] in Hit(mid, first, TaskAliases(second)) <==>
              SharesWithStale(interim, a, TaskAliases(first) - TaskAliases(second), hi)
  {
    var mid := RestoreAll(interim, l, second, draw).0;
    var stale := TaskAliases(first) - TaskAliases(second);
    RestoreAllRebuilds(interim, l, second, draw, lo, hi);
    RestoreFromPruned(interim, l, second, draw, lo, hi);
    PruneExact(interim, lo);
    hide RestoreAll, Exact, TaskAliases;
    if mid.external[a] in Hit(mid, first, TaskAliases(second)) {
      var b :| b in stale && b in mid.external && mid.external[b] == mid.external[a];
      assert b in Prune(interim, lo).external && a in Prune(interim, lo).external;
      assert Holds(interim, b, hi);
    }
    if SharesWithStale(interim, a, stale, hi) {
      var b :| b in stale && Holds(interim, b, hi) && a in interim.external && interim.external[a] == interim.external[b];
      assert Holds(interim, a, hi);
    }
  }

  /** What has expired before a pass plays no part in it. */
  lemma RestoreFromPruned(p: Pool, l: Limits, vs: seq<Visit>, draw: Draw, lo: real, hi: real)
    requires Exact(p) && Draws(draw) && Within(vs, lo, hi) && hi < lo + l.ttl
    ensures var q := RestoreAll(p, l, vs, draw).0;
            RestoreAll(p, l, vs, draw).1 && vs != [] ==> Rebuilt(Prune(p, lo), q, TaskAliases(vs), hi)
  {
    hide Apply, Exact, Rebuilt, Prune;
    PruneExact(p, lo);
    RestoreAllRebuilds(Prune(p, lo), l, vs, draw, lo, hi);
    if vs != [] { RestoreAllPruned(p, l, vs, draw, lo); }
  }

  lemma {:induction false} RestoreAllPruned(p: Pool, l: Limits, vs: seq<Visit>, draw: Draw, lo: real)
    requires vs != [] && forall v | v in vs :: lo <= v.now
    ensures RestoreAll(Prune(p, lo), l, vs, draw) == RestoreAll(p, l, vs, draw)
  {
    var n := |vs| - 1;
    if n == 0 {
      assert vs[..n] == [];
      PruneTwice(p, lo, vs[0].now);
      hide Prune;
    } else {
      hide Apply;
      RestoreAllPruned(p, l, vs[..n], draw, lo);
    }
  }

  lemma PruneTwice(p: Pool, lo: real, now: real)
    requires lo <= now
    ensures Prune(Prune(p, lo), now) == Prune(p, now)
  {
  }

  /** One snapshot with the readings of the loop over it. */
  function Visits(tasks: seq<VideoTask>, clock: nat -> real, from: nat): seq<Visit> {
    seq(|tasks|, i requires 0 <= i < |tasks| => Visit(tasks[i], clock(from + i)))
  }

  /** Rebuilds the pool. `interim` is what the pool has become by the time the second snapshot has been read;
      None is the conflict error. */
  method RestoreDurableVideoCapacity(pool: BackgroundJobLeasePool, first: seq<VideoTask>, interim: Pool,
                                     second: seq<VideoTask>, clock: nat -> real, draw: Draw)
    returns (restored: Option<nat>)
    requires pool.Valid() && Exact(interim) && Draws(draw)
    modifies pool
    ensures pool.Valid()
    ensures restored.Some? <==>
              && RestoreAll(old(pool.State()), pool.limits, Visits(first, clock, 0), draw).1
              && RestoreAll(interim, pool.limits, Visits(second, clock, |first|), draw).1
    ensures restored.Some? ==>
              && restored.value == |second|
              && pool.State() == Reconcile(interim, pool.limits, Visits(second, clock, |first|),
                                           Visits(first, clock, |first| + |second|), draw).0
  {
    hide Exact, Apply, RestoreAll, TaskAliases, Visits;
    var ok := RestoreEach(pool, first, clock, 0, draw);
    if !ok { return None; }
    pool.leases, pool.external := interim.leases, interim.external;
    ok := RestoreEach(pool, second, clock, |first|, draw);
    if !ok { return None; }
    ghost var mid := pool.State();
    ghost var live := TaskAliases(Visits(second, clock, |first|));
    ghost var stale := Visits(first, clock, |first| + |second|);
    VisitsAt(first, clock, |first| + |second|);
    for i := 0 to |first|
      invariant pool.Valid() && pool.State() == ReleaseAll(mid, pool.limits, stale[..i], live)
    {
      assert stale[i] == Visit(first[i], clock(|first| + |second| + i));
      assert stale[..i + 1][..i] == stale[..i];
      IsLive(second, clock, |first|, first[i].task);
      if !(exists v | v in second :: v.task == first[i].task) {
        var _ := pool.ReleaseExternal(TaskAlias(first[i].task), clock(|first| + |second| + i));
      }
    }
    assert stale[..|first|] == stale;
    return Some(|second|);
  }

  lemma VisitsAt(tasks: seq<VideoTask>, clock: nat -> real, from: nat)
    ensures |Visits(tasks, clock, from)| == |tasks|
    ensures forall i | 0 <= i < |tasks| :: Visits(tasks, clock, from)[i] == Visit(tasks[i], clock(from + i))
  {
  }

  lemma IsLive(tasks: seq<VideoTask>, clock: nat -> real, from: nat, task: string)
    ensures TaskAlias(task) in TaskAliases(Visits(tasks, clock, from)) <==> exists v | v in tasks :: v.task == task
  {
    var vs := Visits(tasks, clock, from);
    forall i | 0 <= i < |tasks| ensures vs[i] in vs && vs[i].video == tasks[i] {
    }
    forall v | v in vs ensures v.video in tasks {
    }
  }

  method RestoreEach(pool: BackgroundJobLeasePool, tasks: seq<VideoTask>, clock: nat -> real, from: nat, draw: Draw)
    returns (ok: bool)
    requires pool.Valid() && Draws(draw)
    modifies pool
    ensures pool.Valid()
    ensures ok == RestoreAll(old(pool.State()), pool.limits, Visits(tasks, clock, from), draw).1
    ensures ok ==> pool.State() == RestoreAll(old(pool.State()), pool.limits, Visits(tasks, clock, from), draw).0
  {
    hide Exact, Apply, Prune, Visits;
    ghost var vs := Visits(tasks, clock, from);
    VisitsAt(tasks, clock, from);
    for i := 0 to |tasks|
      invariant pool.Valid()
      invariant RestoreAll(old(pool.State()), pool.limits, vs[..i], draw) == (pool.State(), true)
    {
      var now := clock(from + i);
      assert vs[..i + 1][..i] == vs[..i];
      assert Elems([tasks[i].task]) == {tasks[i].task};
      var drawn := draw(Prune(Pool(pool.leases, pool.external), now).leases);
      var token := pool.Restore("video", tasks[i].principal, [tasks[i].task], drawn, now);
      if token == None {
        ConflictStays(old(pool.State()), pool.limits, vs, i + 1, draw);
        return false;
      }
    }
    assert vs[..|tasks|] == vs;
    return true;
  }

  /** Once a pass has met a conflict, it stays stopped. */
  lemma {:induction false} ConflictStays(p: Pool, l: Limits, vs: seq<Visit>, i: nat, draw: Draw)
    requires i <= |vs| && !RestoreAll(p, l, vs[..i], draw).1
    ensures !RestoreAll(p, l, vs, draw).1
  {
    if i == |vs| {
      assert vs[..i] == vs;
    } else {
      assert vs[..|vs| - 1][..i] == vs[..i];
      ConflictStays(p, l, vs[..|vs| - 1], i, draw);
    }
  }

  // ---------------------------------------------------------------------------
  // What goes wrong when one lease stands for two tasks
  // ---------------------------------------------------------------------------

  const ROOMY := Limits(8, 4, 21_600.0)

  /** A create request acquires a slot, and its provider's answer names both "a" and "b" as the job's ids. */
  const NAMES_BOTH := [Event(Op.TryAcquire("video", "p", {}, 7), 0.0), Event(Op.Bind(7, {"a", "b"}), 1.0)]

  /** One lease bound to tasks "a" and "b". */
  const TWO_IN_ONE := Pool(map[7 := Lease("p", "video", 21_601.0, {"a", "b"})],
                           map[Alias("video", "a") := 7, Alias("video", "b") := 7])

  /** The slot acquired, before the answer. */
  const ACQUIRED := Pool(map[7 := Lease("p", "video", 21_600.0, {})], map[])

  lemma SlotAcquired()
    ensures DrawnFresh(EMPTY, NAMES_BOTH[0].op, 0.0) && Apply(EMPTY, ROOMY, NAMES_BOTH[0].op, 0.0).pool == ACQUIRED
  {
    assert Prune(EMPTY, 0.0) == EMPTY;
    assert HeldBy(EMPTY, "p") == {} && Bound(EMPTY, "video", {}) == {} && Pointed(map[], "video", {}, 7) == map[];
    hide Prune, HeldBy, Bound, Pointed;
  }

  lemma BothNamed()
    ensures Apply(ACQUIRED, ROOMY, NAMES_BOTH[1].op, 1.0).pool == TWO_IN_ONE
  {
    hide Pointed, Bound, Prune;
    AcquiredStands();
    BothPointed();
    assert {} + {"a", "b"} == {"a", "b"};
    assert ACQUIRED.leases[7 := TWO_IN_ONE.leases[7]] == TWO_IN_ONE.leases;
  }

  lemma AcquiredStands()
    ensures Prune(ACQUIRED, 1.0) == ACQUIRED && Bound(ACQUIRED, "video", {"a", "b"}) == {}
  {
  }

  lemma BothPointed()
    ensures Pointed(map[], "video", {"a", "b"}, 7) == TWO_IN_ONE.external
  {
    assert Named("video", {"a", "b"}) == {Alias("video", "a"), Alias("video", "b")};
  }

  /** Pool operations lead there. */
  lemma TwoInOneReachable()
    ensures AllFresh(EMPTY, ROOMY, NAMES_BOTH) && Run(EMPTY, ROOMY, NAMES_BOTH) == TWO_IN_ONE
  {
    SlotAcquired();
    BothNamed();
    hide Apply, Prune;
    assert NAMES_BOTH[..1] == [NAMES_BOTH[0]] && NAMES_BOTH[..1][..0] == [];
    assert Run(EMPTY, ROOMY, NAMES_BOTH[..1]) == ACQUIRED && AllFresh(EMPTY, ROOMY, NAMES_BOTH[..1]);
  }

  /** Task "b" finishes between the snapshots; the reconciliation then strips task "a", still running, of its
      lease. */
  lemma SharedLeaseIsLost(draw: Draw)
    requires Draws(draw)
    ensures var live := Visit(VideoTask("p", "a"), 2.0);
            var done := Visit(VideoTask("p", "b"), 2.0);
            var (final, ok) := Reconcile(Run(EMPTY, ROOMY, NAMES_BOTH), ROOMY, [live], [live, done], draw);
            ok && TaskAlias("a") !in final.external
  {
    var live := Visit(VideoTask("p", "a"), 2.0);
    var done := Visit(VideoTask("p", "b"), 2.0);
    hide Run, AllFresh;
    TwoInOneReachable();
    TwoInOneExact();
    hide Apply, RestoreAll, ReleaseAll, Rebuilt, Exact, Owned;
    assert TaskAlias("a") in TaskAliases([live]) by { assert live in [live]; }
    var stale := TaskAliases([live, done]) - TaskAliases([live]);
    assert TaskAlias("b") in stale by {
      assert done in [live, done] && "b"[0] != "a"[0];
    }
    hide TaskAliases;
    NoForeignNoConflict(TWO_IN_ONE, ROOMY, [live], draw);
    Reconciled(TWO_IN_ONE, ROOMY, [live], [live, done], draw, 2.0, 2.0);
    assert SharesWithStale(TWO_IN_ONE, TaskAlias("a"), stale, 2.0);
  }

  lemma TwoInOneExact()
    ensures Exact(TWO_IN_ONE)
  {
    assert Aliases(TWO_IN_ONE.leases[7]) == {TaskAlias("a"), TaskAlias("b")};
  }

  // ---------------------------------------------------------------------------
  // Settlement of the lease of a video being created
  // ---------------------------------------------------------------------------

  /** What the create request's settlement does with its lease, given the provider's answer. */
  function Settle(p: Pool, l: Limits, token: nat, terminal: bool, ids: set<string>, now: real, later: real): Pool {
    if terminal then Apply(p, l, Op.Release(token), now).pool
    else if ids == {} then p
    else
      var out := Apply(p, l, Op.Bind(token, ids), now);
      if out.answer.done then out.pool else Apply(out.pool, l, Op.Release(token), later).pool
  }

  /** The lease of a create request: live past `hi`, of the request's principal, and still without aliases. */
  predicate Creating(p: Pool, token: nat, principal: string, hi: real) {
    token in p.leases && p.leases[token].expiresAt > hi && p.leases[token].bucket == principal &&
    p.leases[token].kind == "video" && p.leases[token].ids == {}
  }

  /** Exactly one lease carries the alias, and it is the principal's. */
  ghost predicate AliasOnce(p: Pool, a: Alias, principal: string) {
    && Exact(p)
    && a in p.external
    && p.external[a] in p.leases
    && p.leases[p.external[a]].bucket == principal
    && (forall t | t in p.leases && a in Aliases(p.leases[t]) :: t == p.external[a])
  }

  /** The create request's lease is there beside another lease that carries the alias: one job in two slots. */
  predicate TwoSlots(p: Pool, a: Alias, token: nat) {
    token in p.leases && a in p.external && p.external[a] != token
  }

  /** None of the provider's ids is bound at the reading. */
  predicate NoneBound(p: Pool, ids: set<string>, now: real) {
    Bound(Prune(p, now), "video", ids) == {}
  }

  /** Settling keeps the create request's lease exactly if the job runs on and none of its ids is taken; it then
      carries those ids. Every other lease that outlives the settlement stays. */
  lemma SettleCreating(p: Pool, l: Limits, v: VideoTask, token: nat, terminal: bool, ids: set<string>, now: real,
                       later: real, hi: real)
    requires Exact(p) && Creating(p, token, v.principal, hi) && now <= hi < now + l.ttl && later <= hi
    ensures var q := Settle(p, l, token, terminal, ids, now, later);
            var a := TaskAlias(v.task);
            && Exact(q)
            && (token in q.leases <==> !terminal && NoneBound(p, ids, now))
            && (token in q.leases ==> q.leases[token].expiresAt > hi)
            && (a in q.external && q.external[a] == token <==> token in q.leases && v.task in ids)
            && (forall t | t in q.leases :: t in p.leases && q.leases[t].bucket == p.leases[t].bucket)
            && (forall c | c in q.external && q.external[c] != token :: c in p.external && p.external[c] == q.external[c])
            && (Holds(p, a, hi) ==> Holds(q, a, hi) && q.external[a] == p.external[a])
  {
    var a := TaskAlias(v.task);
    AliaslessLease(p, token);
    if Holds(p, a, hi) && v.task in ids { HeldIsBound(p, v.task, ids, now, hi); }
    if terminal {
      ReleaseToken(p, l, token, now);
    } else if ids == {} {
      BoundEmpty(Prune(p, now), "video");
    } else {
      BindFacts(p, l, token, ids, now);
      var out := Apply(p, l, Op.Bind(token, ids), now);
      BoundMembers(Prune(p, now), Lease(v.principal, "video", now, ids));
      assert a in Named("video", ids) <==> v.task in ids;
      BoundElsewhere(p, token, ids, now);
      if !out.answer.done { ReleaseToken(out.pool, l, token, later); }
    }
  }

  /** A lease without aliases is bound by none. */
  lemma BoundElsewhere(p: Pool, token: nat, ids: set<string>, now: real)
    requires Exact(p) && token in p.leases && p.leases[token].ids == {}
    ensures Bound(Prune(p, now), "video", ids) <= {token} <==> NoneBound(p, ids, now)
  {
    AliaslessLease(p, token);
    hide Exact;
    assert token !in Bound(Prune(p, now), "video", ids);
  }

  lemma AliaslessLease(p: Pool, token: nat)
    requires Exact(p) && token in p.leases && p.leases[token].ids == {}
    ensures forall c | c in p.external :: p.external[c] != token
  {
    forall c | c in p.external ensures p.external[c] != token {
      assert c in Aliases(p.leases[p.external[c]]);
    }
  }

  lemma ReleaseToken(p: Pool, l: Limits, token: nat, now: real)
    requires Exact(p)
    ensures var q := Apply(p, l, Op.Release(token), now).pool;
            && Exact(q)
            && (forall t :: t in q.leases <==> t in p.leases && p.leases[t].expiresAt > now && t != token)
            && (forall t | t in q.leases :: q.leases[t] == p.leases[t])
            && (forall b :: b in q.external <==> b in p.external && p.external[b] in q.leases)
            && (forall b | b in q.external :: q.external[b] == p.external[b])
  {
    PruneExact(p, now);
    DropExact(Prune(p, now), token);
  }

  lemma BindFacts(p: Pool, l: Limits, token: nat, ids: set<string>, now: real)
    requires Exact(p) && token in p.leases && p.leases[token].kind == "video" && p.leases[token].expiresAt > now
    ensures var out := Apply(p, l, Op.Bind(token, ids), now);
            && Exact(out.pool)
            && out.answer.Did?
            && out.answer.done == (Bound(Prune(p, now), "video", ids) <= {token})
            && (out.answer.done ==>
                  && out.pool.external == Pointed(Prune(p, now).external, "video", ids, token)
                  && out.pool.leases.Keys == Prune(p, now).leases.Keys
                  && out.pool.leases[token].expiresAt == now + l.ttl
                  && out.pool.leases[token].bucket == p.leases[token].bucket
                  && (forall t | t in out.pool.leases && t != token :: out.pool.leases[t] == p.leases[t]))
            && (!out.answer.done ==> out.pool == Prune(p, now))
  {
    ApplyExact(p, l, Op.Bind(token, ids), now);
    hide Exact, Bound, Pointed;
  }

  /** A reconciliation restores a video task before its create request settles. Whatever the provider answered, the
      alias keeps exactly one lease of its owner; and the create request's lease is left beside it exactly if the
      answer is not terminal and the pool then binds none of the answer's ids. */
  lemma RestoreThenSettle(p: Pool, l: Limits, v: Visit, draw: Draw, token: nat, terminal: bool, ids: set<string>,
                          now: real, later: real, hi: real)
    requires Exact(p) && Draws(draw) && !Foreign(p, v.video) && Creating(p, token, v.video.principal, hi)
    requires v.now <= hi < v.now + l.ttl && now <= hi < now + l.ttl && later <= hi
    ensures var out := Apply(p, l, RestoreOp(p, v, draw), v.now);
            var final := Settle(out.pool, l, token, terminal, ids, now, later);
            && out.answer.Granted?
            && AliasOnce(final, TaskAlias(v.video.task), v.video.principal)
            && (TwoSlots(final, TaskAlias(v.video.task), token) <==> !terminal && NoneBound(out.pool, ids, now))
            && (token in final.leases <==> TwoSlots(final, TaskAlias(v.video.task), token))
  {
    var a := TaskAlias(v.video.task);
    RestoreOne(p, l, v, draw);
    PruneExact(p, v.now);
    AliaslessLease(p, token);
    var out := Apply(p, l, RestoreOp(p, v, draw), v.now);
    RestoreOneHolds(p, l, v, draw, hi, a);
    RestoreKeepsOthers(p, l, v, draw, token);
    hide Apply;
    SettleCreating(out.pool, l, v.video, token, terminal, ids, now, later, hi);
    AliaslessLease(out.pool, token);
    if v.video.task in ids { HeldIsBound(out.pool, v.video.task, ids, now, hi); }
    hide Settle, Exact, NoneBound;
    LeaseOfAlias(Settle(out.pool, l, token, terminal, ids, now, later), a);
  }

  /** A task whose alias outlives the reading is bound at it. */
  lemma HeldIsBound(p: Pool, task: string, ids: set<string>, now: real, hi: real)
    requires Exact(p) && Holds(p, TaskAlias(task), hi) && now <= hi && task in ids
    ensures !NoneBound(p, ids, now)
  {
    PruneExact(p, now);
    assert Prune(p, now).external[TaskAlias(task)] in Bound(Prune(p, now), "video", ids);
  }

  lemma RestoreKeepsOthers(p: Pool, l: Limits, v: Visit, draw: Draw, t: nat)
    requires Exact(p) && Draws(draw) && t in p.leases && p.leases[t].expiresAt > v.now
    requires TaskAlias(v.video.task) in p.external ==> p.external[TaskAlias(v.video.task)] != t
    ensures var q := Apply(p, l, RestoreOp(p, v, draw), v.now).pool;
            t in q.leases && q.leases[t] == p.leases[t]
  {
    hide Exact;
    BoundOne(Prune(p, v.now), v.video.task);
  }

  /** The create request settles before a reconciliation restores its video task. Again the alias gets exactly one
      lease of its owner; and the create request's lease is left beside it exactly if the answer is not terminal,
      none of its ids was bound, and the task's alias is not among them. */
  lemma SettleThenRestore(p: Pool, l: Limits, v: Visit, draw: Draw, token: nat, terminal: bool, ids: set<string>,
                          now: real, later: real, hi: real)
    requires Exact(p) && Draws(draw) && !Foreign(p, v.video) && Creating(p, token, v.video.principal, hi)
    requires v.now <= hi < v.now + l.ttl && now <= hi < now + l.ttl && later <= hi
    ensures var q := Settle(p, l, token, terminal, ids, now, later);
            var out := Apply(q, l, RestoreOp(q, v, draw), v.now);
            && out.answer.Granted?
            && AliasOnce(out.pool, TaskAlias(v.video.task), v.video.principal)
            && (token in q.leases <==> !terminal && NoneBound(p, ids, now))
            && (TwoSlots(out.pool, TaskAlias(v.video.task), token) <==>
                  !terminal && NoneBound(p, ids, now) && v.video.task !in ids)
            && (token in out.pool.leases <==> out.pool.external[TaskAlias(v.video.task)] == token
                                              || TwoSlots(out.pool, TaskAlias(v.video.task), token))
  {
    SettleCreating(p, l, v.video, token, terminal, ids, now, later, hi);
    hide Settle, Exact, NoneBound;
    RestoreSettled(Settle(p, l, token, terminal, ids, now, later), l, v, draw, token);
  }

  /** Restoring a task: its alias gets one lease, and another one that is live stays another. */
  lemma RestoreSettled(q: Pool, l: Limits, v: Visit, draw: Draw, token: nat)
    requires Exact(q) && Draws(draw) && !Foreign(q, v.video)
    requires token in q.leases ==> q.leases[token].expiresAt > v.now
    ensures var out := Apply(q, l, RestoreOp(q, v, draw), v.now);
            var a := TaskAlias(v.video.task);
            && out.answer.Granted?
            && AliasOnce(out.pool, a, v.video.principal)
            && (TwoSlots(out.pool, a, token) <==> token in q.leases && !(a in q.external && q.external[a] == token))
  {
    RestoreOne(q, l, v, draw);
    RestoreAdds(q, l, v, draw);
    PruneExact(q, v.now);
    var out := Apply(q, l, RestoreOp(q, v, draw), v.now);
    assert token in q.leases <==> token in Prune(q, v.now).leases;
    hide Apply, RestoreOp;
    LeaseOfAlias(out.pool, TaskAlias(v.video.task));
    hide Exact, Aliases, Prune;
  }

  /** A restore adds at most the lease it grants. */
  lemma RestoreAdds(p: Pool, l: Limits, v: Visit, draw: Draw)
    requires Exact(p) && Draws(draw)
    ensures var out := Apply(p, l, RestoreOp(p, v, draw), v.now);
            forall t | t in out.pool.leases :: t in Prune(p, v.now).leases || out.answer == Granted(t)
  {
    hide Exact, Prune;
  }

  /** Only the lease an alias is bound to lists it. */
  lemma LeaseOfAlias(p: Pool, a: Alias)
    requires Exact(p)
    ensures forall t | t in p.leases && a in Aliases(p.leases[t]) :: a in p.external && t == p.external[a]
  {
  }

  /** The order of the two does not matter while no lease runs out: either way the job is left with two slots exactly
      if the answer is not terminal and names neither the task nor any id bound before. */
  lemma OrderDoesNotMatter(p: Pool, l: Limits, v: Visit, draw: Draw, token: nat, terminal: bool, ids: set<string>,
                           now: real, later: real, lo: real, hi: real)
    requires Exact(p) && Draws(draw) && !Foreign(p, v.video) && Creating(p, token, v.video.principal, hi)
    requires lo <= v.now <= hi < v.now + l.ttl && lo <= now <= hi < now + l.ttl && later <= hi && NoneExpires(p, lo, hi)
    ensures var restored := Apply(p, l, RestoreOp(p, v, draw), v.now).pool;
            var settled := Settle(p, l, token, terminal, ids, now, later);
            var a := TaskAlias(v.video.task);
            var twice := !terminal && NoneBound(p, ids, now) && v.video.task !in ids;
            && (TwoSlots(Settle(restored, l, token, terminal, ids, now, later), a, token) <==> twice)
            && (TwoSlots(Apply(settled, l, RestoreOp(settled, v, draw), v.now).pool, a, token) <==> twice)
  {
    hide Apply, Settle, Exact, NoneBound;
    RestoreThenSettle(p, l, v, draw, token, terminal, ids, now, later, hi);
    SettleThenRestore(p, l, v, draw, token, terminal, ids, now, later, hi);
    RestoreBinds(p, l, v, draw, ids, now, lo, hi);
  }

  /** While no lease runs out a restore binds its own alias and no other. */
  lemma RestoreBinds(p: Pool, l: Limits, v: Visit, draw: Draw, ids: set<string>, now: real, lo: real, hi: real)
    requires Exact(p) && Draws(draw) && !Foreign(p, v.video)
    requires lo <= v.now <= hi < v.now + l.ttl && lo <= now <= hi && NoneExpires(p, lo, hi)
    ensures NoneBound(Apply(p, l, RestoreOp(p, v, draw), v.now).pool, ids, now) <==> NoneBound(p, ids, now) && v.video.task !in ids
  {
    var r := Apply(p, l, RestoreOp(p, v, draw), v.now).pool;
    hide Apply, Prune, Exact, NoneBound, RestoreOp;
    forall id ensures Alias("video", id) in Prune(r, now).external <==>
                        id == v.video.task || Alias("video", id) in Prune(p, now).external
    {
      RestoreBindsOne(p, l, v, draw, Alias("video", id), now, lo, hi);
    }
    NoneBoundIff(p, ids, now);
    NoneBoundIff(r, ids, now);
  }

  lemma RestoreBindsOne(p: Pool, l: Limits, v: Visit, draw: Draw, c: Alias, now: real, lo: real, hi: real)
    requires Exact(p) && Draws(draw) && !Foreign(p, v.video)
    requires lo <= v.now <= hi < v.now + l.ttl && lo <= now <= hi && NoneExpires(p, lo, hi)
    ensures c in Prune(Apply(p, l, RestoreOp(p, v, draw), v.now).pool, now).external <==>
              c == TaskAlias(v.video.task) || c in Prune(p, now).external
  {
    var r := Apply(p, l, RestoreOp(p, v, draw), v.now).pool;
    RestoreOne(p, l, v, draw);
    BoundToLease(p);
    BoundToLease(r);
    PruneExact(p, v.now);
    PruneExact(p, now);
    PruneExact(r, now);
    PrunedLeases(p, v.now);
    hide Apply, Exact, Prune, RestoreOp;
  }

  lemma BoundToLease(p: Pool)
    requires Exact(p)
    ensures forall c | c in p.external :: p.external[c] in p.leases
  {
  }

  lemma PrunedLeases(p: Pool, now: real)
    ensures forall t :: t in Prune(p, now).leases <==> t in p.leases && p.leases[t].expiresAt > now
    ensures forall c | c in Prune(p, now).external :: c in p.external && Prune(p, now).external[c] == p.external[c]
  {
  }

  lemma NoneBoundIff(p: Pool, ids: set<string>, now: real)
    ensures NoneBound(p, ids, now) <==> forall id | id in ids :: Alias("video", id) !in Prune(p, now).external
  {
    hide Prune;
    forall id | id in ids && Alias("video", id) in Prune(p, now).external
      ensures Prune(p, now).external[Alias("video", id)] in Bound(Prune(p, now), "video", ids)
    {
    }
  }

  /** The answer could not be persisted and is settled with the provider's own id, while the registry lists the task
      under its alias: in either order one job holds two slots. */
  lemma RawAnswerHoldsTwoSlots(draw: Draw)
    requires Draws(draw)
    ensures var task := Visit(VideoTask("p", "nvt1"), 1.0);
            var acquired := Run(EMPTY, ROOMY, NAMES_BOTH[..1]);
            var restored := Apply(acquired, ROOMY, RestoreOp(acquired, task, draw), 1.0).pool;
            var settled := Settle(acquired, ROOMY, 7, false, {"raw"}, 1.0, 1.0);
            && TwoSlots(Settle(restored, ROOMY, 7, false, {"raw"}, 1.0, 1.0), TaskAlias("nvt1"), 7)
            && TwoSlots(Apply(settled, ROOMY, RestoreOp(settled, task, draw), 1.0).pool, TaskAlias("nvt1"), 7)
  {
    SlotAcquired();
    assert NAMES_BOTH[..1][..0] == [] && Run(EMPTY, ROOMY, NAMES_BOTH[..1]) == ACQUIRED by { hide Apply; }
    AcquiredCreating();
    assert "nvt1"[0] != "raw"[0];
    hide Run, Apply, Settle, NoneBound, Exact, RestoreOp, NoneExpires;
    OrderDoesNotMatter(ACQUIRED, ROOMY, Visit(VideoTask("p", "nvt1"), 1.0), draw, 7, false, {"raw"}, 1.0, 1.0, 1.0, 1.0);
  }

  lemma AcquiredCreating()
    ensures Exact(ACQUIRED) && NoneExpires(ACQUIRED, 1.0, 1.0) && NoneBound(ACQUIRED, {"raw"}, 1.0)
  {
    assert Aliases(ACQUIRED.leases[7]) == {};
    NoneBoundIff(ACQUIRED, {"raw"}, 1.0);
  }
}
