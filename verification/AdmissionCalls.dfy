/** The middleware's calls around the admission gate: every admitted request gives its lease back exactly once,
    on whatever path it leaves. */
module AdmissionCalls {
  import opened AdmissionGate
  import opened Counting

  /** Where a request is in the middleware. A request that left remembers its lease and whether it was passed
      on before. */
  datatype Phase =
    | TurnedAway
    | Waiting(lease: Lease)
    | Downstream(lease: Lease)
    | Left(lease: Lease, passedOn: bool)

  datatype Answer = Allowed | Refused | Unavailable | Cancelled

  /** The gate itself, the requests, and the log of what they did to the gate. */
  datatype World = World(gate: Gate, calls: map<nat, Phase>, log: seq<Event>)

  const EMPTY := World(Gate(map[], 0, 0), map[], [])

  /** `daily` says whether the middleware keeps a daily counter. A request passed on ends by finishing, raising
      or being cancelled. */
  datatype Step =
    | Call(r: nat, key: string, daily: bool, now: real)
    | DailyAnswers(r: nat, answer: Answer, now: real)
    | Ends(r: nat, now: real)

  predicate Enabled(w: World, s: Step) {
    match s
    case Call(r, _, _, _) => r !in w.calls
    case DailyAnswers(r, _, _) => r in w.calls && w.calls[r].Waiting?
    case Ends(r, _) => r in w.calls && w.calls[r].Downstream?
  }

  function Moved(w: World, r: nat, phase: Phase): World {
    w.(calls := w.calls[r := phase])
  }

  /** Releasing does to the gate whatever releasing that lease does, open or not. */
  function Leaving(w: World, r: nat, lease: Lease, passedOn: bool, now: real): World {
    World(Release(w.gate, lease, !passedOn, now), w.calls[r := Left(lease, passedOn)],
          w.log + [Leaves(lease, !passedOn, now)])
  }

  function Next(w: World, l: Limits, s: Step): World
    requires Enabled(w, s)
  {
    match s
    case Call(r, key, daily, now) =>
      var (gate, verdict) := Acquire(w.gate, l, key, now);
      var phase := if verdict.Rejected? then TurnedAway
                   else if daily then Waiting(verdict.lease) else Downstream(verdict.lease);
      World(gate, w.calls[r := phase], w.log + [Arrives(key, now)])
    case DailyAnswers(r, answer, now) =>
      if answer.Allowed? then Moved(w, r, Downstream(w.calls[r].lease))
      else Leaving(w, r, w.calls[r].lease, false, now)
    case Ends(r, now) => Leaving(w, r, w.calls[r].lease, true, now)
  }

  predicate Runs(w: World, l: Limits, steps: seq<Step>)
    decreases |steps|
  {
    steps == [] || (Enabled(w, steps[0]) && Runs(Next(w, l, steps[0]), l, steps[1..]))
  }

  function After(w: World, l: Limits, steps: seq<Step>): World
    requires Runs(w, l, steps)
    decreases |steps|
  {
    if steps == [] then w else After(Next(w, l, steps[0]), l, steps[1..])
  }

  // ---------------------------------------------------------------------------
  // Invariant
  // ---------------------------------------------------------------------------

  predicate Inside(p: Phase) {
    p.Waiting? || p.Downstream?
  }

  /** The requests inside. */
  function Insiders(w: World): set<nat> {
    set r | r in w.calls && Inside(w.calls[r])
  }

  function InsidersOf(w: World, key: string): set<nat> {
    set r | r in Insiders(w) && w.calls[r].lease.key == key
  }

  predicate Holds(w: World, r: nat, lease: Lease) {
    r in w.calls && Inside(w.calls[r]) && w.calls[r].lease == lease
  }

  predicate GaveBack(w: World, r: nat, lease: Lease) {
    r in w.calls && w.calls[r].Left? && w.calls[r].lease == lease
  }

  /** How often the log releases a lease. */
  function Releases(log: seq<Event>, lease: Lease): nat {
    if log == [] then 0
    else
      var last := log[|log| - 1];
      Releases(log[..|log| - 1], lease) + if last.Leaves? && last.lease == lease then 1 else 0
  }

  /** The gate is the one the log leads to, and its open leases are those held. */
  ghost predicate Tied(w: World, l: Limits) {
    var o := Run(l, w.log);
    && w.gate == o.gate
    && (forall r | r in w.calls && Inside(w.calls[r]) :: w.calls[r].lease in o.open)
    && (forall lease | lease in o.open :: exists r :: Holds(w, r, lease))
  }

  /** Leases are drawn once, in sequence. */
  ghost predicate Distinct(w: World) {
    && (forall r | r in w.calls && !w.calls[r].TurnedAway? :: w.calls[r].lease.stamp.sequence <= w.gate.sequence)
    && (forall r, s | r in w.calls && s in w.calls && r != s && !w.calls[r].TurnedAway? && !w.calls[s].TurnedAway? ::
          w.calls[r].lease != w.calls[s].lease)
  }

  /** The log releases the leases of the requests that left, once each, and gives the rate event back exactly
      for those never passed on. */
  ghost predicate Accounted(w: World) {
    && (forall r | r in w.calls && w.calls[r].Left? :: Releases(w.log, w.calls[r].lease) == 1)
    && (forall lease | Releases(w.log, lease) > 0 :: exists r :: GaveBack(w, r, lease))
    && (forall e | e in w.log && e.Leaves? :: exists r :: GaveBack(w, r, e.lease) && w.calls[r].passedOn == !e.rollback)
  }

  ghost predicate Inv(w: World, l: Limits) {
    Tied(w, l) && Distinct(w) && Accounted(w)
  }

  lemma RunMore(l: Limits, log: seq<Event>, e: Event)
    ensures Run(l, log + [e]) == AdmissionGate.Next(Run(l, log), l, e)
  {
    assert (log + [e])[..|log|] == log;
  }

  lemma ReleasesMore(log: seq<Event>, e: Event, lease: Lease)
    ensures Releases(log + [e], lease) == Releases(log, lease) + if e.Leaves? && e.lease == lease then 1 else 0
  {
    assert (log + [e])[..|log|] == log;
  }

  lemma NextDistinct(w: World, l: Limits, s: Step)
    requires Distinct(w) && Enabled(w, s)
    ensures Distinct(Next(w, l, s))
  {
  }

  lemma NextTied(w: World, l: Limits, s: Step)
    requires Tied(w, l) && Distinct(w) && Enabled(w, s)
    ensures Tied(Next(w, l, s), l)
  {
    var v := Next(w, l, s);
    if s.Call? {
      RunMore(l, w.log, Arrives(s.key, s.now));
      CallTied(w, l, s);
    } else if v.log == w.log {
      StillTied(w, l, s.r);
    } else {
      RunMore(l, w.log, v.log[|w.log|]);
      LeavingTied(w, l, s);
    }
  }

  lemma StillTied(w: World, l: Limits, r: nat)
    requires Tied(w, l) && r in w.calls && w.calls[r].Waiting?
    ensures Tied(Moved(w, r, Downstream(w.calls[r].lease)), l)
  {
    hide Run;
    var v := Moved(w, r, Downstream(w.calls[r].lease));
    forall lease | lease in Run(l, w.log).open ensures exists s :: Holds(v, s, lease) {
      var s :| Holds(w, s, lease);
      assert Holds(v, s, lease);
    }
  }

  lemma CallTied(w: World, l: Limits, s: Step)
    requires Tied(w, l) && Enabled(w, s) && s.Call?
    requires Run(l, w.log + [Arrives(s.key, s.now)]) == AdmissionGate.Next(Run(l, w.log), l, Arrives(s.key, s.now))
    ensures Tied(Next(w, l, s), l)
  {
    hide Run, Acquire;
    var v := Next(w, l, s);
    var open := Run(l, v.log).open;
    forall lease | lease in open ensures exists r :: Holds(v, r, lease) {
      if lease in Run(l, w.log).open {
        var r :| Holds(w, r, lease);
        assert Holds(v, r, lease);
      } else {
        assert Holds(v, s.r, lease);
      }
    }
  }

  lemma LeavingTied(w: World, l: Limits, s: Step)
    requires Tied(w, l) && Distinct(w) && Enabled(w, s) && !s.Call?
    requires var v := Next(w, l, s);
             v.log != w.log && Run(l, v.log) == AdmissionGate.Next(Run(l, w.log), l, v.log[|w.log|])
    ensures Tied(Next(w, l, s), l)
  {
    hide Run, Release;
    var v := Next(w, l, s);
    var lease := w.calls[s.r].lease;
    assert v.log[|w.log|].lease == lease && lease in Run(l, w.log).open;
    forall other | other in Run(l, v.log).open ensures exists r :: Holds(v, r, other) {
      var r :| Holds(w, r, other);
      assert Holds(v, r, other);
    }
  }

  /** A lease still held has not been released. */
  lemma HeldUnreleased(w: World, r: nat)
    requires Distinct(w) && Accounted(w) && r in w.calls && Inside(w.calls[r])
    ensures Releases(w.log, w.calls[r].lease) == 0
  {
    forall s ensures !GaveBack(w, s, w.calls[r].lease) {
    }
  }

  lemma NextAccounted(w: World, l: Limits, s: Step)
    requires Accounted(w) && Distinct(w) && Enabled(w, s)
    ensures Accounted(Next(w, l, s))
  {
    var v := Next(w, l, s);
    if s.Call? {
      var e := Arrives(s.key, s.now);
      forall lease ensures Releases(v.log, lease) == Releases(w.log, lease) { ReleasesMore(w.log, e, lease); }
      AccountedStill(w, v, s.r, [e]);
    } else if v.log == w.log {
      AccountedStill(w, v, s.r, []);
    } else {
      HeldUnreleased(w, s.r);
      LeavingAccounted(w, s.r, s.Ends?, s.now);
    }
  }

  /** A request enters or is passed on; nothing is released. */
  lemma AccountedStill(w: World, v: World, r: nat, more: seq<Event>)
    requires Accounted(w) && v.log == w.log + more && forall e | e in more :: e.Arrives?
    requires forall lease :: Releases(v.log, lease) == Releases(w.log, lease)
    requires r in v.calls && !v.calls[r].Left? && v.calls == w.calls[r := v.calls[r]]
    requires r in w.calls ==> !w.calls[r].Left?
    ensures Accounted(v)
  {
    hide Releases;
    forall s, lease | GaveBack(w, s, lease) ensures GaveBack(v, s, lease) && v.calls[s] == w.calls[s] {
    }
    forall lease | Releases(v.log, lease) > 0 ensures exists s :: GaveBack(v, s, lease) {
      var s :| GaveBack(w, s, lease);
      assert GaveBack(v, s, lease);
    }
    forall e | e in v.log && e.Leaves? ensures exists s :: GaveBack(v, s, e.lease) && v.calls[s].passedOn == !e.rollback {
      var s :| GaveBack(w, s, e.lease) && w.calls[s].passedOn == !e.rollback;
      assert GaveBack(v, s, e.lease);
    }
  }

  lemma LeavingAccounted(w: World, r: nat, passedOn: bool, now: real)
    requires Accounted(w) && Distinct(w) && r in w.calls && Inside(w.calls[r])
    requires Releases(w.log, w.calls[r].lease) == 0
    ensures Accounted(Leaving(w, r, w.calls[r].lease, passedOn, now))
  {
    var mine := w.calls[r].lease;
    var v := Leaving(w, r, mine, passedOn, now);
    forall lease ensures Releases(v.log, lease) == Releases(w.log, lease) + if lease == mine then 1 else 0 {
      ReleasesMore(w.log, Leaves(mine, !passedOn, now), lease);
    }
    hide Releases, Release;
    assert GaveBack(v, r, mine);
    forall lease | Releases(v.log, lease) > 0 ensures exists s :: GaveBack(v, s, lease) {
      if lease != mine {
        var s :| GaveBack(w, s, lease);
        assert GaveBack(v, s, lease);
      }
    }
    forall e | e in v.log && e.Leaves? ensures exists s :: GaveBack(v, s, e.lease) && v.calls[s].passedOn == !e.rollback {
      if e in w.log {
        var s :| GaveBack(w, s, e.lease) && w.calls[s].passedOn == !e.rollback;
        assert GaveBack(v, s, e.lease);
      }
    }
  }

  lemma {:induction false} RunKeeps(w: World, l: Limits, steps: seq<Step>)
    requires Inv(w, l) && Runs(w, l, steps)
    ensures Inv(After(w, l, steps), l)
    decreases |steps|
  {
    if steps != [] {
      NextTied(w, l, steps[0]);
      NextDistinct(w, l, steps[0]);
      NextAccounted(w, l, steps[0]);
      hide Tied, Distinct, Accounted, Next, Enabled;
      RunKeeps(Next(w, l, steps[0]), l, steps[1..]);
    }
  }

  // ---------------------------------------------------------------------------
  // Guarantees over every run
  // ---------------------------------------------------------------------------

  /** A request releases its lease exactly once: never while it is inside, once when it has left, and with the
      rate event given back exactly if it was never passed on. */
  lemma ReleasedExactlyOnce(l: Limits, steps: seq<Step>, r: nat)
    requires Runs(EMPTY, l, steps)
    ensures var w := After(EMPTY, l, steps);
            r in w.calls && !w.calls[r].TurnedAway? ==>
              && Releases(w.log, w.calls[r].lease) == (if w.calls[r].Left? then 1 else 0)
              && (forall e | e in w.log && e.Leaves? && e.lease == w.calls[r].lease ::
                    w.calls[r].Left? && e.rollback == !w.calls[r].passedOn)
  {
    RunKeeps(EMPTY, l, steps);
    var w := After(EMPTY, l, steps);
    if r in w.calls && !w.calls[r].TurnedAway? {
      if Inside(w.calls[r]) { HeldUnreleased(w, r); }
      forall e | e in w.log && e.Leaves? && e.lease == w.calls[r].lease
        ensures w.calls[r].Left? && e.rollback == !w.calls[r].passedOn
      {
        var s :| GaveBack(w, s, e.lease) && w.calls[s].passedOn == !e.rollback;
      }
    }
  }

  /** The middleware never releases a lease that is not open: its gate is the one where such a release would do
      nothing. */
  lemma GateFollowsLog(l: Limits, steps: seq<Step>)
    requires Runs(EMPTY, l, steps)
    ensures After(EMPTY, l, steps).gate == Run(l, After(EMPTY, l, steps).log).gate
  {
    RunKeeps(EMPTY, l, steps);
  }

  lemma HoldersCount(w: World, open: set<Lease>, rs: set<nat>)
    requires Distinct(w) && rs <= Insiders(w)
    requires forall r | r in rs :: w.calls[r].lease in open
    requires forall lease | lease in open :: exists r :: r in rs && Holds(w, r, lease)
    ensures |open| == |rs|
  {
    var leases := map r | r in rs :: w.calls[r].lease;
    assert leases.Keys == rs;
    forall lease | lease in open ensures lease in leases.Values {
      var r :| r in rs && Holds(w, r, lease);
      assert r in leases && leases[r] == lease;
    }
    assert leases.Values == open;
    InjectiveCounts(leases);
  }

  /** With readings in order, the global in-flight count is the number of requests inside, a key's count the number
      of its requests inside, and both are within their limits. */
  lemma InFlightIsRequestsInside(l: Limits, steps: seq<Step>, key: string)
    requires Accepted(l) && Runs(EMPTY, l, steps) && InOrder(After(EMPTY, l, steps).log)
    ensures var w := After(EMPTY, l, steps);
            && w.gate.globalInFlight == |Insiders(w)| <= l.global
            && BucketOf(w.gate, key).inFlight == |InsidersOf(w, key)| <= l.perKey
  {
    RunKeeps(EMPTY, l, steps);
    var w := After(EMPTY, l, steps);
    var o := Run(l, w.log);
    hide After, Runs, Accounted, Distinct, Run, OpenOf, BucketOf, InOrder, Accepted;
    InFlightIsOpenLeases(l, w.log, key);
    forall lease | lease in o.open ensures exists r :: r in Insiders(w) && Holds(w, r, lease) {
      var r :| Holds(w, r, lease);
      assert r in Insiders(w);
    }
    HoldersCount(w, o.open, Insiders(w));
    KeyedHolders(w, o.open, key);
  }

  lemma KeyedHolders(w: World, open: set<Lease>, key: string)
    requires Distinct(w)
    requires forall r | r in Insiders(w) :: w.calls[r].lease in open
    requires forall lease | lease in open :: exists r :: r in Insiders(w) && Holds(w, r, lease)
    ensures |OpenOf(open, key)| == |InsidersOf(w, key)|
  {
    var mine := InsidersOf(w, key);
    forall lease | lease in OpenOf(open, key) ensures exists r :: r in mine && Holds(w, r, lease) {
      var r :| r in Insiders(w) && Holds(w, r, lease);
      assert r in mine;
    }
    HoldersCount(w, OpenOf(open, key), mine);
  }

  /** The request was passed on. */
  predicate PassedOn(p: Phase) {
    p.Downstream? || (p.Left? && p.passedOn)
  }

  /** The step lets the request through to the daily counter's far side: there is none, or it allowed the request. */
  predicate Clears(s: Step, r: nat) {
    (s.Call? && s.r == r && !s.daily) || (s.DailyAnswers? && s.r == r && s.answer.Allowed?)
  }

  predicate AnyClears(steps: seq<Step>, r: nat) {
    exists i :: 0 <= i < |steps| && Clears(steps[i], r)
  }

  /** An admitted request was passed on exactly if it was cleared. */
  predicate PassedIff(w: World, r: nat, cleared: bool) {
    if r !in w.calls then !cleared else !w.calls[r].TurnedAway? ==> (PassedOn(w.calls[r]) <==> cleared)
  }

  lemma {:induction false} RunPassedIff(w: World, l: Limits, steps: seq<Step>, r: nat, cleared: bool)
    requires Runs(w, l, steps) && PassedIff(w, r, cleared)
    ensures PassedIff(After(w, l, steps), r, cleared || AnyClears(steps, r))
    decreases |steps|
  {
    if steps != [] {
      NextPassedIff(w, l, steps[0], r, cleared);
      AnyClearsSplit(steps, r);
      hide Next, Enabled, PassedIff, Clears;
      RunPassedIff(Next(w, l, steps[0]), l, steps[1..], r, cleared || Clears(steps[0], r));
    }
  }

  lemma NextPassedIff(w: World, l: Limits, s: Step, r: nat, cleared: bool)
    requires Enabled(w, s) && PassedIff(w, r, cleared)
    ensures PassedIff(Next(w, l, s), r, cleared || Clears(s, r))
  {
    hide Acquire, Release;
  }

  lemma AnyClearsSplit(steps: seq<Step>, r: nat)
    requires steps != []
    ensures AnyClears(steps, r) <==> Clears(steps[0], r) || AnyClears(steps[1..], r)
  {
    hide Clears;
    if AnyClears(steps[1..], r) {
      var i :| 0 <= i < |steps| - 1 && Clears(steps[1..][i], r);
      assert Clears(steps[i + 1], r);
    }
    if AnyClears(steps, r) && !Clears(steps[0], r) {
      var i :| 0 <= i < |steps| && Clears(steps[i], r);
      assert Clears(steps[1..][i - 1], r);
    }
  }

  /** An admitted request is passed on exactly if the middleware keeps no daily counter or the counter allows it;
      refused, unavailable or cancelled, it is not. */
  lemma PassedOnIffCleared(l: Limits, steps: seq<Step>, r: nat)
    requires Runs(EMPTY, l, steps)
    ensures var w := After(EMPTY, l, steps);
            r in w.calls && !w.calls[r].TurnedAway? ==> (PassedOn(w.calls[r]) <==> AnyClears(steps, r))
  {
    RunPassedIff(EMPTY, l, steps, r, false);
  }
}
