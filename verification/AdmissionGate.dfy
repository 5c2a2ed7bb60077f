/** The gateway's admission gate: concurrency limits, a rolling minute per key with rollback,
    and buckets that disappear when idle. */
module AdmissionGate {
  import opened Counting

  const WINDOW_SECONDS: real := 60.0

  /** One admitted request: when it was admitted and its unique sequence number. */
  datatype Stamp = Stamp(at: real, sequence: nat)

  datatype Bucket = Bucket(inFlight: int, recent: seq<Stamp>)

  datatype Lease = Lease(key: string, stamp: Stamp)

  datatype Limits = Limits(perKey: nat, global: nat, rolling: nat)

  datatype Gate = Gate(states: map<string, Bucket>, globalInFlight: int, sequence: nat)

  datatype Verdict = Admitted(lease: Lease) | Rejected(retryAfter: int)

  /** The limits the constructor accepts. */
  predicate Accepted(l: Limits) {
    1 <= l.perKey <= 64 && l.perKey <= l.global <= 512 && 1 <= l.rolling <= 10_000
  }

  predicate Passed(stamp: Stamp, now: real) {
    stamp.at <= now - WINDOW_SECONDS
  }

  function Prune(recent: seq<Stamp>, now: real): seq<Stamp> {
    if recent != [] && Passed(recent[0], now) then Prune(recent[1..], now) else recent
  }

  function Ceiling(x: real): int {
    if x.Floor as real == x then x.Floor else x.Floor + 1
  }

  function RetryAfter(oldest: Stamp, now: real): int {
    var wait := Ceiling(WINDOW_SECONDS - (now - oldest.at));
    if wait < 1 then 1 else wait
  }

  function BucketOf(g: Gate, key: string): Bucket {
    if key in g.states then g.states[key] else Bucket(0, [])
  }

  function Acquire(g: Gate, l: Limits, key: string, now: real): (Gate, Verdict) {
    if g.globalInFlight >= l.global then (g, Rejected(1)) else
      var bucket := BucketOf(g, key);
      var recent := Prune(bucket.recent, now);
      if bucket.inFlight >= l.perKey then
        (g.(states := g.states[key := bucket.(recent := recent)]), Rejected(1))
      else if |recent| >= l.rolling && recent != [] then
        (g.(states := g.states[key := bucket.(recent := recent)]), Rejected(RetryAfter(recent[0], now)))
      else
        var stamp := Stamp(now, g.sequence + 1);
        (Gate(g.states[key := Bucket(bucket.inFlight + 1, recent + [stamp])], g.globalInFlight + 1, g.sequence + 1),
         Admitted(Lease(key, stamp)))
  }

  /** The list without the first occurrence of `stamp`. */
  function Remove(stamps: seq<Stamp>, stamp: Stamp): seq<Stamp> {
    if stamps == [] then [] else if stamps[0] == stamp then stamps[1..] else [stamps[0]] + Remove(stamps[1..], stamp)
  }

  function Clamped(x: int): int {
    if x < 0 then 0 else x
  }

  function Release(g: Gate, lease: Lease, rollback: bool, now: real): Gate {
    if lease.key !in g.states then g else
      var bucket := g.states[lease.key];
      var kept := if rollback then Remove(bucket.recent, lease.stamp) else bucket.recent;
      var after := Bucket(Clamped(bucket.inFlight - 1), Prune(kept, now));
      Gate(if after.inFlight == 0 && after.recent == [] then g.states - {lease.key} else g.states[lease.key := after],
           Clamped(g.globalInFlight - 1), g.sequence)
  }

  /** The middleware's local accounting. */
  class AdmissionControl {
    const limits: Limits
    var gate: Gate

    constructor (limits: Limits)
      ensures this.limits == limits && gate == Gate(map[], 0, 0)
    {
      this.limits := limits;
      gate := Gate(map[], 0, 0);
    }

    method PopPassed(recent: seq<Stamp>, now: real) returns (live: seq<Stamp>)
      ensures live == Prune(recent, now)
    {
      live := recent;
      while live != [] && live[0].at <= now - WINDOW_SECONDS
        invariant Prune(live, now) == Prune(recent, now)
      {
        live := live[1..];
      }
    }

    method AcquireLocal(key: string, now: real) returns (verdict: Verdict)
      requires Accepted(limits)
      modifies this`gate
      ensures (gate, verdict) == Acquire(old(gate), limits, key, now)
    {
      if gate.globalInFlight >= limits.global {
        return Rejected(1);
      }
      var bucket := BucketOf(gate, key);
      var recent := PopPassed(bucket.recent, now);
      gate := gate.(states := gate.states[key := bucket.(recent := recent)]);
      if bucket.inFlight >= limits.perKey {
        return Rejected(1);
      }
      if |recent| >= limits.rolling {
        return Rejected(RetryAfter(recent[0], now));
      }
      var stamp := Stamp(now, gate.sequence + 1);
      ghost var seen := gate.states;
      gate := Gate(gate.states[key := Bucket(bucket.inFlight + 1, recent + [stamp])],
                   gate.globalInFlight + 1, gate.sequence + 1);
      assert gate.states == old(gate).states[key := Bucket(bucket.inFlight + 1, recent + [stamp])];
      return Admitted(Lease(key, stamp));
    }

    method ReleaseLocal(lease: Lease, rollback: bool, now: real)
      modifies this`gate
      ensures gate == Release(old(gate), lease, rollback, now)
    {
      if lease.key !in gate.states {
        return;
      }
      var bucket := gate.states[lease.key];
      bucket := bucket.(inFlight := Clamped(bucket.inFlight - 1));
      if rollback {
        bucket := bucket.(recent := Remove(bucket.recent, lease.stamp));
      }
      var recent := PopPassed(bucket.recent, now);
      bucket := bucket.(recent := recent);
      gate := Gate(if bucket.inFlight == 0 && bucket.recent == [] then gate.states - {lease.key}
                   else gate.states[lease.key := bucket],
                   Clamped(gate.globalInFlight - 1), gate.sequence);
    }
  }

  // ---------------------------------------------------------------------------
  // Runs
  // ---------------------------------------------------------------------------

  /** The gate beside the leases not yet released and, per key, the admissions that were not
      rolled back. */
  datatype Observed = Observed(gate: Gate, open: set<Lease>, standing: map<string, seq<Stamp>>)

  datatype Event =
    | Arrives(key: string, now: real)
    | Leaves(lease: Lease, rollback: bool, now: real)

  function StandingOf(o: Observed, key: string): seq<Stamp> {
    if key in o.standing then o.standing[key] else []
  }

  /** A lease is released once, as the middleware's calls do (module `AdmissionCalls`); releasing anything else is
      not an event of the gate. */
  function Next(o: Observed, l: Limits, e: Event): Observed {
    match e
    case Arrives(key, now) =>
      var (gate, verdict) := Acquire(o.gate, l, key, now);
      if verdict.Rejected? then o.(gate := gate)
      else Observed(gate, o.open + {verdict.lease}, o.standing[key := StandingOf(o, key) + [verdict.lease.stamp]])
    case Leaves(lease, rollback, now) =>
      if lease !in o.open then o
      else Observed(Release(o.gate, lease, rollback, now), o.open - {lease},
                    if rollback then o.standing[lease.key := Remove(StandingOf(o, lease.key), lease.stamp)] else o.standing)
  }

  function Run(l: Limits, events: seq<Event>): Observed {
    if events == [] then Observed(Gate(map[], 0, 0), {}, map[])
    else Next(Run(l, events[..|events| - 1]), l, events[|events| - 1])
  }

  ghost predicate InOrder(events: seq<Event>) {
    forall i, j | 0 <= i <= j < |events| :: events[i].now <= events[j].now
  }

  // ---------------------------------------------------------------------------
  // What a bucket remembers
  // ---------------------------------------------------------------------------

  ghost predicate Ordered(stamps: seq<Stamp>) {
    forall i, j | 0 <= i < j < |stamps| :: stamps[i].at <= stamps[j].at && stamps[i].sequence < stamps[j].sequence
  }

  /** Any `n + 1` consecutive stamps span at least a window. */
  ghost predicate Spaced(stamps: seq<Stamp>, n: nat) {
    forall i, j | 0 <= i && i + n <= j < |stamps| :: stamps[j].at - stamps[i].at >= WINDOW_SECONDS
  }

  /** `recent` is the end of `standing`, and what came before has left the window. */
  ghost predicate Remembers(recent: seq<Stamp>, standing: seq<Stamp>, now: real) {
    && |recent| <= |standing| && recent == standing[|standing| - |recent|..]
    && forall i | 0 <= i < |standing| - |recent| :: Passed(standing[i], now)
  }

  ghost predicate History(standing: seq<Stamp>, rolling: nat, now: real, sequence: nat) {
    && Ordered(standing) && Spaced(standing, rolling)
    && forall i | 0 <= i < |standing| :: standing[i].at <= now && standing[i].sequence <= sequence
  }

  lemma {:induction false} PruneSuffix(recent: seq<Stamp>, now: real)
    ensures |Prune(recent, now)| <= |recent|
    ensures Prune(recent, now) == recent[|recent| - |Prune(recent, now)|..]
    ensures forall i | 0 <= i < |recent| - |Prune(recent, now)| :: Passed(recent[i], now)
    ensures Prune(recent, now) != [] ==> !Passed(Prune(recent, now)[0], now)
  {
    if recent != [] && Passed(recent[0], now) {
      PruneSuffix(recent[1..], now);
      assert forall i | 0 < i < |recent| :: recent[i] == recent[1..][i - 1];
    }
  }

  lemma PruneRemembers(recent: seq<Stamp>, standing: seq<Stamp>, before: real, now: real)
    requires Remembers(recent, standing, before) && before <= now
    ensures Remembers(Prune(recent, now), standing, now)
  {
    PruneSuffix(recent, now);
    var pruned := Prune(recent, now);
    var gone := |standing| - |recent|;
    forall i | 0 <= i < |standing| - |pruned| ensures Passed(standing[i], now) {
      if i >= gone { assert standing[i] == recent[i - gone]; }
    }
    assert pruned == standing[|standing| - |pruned|..];
  }

  lemma {:induction false} RemoveAt(stamps: seq<Stamp>, stamp: Stamp)
    requires Ordered(stamps)
    ensures stamp !in stamps ==> Remove(stamps, stamp) == stamps
    ensures forall i | 0 <= i < |stamps| && stamps[i] == stamp :: Remove(stamps, stamp) == stamps[..i] + stamps[i + 1..]
  {
    if stamps != [] && stamps[0] != stamp {
      assert forall i | 0 < i < |stamps| :: stamps[i] == stamps[1..][i - 1];
      assert Ordered(stamps[1..]);
      RemoveAt(stamps[1..], stamp);
      forall i | 0 <= i < |stamps| && stamps[i] == stamp ensures Remove(stamps, stamp) == stamps[..i] + stamps[i + 1..] {
        assert stamps[1..][i - 1] == stamp;
        assert [stamps[0]] + (stamps[1..][..i - 1] + stamps[1..][i..]) == stamps[..i] + stamps[i + 1..];
      }
    }
  }

  lemma DropHistory(standing: seq<Stamp>, k: nat, rolling: nat, now: real, sequence: nat)
    requires k < |standing| && History(standing, rolling, now, sequence)
    ensures History(standing[..k] + standing[k + 1..], rolling, now, sequence)
  {
    var fewer := standing[..k] + standing[k + 1..];
    assert forall i | 0 <= i < |fewer| :: fewer[i] == standing[if i < k then i else i + 1];
  }

  lemma SuffixOrdered(recent: seq<Stamp>, standing: seq<Stamp>, now: real)
    requires Remembers(recent, standing, now) && Ordered(standing)
    ensures Ordered(recent)
    ensures forall i | 0 <= i < |recent| :: recent[i] == standing[|standing| - |recent| + i]
  {
  }

  /** Cutting one element out of a sequence and out of the end of it. */
  lemma CutOut(end: seq<Stamp>, whole: seq<Stamp>, k: nat)
    requires |whole| - |end| <= k < |whole| && |end| <= |whole| && end == whole[|whole| - |end|..]
    ensures var gone := |whole| - |end|;
            var fewer := whole[..k] + whole[k + 1..];
            && end[..k - gone] + end[k - gone + 1..] == fewer[gone..]
            && forall i | 0 <= i < gone :: fewer[i] == whole[i]
  {
  }

  lemma RemoveKept(recent: seq<Stamp>, standing: seq<Stamp>, k: nat, now: real)
    requires Remembers(recent, standing, now) && Ordered(standing)
    requires |standing| - |recent| <= k < |standing|
    ensures Remembers(Remove(recent, standing[k]), standing[..k] + standing[k + 1..], now)
    ensures |Remove(recent, standing[k])| <= |recent|
  {
    SuffixOrdered(recent, standing, now);
    RemoveAt(recent, standing[k]);
    var j := k - (|standing| - |recent|);
    assert recent[j] == standing[k];
    CutOut(recent, standing, k);
    hide Ordered, Remove;
  }

  lemma RemoveForgotten(recent: seq<Stamp>, standing: seq<Stamp>, k: nat, now: real)
    requires Remembers(recent, standing, now) && Ordered(standing)
    requires k < |standing| - |recent|
    ensures Remove(recent, standing[k]) == recent
    ensures Remembers(recent, standing[..k] + standing[k + 1..], now)
  {
    SuffixOrdered(recent, standing, now);
    assert forall i | 0 <= i < |recent| :: recent[i].sequence > standing[k].sequence;
    RemoveAt(recent, standing[k]);
    DropBefore(recent, standing, k, now);
  }

  lemma DropBefore(recent: seq<Stamp>, standing: seq<Stamp>, k: nat, now: real)
    requires Remembers(recent, standing, now) && k < |standing| - |recent|
    ensures Remembers(recent, standing[..k] + standing[k + 1..], now)
  {
    var fewer := standing[..k] + standing[k + 1..];
    var gone := |standing| - |recent|;
    assert fewer[gone - 1..] == standing[gone..];
    forall i | 0 <= i < gone - 1 ensures Passed(fewer[i], now) {
      assert fewer[i] == standing[if i < k then i else i + 1];
    }
  }

  /** Taking one stamp out of the history and, if still there, out of the bucket. */
  lemma RemoveRemembers(recent: seq<Stamp>, standing: seq<Stamp>, stamp: Stamp, rolling: nat, now: real, sequence: nat)
    requires Remembers(recent, standing, now) && History(standing, rolling, now, sequence)
    ensures Remembers(Remove(recent, stamp), Remove(standing, stamp), now)
    ensures History(Remove(standing, stamp), rolling, now, sequence)
    ensures |Remove(recent, stamp)| <= |recent|
  {
    RemoveAt(standing, stamp);
    if stamp in standing {
      var k :| 0 <= k < |standing| && standing[k] == stamp;
      DropHistory(standing, k, rolling, now, sequence);
      if k >= |standing| - |recent| {
        RemoveKept(recent, standing, k, now);
      } else {
        RemoveForgotten(recent, standing, k, now);
      }
    } else {
      SuffixOrdered(recent, standing, now);
      assert stamp !in recent;
      RemoveAt(recent, stamp);
    }
  }

  lemma AppendHistory(recent: seq<Stamp>, standing: seq<Stamp>, l: Limits, now: real, sequence: nat)
    requires l.rolling > 0 && Remembers(recent, standing, now) && |recent| < l.rolling
    requires History(standing, l.rolling, now, sequence)
    ensures var stamp := Stamp(now, sequence + 1);
            History(standing + [stamp], l.rolling, now, sequence + 1)
            && Remembers(recent + [stamp], standing + [stamp], now)
  {
    var longer := standing + [Stamp(now, sequence + 1)];
    forall i, j | 0 <= i && i + l.rolling <= j < |longer| ensures longer[j].at - longer[i].at >= WINDOW_SECONDS {
      if j == |standing| {
        assert Passed(standing[i], now);
      }
    }
    assert recent + [Stamp(now, sequence + 1)] == longer[|longer| - |recent| - 1..];
  }

  // ---------------------------------------------------------------------------
  // The gate's invariant
  // ---------------------------------------------------------------------------

  ghost function OpenOf(open: set<Lease>, key: string): set<Lease> {
    set lease | lease in open && lease.key == key
  }

  /** One key: its bucket, its standing admissions, and how many of its leases are open. */
  ghost predicate KeyOk(bucket: Bucket, present: bool, standing: seq<Stamp>, held: nat, l: Limits, now: real, sequence: nat) {
    && bucket.inFlight == held && held <= l.perKey
    && |bucket.recent| <= l.rolling
    && Remembers(bucket.recent, standing, now)
    && History(standing, l.rolling, now, sequence)
    && (present ==> bucket.inFlight > 0 || bucket.recent != [])
    && (!present ==> bucket == Bucket(0, []))
  }

  ghost predicate BucketOk(o: Observed, l: Limits, now: real, key: string) {
    KeyOk(BucketOf(o.gate, key), key in o.gate.states, StandingOf(o, key), |OpenOf(o.open, key)|, l, now, o.gate.sequence)
  }

  ghost predicate Sound(o: Observed, l: Limits, now: real) {
    && o.gate.globalInFlight == |o.open| && o.gate.globalInFlight <= l.global
    && (forall lease | lease in o.open :: lease.stamp.sequence <= o.gate.sequence)
    && (forall key :: BucketOk(o, l, now, key))
  }

  lemma LaterKey(bucket: Bucket, present: bool, standing: seq<Stamp>, held: nat, l: Limits, before: real, now: real,
                 sequence: nat, later: nat)
    requires KeyOk(bucket, present, standing, held, l, before, sequence) && before <= now && sequence <= later
    ensures KeyOk(bucket, present, standing, held, l, now, later)
  {
  }

  lemma PrunedKey(bucket: Bucket, present: bool, standing: seq<Stamp>, held: nat, l: Limits, before: real, now: real,
                  sequence: nat)
    requires KeyOk(bucket, present, standing, held, l, before, sequence) && before <= now
    ensures var recent := Prune(bucket.recent, now);
            && |recent| <= l.rolling && Remembers(recent, standing, now) && History(standing, l.rolling, now, sequence)
            && (held > 0 || recent != [] ==>
                  KeyOk(bucket.(recent := recent), true, standing, held, l, now, sequence))
  {
    PruneSuffix(bucket.recent, now);
    PruneRemembers(bucket.recent, standing, before, now);
  }

  lemma AdmittedKey(bucket: Bucket, present: bool, standing: seq<Stamp>, held: nat, l: Limits, before: real, now: real,
                    sequence: nat)
    requires KeyOk(bucket, present, standing, held, l, before, sequence) && before <= now
    requires held < l.perKey && |Prune(bucket.recent, now)| < l.rolling
    ensures var stamp := Stamp(now, sequence + 1);
            KeyOk(Bucket(bucket.inFlight + 1, Prune(bucket.recent, now) + [stamp]), true, standing + [stamp],
                  held + 1, l, now, sequence + 1)
  {
    PrunedKey(bucket, present, standing, held, l, before, now, sequence);
    hide History, Remembers;
    AppendHistory(Prune(bucket.recent, now), standing, l, now, sequence);
  }

  lemma ReleasedKey(bucket: Bucket, standing: seq<Stamp>, held: nat, l: Limits, before: real, now: real,
                    sequence: nat, stamp: Stamp, rollback: bool)
    requires KeyOk(bucket, true, standing, held, l, before, sequence) && before <= now && held > 0
    ensures var kept := Prune(if rollback then Remove(bucket.recent, stamp) else bucket.recent, now);
            var left := if rollback then Remove(standing, stamp) else standing;
            KeyOk(Bucket(bucket.inFlight - 1, kept), bucket.inFlight - 1 > 0 || kept != [], left, held - 1, l, now, sequence)
  {
    hide History, Remembers, Remove, Prune;
    LaterKey(bucket, true, standing, held, l, before, now, sequence, sequence);
    RemoveRemembers(bucket.recent, standing, stamp, l.rolling, now, sequence);
    var kept := if rollback then Remove(bucket.recent, stamp) else bucket.recent;
    var left := if rollback then Remove(standing, stamp) else standing;
    PruneSuffix(kept, now);
    PruneRemembers(kept, left, now, now);
  }

  /** Only `key` is touched; the others keep their buckets as time passes. */
  lemma OthersOk(o: Observed, n: Observed, l: Limits, before: real, now: real, key: string)
    requires Sound(o, l, before) && before <= now && o.gate.sequence <= n.gate.sequence
    requires n.open <= o.open + OpenOf(n.open, key) && o.open <= n.open + OpenOf(o.open, key)
    requires forall other | other != key ::
               && (other in n.gate.states <==> other in o.gate.states)
               && BucketOf(n.gate, other) == BucketOf(o.gate, other) && StandingOf(n, other) == StandingOf(o, other)
    requires BucketOk(n, l, now, key)
    ensures forall other :: BucketOk(n, l, now, other)
  {
    forall other ensures BucketOk(n, l, now, other) {
      if other != key {
        hide KeyOk;
        assert OpenOf(n.open, other) == OpenOf(o.open, other);
        assert BucketOk(o, l, before, other);
        LaterKey(BucketOf(o.gate, other), other in o.gate.states, StandingOf(o, other), |OpenOf(o.open, other)|, l,
                 before, now, o.gate.sequence, n.gate.sequence);
      }
    }
  }

  /** An arrival touches one bucket and opens at most one lease of its key. */
  lemma ArrivesFrame(o: Observed, l: Limits, key: string, now: real)
    ensures var n := Next(o, l, Arrives(key, now));
            && o.gate.sequence <= n.gate.sequence
            && n.open <= o.open + OpenOf(n.open, key) && o.open <= n.open
            && (forall other | other != key ::
                  && (other in n.gate.states <==> other in o.gate.states)
                  && BucketOf(n.gate, other) == BucketOf(o.gate, other) && StandingOf(n, other) == StandingOf(o, other))
  {
  }

  lemma ArrivesGlobal(o: Observed, l: Limits, before: real, key: string, now: real)
    requires Sound(o, l, before)
    ensures var n := Next(o, l, Arrives(key, now));
            && n.gate.globalInFlight == |n.open| && n.gate.globalInFlight <= l.global
            && (forall lease | lease in n.open :: lease.stamp.sequence <= n.gate.sequence)
  {
    hide BucketOk, Prune, BucketOf, RetryAfter;
    var stamp := Stamp(now, o.gate.sequence + 1);
    assert Lease(key, stamp) !in o.open;
  }

  lemma ArrivesSound(o: Observed, l: Limits, before: real, key: string, now: real)
    requires Accepted(l) && Sound(o, l, before) && before <= now
    ensures Sound(Next(o, l, Arrives(key, now)), l, now)
  {
    hide BucketOk, Next;
    ArrivesKey(o, l, before, key, now);
    ArrivesFrame(o, l, key, now);
    ArrivesGlobal(o, l, before, key, now);
    OthersOk(o, Next(o, l, Arrives(key, now)), l, before, now, key);
  }

  lemma ArrivesKey(o: Observed, l: Limits, before: real, key: string, now: real)
    requires Accepted(l) && Sound(o, l, before) && before <= now
    ensures BucketOk(Next(o, l, Arrives(key, now)), l, now, key)
  {
    hide KeyOk, Prune, RetryAfter;
    var n := Next(o, l, Arrives(key, now));
    var bucket := BucketOf(o.gate, key);
    var standing := StandingOf(o, key);
    var held := |OpenOf(o.open, key)|;
    var present := key in o.gate.states;
    assert BucketOk(o, l, before, key);
    HeldIs(bucket, present, standing, held, l, before, o.gate.sequence);
    var verdict := Acquire(o.gate, l, key, now).1;
    if o.gate.globalInFlight >= l.global {
      LaterKey(bucket, present, standing, held, l, before, now, o.gate.sequence, o.gate.sequence);
    } else if verdict.Rejected? {
      PrunedKey(bucket, present, standing, held, l, before, now, o.gate.sequence);
    } else {
      AdmittedKey(bucket, present, standing, held, l, before, now, o.gate.sequence);
      OpenOneMore(o.open, verdict.lease);
      assert verdict.lease !in o.open;
    }
  }

  lemma OpenOneMore(open: set<Lease>, lease: Lease)
    requires lease !in open
    ensures |OpenOf(open + {lease}, lease.key)| == |OpenOf(open, lease.key)| + 1
  {
    assert OpenOf(open + {lease}, lease.key) == OpenOf(open, lease.key) + {lease};
  }

  lemma HeldIs(bucket: Bucket, present: bool, standing: seq<Stamp>, held: nat, l: Limits, now: real, sequence: nat)
    requires KeyOk(bucket, present, standing, held, l, now, sequence)
    ensures bucket.inFlight == held && (!present ==> bucket == Bucket(0, [])) && |bucket.recent| <= l.rolling
  {
  }

  lemma LeavesSound(o: Observed, l: Limits, before: real, lease: Lease, rollback: bool, now: real)
    requires Sound(o, l, before) && before <= now
    ensures Sound(Next(o, l, Leaves(lease, rollback, now)), l, now)
  {
    var n := Next(o, l, Leaves(lease, rollback, now));
    if lease in o.open {
      LeavesKey(o, l, before, lease, rollback, now);
      hide KeyOk, BucketOk;
      OthersOk(o, n, l, before, now, lease.key);
    } else {
      LaterSound(o, l, before, now);
    }
  }

  lemma LaterSound(o: Observed, l: Limits, before: real, now: real)
    requires Sound(o, l, before) && before <= now
    ensures Sound(o, l, now)
  {
    hide KeyOk;
    forall key ensures BucketOk(o, l, now, key) {
      assert BucketOk(o, l, before, key);
      LaterKey(BucketOf(o.gate, key), key in o.gate.states, StandingOf(o, key), |OpenOf(o.open, key)|, l,
               before, now, o.gate.sequence, o.gate.sequence);
    }
  }

  /** Releasing an open lease: the clamps at zero never fire. */
  lemma LeavesKey(o: Observed, l: Limits, before: real, lease: Lease, rollback: bool, now: real)
    requires Sound(o, l, before) && before <= now && lease in o.open
    ensures BucketOk(Next(o, l, Leaves(lease, rollback, now)), l, now, lease.key)
    ensures lease.key in o.gate.states && o.gate.states[lease.key].inFlight > 0 && o.gate.globalInFlight > 0
  {
    hide KeyOk;
    var key := lease.key;
    var n := Next(o, l, Leaves(lease, rollback, now));
    var bucket := BucketOf(o.gate, key);
    var held := |OpenOf(o.open, key)|;
    assert BucketOk(o, l, before, key);
    HeldIs(bucket, key in o.gate.states, StandingOf(o, key), held, l, before, o.gate.sequence);
    assert lease in OpenOf(o.open, key);
    assert OpenOf(n.open, key) == OpenOf(o.open, key) - {lease};
    ReleasedKey(bucket, StandingOf(o, key), held, l, before, now, o.gate.sequence, lease.stamp, rollback);
    if key !in n.gate.states {
      EmptyBucket(n, l, now, key);
    }
  }

  lemma EmptyBucket(n: Observed, l: Limits, now: real, key: string)
    requires key !in n.gate.states
    ensures BucketOf(n.gate, key) == Bucket(0, [])
  {
  }

  // ---------------------------------------------------------------------------
  // Over every run
  // ---------------------------------------------------------------------------

  lemma {:induction false} RunSound(l: Limits, events: seq<Event>, now: real)
    requires Accepted(l) && InOrder(events) && (events != [] ==> events[|events| - 1].now <= now)
    ensures Sound(Run(l, events), l, now)
  {
    if events == [] {
      EmptySound(l, now);
    } else {
      var n := |events| - 1;
      var last := events[n];
      RunSound(l, events[..n], last.now);
      hide Sound, Next;
      StepSound(Run(l, events[..n]), l, last.now, last);
      LaterSound(Run(l, events), l, last.now, now);
    }
  }

  lemma EmptySound(l: Limits, now: real)
    ensures Sound(Observed(Gate(map[], 0, 0), {}, map[]), l, now)
  {
    var o := Observed(Gate(map[], 0, 0), {}, map[]);
    forall key ensures BucketOk(o, l, now, key) {
      assert OpenOf({}, key) == {};
    }
  }

  lemma StepSound(o: Observed, l: Limits, before: real, e: Event)
    requires Accepted(l) && Sound(o, l, before) && before <= e.now
    ensures Sound(Next(o, l, e), l, e.now)
  {
    hide Sound, Next;
    match e
    case Arrives(key, now) => ArrivesSound(o, l, before, key, now);
    case Leaves(lease, rollback, now) => LeavesSound(o, l, before, lease, rollback, now);
  }

  /** The two in-flight counts are the open leases, in total and per key, within both limits; a
      release finds both counts positive; and every bucket kept has something to remember. */
  lemma InFlightIsOpenLeases(l: Limits, events: seq<Event>, key: string)
    requires Accepted(l) && InOrder(events)
    ensures var o := Run(l, events);
            && o.gate.globalInFlight == |o.open| <= l.global
            && BucketOf(o.gate, key).inFlight == |OpenOf(o.open, key)| <= l.perKey
            && (forall lease | lease in o.open && lease.key == key ::
                  key in o.gate.states && o.gate.states[key].inFlight > 0 && o.gate.globalInFlight > 0)
            && (key in o.gate.states ==> o.gate.states[key].inFlight > 0 || o.gate.states[key].recent != [])
  {
    var o := Run(l, events);
    var now := if events == [] then 0.0 else events[|events| - 1].now;
    RunSound(l, events, now);
    assert BucketOk(o, l, now, key);
    forall lease | lease in o.open && lease.key == key
      ensures key in o.gate.states && o.gate.states[key].inFlight > 0 && o.gate.globalInFlight > 0
    {
      LeavesKey(o, l, now, lease, false, now);
    }
  }

  ghost function InWindow(standing: seq<Stamp>, until: real): set<int> {
    set i | 0 <= i < |standing| && until - 60.0 < standing[i].at <= until
  }

  /** No half-open minute of a key holds more than `rolling` admissions that stood. */
  lemma WindowNeverCrowded(l: Limits, events: seq<Event>, key: string, until: real)
    requires Accepted(l) && InOrder(events)
    ensures |InWindow(StandingOf(Run(l, events), key), until)| <= l.rolling
  {
    var o := Run(l, events);
    var now := if events == [] then 0.0 else events[|events| - 1].now;
    RunSound(l, events, now);
    assert BucketOk(o, l, now, key);
    SpacedWindow(StandingOf(o, key), l.rolling, until);
  }

  lemma SpacedWindow(standing: seq<Stamp>, n: nat, until: real)
    requires Ordered(standing) && Spaced(standing, n)
    ensures |InWindow(standing, until)| <= n
  {
    var inside := InWindow(standing, until);
    var first := 0;
    while first < |standing| && first !in inside
      invariant first <= |standing| && forall i | i in inside :: first <= i
    {
      first := first + 1;
    }
    if first < |standing| {
      forall i | first + n <= i < |standing| ensures standing[i].at > until {
        assert standing[i].at - standing[first].at >= WINDOW_SECONDS;
      }
    }
    SubsetCounts(inside, Range(first, first + n));
  }

  /** What is left of a bucket's stamps: all of them, or fewer. */
  predicate Thinned(left: seq<Stamp>, stamps: seq<Stamp>) {
    left == stamps || |left| < |stamps|
  }

  lemma {:induction false} RemoveThins(stamps: seq<Stamp>, stamp: Stamp)
    ensures Thinned(Remove(stamps, stamp), stamps)
  {
    if stamps != [] && stamps[0] != stamp {
      RemoveThins(stamps[1..], stamp);
      assert stamps == [stamps[0]] + stamps[1..];
    }
  }

  /** An event admits `key`. */
  predicate Admits(o: Observed, l: Limits, e: Event, key: string) {
    e.Arrives? && e.key == key && Acquire(o.gate, l, key, e.now).1.Admitted?
  }

  /** Whatever happens but an admission of the key only thins its bucket. */
  lemma NextThins(o: Observed, l: Limits, e: Event, key: string)
    requires !Admits(o, l, e, key)
    ensures Thinned(BucketOf(Next(o, l, e).gate, key).recent, BucketOf(o.gate, key).recent)
  {
    hide Prune, Remove, RetryAfter, StandingOf;
    var recent := BucketOf(o.gate, key).recent;
    PruneThins(recent, e.now);
    if e.Leaves? {
      RemoveThins(recent, e.lease.stamp);
      PruneThins(Remove(recent, e.lease.stamp), e.now);
    }
  }

  lemma PruneThins(stamps: seq<Stamp>, now: real)
    ensures Thinned(Prune(stamps, now), stamps)
  {
    PruneSuffix(stamps, now);
  }

  /** None of the events that follow `events` admits the key. */
  ghost predicate NoneAdmits(l: Limits, events: seq<Event>, more: seq<Event>, key: string) {
    forall i | 0 <= i < |more| :: !Admits(Run(l, events + more[..i]), l, more[i], key)
  }

  lemma {:induction false} RunThins(l: Limits, events: seq<Event>, more: seq<Event>, key: string)
    requires NoneAdmits(l, events, more, key)
    ensures Thinned(BucketOf(Run(l, events + more).gate, key).recent, BucketOf(Run(l, events).gate, key).recent)
    decreases |more|
  {
    hide Next, Acquire, BucketOf;
    if more == [] {
      assert events + more == events;
    } else {
      var n := |more| - 1;
      forall i | 0 <= i < n ensures !Admits(Run(l, events + more[..n][..i]), l, more[..n][i], key) {
        assert more[..n][..i] == more[..i];
      }
      RunThins(l, events, more[..n], key);
      assert (events + more)[..|events + more| - 1] == events + more[..n];
      NextThins(Run(l, events + more[..n]), l, more[n], key);
    }
  }

  /** A rejection for rate tells the truth. Whatever happens after it but an admission of the key, be it traffic
      of other keys, releases, rollbacks or further refused attempts, at any reading `retryAfter` seconds on the
      window has room, and the key is admitted if both concurrency limits allow it. */
  lemma RetryAfterSuffices(l: Limits, events: seq<Event>, key: string, now: real, more: seq<Event>, later: real)
    requires Accepted(l) && InOrder(events) && (events != [] ==> events[|events| - 1].now <= now)
    requires var g := Run(l, events).gate;
             g.globalInFlight < l.global && BucketOf(g, key).inFlight < l.perKey
    requires var verdict := Acquire(Run(l, events).gate, l, key, now).1;
             verdict.Rejected? && later >= now + verdict.retryAfter as real
    requires NoneAdmits(l, events + [Arrives(key, now)], more, key)
    ensures var g := Run(l, events + [Arrives(key, now)] + more).gate;
            && |Prune(BucketOf(g, key).recent, later)| < l.rolling
            && (g.globalInFlight < l.global && BucketOf(g, key).inFlight < l.perKey ==>
                  Acquire(g, l, key, later).1.Admitted?)
  {
    var first := events + [Arrives(key, now)];
    assert first[..|events|] == events;
    RunSound(l, events, now);
    RateRejected(Run(l, events), l, key, now, later);
    RunThins(l, first, more, key);
    hide Run, Next, BucketOf, Prune, Thinned;
    RoomLeft(Run(l, first + more).gate, BucketOf(Run(l, first).gate, key).recent, l, key, later);
  }

  /** A rejection for rate leaves a full bucket whose oldest stamp has passed `retryAfter` seconds on. */
  lemma RateRejected(o: Observed, l: Limits, key: string, now: real, later: real)
    requires Accepted(l) && Sound(o, l, now)
    requires o.gate.globalInFlight < l.global && BucketOf(o.gate, key).inFlight < l.perKey
    requires var verdict := Acquire(o.gate, l, key, now).1;
             verdict.Rejected? && later >= now + verdict.retryAfter as real
    ensures var full := BucketOf(Next(o, l, Arrives(key, now)).gate, key).recent;
            0 < |full| <= l.rolling && Passed(full[0], later)
  {
    assert BucketOk(o, l, now, key);
    var recent := BucketOf(o.gate, key).recent;
    PruneSuffix(recent, now);
    hide Prune;
    assert BucketOf(Next(o, l, Arrives(key, now)).gate, key).recent == Prune(recent, now);
  }

  lemma RoomLeft(g: Gate, full: seq<Stamp>, l: Limits, key: string, later: real)
    requires Accepted(l) && 0 < |full| <= l.rolling && Passed(full[0], later)
    requires Thinned(BucketOf(g, key).recent, full)
    ensures |Prune(BucketOf(g, key).recent, later)| < l.rolling
    ensures g.globalInFlight < l.global && BucketOf(g, key).inFlight < l.perKey ==> Acquire(g, l, key, later).1.Admitted?
  {
    PruneSuffix(BucketOf(g, key).recent, later);
  }

  /** The event gives back no admission of the key, and is read no later than `until`. */
  predicate KeepsStamps(e: Event, key: string, until: real) {
    e.now <= until && (e.Leaves? && e.rollback ==> e.lease.key != key)
  }

  /** A full bucket whose oldest stamp is still inside the window refuses the key, and stays as it is. */
  lemma FullStays(o: Observed, l: Limits, e: Event, key: string, until: real)
    requires Accepted(l) && KeepsStamps(e, key, until)
    requires var full := BucketOf(o.gate, key).recent; |full| >= l.rolling && !Passed(full[0], until)
    ensures !Admits(o, l, e, key) && BucketOf(Next(o, l, e).gate, key).recent == BucketOf(o.gate, key).recent
  {
    hide StandingOf, RetryAfter;
    assert Prune(BucketOf(o.gate, key).recent, e.now) == BucketOf(o.gate, key).recent;
  }

  lemma {:induction false} RunStaysFull(l: Limits, events: seq<Event>, more: seq<Event>, key: string, until: real)
    requires Accepted(l) && forall e | e in more :: KeepsStamps(e, key, until)
    requires var full := BucketOf(Run(l, events).gate, key).recent; |full| >= l.rolling && !Passed(full[0], until)
    ensures NoneAdmits(l, events, more, key)
    ensures BucketOf(Run(l, events + more).gate, key).recent == BucketOf(Run(l, events).gate, key).recent
    decreases |more|
  {
    hide Next, Acquire, BucketOf;
    if more == [] {
      assert events + more == events;
    } else {
      var n := |more| - 1;
      assert more == more[..n] + [more[n]];
      RunStaysFull(l, events, more[..n], key, until);
      assert (events + more)[..|events + more| - 1] == events + more[..n];
      FullStays(Run(l, events + more[..n]), l, more[n], key, until);
      forall i | 0 <= i < |more| ensures !Admits(Run(l, events + more[..i]), l, more[i], key) {
        if i < n { assert more[..n][..i] == more[..i] && more[..n][i] == more[i]; }
      }
    }
  }

  /** And it announces no more than that: until one second before the announced time the key is refused, whatever
      happens meanwhile but a rollback of one of its own admissions. */
  lemma RetryAfterNeeded(l: Limits, events: seq<Event>, key: string, now: real, more: seq<Event>, later: real)
    requires Accepted(l) && InOrder(events) && (events != [] ==> events[|events| - 1].now <= now)
    requires var g := Run(l, events).gate;
             g.globalInFlight < l.global && BucketOf(g, key).inFlight < l.perKey
    requires var verdict := Acquire(Run(l, events).gate, l, key, now).1;
             verdict.Rejected? && now <= later <= now + verdict.retryAfter as real - 1.0
    requires forall e | e in more :: KeepsStamps(e, key, later)
    ensures NoneAdmits(l, events + [Arrives(key, now)], more, key)
    ensures Acquire(Run(l, events + [Arrives(key, now)] + more).gate, l, key, later).1.Rejected?
  {
    var first := events + [Arrives(key, now)];
    assert first[..|events|] == events;
    RunSound(l, events, now);
    RateStillFull(Run(l, events), l, key, now, later);
    RunStaysFull(l, first, more, key, later);
    hide Run, Next, BucketOf;
    FullStays(Run(l, first + more), l, Arrives(key, later), key, later);
  }

  lemma RateStillFull(o: Observed, l: Limits, key: string, now: real, later: real)
    requires Accepted(l)
    requires o.gate.globalInFlight < l.global && BucketOf(o.gate, key).inFlight < l.perKey
    requires var verdict := Acquire(o.gate, l, key, now).1;
             verdict.Rejected? && now <= later <= now + verdict.retryAfter as real - 1.0
    ensures var full := BucketOf(Next(o, l, Arrives(key, now)).gate, key).recent;
            |full| >= l.rolling && !Passed(full[0], later)
  {
    var recent := BucketOf(o.gate, key).recent;
    PruneSuffix(recent, now);
    hide Prune;
    assert BucketOf(Next(o, l, Arrives(key, now)).gate, key).recent == Prune(recent, now);
  }

  /** The gate admits exactly while fewer than `global` leases are open, fewer than `perKey` of the key, and fewer
      than `rolling` standing admissions of the key lie in the last minute; a refusal for concurrency announces one
      second. */
  lemma AdmitsWithinLimits(l: Limits, events: seq<Event>, key: string, now: real)
    requires Accepted(l) && InOrder(events) && (events != [] ==> events[|events| - 1].now <= now)
    ensures var o := Run(l, events);
            var verdict := Acquire(o.gate, l, key, now).1;
            var room := |o.open| < l.global && |OpenOf(o.open, key)| < l.perKey;
            && (verdict.Admitted? <==> room && |InWindow(StandingOf(o, key), now)| < l.rolling)
            && (!room ==> verdict == Rejected(1))
            && (verdict.Admitted? ==> verdict.lease.key == key && verdict.lease.stamp.at == now && verdict.lease !in o.open)
  {
    RunSound(l, events, now);
    var o := Run(l, events);
    assert BucketOk(o, l, now, key);
    var recent := BucketOf(o.gate, key).recent;
    LiveStamps(recent, StandingOf(o, key), now, l.rolling, o.gate.sequence);
    hide Prune, Run, InWindow;
  }

  /** The stamps kept, once pruned, are the standing admissions of the last minute. */
  lemma LiveStamps(recent: seq<Stamp>, standing: seq<Stamp>, now: real, rolling: nat, sequence: nat)
    requires Remembers(recent, standing, now) && History(standing, rolling, now, sequence)
    ensures |Prune(recent, now)| == |InWindow(standing, now)|
  {
    PruneRemembers(recent, standing, now, now);
    PruneSuffix(recent, now);
    var live := Prune(recent, now);
    var gone := |standing| - |live|;
    assert live != [] ==> live[0] == standing[gone];
    hide Prune, Range;
    forall i ensures i in InWindow(standing, now) <==> i in Range(gone, |standing|) {
      if gone <= i < |standing| { assert standing[gone].at <= standing[i].at; }
    }
    assert InWindow(standing, now) == Range(gone, |standing|);
  }
}
