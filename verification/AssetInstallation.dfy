/** The asset authority and the installation Root: a two-party commit with recovery.

    The durable state of both parties, the steps that may change it, and what holds in
    every durable state whatever crashes happen in between. */
module AssetAuthority {
  import opened Wrappers

  /** A mutation sequence number together with the digest of the state it names. */
  datatype Proof = Proof(sequence: nat, digest: string)

  datatype Status = Provisioning | Active | Locked

  /** Root's record of the asset component. `binding` stands for the installation, epoch and
      component identity; `fence` is the recovery floor with its digest. */
  datatype Root = Root(status: Status, binding: nat, bound: bool, floor: Proof, fence: Option<Proof>, revision: nat)

  /** The asset store's own authority record. */
  datatype Local = Normal(proof: Proof) | ManualOnly(proof: Proof, recovery: Proof)

  /** `confirmed` collects the proofs Root accepted as a bind or a regular advance. */
  datatype Durable = Durable(root: Root, local: Local, confirmed: set<Proof>)

  // ---------------------------------------------------------------------------
  // Root transactions
  // ---------------------------------------------------------------------------

  /** Root's state after the transaction, and whether the caller is told it succeeded. */
  type Answer = (Root, bool)

  function IntegrityLock(r: Root): Root {
    r.(status := Locked, revision := r.revision + 1)
  }

  function BindComponent(r: Root, binding: nat, proof: Proof, revision: nat, completes: bool): Answer {
    if r.status.Active? then (r, r.binding == binding && r.bound && r.floor == proof)
    else if r.binding != binding then (r, false)
    else if r.bound then
      if r.floor == proof then (r, true)
      else if r.revision != revision then (r, false)
      else (IntegrityLock(r), false)
    else if !r.status.Provisioning? || r.revision != revision then (r, false)
    else (r.(bound := true, floor := proof, fence := None, revision := r.revision + 1,
             status := if completes then Active else Provisioning), true)
  }

  function VerifyComponent(r: Root, binding: nat, proof: Proof, previousDigest: string): Answer {
    if r.binding != binding || !r.status.Active? then (r, false)
    else if !r.bound then (IntegrityLock(r), false)
    else if r.floor == proof then (r, true)
    else if r.fence.Some? then (r, false)
    else if proof.sequence == r.floor.sequence + 1 && previousDigest == r.floor.digest then
      (r.(floor := proof, fence := Some(proof), revision := r.revision + 1), true)
    else (IntegrityLock(r), false)
  }

  function AcknowledgeRecovery(r: Root, binding: nat, recovery: Proof, next: Proof, revision: nat): Answer {
    if next.digest == recovery.digest || next.sequence != recovery.sequence + 1 then (r, false)
    else if r.binding != binding || !r.status.Active? then (r, false)
    else if !r.bound then (IntegrityLock(r), false)
    else if r.floor == next && r.fence.None? then (r, true)
    else if r.revision != revision then (r, false)
    else if r.floor != recovery || r.fence != Some(recovery) then (IntegrityLock(r), false)
    else (r.(floor := next, fence := None, revision := r.revision + 1), true)
  }

  function AdvanceComponent(r: Root, binding: nat, expected: Proof, next: Proof, revision: nat): Answer {
    if next.digest == expected.digest || next.sequence != expected.sequence + 1 then (r, false)
    else if r.binding != binding || !r.status.Active? then (r, false)
    else if !r.bound then (IntegrityLock(r), false)
    else if r.floor == next then (r, true)
    else if r.revision != revision then (r, false)
    else if r.floor != expected then (IntegrityLock(r), false)
    else if r.fence.Some? then (r, false)
    else (r.(floor := next, fence := None, revision := r.revision + 1), true)
  }

  // ---------------------------------------------------------------------------
  // Durable steps
  // ---------------------------------------------------------------------------

  /** The asset component is as before; the rest of Root may have moved. */
  predicate SameComponent(r: Root, q: Root) {
    r.bound == q.bound && r.floor == q.floor && r.fence == q.fence
  }

  /** Other components, operators, and transactions that change nothing here. */
  predicate Elsewhere(a: Durable, b: Durable) {
    b.local == a.local && b.confirmed == a.confirmed && SameComponent(a.root, b.root)
  }

  predicate Binds(a: Durable, b: Durable) {
    && !a.root.bound && a.local.Normal?
    && b.local == a.local && b.root.bound && b.root.floor == a.local.proof && b.root.fence.None?
    && b.confirmed == a.confirmed + {a.local.proof}
  }

  predicate CommitsLocally(a: Durable, b: Durable) {
    && a.root.bound && a.root.fence.None? && a.local == Normal(a.root.floor)
    && b.local.Normal? && b.local.proof.sequence == a.local.proof.sequence + 1
    && b.root == a.root && b.confirmed == a.confirmed
  }

  predicate Advances(a: Durable, b: Durable) {
    && a.root.bound && a.root.fence.None? && a.local.Normal? && a.local.proof.sequence == a.root.floor.sequence + 1
    && b.local == a.local && b.root.bound && b.root.floor == a.local.proof && b.root.fence.None?
    && b.confirmed == a.confirmed + {a.local.proof}
  }

  predicate Fences(a: Durable, b: Durable) {
    && a.root.bound && a.root.fence.None? && a.local.Normal? && a.local.proof.sequence == a.root.floor.sequence + 1
    && b.local == a.local && b.root.bound && b.root.floor == a.local.proof && b.root.fence == Some(a.local.proof)
    && b.confirmed == a.confirmed
  }

  predicate EntersManualOnly(a: Durable, b: Durable) {
    && a.root.bound && a.local == Normal(a.root.floor) && a.root.fence == Some(a.root.floor)
    && b.local.ManualOnly? && b.local.recovery == a.local.proof
    && b.local.proof.sequence == a.local.proof.sequence + 1
    && b.root == a.root && b.confirmed == a.confirmed
  }

  predicate Acknowledges(a: Durable, b: Durable) {
    && a.root.bound && a.local.ManualOnly? && a.root.floor == a.local.recovery && a.root.fence == Some(a.local.recovery)
    && b.local == a.local && b.root.bound && b.root.floor == a.local.proof && b.root.fence.None?
    && b.confirmed == a.confirmed
  }

  predicate DurableStep(a: Durable, b: Durable) {
    || Elsewhere(a, b) || Binds(a, b) || CommitsLocally(a, b) || Advances(a, b)
    || Fences(a, b) || EntersManualOnly(a, b) || Acknowledges(a, b)
  }

  // ---------------------------------------------------------------------------
  // What a transaction decides
  // ---------------------------------------------------------------------------

  /** Root refused: either nothing happened, or the evidence contradicts Root's own record and Root locked itself. */
  predicate Refuses(r: Root, q: Root, conflict: bool) {
    if conflict then q.status.Locked? && q.binding == r.binding && SameComponent(r, q) && q.revision == r.revision + 1
    else q == r
  }

  /** A bind succeeds for the proof already bound, and for an unbound component while Root is provisioned and was not
      changed since it was read. Another proof than the bound one locks a Root that is not active. */
  lemma BindDecides(r: Root, binding: nat, proof: Proof, revision: nat, completes: bool)
    ensures var (q, ok) := BindComponent(r, binding, proof, revision, completes);
            && (ok <==> r.binding == binding &&
                        if r.bound then r.floor == proof else r.status.Provisioning? && r.revision == revision)
            && (ok ==> q.bound && q.floor == proof && q.binding == binding)
            && (ok && r.bound ==> q == r)
            && (ok && !r.bound ==> q.fence.None? && q.revision == r.revision + 1 &&
                                   q.status == if completes then Active else Provisioning)
            && (!ok ==> Refuses(r, q, r.binding == binding && !r.status.Active? && r.bound && r.revision == revision))
  {
  }

  /** A verification succeeds for Root's own floor, and for its unfenced direct successor, which it fences. An unbound
      component or a proof of any other past locks Root. */
  lemma VerifyDecides(r: Root, binding: nat, proof: Proof, previousDigest: string)
    ensures var (q, ok) := VerifyComponent(r, binding, proof, previousDigest);
            var asked := r.binding == binding && r.status.Active?;
            var follows := r.fence.None? && proof.sequence == r.floor.sequence + 1 && previousDigest == r.floor.digest;
            && (ok <==> asked && r.bound && (r.floor == proof || follows))
            && (ok ==> q.floor == proof && q.bound && q.binding == binding && q.status.Active?)
            && (ok && r.floor == proof ==> q == r)
            && (ok && r.floor != proof ==> q.fence == Some(proof) && q.revision == r.revision + 1)
            && (!ok ==> Refuses(r, q, asked && (!r.bound || (r.fence.None? && r.floor != proof))))
  {
  }

  /** An acknowledgement succeeds for the unfenced floor it asks for, and for a Root unchanged since it was read whose
      fence stands at the recovered proof. It must follow that proof with a new digest. */
  lemma AcknowledgeDecides(r: Root, binding: nat, recovery: Proof, next: Proof, revision: nat)
    ensures var (q, ok) := AcknowledgeRecovery(r, binding, recovery, next, revision);
            var asked := && next.digest != recovery.digest && next.sequence == recovery.sequence + 1
                         && r.binding == binding && r.status.Active?;
            var already := r.floor == next && r.fence.None?;
            var fenced := r.floor == recovery && r.fence == Some(recovery);
            && (ok <==> asked && r.bound && (already || (r.revision == revision && fenced)))
            && (ok ==> q.floor == next && q.fence.None? && q.bound && q.binding == binding && q.status.Active?)
            && (ok && already ==> q == r)
            && (ok && !already ==> q.revision == r.revision + 1)
            && (!ok ==> Refuses(r, q, asked && (!r.bound || (!already && r.revision == revision))))
  {
  }

  /** An advance succeeds for the floor it asks for, and from the unfenced floor it expects in a Root unchanged since
      it was read. A fence refuses it; another floor locks Root. */
  lemma AdvanceDecides(r: Root, binding: nat, expected: Proof, next: Proof, revision: nat)
    ensures var (q, ok) := AdvanceComponent(r, binding, expected, next, revision);
            var asked := && next.digest != expected.digest && next.sequence == expected.sequence + 1
                         && r.binding == binding && r.status.Active?;
            && (ok <==> asked && r.bound &&
                        (r.floor == next || (r.revision == revision && r.floor == expected && r.fence.None?)))
            && (ok ==> q.floor == next && q.bound && q.binding == binding && q.status.Active?)
            && (ok && r.floor == next ==> q == r)
            && (ok && r.floor != next ==> q.fence.None? && q.revision == r.revision + 1)
            && (!ok ==> Refuses(r, q, asked && (!r.bound || (r.floor != next && r.revision == revision && r.floor != expected))))
  {
  }

  /** Whoever lost the answer of a success may ask again, whatever revision he believes in: Root answers the same and
      changes nothing. */
  lemma LostAnswersCanBeAskedAgain(r: Root, binding: nat, expected: Proof, next: Proof, revision: nat, again: nat,
                                   digest: string, completes: bool, later: bool)
    ensures var (q, ok) := BindComponent(r, binding, next, revision, completes);
            ok ==> BindComponent(q, binding, next, again, later) == (q, true)
    ensures var (q, ok) := VerifyComponent(r, binding, next, digest);
            ok ==> VerifyComponent(q, binding, next, digest) == (q, true)
    ensures var (q, ok) := AcknowledgeRecovery(r, binding, expected, next, revision);
            ok ==> AcknowledgeRecovery(q, binding, expected, next, again) == (q, true)
    ensures var (q, ok) := AdvanceComponent(r, binding, expected, next, revision);
            ok ==> AdvanceComponent(q, binding, expected, next, again) == (q, true)
  {
  }

  /** A sequence of durable states, each one step after the other. */
  predicate History(trail: seq<Durable>) {
    trail != [] && forall i | 0 < i < |trail| :: DurableStep(trail[i - 1], trail[i])
  }

  /** A fresh installation: an unbound component and a normal store. */
  predicate Fresh(d: Durable) {
    !d.root.bound && d.root.fence.None? && d.local.Normal?
  }

  /** Root and the store are in lockstep.  Without a fence a normal store is level with Root or
      one mutation ahead, and level means confirmed; a fence always names Root's own floor. */
  predicate Lockstep(d: Durable) {
    if !d.root.bound then d.root.fence.None? && d.local.Normal?
    else if d.root.fence.None? then
      match d.local
      case Normal(proof) =>
        if proof.sequence == d.root.floor.sequence then proof == d.root.floor && proof in d.confirmed
        else proof.sequence == d.root.floor.sequence + 1
      case ManualOnly(proof, recovery) => d.root.floor == proof && proof.sequence == recovery.sequence + 1
    else
      && d.root.fence.value == d.root.floor
      && match d.local
         case Normal(proof) => proof == d.root.floor
         case ManualOnly(proof, recovery) => recovery == d.root.floor && proof.sequence == recovery.sequence + 1
  }

  lemma StepKeepsLockstep(a: Durable, b: Durable)
    requires Lockstep(a) && DurableStep(a, b)
    ensures Lockstep(b)
  {
  }

  /** In every durable state of every history, crashes included, the parties are in lockstep. */
  lemma {:induction false} HistoryLockstep(trail: seq<Durable>, i: nat)
    requires History(trail) && Lockstep(trail[0]) && i < |trail|
    ensures Lockstep(trail[i])
  {
    if i > 0 {
      HistoryLockstep(trail, i - 1);
      StepKeepsLockstep(trail[i - 1], trail[i]);
    }
  }

  /** The store is level with a bound Root or exactly one ahead, and never behind. */
  lemma NeverFarAhead(trail: seq<Durable>, i: nat)
    requires History(trail) && Fresh(trail[0]) && i < |trail| && trail[i].root.bound
    ensures var d := trail[i];
            d.local.proof.sequence == d.root.floor.sequence || d.local.proof.sequence == d.root.floor.sequence + 1
  {
    HistoryLockstep(trail, i);
  }

  /** Once manual-only, the store stays so and its record never changes again. */
  lemma {:induction false} ManualOnlyIsFinal(trail: seq<Durable>, i: nat, j: nat)
    requires History(trail) && i <= j < |trail| && trail[i].local.ManualOnly?
    ensures trail[j].local == trail[i].local
    decreases j
  {
    if i < j {
      ManualOnlyIsFinal(trail, i, j - 1);
      assert DurableStep(trail[j - 1], trail[j]);
    }
  }

  /** A mutation that Root closed by a fence is never confirmed: from the fence on the only way
      out is the manual-only record. */
  lemma {:induction false} FencedNeverNormalAgain(trail: seq<Durable>, i: nat, j: nat)
    requires History(trail) && Lockstep(trail[0]) && i <= j < |trail|
    requires trail[i].root.bound && trail[i].root.fence.Some?
    ensures trail[j].root.bound
    ensures trail[j].root.fence.Some? || trail[j].local.ManualOnly?
    ensures trail[j].confirmed == trail[i].confirmed
    decreases j
  {
    if i < j {
      FencedNeverNormalAgain(trail, i, j - 1);
      HistoryLockstep(trail, j - 1);
      assert DurableStep(trail[j - 1], trail[j]);
    }
  }
}

/** The controller of one opened asset store: startup reconciliation, the pre-mutation and
    commit hooks, and the mutation path of the store that calls them. */
module AssetControl {
  import opened AssetAuthority
  import opened Wrappers

  const MAX_ROOT_CAS_CALLS: nat := 4

  datatype Mode = Detached | ProvisionedNotActive | Ready | ManualOnlyMode | Fused

  /** The commit hook confirms the mutation, is refused at the door, or gives up. */
  datatype HookResult = Confirmed | RefusedAtEntry | Unconfirmed

  datatype Fault = Deliver | LoseResponse | NoEffect

  /** What happens around one call to Root: first others act, then the call is treated. */
  datatype Weather = Weather(status: Option<Status>, drift: bool, bump: bool, readFails: bool, fault: Fault)

  function Buffeted(r: Root, weather: Weather): Root {
    r.(status := if weather.status.Some? then weather.status.value else r.status,
       binding := if weather.drift then r.binding + 1 else r.binding,
       revision := if weather.bump then r.revision + 1 else r.revision)
  }

  /** Nobody locks Root or changes its identity, and reads succeed. */
  predicate Calm(weather: Weather) {
    weather.status.None? && !weather.drift && !weather.readFails
  }

  /** A write under this weather takes effect. */
  predicate Effective(weather: Weather) {
    Calm(weather) && !weather.bump && !weather.fault.NoEffect?
  }

  /** Among the next writes of a loop that reads at `now`, one within the bound takes effect. */
  ghost predicate Window(plan: nat -> Weather, now: nat) {
    && (forall i | now <= i <= now + 2 * MAX_ROOT_CAS_CALLS :: Calm(plan(i)))
    && exists j :: 0 <= j < MAX_ROOT_CAS_CALLS && Effective(plan(now + 2 * j + 1))
  }

  /** Enough such windows for a whole reconciliation. */
  ghost predicate Cooperative(plan: nat -> Weather, now: nat) {
    forall t | now <= t <= now + 2 * MAX_ROOT_CAS_CALLS + 2 :: Window(plan, t)
  }

  /** The commit hook's reads and writes meet no interference but revision bumps and faults. */
  ghost predicate CalmHook(plan: nat -> Weather, now: nat) {
    forall i | now <= i < now + 2 * MAX_ROOT_CAS_CALLS :: Calm(plan(i))
  }

  /** One of the hook's first three writes takes effect, or the fourth both takes effect and is answered. */
  ghost predicate HookWindow(plan: nat -> Weather, now: nat) {
    && CalmHook(plan, now)
    && exists j :: 0 <= j < MAX_ROOT_CAS_CALLS && Effective(plan(now + 2 * j + 1))
                   && (j == MAX_ROOT_CAS_CALLS - 1 ==> plan(now + 2 * j + 1).fault.Deliver?)
  }

  /** The hook's fourth write is the first to take effect, and its answer is lost. */
  ghost predicate LastAnswerLost(plan: nat -> Weather, now: nat) {
    && CalmHook(plan, now)
    && (forall j | 0 <= j < MAX_ROOT_CAS_CALLS - 1 :: !Effective(plan(now + 2 * j + 1)))
    && var last := plan(now + 2 * MAX_ROOT_CAS_CALLS - 1);
       Effective(last) && !last.fault.Deliver?
  }

  /** None of the hook's first `k` writes takes effect. */
  ghost predicate NoneTakes(plan: nat -> Weather, now: nat, k: nat) {
    forall i | 0 <= i < k :: !Effective(plan(now + 2 * i + 1))
  }

  lemma NoneTakesAtFirst(plan: nat -> Weather, now: nat)
    ensures NoneTakes(plan, now, 0)
  {
  }

  lemma NoneTakesMore(plan: nat -> Weather, now: nat, k: nat)
    requires NoneTakes(plan, now, k) && !Effective(plan(now + 2 * k + 1))
    ensures NoneTakes(plan, now, k + 1)
  {
  }

  lemma CalmInHook(plan: nat -> Weather, now: nat, k: nat)
    requires CalmHook(plan, now) && k < 2 * MAX_ROOT_CAS_CALLS
    ensures Calm(plan(now + k))
  {
  }

  /** In calm weather the first write to take effect decides: the hook sees it, unless it is the last and its answer
      is lost. */
  lemma FirstEffectDecides(plan: nat -> Weather, now: nat, j: nat)
    requires CalmHook(plan, now) && j < MAX_ROOT_CAS_CALLS && NoneTakes(plan, now, j) && Effective(plan(now + 2 * j + 1))
    ensures HookWindow(plan, now) <==> j < MAX_ROOT_CAS_CALLS - 1 || plan(now + 2 * j + 1).fault.Deliver?
    ensures LastAnswerLost(plan, now) <==> !HookWindow(plan, now)
  {
  }

  lemma NoEffectDecides(plan: nat -> Weather, now: nat)
    requires NoneTakes(plan, now, MAX_ROOT_CAS_CALLS)
    ensures !HookWindow(plan, now) && !LastAnswerLost(plan, now)
  {
    assert !Effective(plan(now + 2 * (MAX_ROOT_CAS_CALLS - 1) + 1));
  }

  lemma CalmLeaves(r: Root, weather: Weather)
    ensures Calm(weather) ==> Buffeted(r, weather) == r.(revision := Buffeted(r, weather).revision) && !weather.readFails
  {
  }

  lemma SameWeather(plan: nat -> Weather, i: nat, j: nat)
    requires i == j
    ensures plan(i) == plan(j)
  {
  }

  lemma CalmInWindow(plan: nat -> Weather, now: nat, k: nat)
    requires k <= 2 * MAX_ROOT_CAS_CALLS
    ensures Window(plan, now) ==> Calm(plan(now + k))
  {
  }

  lemma CooperativeHere(plan: nat -> Weather, now: nat)
    ensures Cooperative(plan, now) ==> Window(plan, now)
  {
  }

  lemma WindowHasEffect(plan: nat -> Weather, now: nat)
    requires forall j | 0 <= j < MAX_ROOT_CAS_CALLS :: !Effective(plan(now + 2 * j + 1))
    ensures !Window(plan, now)
  {
  }

  class AssetControl {
    const expected: nat
    const plan: nat -> Weather
    const nextDigest: Proof -> string
    const storeHealthy: bool

    var world: Durable
    var mode: Mode
    var published: Proof
    var inFlight: bool
    var closing: bool
    var pending: Option<Proof>      // a local commit whose confirmation failed
    var tick: nat
    var writes: nat
    ghost var trail: seq<Durable>

    /** The trail is a history that ends in the present durable state. */
    ghost predicate Linked()
      reads this
    {
      History(trail) && trail[|trail| - 1] == world && Lockstep(trail[0])
    }

    /** A ready controller with nothing pending is level with Root. */
    ghost predicate Valid()
      reads this
    {
      && Linked() && !inFlight
      && (mode.Ready? && pending.None? ==>
            world.root.bound && world.root.fence.None? && world.local == Normal(published) && world.root.floor == published)
    }

    /** `earlier` is an initial part of the trail. */
    ghost predicate Extends(earlier: seq<Durable>)
      reads this
    {
      |earlier| <= |trail| && trail[..|earlier|] == earlier
    }

    lemma InLockstep()
      requires Linked()
      ensures Lockstep(world)
    {
      HistoryLockstep(trail, |trail| - 1);
    }

    /** Opening the store after a start or a crash, from whatever the trail left behind. */
    constructor (trail: seq<Durable>, expected: nat, plan: nat -> Weather, nextDigest: Proof -> string,
                 storeHealthy: bool)
      requires History(trail) && Lockstep(trail[0])
      ensures Valid() && this.trail == trail && world == trail[|trail| - 1]
      ensures mode == Detached && !closing && pending.None? && writes == 0 && tick == 0
      ensures this.expected == expected && this.plan == plan && this.nextDigest == nextDigest
      ensures this.storeHealthy == storeHealthy
    {
      this.expected := expected;
      this.plan := plan;
      this.nextDigest := nextDigest;
      world := trail[|trail| - 1];
      mode := Detached;
      published := Proof(0, "");
      inFlight, closing, pending := false, false, None;
      this.storeHealthy := storeHealthy;
      tick, writes := 0, 0;
      this.trail := trail;
    }

    method Record(next: Durable)
      requires Linked() && DurableStep(world, next)
      modifies this`world, this`trail
      ensures Linked() && world == next && Extends(old(trail))
    {
      world := next;
      trail := trail + [next];
    }

    /** One call to Root begins: others may have acted meanwhile. */
    method Begin() returns (weather: Weather)
      requires Linked()
      modifies this`world, this`trail, this`tick
      ensures Linked() && Extends(old(trail)) && tick == old(tick) + 1
      ensures weather == plan(old(tick)) && world == old(world).(root := Buffeted(old(world).root, weather))
    {
      weather := plan(tick);
      tick := tick + 1;
      Record(world.(root := Buffeted(world.root, weather)));
    }

    /** Read Root; None is a failed read. */
    method Snapshot() returns (seen: Option<Root>)
      requires Linked()
      modifies this`world, this`trail, this`tick
      ensures Linked() && Extends(old(trail)) && tick == old(tick) + 1
      ensures world == old(world).(root := Buffeted(old(world).root, plan(old(tick))))
      ensures seen == if plan(old(tick)).readFails then None else Some(world.root)
    {
      var weather := Begin();
      seen := if weather.readFails then None else Some(world.root);
    }

    /** Root meets the answer of a transaction, or loses it on the way. */
    method Settle(weather: Weather, answer: Answer, confirmed: set<Proof>) returns (reply: Option<Root>)
      requires Linked() && DurableStep(world, world.(root := answer.0, confirmed := confirmed))
      modifies this`world, this`trail
      ensures Linked() && Extends(old(trail))
      ensures world == if weather.fault.NoEffect? then old(world)
                       else old(world).(root := answer.0, confirmed := confirmed)
      ensures reply == if weather.fault.Deliver? && answer.1 then Some(answer.0) else None
    {
      if weather.fault.NoEffect? {
        return None;
      }
      Record(world.(root := answer.0, confirmed := confirmed));
      reply := if answer.1 && weather.fault.Deliver? then Some(answer.0) else None;
    }

    /** Root's component may serve this controller. */
    predicate Validated(r: Root)
    {
      r.binding == expected && r.bound
    }

    method Publish(newMode: Mode, proof: Proof)
      modifies this`mode, this`published
      ensures mode == if old(mode).Fused? then Fused else newMode
      ensures published == if old(mode).Fused? then old(published) else proof
    {
      if !mode.Fused? {
        mode, published := newMode, proof;
      }
    }

    method Fuse()
      modifies this`mode
      ensures mode == Fused
    {
      mode := Fused;
    }

    // -------------------------------------------------------------------------
    // Reconciliation
    // -------------------------------------------------------------------------

    method VerifyRoot(previousDigest: string)
      requires Linked() && world.local.Normal?
      modifies this`world, this`trail, this`tick, this`writes
      ensures Linked() && Extends(old(trail)) && tick == old(tick) + 1 && writes == old(writes) + 1
      ensures world.local == old(world).local && world.confirmed == old(world).confirmed
      ensures || SameComponent(old(world).root, world.root)
              || Fences(old(world), world)
      ensures Calm(plan(old(tick))) && old(Recoverable(world)) && previousDigest == old(world).root.floor.digest ==>
                && Serving(world.root)
                && (Effective(plan(old(tick))) ==> Fences(old(world), world))
    {
      var weather := Begin();
      writes := writes + 1;
      var answer := VerifyComponent(world.root, expected, world.local.proof, previousDigest);
      var _ := Settle(weather, answer, world.confirmed);
    }

    predicate Serving(r: Root)
    {
      r.status.Active? && Validated(r)
    }

    /** A normal store level with an unfenced Root. */
    predicate Exact(d: Durable)
    {
      d.root.bound && d.root.fence.None? && d.local == Normal(d.root.floor)
    }

    /** A normal store one mutation ahead of an unfenced, serving Root. */
    predicate Recoverable(d: Durable)
    {
      Serving(d.root) && d.root.fence.None? && d.local.Normal? && d.local.proof.sequence == d.root.floor.sequence + 1
    }

    /** Whether the exact normal store needs manual recovery; None is a failure.  At most
        four writes; a store that was ahead of Root is never reported exact. */
    method EnsureRootRecoveryFence() returns (required: Option<bool>)
      requires Linked() && world.local.Normal?
      modifies this`world, this`trail, this`tick, this`writes
      ensures Linked() && Extends(old(trail)) && writes <= old(writes) + MAX_ROOT_CAS_CALLS
      ensures world.local == old(world).local && world.confirmed == old(world).confirmed
      ensures required.Some? ==> Serving(world.root) && world.root.floor == world.local.proof
      ensures required == Some(false) ==> world.root.fence.None? && SameComponent(old(world).root, world.root)
      ensures required == Some(true) ==> world.root.fence == Some(world.local.proof)
      ensures old(Serving(world.root)) && Window(plan, old(tick)) ==>
                required.Some? && Serving(world.root) && old(tick) <= tick <= old(tick) + 2 * MAX_ROOT_CAS_CALLS + 1
      ensures old(Exact(world)) ==> required != Some(true)
      ensures old(Exact(world) && Serving(world.root)) && Calm(plan(old(tick))) ==>
                required == Some(false) && Serving(world.root) && tick == old(tick) + 1 && writes == old(writes)
    {
      hide Linked, Window, Effective;
      var made: nat := 0;
      while true
        invariant Linked() && Extends(old(trail)) && made <= MAX_ROOT_CAS_CALLS && writes == old(writes) + made
        invariant tick == old(tick) + 2 * made
        invariant world.local == old(world).local && world.confirmed == old(world).confirmed
        invariant SameComponent(old(world).root, world.root)
                  || (world.root.bound && world.root.floor == world.local.proof && world.root.fence == Some(world.local.proof))
        invariant old(Exact(world)) ==> SameComponent(old(world).root, world.root)
        invariant old(Exact(world) && Serving(world.root)) && Calm(plan(old(tick))) ==> made == 0 && Serving(world.root)
        invariant old(Serving(world.root)) && Window(plan, old(tick)) ==>
                    && Serving(world.root)
                    && (SameComponent(old(world).root, world.root) && old(Recoverable(world)) ==>
                          forall j | 0 <= j < made :: !Effective(plan(old(tick) + 2 * j + 1)))
        decreases MAX_ROOT_CAS_CALLS - made
      {
        InLockstep();
        CalmInWindow(plan, old(tick), 2 * made);
        var snapshot := Snapshot();
        if snapshot.None? || !snapshot.value.status.Active? || !Validated(snapshot.value) {
          return None;
        }
        var component := snapshot.value;
        var local := world.local.proof;
        if component.floor == local {
          if component.fence.None? {
            return Some(false);
          }
          if component.fence.value == local {
            return Some(true);
          }
          return None;
        }
        if component.fence.Some? || local.sequence != component.floor.sequence + 1 {
          return None;
        }
        if made >= MAX_ROOT_CAS_CALLS {
          if forall j | 0 <= j < MAX_ROOT_CAS_CALLS :: !Effective(plan(old(tick) + 2 * j + 1)) { WindowHasEffect(plan, old(tick)); }
          return None;
        }
        made := made + 1;
        CalmInWindow(plan, old(tick), 2 * made - 1);
        VerifyRoot(component.floor.digest);
      }
    }

    /** The store persists its no-mutation record for an exact Root fence. */
    method EnterAuthorityManualOnly(recovery: Proof) returns (after: Option<Local>)
      requires Linked()
      requires world.local.Normal? ==> world.root.bound && world.root.floor == world.local.proof
                                       && world.root.fence == Some(world.local.proof)
      modifies this`world, this`trail, this`pending
      ensures Linked() && Extends(old(trail))
      ensures world.root == old(world).root && world.confirmed == old(world).confirmed
      ensures after.Some? ==> world.local == after.value && world.local.ManualOnly? && world.local.recovery == recovery
                              && pending.None?
      ensures old(world).local == Normal(recovery) ==>
                after == Some(ManualOnly(Proof(recovery.sequence + 1, nextDigest(recovery)), recovery))
      ensures old(world).local.ManualOnly? && old(world).local.recovery == recovery ==>
                after == Some(old(world).local) && world == old(world)
      ensures after.None? ==> world == old(world) && pending == old(pending)
    {
      InLockstep();
      if world.local.ManualOnly? {
        if world.local.recovery != recovery || world.local.proof.sequence != recovery.sequence + 1 {
          return None;
        }
      } else if world.local.proof != recovery {
        return None;
      } else {
        Record(world.(local := ManualOnly(Proof(recovery.sequence + 1, nextDigest(recovery)), recovery)));
      }
      pending := None;
      return Some(world.local);
    }

    method AcknowledgeRoot(revision: nat)
      requires Linked() && world.local.ManualOnly?
      modifies this`world, this`trail, this`tick, this`writes
      ensures Linked() && Extends(old(trail)) && tick == old(tick) + 1 && writes == old(writes) + 1
      ensures world.local == old(world).local && world.confirmed == old(world).confirmed
      ensures SameComponent(old(world).root, world.root) || Acknowledges(old(world), world)
      ensures Calm(plan(old(tick))) && old(Acknowledgeable(world)) ==>
                && Serving(world.root)
                && (Effective(plan(old(tick))) && revision == old(world).root.revision && Distinct(world.local) ==>
                      Acknowledges(old(world), world))
    {
      InLockstep();
      var weather := Begin();
      writes := writes + 1;
      InLockstep();
      var answer := AcknowledgeRecovery(world.root, expected, world.local.recovery, world.local.proof, revision);
      var _ := Settle(weather, answer, world.confirmed);
    }

    /** The manual-only record has a digest of its own. */
    predicate Distinct(local: Local)
    {
      local.ManualOnly? ==> local.proof.digest != local.recovery.digest
    }

    /** A manual-only store whose fence a serving Root still holds. */
    predicate Acknowledgeable(d: Durable)
    {
      && Serving(d.root) && d.local.ManualOnly? && d.local.proof.sequence == d.local.recovery.sequence + 1
      && d.root.floor == d.local.recovery && d.root.fence == Some(d.local.recovery)
    }

    /** Clear Root's fence after the manual-only record; at most four writes. */
    method AcknowledgeManualOnly() returns (ok: bool)
      requires Linked() && world.local.ManualOnly?
      modifies this`world, this`trail, this`tick, this`writes
      ensures Linked() && Extends(old(trail)) && writes <= old(writes) + MAX_ROOT_CAS_CALLS
      ensures world.local == old(world).local && world.confirmed == old(world).confirmed
      ensures ok ==> Serving(world.root) && world.root.floor == world.local.proof && world.root.fence.None?
      ensures old(Serving(world.root)) && Window(plan, old(tick)) && Distinct(old(world).local) ==> ok
    {
      hide Linked, Window, Effective;
      var local := world.local;
      InLockstep();
      if local.proof.sequence != local.recovery.sequence + 1 {
        return false;
      }
      var made: nat := 0;
      while true
        invariant Linked() && Extends(old(trail)) && made <= MAX_ROOT_CAS_CALLS && writes == old(writes) + made
        invariant tick == old(tick) + 2 * made
        invariant world.local == local == old(world).local && world.confirmed == old(world).confirmed
        invariant old(Serving(world.root)) && Window(plan, old(tick)) && Distinct(local) ==>
                    && Serving(world.root)
                    && (Acknowledgeable(world) ==>
                          forall j | 0 <= j < made :: !Effective(plan(old(tick) + 2 * j + 1)))
        decreases MAX_ROOT_CAS_CALLS - made
      {
        InLockstep();
        CalmInWindow(plan, old(tick), 2 * made);
        var snapshot := Snapshot();
        if snapshot.None? || !snapshot.value.status.Active? || !Validated(snapshot.value) {
          return false;
        }
        InLockstep();
        var component := snapshot.value;
        if component.floor == local.proof {
          return component.fence.None?;
        }
        if component.floor != local.recovery || component.fence != Some(local.recovery) {
          return false;
        }
        if made >= MAX_ROOT_CAS_CALLS {
          if forall j | 0 <= j < MAX_ROOT_CAS_CALLS :: !Effective(plan(old(tick) + 2 * j + 1)) { WindowHasEffect(plan, old(tick)); }
          return false;
        }
        made := made + 1;
        CalmInWindow(plan, old(tick), 2 * made - 1);
        AcknowledgeRoot(component.revision);
      }
    }

    /** The store drops its pending confirmation against an exact proof. */
    method ResumeAfterRootReconcile(current: Local) returns (ok: bool)
      modifies this`pending
      ensures ok <==> storeHealthy && world.local == current && (old(pending).None? || old(pending).value == current.proof)
      ensures pending == if ok then None else old(pending)
    {
      if !storeHealthy || world.local != current || (pending.Some? && pending.value != current.proof) {
        return false;
      }
      pending := None;
      return true;
    }

    method InspectLocalAuthority() returns (local: Option<Local>)
      modifies this`mode
      ensures local == if storeHealthy then Some(world.local) else None
      ensures mode == if storeHealthy then old(mode) else Fused
    {
      if !storeHealthy {
        Fuse();
        return None;
      }
      return Some(world.local);
    }

    /** Acknowledge, resume and publish for a manual-only store. */
    method FinishManualOnly() returns (ok: bool)
      requires Linked() && world.local.ManualOnly?
      modifies this`world, this`trail, this`tick, this`writes, this`mode, this`published, this`pending
      ensures Linked() && Extends(old(trail)) && writes <= old(writes) + MAX_ROOT_CAS_CALLS
      ensures world.local == old(world).local && world.confirmed == old(world).confirmed
      ensures mode == if old(mode).Fused? || !ok then Fused else ManualOnlyMode
      ensures ok ==> Serving(world.root) && world.root.floor == world.local.proof && world.root.fence.None?
      ensures ok && !mode.Fused? ==> published == world.local.proof
      ensures ok ==> pending.None? && (old(pending).Some? ==> old(pending).value == world.local.proof)
      ensures Acknowledged(old(world), old(tick)) && (old(pending).Some? ==> old(pending).value == old(world).local.proof)
              ==> ok
    {
      var local := world.local;
      var acknowledged := AcknowledgeManualOnly();
      if !acknowledged {
        Fuse();
        return false;
      }
      var resumed := ResumeAfterRootReconcile(local);
      if !resumed {
        Fuse();
        return false;
      }
      Publish(ManualOnlyMode, local.proof);
      return true;
    }

    /** What an acknowledgement needs to succeed. */
    ghost predicate Acknowledged(d: Durable, now: nat)
    {
      Serving(d.root) && Window(plan, now) && storeHealthy && d.local.ManualOnly?
      && Distinct(d.local)
    }

    /** Reconcile a normal store: ready if exact, manual-only otherwise. */
    method ReconcileNormal() returns (ok: bool)
      requires Linked() && world.local.Normal?
      modifies this`world, this`trail, this`tick, this`writes, this`mode, this`published, this`pending
      ensures Linked() && Extends(old(trail)) && writes <= old(writes) + 2 * MAX_ROOT_CAS_CALLS
      ensures world.confirmed == old(world).confirmed
      ensures old(mode).Fused? || !ok ==> mode.Fused?
      ensures ok && !old(mode).Fused? ==> published == world.local.proof && (mode.Ready? || mode.ManualOnlyMode?)
      ensures ok ==> if old(Exact(world)) then Exact(world) && world.local == old(world).local
                     else world.local.ManualOnly? && world.root.floor == world.local.proof && world.root.fence.None?
      ensures ok && !old(mode).Fused? ==> (mode.Ready? <==> old(Exact(world)))
      ensures ok ==> Serving(world.root) && pending.None?
      ensures Settles(old(world), old(tick), old(pending)) ==> ok
      ensures old(Exact(world) && Serving(world.root)) && Calm(plan(old(tick))) && storeHealthy && old(pending).None? ==>
                ok && Serving(world.root) && tick == old(tick) + 1 && writes == old(writes) && pending.None?
    {
      var local := world.local.proof;
      InLockstep();
      assert Settles(world, tick, pending) ==> Window(plan, tick);
      var required := EnsureRootRecoveryFence();
      if required.None? {
        Fuse();
        return false;
      }
      if !required.value {
        var resumed := ResumeAfterRootReconcile(Normal(local));
        if !resumed {
          Fuse();
          return false;
        }
        Publish(Ready, local);
        return true;
      }
      var entered := EnterAuthorityManualOnly(local);
      assert Settles(old(world), old(tick), old(pending)) ==> Window(plan, tick);
      ok := FinishManualOnly();
    }

    /** Reconcile over an active Root. */
    method ReconcileActive() returns (ok: bool)
      requires Linked()
      modifies this`world, this`trail, this`tick, this`writes, this`mode, this`published, this`pending
      ensures Linked() && Extends(old(trail)) && writes <= old(writes) + 2 * MAX_ROOT_CAS_CALLS
      ensures world.confirmed == old(world).confirmed
      ensures old(mode).Fused? || !ok ==> mode.Fused?
      ensures ok ==> Serving(world.root) && world.root.floor == world.local.proof && world.root.fence.None? && pending.None?
      ensures ok ==> if old(Exact(world)) then world.local == old(world).local else world.local.ManualOnly?
      ensures ok && !old(mode).Fused? ==>
                published == world.local.proof && mode == if old(Exact(world)) then Ready else ManualOnlyMode
      ensures Settles(old(world), old(tick), old(pending)) ==> ok
      ensures old(Exact(world) && Serving(world.root)) && Calm(plan(old(tick))) && storeHealthy && old(pending).None? ==>
                ok && tick == old(tick) + 1 && writes == old(writes) && pending.None?
    {
      hide Window, Cooperative, Effective;
      InLockstep();
      CooperativeHere(plan, tick);
      if world.local.Normal? {
        ok := ReconcileNormal();
      } else {
        ok := FinishManualOnly();
      }
    }

    /** Startup reconciliation.  It publishes ready only for a confirmed store level with Root,
        manual-only only for a store Root has caught up with, and otherwise fuses. */
    method ReconcileStartup() returns (ok: bool)
      requires Valid()
      modifies this`world, this`trail, this`tick, this`writes, this`mode, this`published, this`pending
      ensures Valid() && Extends(old(trail)) && writes <= old(writes) + 2 * MAX_ROOT_CAS_CALLS
      ensures world.confirmed == old(world).confirmed
      ensures old(mode).Fused? || !ok ==> mode.Fused?
      ensures ok && !old(mode).Fused? ==> published == world.local.proof && world.root.floor == published
      ensures ok && !old(mode).Fused? ==>
                match mode
                case Ready => Exact(old(world)) && Exact(world) && world.local == old(world).local
                              && published in world.confirmed
                case ManualOnlyMode => !Exact(old(world)) && world.local.ManualOnly? && world.root.fence.None?
                case ProvisionedNotActive => Exact(world) && world.local == old(world).local
                case _ => false
      ensures ok ==> Validated(world.root) && (world.root.status.Active? ==> pending.None?)
      ensures ok && !old(mode).Fused? ==> if mode.ProvisionedNotActive? then world.root.status.Provisioning? else world.root.status.Active?
      ensures old(Exact(world) && Validated(world.root) && world.root.status.Provisioning?) && Calm(plan(old(tick))) && storeHealthy ==>
                && ok && tick == old(tick) + 1 && writes == old(writes) && world.local == old(world).local
                && (!old(mode).Fused? ==> mode.ProvisionedNotActive?)
      ensures SettlesAtStartup(old(world), old(tick), old(pending)) ==>
                ok && if old(Exact(world)) then Exact(world) && world.local == old(world).local
                      else world.local.ManualOnly? && world.root.floor == world.local.proof && world.root.fence.None?
      ensures old(Exact(world) && Serving(world.root)) && Calm(plan(old(tick))) && Calm(plan(old(tick) + 1))
              && storeHealthy && old(pending).None? ==>
                && ok && Serving(world.root) && tick == old(tick) + 2 && writes == old(writes) && pending.None?
                && (!old(mode).Fused? ==> mode.Ready?)
    {
      hide Window, Cooperative, Effective, Acknowledged, SameComponent;
      InLockstep();
      var inspected := InspectLocalAuthority();
      if inspected.None? {
        return false;
      }
      var local := inspected.value;
      var snapshot := Snapshot();
      if snapshot.None? || !Validated(snapshot.value) {
        Fuse();
        return false;
      }
      var component := snapshot.value;
      if component.status.Provisioning? {
        if !local.Normal? || component.fence.Some? || component.floor != local.proof {
          Fuse();
          return false;
        }
        Publish(ProvisionedNotActive, local.proof);
        return true;
      }
      if !component.status.Active? {
        Fuse();
        return false;
      }
      assert SettlesAtStartup(old(world), old(tick), old(pending)) ==> Settles(world, tick, pending);
      ok := ReconcileActive();
      InLockstep();
    }

    /** The circumstances under which a reconciliation cannot fail: a serving Root that others
        leave alone, a healthy store, and in each loop one write that takes effect. */
    ghost predicate Settles(d: Durable, now: nat, held: Option<Proof>)
    {
      && Serving(d.root) && storeHealthy && Cooperative(plan, now)
      && (held.Some? ==> held.value == d.local.proof)
      && Distinct(d.local)
      && (forall p :: nextDigest(p) != p.digest)
    }

    ghost predicate SettlesAtStartup(d: Durable, now: nat, held: Option<Proof>)
    {
      Calm(plan(now)) && Settles(d, now + 1, held)
    }

    // -------------------------------------------------------------------------
    // Mutation
    // -------------------------------------------------------------------------

    /** What the gate's reading of Root, under this weather, has to show. */
    predicate GateOpen(r: Root, weather: Weather)
      reads this`published
    {
      var seen := Buffeted(r, weather);
      !weather.readFails && Serving(seen) && seen.fence.None? && seen.floor == published
    }

    /** The pre-mutation hook: ready, idle, and freshly level with an active Root. */
    method AssertLocalMutationReady() returns (ok: bool)
      requires Linked()
      modifies this`world, this`trail, this`tick
      ensures Linked() && Extends(old(trail))
      ensures Elsewhere(old(world), world)
      ensures ok ==> mode.Ready? && !closing && !inFlight
                     && Serving(world.root) && world.root.fence.None? && world.root.floor == published
      ensures ok <==> old(mode.Ready? && !closing && !inFlight) && GateOpen(old(world).root, plan(old(tick)))
      ensures ok ==> tick == old(tick) + 1
    {
      if closing || inFlight || !mode.Ready? {
        return false;
      }
      var snapshot := Snapshot();
      return snapshot.Some? && Validated(snapshot.value) && snapshot.value.status.Active?
          && snapshot.value.fence.None? && snapshot.value.floor == published;
    }

    /** The store has committed the mutation after `before`; Root has not heard of it. */
    predicate Committed(d: Durable, before: Proof)
    {
      && d.root.bound && d.root.fence.None? && d.root.floor == before
      && d.local.Normal? && d.local.proof.sequence == before.sequence + 1
    }

    /** Root has confirmed the mutation. */
    predicate Settled(d: Durable)
    {
      Exact(d) && d.local.proof in d.confirmed
    }

    method AdvanceRoot(before: Proof, revision: nat) returns (reply: Option<Root>)
      requires Linked() && Committed(world, before)
      modifies this`world, this`trail, this`tick, this`writes
      ensures Linked() && Extends(old(trail)) && tick == old(tick) + 1 && writes == old(writes) + 1
      ensures world.local == old(world).local
      ensures Committed(world, before) || Settled(world)
      ensures reply.Some? ==> Settled(world) && reply.value == world.root
      ensures Calm(plan(old(tick))) && old(Serving(world.root)) ==>
                && Serving(world.root)
                && (Effective(plan(old(tick))) && revision == old(world).root.revision
                    && before.digest != world.local.proof.digest ==>
                      Settled(world) && (plan(old(tick)).fault.Deliver? ==> reply.Some?))
                && (revision == old(world).root.revision
                    && (!Effective(plan(old(tick))) || before.digest == world.local.proof.digest) ==>
                      Committed(world, before) && reply.None?)
      ensures !plan(old(tick)).fault.Deliver? ==> reply.None?
    {
      var weather := Begin();
      writes := writes + 1;
      var answer := AdvanceComponent(world.root, expected, before, world.local.proof, revision);
      var confirmed := if answer.0.floor == world.local.proof then world.confirmed + {world.local.proof} else world.confirmed;
      reply := Settle(weather, answer, confirmed);
    }

    /** The commit hook: it returns only after Root was seen at the new proof, it leaves Root at
        the old proof or the new one, and when it cannot tell it fuses.  In calm weather the writes
        decide alone: it confirms in a hook window, and it fuses over a settled Root when only the
        last answer was lost. */
    method RootCommitHook(before: Proof) returns (result: HookResult)
      requires Linked() && Committed(world, before)
      modifies this`world, this`trail, this`tick, this`writes, this`mode, this`published, this`inFlight
      ensures Linked() && Extends(old(trail)) && writes <= old(writes) + MAX_ROOT_CAS_CALLS
      ensures world.local == old(world).local && inFlight == old(inFlight)
      ensures Committed(world, before) || Settled(world)
      ensures result.RefusedAtEntry? <==> !old(mode).Ready? || old(inFlight) || old(closing)
      ensures result.RefusedAtEntry? ==> world == old(world) && mode == old(mode)
      ensures result.Confirmed? ==> Settled(world) && mode.Ready? && published == world.local.proof
      ensures result.Unconfirmed? ==> mode.Fused?
      ensures !result.RefusedAtEntry? && old(Serving(world.root)) && CalmHook(plan, old(tick)) ==>
                var distinct := before.digest != world.local.proof.digest;
                && (result.Confirmed? <==> distinct && HookWindow(plan, old(tick)))
                && (result.Unconfirmed? && Settled(world) <==> distinct && LastAnswerLost(plan, old(tick)))
    {
      if !mode.Ready? || inFlight || closing {
        return RefusedAtEntry;
      }
      inFlight := true;
      var seen := ConfirmWithRoot(before);
      if seen {
        Publish(Ready, world.local.proof);
        result := Confirmed;
      } else {
        Fuse();
        result := Unconfirmed;
      }
      inFlight := false;
    }

    /** Read Root and, if it has not moved yet, ask it to advance.  Some(true) means the new
        proof was seen, Some(false) that the attempt must be given up, None to try again. */
    method ConfirmOnce(before: Proof) returns (seen: Option<bool>)
      requires Linked() && (Committed(world, before) || Settled(world))
      modifies this`world, this`trail, this`tick, this`writes
      ensures Linked() && Extends(old(trail)) && writes <= old(writes) + 1
      ensures world.local == old(world).local
      ensures Committed(world, before) || Settled(world)
      ensures old(Settled(world)) ==> Settled(world)
      ensures seen == Some(true) ==> Settled(world)
      ensures seen.None? ==> tick == old(tick) + 2
      ensures old(Serving(world.root)) && Calm(plan(old(tick))) && Calm(plan(old(tick) + 1)) ==>
                var takes := Effective(plan(old(tick) + 1)) && before.digest != world.local.proof.digest;
                && Serving(world.root) && seen != Some(false)
                && (seen == Some(true) <==> old(Settled(world)) || (takes && plan(old(tick) + 1).fault.Deliver?))
                && (Settled(world) <==> old(Settled(world)) || takes)
    {
      var after := world.local.proof;
      var snapshot := Snapshot();
      if snapshot.None? || !Validated(snapshot.value) {
        return Some(false);
      }
      var component := snapshot.value;
      if component.floor == after {
        return Some(true);
      }
      if component.floor != before {
        return Some(false);
      }
      var reply := AdvanceRoot(before, component.revision);
      return if reply.Some? && reply.value.floor == after then Some(true) else None;
    }

    method ConfirmWithRoot(before: Proof) returns (seen: bool)
      requires Linked() && Committed(world, before)
      modifies this`world, this`trail, this`tick, this`writes
      ensures Linked() && Extends(old(trail)) && writes <= old(writes) + MAX_ROOT_CAS_CALLS
      ensures world.local == old(world).local
      ensures Committed(world, before) || Settled(world)
      ensures seen ==> Settled(world)
      ensures old(Serving(world.root)) && CalmHook(plan, old(tick)) ==>
                var distinct := before.digest != world.local.proof.digest;
                && (seen <==> distinct && HookWindow(plan, old(tick)))
                && (!seen && Settled(world) <==> distinct && LastAnswerLost(plan, old(tick)))
    {
      hide Linked, Calm, CalmHook, HookWindow, LastAnswerLost;
      ghost var now := tick;
      ghost var calm := Serving(world.root) && CalmHook(plan, now);
      ghost var distinct := before.digest != world.local.proof.digest;
      NoneTakesAtFirst(plan, now);
      for attempt := 0 to MAX_ROOT_CAS_CALLS
        invariant Linked() && Extends(old(trail)) && writes <= old(writes) + attempt
        invariant tick == now + 2 * attempt
        invariant world.local == old(world).local
        invariant Committed(world, before) || Settled(world)
        invariant calm ==> Serving(world.root)
        invariant calm && distinct && !Settled(world) ==> NoneTakes(plan, now, attempt)
        invariant calm && Settled(world) ==>
                    && distinct && attempt > 0 && NoneTakes(plan, now, attempt - 1)
                    && Effective(plan(now + 2 * (attempt - 1) + 1)) && !plan(now + 2 * (attempt - 1) + 1).fault.Deliver?
      {
        if calm {
          CalmInHook(plan, now, 2 * attempt);
          CalmInHook(plan, now, 2 * attempt + 1);
        }
        ghost var settled := Settled(world);
        SameWeather(plan, tick, now + 2 * attempt);
        SameWeather(plan, tick + 1, now + 2 * attempt + 1);
        assert calm ==> Calm(plan(tick)) && Calm(plan(tick + 1));
        var once := ConfirmOnce(before);
        assert calm ==> once != Some(false);
        assert calm && once == Some(true) ==> settled || Effective(plan(now + 2 * attempt + 1));
        if once.Some? {
          if calm && settled {
            FirstEffectDecides(plan, now, attempt - 1);
          } else if calm {
            assert !once.value ==> once == Some(false);
            assert Effective(plan(now + 2 * attempt + 1));
            FirstEffectDecides(plan, now, attempt);
          }
          return once.value;
        }
        if calm && distinct && !Settled(world) {
          NoneTakesMore(plan, now, attempt);
        }
      }
      if calm && Settled(world) {
        FirstEffectDecides(plan, now, MAX_ROOT_CAS_CALLS - 1);
      } else if calm && distinct {
        NoEffectDecides(plan, now);
      }
      return false;
    }

    /** One authoritative store mutation: gate, local commit, confirmation.  True means the store
        moved to `digest` and Root confirmed it.  `rollsBack` says that the store's own transaction
        fails after the gate. */
    method Mutate(digest: string, rollsBack: bool) returns (confirmed: bool)
      requires Valid()
      modifies this`world, this`trail, this`tick, this`writes, this`mode, this`published, this`inFlight, this`pending
      ensures Valid() && Extends(old(trail))
      ensures confirmed ==> && old(mode).Ready? && mode.Ready? && Settled(world)
                            && world.local == Normal(Proof(old(world).local.proof.sequence + 1, digest))
      ensures !confirmed && pending.None? ==> world.local == old(world).local && mode == old(mode)
      ensures !confirmed && world.local != old(world).local ==> mode.Fused? && pending == Some(world.local.proof)
      ensures old(mode).Fused? ==> mode.Fused?
      ensures rollsBack || !old(mode.Ready?) || old(closing) || old(pending).Some? || !old(GateOpen(world.root, plan(tick))) ==>
                !confirmed && world.local == old(world).local && mode == old(mode) && pending == old(pending)
      ensures old(mode.Ready? && !closing && pending.None? && Serving(world.root)) && !rollsBack
              && Calm(plan(old(tick))) && CalmHook(plan, old(tick) + 1) ==>
                var distinct := old(world).local.proof.digest != digest;
                && world.local == Normal(Proof(old(world).local.proof.sequence + 1, digest))
                && (confirmed <==> distinct && HookWindow(plan, old(tick) + 1))
                && (mode.Fused? && Settled(world) <==> distinct && LastAnswerLost(plan, old(tick) + 1))
    {
      if pending.Some? || !world.local.Normal? {
        return false;
      }
      var ready := AssertLocalMutationReady();
      if !ready {
        return false;
      }
      if rollsBack {
        return false;
      }
      var before := world.local.proof;
      Record(world.(local := Normal(Proof(before.sequence + 1, digest))));
      var result := RootCommitHook(before);
      if !result.Confirmed? {
        pending := Some(world.local.proof);
        return false;
      }
      return true;
    }

    /** An unbound component that may be bound. */
    predicate Bindable(r: Root)
    {
      r.status.Provisioning? && r.binding == expected && !r.bound
    }

    /** Bind the component once, or prove that a lost bind already committed. */
    method BindAssetComponent() returns (ok: bool)
      requires Linked() && world.local.Normal?
      modifies this`world, this`trail, this`tick, this`writes
      ensures Linked() && Extends(old(trail)) && writes <= old(writes) + MAX_ROOT_CAS_CALLS
      ensures world.local == old(world).local
      ensures ok ==> world.root.bound && world.root.floor == world.local.proof
      ensures old(world).root.bound ==> SameComponent(old(world).root, world.root) && world.confirmed == old(world).confirmed
      ensures SameComponent(old(world).root, world.root) || (Exact(world) && world.local.proof in world.confirmed)
      ensures old(Bindable(world.root)) && CalmHook(plan, old(tick)) ==>
                && (ok <==> HookWindow(plan, old(tick)))
                && (!ok && world.root.bound <==> LastAnswerLost(plan, old(tick)))
    {
      hide Linked, Calm, CalmHook, HookWindow, LastAnswerLost, Effective;
      ghost var now := tick;
      ghost var calm := Bindable(world.root) && CalmHook(plan, now);
      NoneTakesAtFirst(plan, now);
      for attempt := 0 to MAX_ROOT_CAS_CALLS
        invariant Linked() && Extends(old(trail)) && writes <= old(writes) + attempt
        invariant tick == now + 2 * attempt
        invariant world.local == old(world).local
        invariant old(world).root.bound ==> SameComponent(old(world).root, world.root) && world.confirmed == old(world).confirmed
        invariant SameComponent(old(world).root, world.root) || (Exact(world) && world.local.proof in world.confirmed)
        invariant calm && !world.root.bound ==> Bindable(world.root) && NoneTakes(plan, now, attempt)
        invariant calm && world.root.bound ==>
                    && attempt > 0 && NoneTakes(plan, now, attempt - 1) && world.root.binding == expected
                    && Effective(plan(now + 2 * (attempt - 1) + 1)) && !plan(now + 2 * (attempt - 1) + 1).fault.Deliver?
      {
        InLockstep();
        if calm {
          CalmInHook(plan, now, 2 * attempt);
          CalmInHook(plan, now, 2 * attempt + 1);
        }
        SameWeather(plan, tick, now + 2 * attempt);
        SameWeather(plan, tick + 1, now + 2 * attempt + 1);
        CalmLeaves(world.root, plan(tick));
        var snapshot := Snapshot();
        if snapshot.None? || snapshot.value.binding != expected {
          return false;
        }
        var component := snapshot.value;
        if component.bound {
          if calm { FirstEffectDecides(plan, now, attempt - 1); }
          return component.floor == world.local.proof;
        }
        if !component.status.Provisioning? {
          return false;
        }
        var reply := BindRoot(component.revision);
        if calm && reply.Some? { FirstEffectDecides(plan, now, attempt); }
        if reply.Some? {
          return reply.value.binding == expected && reply.value.bound && reply.value.floor == world.local.proof;
        }
        if calm && !world.root.bound { NoneTakesMore(plan, now, attempt); }
      }
      if calm {
        if world.root.bound {
          FirstEffectDecides(plan, now, MAX_ROOT_CAS_CALLS - 1);
        } else {
          NoEffectDecides(plan, now);
        }
      }
      return false;
    }

    method BindRoot(revision: nat) returns (reply: Option<Root>)
      requires Linked() && world.local.Normal? && !world.root.bound
      modifies this`world, this`trail, this`tick, this`writes
      ensures Linked() && Extends(old(trail)) && tick == old(tick) + 1 && writes == old(writes) + 1
      ensures world.local == old(world).local
      ensures SameComponent(old(world).root, world.root) || (Exact(world) && world.local.proof in world.confirmed)
      ensures reply.Some? ==> reply.value == world.root
      ensures Calm(plan(old(tick))) && old(Bindable(world.root)) && revision == old(world).root.revision ==>
                && world.root.binding == expected
                && (world.root.bound <==> Effective(plan(old(tick))))
                && (!world.root.bound ==> Bindable(world.root))
                && (reply.Some? <==> Effective(plan(old(tick))) && plan(old(tick)).fault.Deliver?)
    {
      InLockstep();
      var weather := Begin();
      InLockstep();
      writes := writes + 1;
      var completes := *;
      var answer := BindComponent(world.root, expected, world.local.proof, revision, completes);
      var confirmed := if answer.0.bound then world.confirmed + {world.local.proof} else world.confirmed;
      reply := Settle(weather, answer, confirmed);
    }
  }

  /** Calm weather in which of the first eleven calls only the last takes effect, and its answer is lost. */
  const ONLY_LAST_LOST: nat -> Weather := i => Weather(None, false, false, false, if i == 10 then LoseResponse else NoEffect)

  /** After the two readings of a startup and the one of the gate, that is the hook's fourth write. */
  lemma LastAnswerCanBeLost()
    ensures LastAnswerLost(ONLY_LAST_LOST, 3)
  {
    forall j | 0 <= j < MAX_ROOT_CAS_CALLS - 1 ensures !Effective(ONLY_LAST_LOST(3 + 2 * j + 1)) {
    }
  }

  /** A store level with Root starts up ready; its next mutation is committed on both sides, and fuses. */
  method FusesOverSettledRoot() returns (control: AssetControl, ready: bool, confirmed: bool)
    ensures ready && !confirmed && control.mode.Fused?
    ensures control.Settled(control.world) && control.world.local == Normal(Proof(2, "after"))
  {
    var before := Proof(1, "before");
    var level := Durable(Root(Active, 0, true, before, None, 0), Normal(before), {before});
    control := new AssetControl([level], 0, ONLY_LAST_LOST, proof => "", true);
    LastAnswerCanBeLost();
    assert "before"[0] != "after"[0];
    ready := control.ReconcileStartup();
    confirmed := control.Mutate("after", false);
  }

  /** Opening a bound store after a crash at any durable state of any history.  The store comes up
      ready only if it was exact and confirmed; if it was ahead or fenced it comes up manual-only
      with Root level and unfenced; and when Root serves and lets one write in four through, it
      does come up. */
  method OpenBound(trail: seq<Durable>, crash: nat, expected: nat, plan: nat -> Weather, nextDigest: Proof -> string,
                   storeHealthy: bool)
    returns (control: AssetControl, ok: bool)
    requires History(trail) && Lockstep(trail[0]) && crash < |trail|
    ensures control.Valid() && control.Extends(trail[..crash + 1]) && control.writes <= 2 * MAX_ROOT_CAS_CALLS
    ensures control.plan == plan && control.expected == expected && control.nextDigest == nextDigest
            && control.storeHealthy == storeHealthy
    ensures !ok ==> control.mode.Fused?
    ensures control.mode.Ready? ==>
              control.Exact(trail[crash]) && control.world.local == trail[crash].local
              && control.world.local.proof in trail[crash].confirmed
    ensures control.mode.ManualOnlyMode? ==>
              !control.Exact(trail[crash]) && control.world.local.ManualOnly?
              && control.world.root.floor == control.world.local.proof && control.world.root.fence.None?
    ensures ok ==> control.Validated(control.world.root)
    ensures ok ==> if control.mode.ProvisionedNotActive? then control.world.root.status.Provisioning?
                   else control.world.root.status.Active? && (control.mode.Ready? || control.mode.ManualOnlyMode?)
    ensures (control.Exact(trail[crash]) && control.Validated(trail[crash].root) && trail[crash].root.status.Provisioning?
             && Calm(plan(0)) && storeHealthy) ==> ok && control.mode.ProvisionedNotActive? && control.writes == 0
    ensures control.SettlesAtStartup(trail[crash], 0, None) ==>
              ok && if control.Exact(trail[crash]) then control.Exact(control.world)
                    else control.world.local.ManualOnly?
                         && control.world.root.floor == control.world.local.proof && control.world.root.fence.None?
  {
    ghost var before := trail[..crash + 1];
    control := new AssetControl(trail[..crash + 1], expected, plan, nextDigest, storeHealthy);
    ok := control.ReconcileStartup();
  }
}
