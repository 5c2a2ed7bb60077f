/** The durable channel turn: many workers, two ledgers, crashes and lease expiry.

    The outer ledger is a fenced claim with a provider-phase bit; the inner ledger is the
    turn receipt.  Every ledger operation is atomic, but it may fail without effect or
    take effect and lose its response, and every clock reading is arbitrary. */
module DurableTurn {
  import opened ChannelResult
  import opened Counting
  import opened Wrappers

  // ---------------------------------------------------------------------------
  // The outer ledger
  // ---------------------------------------------------------------------------

  const LEASE_SECONDS := 90

  datatype Status = Processing | Succeeded(response: Fields) | Failed

  datatype Row = Row(request: string, status: Status, token: nat, lease: int, phase: bool)

  datatype ClaimReply = Granted(recovery: bool) | InProgress | AlreadySucceeded(response: Fields) | Conflict

  function Claim(row: Option<Row>, request: string, token: nat, now: int): (Option<Row>, ClaimReply) {
    match row
    case None => (Some(Row(request, Processing, token, now + LEASE_SECONDS, false)), Granted(false))
    case Some(r) =>
      if r.request != request then (row, Conflict)
      else if r.status.Succeeded? then (row, AlreadySucceeded(r.status.response))
      else if r.status.Processing? && r.lease > now then (row, InProgress)
      else (Some(r.(status := Processing, token := token, lease := now + LEASE_SECONDS)), Granted(r.phase))
  }

  /** The guard shared by every fenced update of the row. */
  predicate Holds(row: Option<Row>, request: string, token: nat, now: int) {
    && row.Some? && row.value.request == request
    && row.value.status.Processing? && row.value.token == token && row.value.lease > now
  }

  function Renew(row: Option<Row>, request: string, token: nat, now: int): (Option<Row>, bool) {
    if Holds(row, request, token, now) then (Some(row.value.(lease := now + LEASE_SECONDS)), true) else (row, false)
  }

  function EnterPhase(row: Option<Row>, request: string, token: nat, now: int): (Option<Row>, bool) {
    if Holds(row, request, token, now) && !row.value.phase
    then (Some(row.value.(phase := true, lease := now + LEASE_SECONDS)), true) else (row, false)
  }

  function Succeed(row: Option<Row>, request: string, token: nat, response: Fields, now: int): (Option<Row>, bool) {
    if Holds(row, request, token, now)
    then (Some(row.value.(status := Succeeded(response), token := 0, lease := 0)), true) else (row, false)
  }

  function Fail(row: Option<Row>, request: string, token: nat, now: int): Option<Row> {
    if Holds(row, request, token, now) then Some(row.value.(status := Failed, token := 0, lease := 0)) else row
  }

  // ---------------------------------------------------------------------------
  // The inner ledger
  // ---------------------------------------------------------------------------

  datatype Receipt =
    | NoReceipt
    | Reserved(request: string)
    | Abandoned(request: string)
    | ProviderStarted(request: string)
    | Committed(request: string, result: Fields)

  datatype ReceiptReply = Refused | NowReserved | NowStarted | NowCommitted

  predicate Foreign(receipt: Receipt, request: string) {
    !receipt.NoReceipt? && receipt.request != request
  }

  function Reserve(receipt: Receipt, request: string): (Receipt, ReceiptReply) {
    if Foreign(receipt, request) then (receipt, Refused)
    else match receipt
      case Committed(_, _) => (receipt, NowCommitted)
      case ProviderStarted(_) => (receipt, NowStarted)
      case _ => (Reserved(request), NowReserved)
  }

  function StartProvider(receipt: Receipt, request: string): (Receipt, ReceiptReply) {
    if receipt.NoReceipt? || Foreign(receipt, request) || receipt.Abandoned? then (receipt, Refused)
    else if receipt.Committed? then (receipt, NowCommitted)
    else (ProviderStarted(request), NowStarted)
  }

  function Abandon(receipt: Receipt, request: string): Receipt {
    if receipt == Reserved(request) then Abandoned(request) else receipt
  }

  /** Commit requires a started receipt; a second commit returns the first result. */
  function Commit(receipt: Receipt, request: string, result: Fields): (Receipt, Option<Fields>) {
    if Foreign(receipt, request) then (receipt, None)
    else if receipt.Committed? then (receipt, Some(receipt.result))
    else if receipt.ProviderStarted? then (Committed(request, result), Some(result))
    else (receipt, None)
  }

  // ---------------------------------------------------------------------------
  // Workers and the world
  // ---------------------------------------------------------------------------

  datatype Stage =
    | Start
    | Claimed(recovery: bool)          // holds a token; committed result not read yet
    | Recovered(result: Fields)        // a committed result was found
    | Checked(recovery: bool)          // none found; provider ledger not consulted yet
    | Preflight(recovery: bool)        // about to reserve
    | SecondRead                       // reserve reported a commit
    | FenceRecovery                    // recovery wanted, receipt still reserved
    | RecoveryReady                    // about to commit the recovery notice
    | NoticeCommitted(result: Fields)
    | ReadyToRenew                     // reserved, nothing started
    | Renewed
    | InnerStarted                     // provider_started written to the receipt
    | Entered                          // outer provider phase granted
    | Calling                          // agent_chat was called
    | Finished(result: Fields)
    | ReadyToCommit(result: Fields)
    | TurnCommitted(result: Fields)
    | Abandoning(release: bool)        // giving the reservation back, and then the row or not
    | Releasing
    | Replied(result: Fields)          // answered with a success
    | Done                             // answered with an error, or crashed

  datatype Worker = Worker(request: string, trace: string, token: nat, stage: Stage)

  /** A result with the request it was committed for. */
  datatype Record = Record(request: string, result: Fields)

  /** The two ledgers and the record of what happened. */
  datatype Shared = Shared(
    turn: string,                   // the turn identity all workers share
    outer: Option<Row>,
    inner: Receipt,
    nextToken: nat,
    expiries: nat,                  // committed receipts removed after their retention period
    history: map<nat, Record>,      // what was first committed after that many expiries
    entered: set<nat>,
    called: set<nat>
  )

  datatype World = World(shared: Shared, workers: map<nat, Worker>)

  datatype Fault = Deliver | LoseResponse | NoEffect

  datatype Choice = Proceed | NeedsRecovery | LedgerDown | Deadline | AgentResult(raw: Fields) | AgentFails

  datatype Event =
    | Arrive(id: nat, request: string, trace: string)
    | Step(id: nat, fault: Fault, now: int, choice: Choice)
    | Heartbeat(id: nat, now: int)
    | Crash(id: nat)
    | Prune(now: int)
    | Expire

  function Initial(turn: string): World {
    World(Shared(turn, None, NoReceipt, 1, 0, map[], {}, {}), map[])
  }

  type Outcome = (Shared, Worker)

  function ClaimStep(s: Shared, me: Worker, fault: Fault, now: int): Outcome {
    var (outer, reply) := Claim(s.outer, me.request, s.nextToken, now);
    if fault.NoEffect? then (s, me.(stage := Done))
    else if fault.LoseResponse? then (s.(outer := outer, nextToken := s.nextToken + 1), me.(stage := Done))
    else match reply
      case Granted(recovery) =>
        (s.(outer := outer, nextToken := s.nextToken + 1), me.(token := s.nextToken, stage := Claimed(recovery)))
      case AlreadySucceeded(response) => (s, me.(stage := Replied(Project(Obj(response)))))
      case _ => (s, me.(stage := Done))
  }

  /** Read the committed result; a foreign request or an unreadable store ends the turn. */
  function ReadStep(s: Shared, me: Worker, fault: Fault, project: bool, missing: Stage): Outcome {
    if !fault.Deliver? || Foreign(s.inner, me.request) then (s, me.(stage := Done))
    else if s.inner.Committed? then
      (s, me.(stage := Recovered(if project then Project(Obj(s.inner.result)) else s.inner.result)))
    else (s, me.(stage := missing))
  }

  function ReserveStep(s: Shared, me: Worker, fault: Fault, recovery: bool): Outcome {
    var (inner, reply) := Reserve(s.inner, me.request);
    if fault.NoEffect? then (s, me.(stage := Releasing))
    else if fault.LoseResponse? then (s.(inner := inner), me.(stage := Releasing))
    else match reply
      case Refused => (s, me.(stage := Releasing))
      case NowCommitted => (s, me.(stage := SecondRead))
      case NowStarted => (s, me.(stage := RecoveryReady))
      case NowReserved => (s.(inner := inner), me.(stage := if recovery then FenceRecovery else ReadyToRenew))
  }

  function StartStep(s: Shared, me: Worker, fault: Fault, next: Stage, failed: Stage): Outcome {
    var (inner, reply) := StartProvider(s.inner, me.request);
    if fault.NoEffect? then (s, me.(stage := failed))
    else if fault.LoseResponse? then (s.(inner := inner), me.(stage := failed))
    else match reply
      case NowStarted => (s.(inner := inner), me.(stage := next))
      case NowCommitted => (s, me.(stage := Done))
      case _ => (s, me.(stage := failed))
  }

  function Written(s: Shared, request: string, result: Fields): Shared {
    var inner := Commit(s.inner, request, result).0;
    s.(inner := inner,
       history := if inner.Committed? && !s.inner.Committed? then s.history[s.expiries := Record(request, result)] else s.history)
  }

  function CommitStep(s: Shared, me: Worker, fault: Fault, result: Fields, notice: bool): Outcome {
    var stored := Commit(s.inner, me.request, result).1;
    if fault.NoEffect? then (s, me.(stage := Releasing))
    else if fault.LoseResponse? || stored.None? then (Written(s, me.request, result), me.(stage := Releasing))
    else (Written(s, me.request, result),
          me.(stage := if notice then NoticeCommitted(stored.value) else TurnCommitted(stored.value)))
  }

  function SucceedStep(s: Shared, me: Worker, fault: Fault, now: int, result: Fields, unavailable: Stage): Outcome {
    var (outer, ok) := Succeed(s.outer, me.request, me.token, result, now);
    if fault.NoEffect? then (s, me.(stage := unavailable))
    else if fault.LoseResponse? then (s.(outer := outer), me.(stage := unavailable))
    else (s.(outer := outer), me.(stage := if ok then Replied(result) else Done))
  }

  function RenewStep(s: Shared, me: Worker, fault: Fault, now: int, next: Stage, failed: Stage): Outcome {
    var (outer, ok) := Renew(s.outer, me.request, me.token, now);
    if fault.NoEffect? then (s, me.(stage := failed))
    else (s.(outer := outer), me.(stage := if fault.Deliver? && ok then next else failed))
  }

  function EnterStep(s: Shared, id: nat, me: Worker, fault: Fault, now: int): Outcome {
    var (outer, ok) := EnterPhase(s.outer, me.request, me.token, now);
    if fault.NoEffect? then (s, me.(stage := Done))
    else if fault.LoseResponse? then (s.(outer := outer), me.(stage := Done))
    else if ok then (s.(outer := outer, entered := s.entered + {id}), me.(stage := Entered))
    else (s, me.(stage := Releasing))
  }

  function AgentStep(s: Shared, id: nat, me: Worker, choice: Choice): Outcome
    requires me.stage.Entered? || me.stage.Calling?
  {
    if me.stage.Entered? then
      if choice.Deadline? then (s, me.(stage := Releasing)) else (s.(called := s.called + {id}), me.(stage := Calling))
    else if choice.AgentResult? then (s, me.(stage := Finished(Mint(SanitizeResult(choice.raw)))))
    else (s, me.(stage := Releasing))
  }

  /** A lost lease leaves the row to whoever claims it next; so does a receipt that cannot be given back. */
  function AbandonStep(s: Shared, me: Worker, fault: Fault, release: bool): Outcome {
    if fault.NoEffect? then (s, me.(stage := Done))
    else (s.(inner := Abandon(s.inner, me.request)),
          me.(stage := if fault.Deliver? && !Foreign(s.inner, me.request) && release then Releasing else Done))
  }

  function WorkerStep(s: Shared, id: nat, me: Worker, fault: Fault, now: int, choice: Choice): Outcome {
    match me.stage
    case Start => ClaimStep(s, me, fault, now)
    case Claimed(recovery) => ReadStep(s, me, fault, true, Checked(recovery))
    case Recovered(result) => SucceedStep(s, me, fault, now, result, Done)
    case Checked(recovery) =>
      if choice.LedgerDown? && !recovery then (s, me.(stage := Releasing))
      else (s, me.(stage := Preflight(recovery || choice.NeedsRecovery?)))
    case Preflight(recovery) => ReserveStep(s, me, fault, recovery)
    case SecondRead => ReadStep(s, me, fault, false, Done)
    case FenceRecovery => StartStep(s, me, fault, RecoveryReady, Done)
    case RecoveryReady => CommitStep(s, me, fault, RecoveryNotice(s.turn, me.trace), true)
    case NoticeCommitted(result) => SucceedStep(s, me, fault, now, result, Releasing)
    case ReadyToRenew =>
      if choice.Deadline? then (s, me.(stage := Abandoning(true)))
      else RenewStep(s, me, fault, now, Renewed, Abandoning(false))
    case Renewed =>
      if choice.Deadline? then (s, me.(stage := Abandoning(true)))
      else StartStep(s, me, fault, InnerStarted, Abandoning(false))
    case InnerStarted => EnterStep(s, id, me, fault, now)
    case Entered => AgentStep(s, id, me, choice)
    case Calling => AgentStep(s, id, me, choice)
    case Finished(result) => RenewStep(s, me, fault, now, ReadyToCommit(result), Done)
    case ReadyToCommit(result) => CommitStep(s, me, fault, result, false)
    case TurnCommitted(result) => SucceedStep(s, me, fault, now, result, Releasing)
    case Abandoning(release) => AbandonStep(s, me, fault, release)
    case Releasing =>
      (if fault.NoEffect? then s else s.(outer := Fail(s.outer, me.request, me.token, now)), me.(stage := Done))
    case Replied(_) => (s, me)
    case Done => (s, me)
  }

  /** What happens to the ledgers without a worker taking a step. */
  function Ambient(s: Shared, e: Event): Shared {
    match e
    case Prune(now) =>
      if s.outer.Some? && (!s.outer.value.status.Processing? || s.outer.value.lease <= now) then s.(outer := None) else s
    case Expire =>
      if s.inner.Committed? then s.(inner := NoReceipt, expiries := s.expiries + 1) else s
    case _ => s
  }

  /** One atomic event; an event that is not enabled changes nothing. */
  function Next(w: World, e: Event): World {
    match e
    case Arrive(id, request, trace) =>
      if id in w.workers then w else w.(workers := w.workers[id := Worker(request, trace, 0, Start)])
    case Step(id, fault, now, choice) =>
      if id !in w.workers then w else
        var (s, me) := WorkerStep(w.shared, id, w.workers[id], fault, now, choice);
        World(s, w.workers[id := me])
    case Heartbeat(id, now) =>
      if id !in w.workers then w else
        var (s, _) := RenewStep(w.shared, w.workers[id], Deliver, now, Done, Done);
        w.(shared := s)
    case Crash(id) =>
      if id !in w.workers || w.workers[id].stage.Replied? then w
      else w.(workers := w.workers[id := w.workers[id].(stage := Done)])
    case _ => w.(shared := Ambient(w.shared, e))
  }

  function Run(w: World, events: seq<Event>): World
    decreases |events|
  {
    if events == [] then w else Run(Next(w, events[0]), events[1..])
  }

  // ---------------------------------------------------------------------------
  // Invariants
  // ---------------------------------------------------------------------------

  /** `token` is the one that fences the live claim. */
  predicate Current(s: Shared, token: nat) {
    s.outer.Some? && s.outer.value.status.Processing? && s.outer.value.token == token
  }

  /** One if the receipt shows that provider work may have begun. */
  function Started(receipt: Receipt): nat {
    if receipt.ProviderStarted? || receipt.Committed? then 1 else 0
  }

  /** Provider entries still allowed: one for the receipt in being, one per expired receipt. */
  function Room(s: Shared): int {
    s.expiries - |s.entered|
  }

  /** Some receipt of this turn committed `result` first, for this request. */
  ghost predicate Recorded(s: Shared, request: string, result: Fields) {
    exists g :: g in s.history && s.history[g] == Record(request, result)
  }

  ghost predicate SharedOk(s: Shared) {
    && s.nextToken > 0
    && (s.outer.Some? ==> s.outer.value.token < s.nextToken)
    && !Current(s, 0)
    && Room(s) + Started(s.inner) >= 0
    && s.called <= s.entered
    && (forall g | g in s.history :: Replayable(s.history[g].result) && g <= s.expiries)
    && (s.expiries in s.history ==> s.inner.Committed?)
    && (s.inner.Committed? ==> s.expiries in s.history && s.history[s.expiries] == Record(s.inner.request, s.inner.result))
    && (s.outer.Some? && s.outer.value.status.Succeeded? ==>
          Recorded(s, s.outer.value.request, s.outer.value.status.response))
  }

  predicate Pending(stage: Stage) {
    stage.Finished? || stage.ReadyToCommit?
  }

  predicate Carries(stage: Stage) {
    stage.Recovered? || stage.NoticeCommitted? || stage.TurnCommitted? || stage.Replied?
  }

  ghost predicate WorkerOk(s: Shared, id: nat, me: Worker) {
    && me.token < s.nextToken
    && (me.stage.Start? ==> me.token == 0)
    && (Current(s, me.token) && (me.stage.ReadyToRenew? || me.stage.Renewed?) ==> Room(s) >= 0)
    && (Current(s, me.token) && me.stage.InnerStarted? ==> Room(s) + Started(s.inner) > 0)
    && (me.stage.Entered? ==> id in s.entered)
    && (Carries(me.stage) ==> Recorded(s, me.request, me.stage.result))
    && (Pending(me.stage) ==> Replayable(me.stage.result))
  }

  ghost predicate Inv(w: World) {
    && SharedOk(w.shared)
    && (forall i | i in w.workers :: WorkerOk(w.shared, i, w.workers[i]))
    && (forall i, j | i in w.workers && j in w.workers && i != j && w.workers[i].token > 0 ::
          w.workers[i].token != w.workers[j].token)
    && (forall i | i in w.shared.entered :: i in w.workers)
  }

  // ---------------------------------------------------------------------------
  // Every event keeps the invariant
  // ---------------------------------------------------------------------------

  /** How the ledgers may change under a step of the worker holding token `mover`: for
      everybody else no token becomes current and no room is lost by a current one. */
  ghost predicate Evolves(s: Shared, t: Shared, mover: nat) {
    && s.nextToken <= t.nextToken
    && s.entered <= t.entered
    && (forall q, r | Recorded(s, q, r) :: Recorded(t, q, r))
    && (forall k: nat | k < s.nextToken && k != mover && Current(t, k) ::
          Current(s, k) && Room(s) <= Room(t) && Room(s) + Started(s.inner) <= Room(t) + Started(t.inner))
  }

  lemma FrameWorker(s: Shared, t: Shared, mover: nat, id: nat, me: Worker)
    requires SharedOk(s) && SharedOk(t) && WorkerOk(s, id, me)
    requires Evolves(s, t, mover) && (me.token != mover || me.token == 0)
    ensures WorkerOk(t, id, me)
  {
    hide Replayable;
  }

  /** Replacing one worker and the ledgers. */
  lemma MoveKeeps(w: World, t: Shared, id: nat, me: Worker)
    requires Inv(w) && id in w.workers
    requires SharedOk(t) && WorkerOk(t, id, me)
    requires me.token == w.workers[id].token || me.token == w.shared.nextToken
    requires Evolves(w.shared, t, me.token)
    requires t.entered <= w.shared.entered + {id}
    ensures Inv(World(t, w.workers[id := me]))
  {
    hide Replayable;
    var v := World(t, w.workers[id := me]);
    forall i | i in v.workers ensures WorkerOk(t, i, v.workers[i]) {
      if i != id {
        assert WorkerOk(w.shared, i, w.workers[i]);
        FrameWorker(w.shared, t, me.token, i, w.workers[i]);
      }
    }
    forall i, j | i in v.workers && j in v.workers && i != j && v.workers[i].token > 0
      ensures v.workers[i].token != v.workers[j].token
    {
      assert i in w.workers && j in w.workers;
      assert WorkerOk(w.shared, i, w.workers[i]) && WorkerOk(w.shared, j, w.workers[j]);
    }
  }

  /** A step is sound when it keeps the ledgers, evolves them, and leaves its worker sound. */
  ghost predicate Sound(s: Shared, id: nat, me: Worker, o: Outcome) {
    && SharedOk(o.0) && WorkerOk(o.0, id, o.1)
    && Evolves(s, o.0, o.1.token)
    && (o.1.token == me.token || o.1.token == s.nextToken)
    && o.0.entered <= s.entered + {id}
  }

  lemma RecordedReplays(s: Shared, request: string, result: Fields)
    requires SharedOk(s) && Recorded(s, request, result)
    ensures Project(Obj(result)) == result
  {
    ProjectFixes(result);
  }

  lemma ClaimSound(s: Shared, id: nat, me: Worker, fault: Fault, now: int)
    requires SharedOk(s) && WorkerOk(s, id, me) && me.stage.Start?
    ensures Sound(s, id, me, ClaimStep(s, me, fault, now))
  {
    hide Replayable, Project;
    var reply := Claim(s.outer, me.request, s.nextToken, now).1;
    if reply.AlreadySucceeded? {
      RecordedReplays(s, me.request, reply.response);
    }
  }

  lemma ReadSound(s: Shared, id: nat, me: Worker, fault: Fault, project: bool, missing: Stage)
    requires SharedOk(s) && WorkerOk(s, id, me) && (missing.Checked? || missing.Done?)
    ensures Sound(s, id, me, ReadStep(s, me, fault, project, missing))
  {
    hide Replayable, Project;
    if s.inner.Committed? {
      assert Recorded(s, s.inner.request, s.inner.result);
      RecordedReplays(s, s.inner.request, s.inner.result);
    }
  }

  /** Reserving changes the receipt only, and shows no started provider work that was not there. */
  lemma ReserveShared(s: Shared, me: Worker, fault: Fault, recovery: bool)
    requires SharedOk(s)
    ensures var o := ReserveStep(s, me, fault, recovery);
            && SharedOk(o.0) && o.0 == s.(inner := o.0.inner) && Started(o.0.inner) == Started(s.inner)
            && o.1 == me.(stage := o.1.stage) && !Carries(o.1.stage) && !Pending(o.1.stage)
            && !o.1.stage.Entered? && !o.1.stage.Start? && !o.1.stage.Renewed? && !o.1.stage.InnerStarted?
            && (o.1.stage.ReadyToRenew? ==> Started(o.0.inner) == 0)
  {
    hide Replayable;
  }

  lemma ReserveSound(s: Shared, id: nat, me: Worker, fault: Fault, recovery: bool)
    requires SharedOk(s) && WorkerOk(s, id, me)
    ensures Sound(s, id, me, ReserveStep(s, me, fault, recovery))
  {
    hide Replayable;
    var o := ReserveStep(s, me, fault, recovery);
    ReserveShared(s, me, fault, recovery);
    hide ReserveStep, SharedOk;
  }

  lemma StartSound(s: Shared, id: nat, me: Worker, fault: Fault, next: Stage, failed: Stage)
    requires SharedOk(s) && WorkerOk(s, id, me) && (failed.Abandoning? || failed.Done?)
    requires next.RecoveryReady? || (next.InnerStarted? && me.stage.Renewed?)
    ensures Sound(s, id, me, StartStep(s, me, fault, next, failed))
  {
    hide Replayable;
  }

  lemma WrittenKeeps(s: Shared, request: string, result: Fields)
    requires SharedOk(s) && Replayable(result)
    ensures SharedOk(Written(s, request, result))
    ensures forall q, r | Recorded(s, q, r) :: Recorded(Written(s, request, result), q, r)
  {
    hide Replayable;
    var t := Written(s, request, result);
    forall q, r | Recorded(s, q, r) ensures Recorded(t, q, r) {
      var g :| g in s.history && s.history[g] == Record(q, r);
      assert g in t.history && t.history[g] == Record(q, r);
    }
  }

  lemma CommitSound(s: Shared, id: nat, me: Worker, fault: Fault, result: Fields, notice: bool)
    requires SharedOk(s) && WorkerOk(s, id, me) && Replayable(result)
    ensures Sound(s, id, me, CommitStep(s, me, fault, result, notice))
  {
    hide Replayable;
    WrittenKeeps(s, me.request, result);
    var t := Written(s, me.request, result);
    if t.inner.Committed? {
      assert Recorded(t, t.inner.request, t.inner.result);
    }
  }

  lemma SucceedSound(s: Shared, id: nat, me: Worker, fault: Fault, now: int, result: Fields, unavailable: Stage)
    requires SharedOk(s) && WorkerOk(s, id, me) && Recorded(s, me.request, result) && (unavailable.Done? || unavailable.Releasing?)
    ensures Sound(s, id, me, SucceedStep(s, me, fault, now, result, unavailable))
  {
    hide Replayable;
  }

  lemma RenewSound(s: Shared, id: nat, me: Worker, fault: Fault, now: int, next: Stage, failed: Stage)
    requires SharedOk(s) && WorkerOk(s, id, me) && (failed.Abandoning? || failed.Done?)
    requires (next.Renewed? && me.stage.ReadyToRenew?) || (next.ReadyToCommit? && Replayable(next.result))
    ensures Sound(s, id, me, RenewStep(s, me, fault, now, next, failed))
  {
    hide Replayable;
  }

  lemma EnterSound(s: Shared, id: nat, me: Worker, fault: Fault, now: int)
    requires SharedOk(s) && WorkerOk(s, id, me) && me.stage.InnerStarted?
    ensures Sound(s, id, me, EnterStep(s, id, me, fault, now))
  {
    hide Replayable;
    assert |s.entered + {id}| <= |s.entered| + 1 by {
      if id in s.entered { assert s.entered + {id} == s.entered; }
    }
  }

  lemma AgentSound(s: Shared, id: nat, me: Worker, choice: Choice)
    requires SharedOk(s) && WorkerOk(s, id, me) && (me.stage.Entered? || me.stage.Calling?)
    ensures Sound(s, id, me, AgentStep(s, id, me, choice))
  {
    hide Replayable, Mint, SanitizeResult;
    if choice.AgentResult? { MintReplayable(choice.raw); }
  }

  lemma StaySound(s: Shared, id: nat, me: Worker, stage: Stage)
    requires SharedOk(s) && WorkerOk(s, id, me)
    requires stage.Preflight? || stage.Abandoning? || stage.Releasing? || stage.Done? || stage == me.stage
    ensures Sound(s, id, me, (s, me.(stage := stage)))
  {
    hide Replayable;
  }

  lemma ReleaseSound(s: Shared, id: nat, me: Worker, fault: Fault, now: int, choice: Choice)
    requires SharedOk(s) && WorkerOk(s, id, me) && (me.stage.Abandoning? || me.stage.Releasing?)
    ensures Sound(s, id, me, WorkerStep(s, id, me, fault, now, choice))
  {
    hide Replayable, ClaimStep, ReadStep, ReserveStep, StartStep, CommitStep, SucceedStep, RenewStep, EnterStep,
         AgentStep, RecoveryNotice;
  }

  lemma StepSound(s: Shared, id: nat, me: Worker, fault: Fault, now: int, choice: Choice)
    requires SharedOk(s) && WorkerOk(s, id, me)
    ensures Sound(s, id, me, WorkerStep(s, id, me, fault, now, choice))
  {
    hide *;
    if me.stage.Abandoning? || me.stage.Releasing? {
      ReleaseSound(s, id, me, fault, now, choice);
    } else {
      ProtocolSound(s, id, me, fault, now, choice);
    }
  }

  lemma ProtocolSound(s: Shared, id: nat, me: Worker, fault: Fault, now: int, choice: Choice)
    requires SharedOk(s) && WorkerOk(s, id, me) && !me.stage.Abandoning? && !me.stage.Releasing?
    ensures Sound(s, id, me, WorkerStep(s, id, me, fault, now, choice))
  {
    hide Replayable, ClaimStep, ReadStep, ReserveStep, StartStep, CommitStep, SucceedStep, RenewStep, EnterStep,
         AgentStep, RecoveryNotice, Sound, SharedOk, Fail, Abandon;
    match me.stage
    case Start => ClaimSound(s, id, me, fault, now);
    case Claimed(recovery) => ReadSound(s, id, me, fault, true, Checked(recovery));
    case Recovered(result) => SucceedSound(s, id, me, fault, now, result, Done);
    case Checked(recovery) =>
      StaySound(s, id, me, Releasing);
      StaySound(s, id, me, Preflight(recovery || choice.NeedsRecovery?));
    case Preflight(recovery) => ReserveSound(s, id, me, fault, recovery);
    case SecondRead => ReadSound(s, id, me, fault, false, Done);
    case FenceRecovery => StartSound(s, id, me, fault, RecoveryReady, Done);
    case RecoveryReady =>
      NoticeReplayable(s.turn, me.trace);
      CommitSound(s, id, me, fault, RecoveryNotice(s.turn, me.trace), true);
    case NoticeCommitted(result) => SucceedSound(s, id, me, fault, now, result, Releasing);
    case ReadyToRenew =>
      StaySound(s, id, me, Abandoning(true));
      RenewSound(s, id, me, fault, now, Renewed, Abandoning(false));
    case Renewed =>
      StaySound(s, id, me, Abandoning(true));
      StartSound(s, id, me, fault, InnerStarted, Abandoning(false));
    case InnerStarted => EnterSound(s, id, me, fault, now);
    case Entered => AgentSound(s, id, me, choice);
    case Calling => AgentSound(s, id, me, choice);
    case Finished(result) => RenewSound(s, id, me, fault, now, ReadyToCommit(result), Done);
    case ReadyToCommit(result) => CommitSound(s, id, me, fault, result, false);
    case TurnCommitted(result) => SucceedSound(s, id, me, fault, now, result, Releasing);
    case _ => StaySound(s, id, me, me.stage);
  }

  lemma AmbientKeeps(w: World, e: Event)
    requires Inv(w)
    ensures Inv(w.(shared := Ambient(w.shared, e)))
  {
    hide Replayable;
    var t := Ambient(w.shared, e);
    assert SharedOk(t);
    assert Evolves(w.shared, t, 0);
    SharedMoves(w, t);
  }

  lemma SharedMoves(w: World, t: Shared)
    requires Inv(w) && SharedOk(t) && Evolves(w.shared, t, 0) && t.entered == w.shared.entered
    ensures Inv(w.(shared := t))
  {
    hide Replayable, SharedOk;
    forall i | i in w.workers ensures WorkerOk(t, i, w.workers[i]) {
      FrameWorker(w.shared, t, 0, i, w.workers[i]);
    }
  }

  lemma HeartbeatKeeps(w: World, id: nat, now: int)
    requires Inv(w)
    ensures Inv(Next(w, Heartbeat(id, now)))
  {
    hide Replayable;
    if id in w.workers {
      var t := RenewStep(w.shared, w.workers[id], Deliver, now, Done, Done).0;
      assert SharedOk(t);
      SharedMoves(w, t);
    }
  }

  lemma CrashKeeps(w: World, id: nat)
    requires Inv(w)
    ensures Inv(Next(w, Crash(id)))
  {
    hide Replayable;
    if id in w.workers && !w.workers[id].stage.Replied? {
      StaySound(w.shared, id, w.workers[id], Done);
      MoveKeeps(w, w.shared, id, w.workers[id].(stage := Done));
    }
  }

  lemma ArriveKeeps(w: World, id: nat, request: string, trace: string)
    requires Inv(w)
    ensures Inv(Next(w, Arrive(id, request, trace)))
  {
    hide Replayable;
    if id !in w.workers {
      assert WorkerOk(w.shared, id, Worker(request, trace, 0, Start));
    }
  }

  lemma NextKeeps(w: World, e: Event)
    requires Inv(w)
    ensures Inv(Next(w, e))
  {
    hide Replayable, WorkerStep, Ambient, SharedOk, WorkerOk;
    match e
    case Arrive(id, request, trace) => ArriveKeeps(w, id, request, trace);
    case Step(id, fault, now, choice) =>
      if id in w.workers {
        var me := w.workers[id];
        StepSound(w.shared, id, me, fault, now, choice);
        var o := WorkerStep(w.shared, id, me, fault, now, choice);
        MoveKeeps(w, o.0, id, o.1);
      }
    case Heartbeat(id, now) => HeartbeatKeeps(w, id, now);
    case Crash(id) => CrashKeeps(w, id);
    case _ => AmbientKeeps(w, e);
  }

  lemma {:induction false} RunKeeps(w: World, events: seq<Event>)
    requires Inv(w)
    ensures Inv(Run(w, events))
    decreases |events|
  {
    hide Inv, Next;
    if events != [] {
      NextKeeps(w, events[0]);
      RunKeeps(Next(w, events[0]), events[1..]);
    }
  }

  // ---------------------------------------------------------------------------
  // Safety over every run
  // ---------------------------------------------------------------------------

  lemma Reachable(turn: string, events: seq<Event>)
    ensures Inv(Run(Initial(turn), events))
  {
    RunKeeps(Initial(turn), events);
  }

  /** What a receipt committed first stays its result. */
  ghost predicate HistoryStands(s: Shared, t: Shared) {
    forall g | g in s.history :: g in t.history && t.history[g] == s.history[g]
  }

  lemma CommitHistory(s: Shared, me: Worker, fault: Fault, result: Fields, notice: bool)
    requires SharedOk(s)
    ensures HistoryStands(s, CommitStep(s, me, fault, result, notice).0)
  {
    hide Replayable, Recorded;
  }

  lemma StepHistory(s: Shared, id: nat, me: Worker, fault: Fault, now: int, choice: Choice)
    requires SharedOk(s)
    ensures HistoryStands(s, WorkerStep(s, id, me, fault, now, choice).0)
  {
    hide CommitStep, SharedOk, Project, Mint, SanitizeResult, RecoveryNotice;
    hide Claim, Renew, EnterPhase, Succeed, Fail, Reserve, StartProvider, Abandon;
    if me.stage.RecoveryReady? {
      CommitHistory(s, me, fault, RecoveryNotice(s.turn, me.trace), true);
    } else if me.stage.ReadyToCommit? {
      CommitHistory(s, me, fault, me.stage.result, false);
    }
  }

  lemma NextHistory(w: World, e: Event)
    requires Inv(w)
    ensures HistoryStands(w.shared, Next(w, e).shared)
  {
    assert SharedOk(w.shared);
    hide WorkerStep, SharedOk;
    if e.Step? && e.id in w.workers {
      StepHistory(w.shared, e.id, w.workers[e.id], e.fault, e.now, e.choice);
    }
  }

  /** Over every run, from any reachable world, each receipt keeps the result it committed first: neither a later
      commit nor anything else replaces it. */
  lemma {:induction false} FirstResultStands(w: World, events: seq<Event>)
    requires Inv(w)
    ensures HistoryStands(w.shared, Run(w, events).shared)
    decreases |events|
  {
    if events != [] {
      NextKeeps(w, events[0]);
      NextHistory(w, events[0]);
      hide Inv, Next;
      FirstResultStands(Next(w, events[0]), events[1..]);
    }
  }

  /** Provider calls never exceed one per receipt: without a retention expiry at most one
      worker calls the agent, and then the receipt says so for ever. */
  lemma ProviderCallsBounded(turn: string, events: seq<Event>)
    ensures var s := Run(Initial(turn), events).shared;
            && s.called <= s.entered && |s.called| <= s.expiries + 1
            && (s.expiries == 0 && s.called != {} ==> |s.called| == 1 && Started(s.inner) == 1)
  {
    hide Replayable;
    Reachable(turn, events);
    var s := Run(Initial(turn), events).shared;
    SubsetCounts(s.called, s.entered);
  }

  /** Answers come from the receipts: each is one of at most `expiries + 1` results, committed for the very request
      that is answered. */
  lemma AnswersRecorded(turn: string, events: seq<Event>, i: nat)
    requires var w := Run(Initial(turn), events); i in w.workers && w.workers[i].stage.Replied?
    ensures var w := Run(Initial(turn), events);
            && Record(w.workers[i].request, w.workers[i].stage.result) in w.shared.history.Values
            && |w.shared.history| <= w.shared.expiries + 1
  {
    hide Replayable;
    Reachable(turn, events);
    var w := Run(Initial(turn), events);
    assert WorkerOk(w.shared, i, w.workers[i]);
    KeysBounded(w.shared.history, w.shared.expiries);
  }

  lemma {:induction false} KeysBounded(history: map<nat, Record>, top: nat)
    requires forall g | g in history :: g <= top
    ensures |history| <= top + 1
  {
    var rest := history - {top};
    assert |history| <= |rest| + 1 by {
      assert history.Keys <= rest.Keys + {top};
      SubsetCounts(history.Keys, rest.Keys + {top});
      assert |history.Keys| == |history| && |rest.Keys| == |rest|;
    }
    if top > 0 {
      KeysBounded(rest, top - 1);
    } else {
      assert rest.Keys == {};
      assert |rest.Keys| == |rest|;
    }
  }

  /** Without a retention expiry only one request is ever answered, and all answers agree, with each other and with the stored
      success, and the receipt still holds the common result. */
  lemma AnswersAgree(turn: string, events: seq<Event>, i: nat, j: nat)
    requires var w := Run(Initial(turn), events);
             && w.shared.expiries == 0
             && i in w.workers && w.workers[i].stage.Replied?
             && j in w.workers && w.workers[j].stage.Replied?
    ensures var w := Run(Initial(turn), events);
            && w.workers[i].request == w.workers[j].request
            && w.workers[i].stage.result == w.workers[j].stage.result
            && w.shared.inner == Committed(w.workers[i].request, w.workers[i].stage.result)
  {
    hide Replayable;
    Reachable(turn, events);
    var w := Run(Initial(turn), events);
    assert WorkerOk(w.shared, i, w.workers[i]) && WorkerOk(w.shared, j, w.workers[j]);
  }

  /** The outer ledger records success only after the receipt committed that very result. */
  lemma SuccessAfterCommit(turn: string, events: seq<Event>)
    requires var s := Run(Initial(turn), events).shared; s.outer.Some? && s.outer.value.status.Succeeded?
    ensures var s := Run(Initial(turn), events).shared;
            && Record(s.outer.value.request, s.outer.value.status.response) in s.history.Values
            && (s.expiries == 0 ==> s.inner == Committed(s.outer.value.request, s.outer.value.status.response))
            && Project(Obj(s.outer.value.status.response)) == s.outer.value.status.response
  {
    hide Replayable, Project;
    Reachable(turn, events);
    var s := Run(Initial(turn), events).shared;
    RecordedReplays(s, s.outer.value.request, s.outer.value.status.response);
  }

  // ---------------------------------------------------------------------------
  // Progress: an undisturbed retry is answered
  // ---------------------------------------------------------------------------

  /** One worker stepping alone, without faults, at one clock reading. */
  function Path(s: Shared, id: nat, me: Worker, now: int, choices: seq<Choice>): Outcome
    decreases |choices|
  {
    if choices == [] then (s, me) else
      var (t, moved) := WorkerStep(s, id, me, Deliver, now, choices[0]);
      Path(t, id, moved, now, choices[1..])
  }

  function Steps(id: nat, now: int, choices: seq<Choice>): seq<Event>
  {
    seq(|choices|, i requires 0 <= i < |choices| => Step(id, Deliver, now, choices[i]))
  }

  lemma {:induction false} PathRuns(w: World, id: nat, now: int, choices: seq<Choice>)
    requires id in w.workers
    ensures var o := Path(w.shared, id, w.workers[id], now, choices);
            Run(w, Steps(id, now, choices)) == World(o.0, w.workers[id := o.1])
    decreases |choices|
  {
    hide WorkerStep;
    if choices == [] {
      assert w.workers[id := w.workers[id]] == w.workers;
    } else {
      var (t, moved) := WorkerStep(w.shared, id, w.workers[id], Deliver, now, choices[0]);
      var v := World(t, w.workers[id := moved]);
      assert Next(w, Step(id, Deliver, now, choices[0])) == v;
      assert Steps(id, now, choices)[1..] == Steps(id, now, choices[1..]);
      PathRuns(v, id, now, choices[1..]);
      var o := Path(t, id, moved, now, choices[1..]);
      assert v.workers[id := o.1] == w.workers[id := o.1];
    }
  }

  lemma PathSplit(s: Shared, id: nat, me: Worker, now: int, first: Choice, rest: seq<Choice>)
    ensures var (t, moved) := WorkerStep(s, id, me, Deliver, now, first);
            Path(s, id, me, now, [first] + rest) == Path(t, id, moved, now, rest)
  {
    hide WorkerStep;
    assert ([first] + rest)[1..] == rest;
  }

  lemma PathConcat(s: Shared, id: nat, me: Worker, now: int, a: seq<Choice>, b: seq<Choice>)
    ensures var (t, moved) := Path(s, id, me, now, a);
            Path(s, id, me, now, a + b) == Path(t, id, moved, now, b)
    decreases |a|
  {
    hide WorkerStep;
    if a == [] {
      assert a + b == b;
    } else {
      var (t, moved) := WorkerStep(s, id, me, Deliver, now, a[0]);
      assert (a + b)[0] == a[0] && (a + b)[1..] == a[1..] + b;
      PathConcat(t, id, moved, now, a[1..], b);
    }
  }

  const NOTICE: seq<Choice> := [Proceed, Proceed]
  const PREFLIGHT: seq<Choice> := [Proceed, Proceed, Proceed, Proceed]
  const UNTIL_CALL: seq<Choice> := [Proceed, Proceed, Proceed, Proceed]

  function AfterCall(raw: Fields): seq<Choice> {
    [AgentResult(raw), Proceed, Proceed, Proceed]
  }

  /** Commit the recovery notice and record it as the answer. */
  lemma NoticePath(s: Shared, id: nat, me: Worker, now: int)
    requires me.stage.RecoveryReady? && s.inner == ProviderStarted(me.request)
    requires Holds(s.outer, me.request, me.token, now)
    ensures var (t, after) := Path(s, id, me, now, NOTICE);
            after.stage == Replied(RecoveryNotice(s.turn, me.trace)) && t.called == s.called
  {
    hide RecoveryNotice;
    PathSplit(s, id, me, now, Proceed, [Proceed]);
    var (t, moved) := WorkerStep(s, id, me, Deliver, now, Proceed);
    PathSplit(t, id, moved, now, Proceed, []);
  }

  /** Renew, start the receipt, enter the outer phase, call the agent. */
  lemma CallPath(s: Shared, id: nat, me: Worker, now: int)
    requires me.stage.ReadyToRenew? && s.inner == Reserved(me.request)
    requires Holds(s.outer, me.request, me.token, now) && !s.outer.value.phase
    ensures var (t, after) := Path(s, id, me, now, UNTIL_CALL);
            && after == me.(stage := Calling) && t.inner == ProviderStarted(me.request)
            && Holds(t.outer, me.request, me.token, now)
            && t.called == s.called + {id} && t.history == s.history && t.expiries == s.expiries
  {
    var (s1, m1) := WorkerStep(s, id, me, Deliver, now, Proceed);
    var (s2, m2) := WorkerStep(s1, id, m1, Deliver, now, Proceed);
    var (s3, m3) := WorkerStep(s2, id, m2, Deliver, now, Proceed);
    var (s4, m4) := WorkerStep(s3, id, m3, Deliver, now, Proceed);
    assert m1.stage == Renewed && m2.stage == InnerStarted && m3.stage == Entered && m4.stage == Calling;
    PathSplit(s, id, me, now, Proceed, [Proceed, Proceed, Proceed]);
    PathSplit(s1, id, m1, now, Proceed, [Proceed, Proceed]);
    PathSplit(s2, id, m2, now, Proceed, [Proceed]);
    PathSplit(s3, id, m3, now, Proceed, []);
  }

  /** The agent answers; the turn is committed and recorded. */
  lemma AnswerPath(s: Shared, id: nat, me: Worker, now: int, raw: Fields)
    requires me.stage.Calling? && s.inner == ProviderStarted(me.request)
    requires Holds(s.outer, me.request, me.token, now)
    ensures var (t, after) := Path(s, id, me, now, AfterCall(raw));
            var answer := Mint(SanitizeResult(raw));
            && after.stage == Replied(answer) && t.called == s.called && t.expiries == s.expiries
            && t.inner == Committed(me.request, answer) && t.outer.Some? && t.outer.value.status == Succeeded(answer)
  {
    hide Mint, SanitizeResult;
    var answer := Mint(SanitizeResult(raw));
    var (s1, m1) := WorkerStep(s, id, me, Deliver, now, AgentResult(raw));
    var (s2, m2) := WorkerStep(s1, id, m1, Deliver, now, Proceed);
    var (s3, m3) := WorkerStep(s2, id, m2, Deliver, now, Proceed);
    var (s4, m4) := WorkerStep(s3, id, m3, Deliver, now, Proceed);
    assert m1.stage == Finished(answer) && m2.stage == ReadyToCommit(answer);
    assert m3.stage == TurnCommitted(answer) && m4.stage == Replied(answer);
    PathSplit(s, id, me, now, AgentResult(raw), [Proceed, Proceed, Proceed]);
    PathSplit(s1, id, m1, now, Proceed, [Proceed, Proceed]);
    PathSplit(s2, id, m2, now, Proceed, [Proceed]);
    PathSplit(s3, id, m3, now, Proceed, []);
  }

  /** A retry may claim: same request everywhere, and no live lease in its way. */
  predicate Claimable(s: Shared, request: string, now: int) {
    && !Foreign(s.inner, request)
    && (s.outer.Some? ==> s.outer.value.request == request && !s.outer.value.status.Succeeded?
                          && (s.outer.value.status.Processing? ==> s.outer.value.lease <= now))
  }

  predicate PhaseSeen(s: Shared) {
    s.outer.Some? && s.outer.value.phase
  }

  /** Claim, read, consult the provider ledger, reserve. */
  lemma PreflightPath(s: Shared, id: nat, me: Worker, now: int)
    requires me.stage.Start? && Claimable(s, me.request, now) && !s.inner.Committed?
    ensures var (t, after) := Path(s, id, me, now, PREFLIGHT);
            && after.request == me.request && after.trace == me.trace
            && t.turn == s.turn && t.called == s.called && t.expiries == s.expiries
            && Holds(t.outer, me.request, after.token, now) && t.outer.value.phase == PhaseSeen(s)
            && (s.inner.ProviderStarted? ==> after.stage.RecoveryReady? && t.inner == s.inner)
            && (!s.inner.ProviderStarted? ==>
                  (t.inner == Reserved(me.request) && after.stage == if PhaseSeen(s) then FenceRecovery else ReadyToRenew))
  {
    var (s1, m1) := WorkerStep(s, id, me, Deliver, now, Proceed);
    var (s2, m2) := WorkerStep(s1, id, m1, Deliver, now, Proceed);
    var (s3, m3) := WorkerStep(s2, id, m2, Deliver, now, Proceed);
    assert m1.stage == Claimed(PhaseSeen(s)) && m2.stage == Checked(PhaseSeen(s)) && m3.stage == Preflight(PhaseSeen(s));
    PathSplit(s, id, me, now, Proceed, [Proceed, Proceed, Proceed]);
    PathSplit(s1, id, m1, now, Proceed, [Proceed, Proceed]);
    PathSplit(s2, id, m2, now, Proceed, [Proceed]);
    PathSplit(s3, id, m3, now, Proceed, []);
  }

  /** The committed result is found after the claim and recorded as the answer. */
  lemma ReplayPath(s: Shared, id: nat, me: Worker, now: int)
    requires SharedOk(s) && me.stage.Start? && Claimable(s, me.request, now) && s.inner.Committed?
    ensures var (t, after) := Path(s, id, me, now, [Proceed, Proceed, Proceed]);
            after.stage == Replied(s.inner.result) && t.called == s.called
  {
    hide Project, Replayable;
    assert Recorded(s, s.inner.request, s.inner.result);
    RecordedReplays(s, s.inner.request, s.inner.result);
    var (s1, m1) := WorkerStep(s, id, me, Deliver, now, Proceed);
    var (s2, m2) := WorkerStep(s1, id, m1, Deliver, now, Proceed);
    assert m1.stage.Claimed? && m2.stage == Recovered(s.inner.result);
    PathSplit(s, id, me, now, Proceed, [Proceed, Proceed]);
    PathSplit(s1, id, m1, now, Proceed, [Proceed]);
    PathSplit(s2, id, m2, now, Proceed, []);
  }

  /** From every reachable state an undisturbed retry is answered: with the stored or
      committed result if there is one, with the recovery notice (and no provider call) if
      provider work may have begun, and otherwise by calling the agent itself. */
  lemma RetryAnswers(s: Shared, id: nat, me: Worker, now: int, raw: Fields) returns (choices: seq<Choice>)
    requires SharedOk(s) && me.stage.Start?
    requires (s.outer.Some? && s.outer.value.request == me.request && s.outer.value.status.Succeeded?)
             || Claimable(s, me.request, now)
    ensures var (t, after) := Path(s, id, me, now, choices);
            && after.stage.Replied?
            && (s.outer.Some? && s.outer.value.status.Succeeded? ==>
                  after.stage.result == s.outer.value.status.response && t.called == s.called)
            && (Claimable(s, me.request, now) ==>
                  if s.inner.Committed? then after.stage.result == s.inner.result && t.called == s.called
                  else if s.inner.ProviderStarted? || PhaseSeen(s) then
                    after.stage.result == RecoveryNotice(s.turn, me.trace) && t.called == s.called
                  else after.stage.result == Mint(SanitizeResult(raw)) && t.called == s.called + {id})
  {
    hide Replayable, Project, Mint, SanitizeResult, RecoveryNotice;
    if s.outer.Some? && s.outer.value.status.Succeeded? {
      RecordedReplays(s, s.outer.value.request, s.outer.value.status.response);
      choices := [Proceed];
      PathSplit(s, id, me, now, Proceed, []);
    } else if s.inner.Committed? {
      ReplayPath(s, id, me, now);
      choices := [Proceed, Proceed, Proceed];
    } else {
      PreflightPath(s, id, me, now);
      var (t, after) := Path(s, id, me, now, PREFLIGHT);
      if s.inner.ProviderStarted? {
        NoticePath(t, id, after, now);
        choices := PREFLIGHT + NOTICE;
        PathConcat(s, id, me, now, PREFLIGHT, NOTICE);
      } else if PhaseSeen(s) {
        choices := FencedPath(t, id, after, now);
        PathConcat(s, id, me, now, PREFLIGHT, choices);
        choices := PREFLIGHT + choices;
      } else {
        CallPath(t, id, after, now);
        var (u, calling) := Path(t, id, after, now, UNTIL_CALL);
        AnswerPath(u, id, calling, now, raw);
        PathConcat(t, id, after, now, UNTIL_CALL, AfterCall(raw));
        choices := PREFLIGHT + (UNTIL_CALL + AfterCall(raw));
        PathConcat(s, id, me, now, PREFLIGHT, UNTIL_CALL + AfterCall(raw));
      }
    }
  }

  lemma FencedPath(s: Shared, id: nat, me: Worker, now: int) returns (choices: seq<Choice>)
    requires me.stage.FenceRecovery? && s.inner == Reserved(me.request)
    requires Holds(s.outer, me.request, me.token, now)
    ensures var (t, after) := Path(s, id, me, now, choices);
            after.stage == Replied(RecoveryNotice(s.turn, me.trace)) && t.called == s.called
  {
    hide RecoveryNotice;
    var (t, moved) := WorkerStep(s, id, me, Deliver, now, Proceed);
    assert moved.stage.RecoveryReady? && t.inner == ProviderStarted(me.request);
    NoticePath(t, id, moved, now);
    choices := [Proceed] + NOTICE;
    PathSplit(s, id, me, now, Proceed, NOTICE);
  }

  // ---------------------------------------------------------------------------
  // Another request's turn
  // ---------------------------------------------------------------------------

  predicate StepsOf(events: seq<Event>, id: nat) {
    forall e | e in events :: e.Step? && e.id == id
  }

  /** A worker told Done takes no further part. */
  lemma {:induction false} DoneStays(w: World, id: nat, events: seq<Event>)
    requires id in w.workers && w.workers[id].stage.Done? && StepsOf(events, id)
    ensures Run(w, events).shared == w.shared && Run(w, events).workers == w.workers
    decreases |events|
  {
    if events != [] {
      assert events[0] in events && forall e | e in events[1..] :: e in events;
      assert Next(w, events[0]).workers == w.workers;
      DoneStays(Next(w, events[0]), id, events[1..]);
    }
  }

  lemma {:induction false} RepliedStays(w: World, id: nat, events: seq<Event>)
    requires id in w.workers && w.workers[id].stage.Replied? && StepsOf(events, id)
    ensures Run(w, events).shared == w.shared && Run(w, events).workers == w.workers
    decreases |events|
  {
    if events != [] {
      assert events[0] in events && forall e | e in events[1..] :: e in events;
      assert Next(w, events[0]).workers == w.workers;
      RepliedStays(Next(w, events[0]), id, events[1..]);
    }
  }

  /** A worker whose turn's row or receipt belongs to another request calls nobody and changes no receipt, whatever
      it does and whatever faults and readings it meets; and it is answered only if the row is its own after all,
      with the success stored there. */
  lemma ForeignNeverAnswered(w: World, id: nat, events: seq<Event>)
    requires id in w.workers && w.workers[id].stage.Start? && StepsOf(events, id)
    requires var s, me := w.shared, w.workers[id];
             (s.outer.Some? && s.outer.value.request != me.request) || Foreign(s.inner, me.request)
    ensures var v := Run(w, events);
            && v.shared.called == w.shared.called && v.shared.inner == w.shared.inner
            && id in v.workers
            && (v.workers[id].stage.Replied? ==>
                  && w.shared.outer.Some? && w.shared.outer.value.request == w.workers[id].request
                  && w.shared.outer.value.status.Succeeded?
                  && v.workers[id].stage.result == Project(Obj(w.shared.outer.value.status.response)))
  {
    hide Project, Mint, SanitizeResult, RecoveryNotice, Replayable;
    if events != [] {
      assert events[0] in events && forall e | e in events[1..] :: e in events;
      var u := Next(w, events[0]);
      if u.workers[id].stage.Done? {
        DoneStays(u, id, events[1..]);
      } else if u.workers[id].stage.Replied? {
        RepliedStays(u, id, events[1..]);
      } else {
        ForeignRead(u, id, events[1..]);
      }
    }
  }

  /** A claim was granted over somebody else's receipt: reading it ends the turn. */
  lemma ForeignRead(w: World, id: nat, events: seq<Event>)
    requires id in w.workers && w.workers[id].stage.Claimed? && StepsOf(events, id)
    requires Foreign(w.shared.inner, w.workers[id].request)
    ensures var v := Run(w, events);
            && v.shared.called == w.shared.called && v.shared.inner == w.shared.inner
            && id in v.workers && !v.workers[id].stage.Replied?
  {
    hide Project, Mint, SanitizeResult, RecoveryNotice, Replayable;
    if events != [] {
      assert events[0] in events && forall e | e in events[1..] :: e in events;
      DoneStays(Next(w, events[0]), id, events[1..]);
    }
  }

  // ---------------------------------------------------------------------------
  // The bounds are tight
  // ---------------------------------------------------------------------------

  lemma {:induction false} RunConcat(w: World, a: seq<Event>, b: seq<Event>)
    ensures Run(w, a + b) == Run(Run(w, a), b)
    decreases |a|
  {
    hide Next;
    if a == [] {
      assert a + b == b;
    } else {
      assert (a + b)[0] == a[0] && (a + b)[1..] == a[1..] + b;
      RunConcat(Next(w, a[0]), a[1..], b);
    }
  }

  /** One whole turn by a new worker, for a turn without row or receipt. */
  function WholeTurn(id: nat, raw: Fields): seq<Event> {
    [Arrive(id, "request", "trace")] + Steps(id, 0, PREFLIGHT + (UNTIL_CALL + AfterCall(raw)))
  }

  lemma WholeTurnRuns(w: World, id: nat, raw: Fields)
    requires w.shared.outer.None? && w.shared.inner.NoReceipt? && id !in w.workers
    ensures var v := Run(w, WholeTurn(id, raw));
            var answer := Mint(SanitizeResult(raw));
            && v.shared.called == w.shared.called + {id} && v.shared.expiries == w.shared.expiries
            && v.shared.inner.Committed? && v.shared.outer.Some? && v.shared.outer.value.status.Succeeded?
            && id in v.workers && v.workers[id].stage == Replied(answer)
            && v.workers.Keys == w.workers.Keys + {id}
            && (forall i | i in w.workers :: v.workers[i] == w.workers[i])
  {
    hide Mint, SanitizeResult, Path, WorkerStep;
    var me := Worker("request", "trace", 0, Start);
    var u := w.(workers := w.workers[id := me]);
    var choices := PREFLIGHT + (UNTIL_CALL + AfterCall(raw));
    assert Next(w, Arrive(id, "request", "trace")) == u;
    assert WholeTurn(id, raw)[1..] == Steps(id, 0, choices);
    PathRuns(u, id, 0, choices);
    PreflightPath(u.shared, id, me, 0);
    var (t, after) := Path(u.shared, id, me, 0, PREFLIGHT);
    CallPath(t, id, after, 0);
    var (c, calling) := Path(t, id, after, 0, UNTIL_CALL);
    AnswerPath(c, id, calling, 0, raw);
    PathConcat(t, id, after, 0, UNTIL_CALL, AfterCall(raw));
    PathConcat(u.shared, id, me, 0, PREFLIGHT, UNTIL_CALL + AfterCall(raw));
  }

  lemma RunNone(w: World)
    ensures Run(w, []) == w
  {
  }

  /** With `n` retention expiries the agent can indeed be called `n + 1` times. */
  lemma {:induction false} CallsBoundTight(turn: string, n: nat) returns (events: seq<Event>)
    ensures var w := Run(Initial(turn), events);
            && w.shared.expiries == n && |w.shared.called| == n + 1
            && w.shared.inner.Committed? && w.shared.outer.Some? && w.shared.outer.value.status.Succeeded?
            && (forall i | i in w.workers || i in w.shared.called :: i <= n)
  {
    hide Next, Run, WholeTurn, Mint, SanitizeResult;
    var before: World;
    var prefix: seq<Event>;
    RunNone(Initial(turn));
    if n == 0 {
      prefix, before := [], Initial(turn);
    } else {
      var earlier := CallsBoundTight(turn, n - 1);
      var w := Run(Initial(turn), earlier);
      prefix := earlier + [Expire, Prune(0)];
      RunConcat(Initial(turn), earlier, [Expire, Prune(0)]);
      before := ExpireAndPrune(w);
    }
    WholeTurnRuns(before, n, map[]);
    events := prefix + WholeTurn(n, map[]);
    RunConcat(Initial(turn), prefix, WholeTurn(n, map[]));
    var w := Run(Initial(turn), events);
    assert n !in before.shared.called;
  }

  lemma ExpireAndPrune(w: World) returns (v: World)
    requires w.shared.inner.Committed? && w.shared.outer.Some? && w.shared.outer.value.status.Succeeded?
    ensures v == Run(w, [Expire, Prune(0)])
    ensures v.shared.outer.None? && v.shared.inner.NoReceipt? && v.workers == w.workers
    ensures v.shared.expiries == w.shared.expiries + 1 && v.shared.called == w.shared.called
  {
    var u := Next(w, Expire);
    v := Next(u, Prune(0));
    assert [Expire, Prune(0)][1..] == [Prune(0)];
    assert Run(u, [Prune(0)]) == Run(v, []);
  }

  /** One expiry is enough for two successful answers of one turn to differ. */
  lemma AnswersMayDifferAfterExpiry(turn: string) returns (events: seq<Event>)
    ensures var w := Run(Initial(turn), events);
            && w.shared.expiries == 1 && 0 in w.workers && 1 in w.workers
            && w.workers[0].stage.Replied? && w.workers[1].stage.Replied?
            && w.workers[0].stage.result != w.workers[1].stage.result
  {
    var a: Fields := map["reply" := Str("first")];
    var b: Fields := map["reply" := Str("second")];
    ReplyKept("first");
    ReplyKept("second");
    hide Next, Run, WholeTurn, Mint, SanitizeResult;
    WholeTurnRuns(Initial(turn), 0, a);
    var w := Run(Initial(turn), WholeTurn(0, a));
    var v := ExpireAndPrune(w);
    WholeTurnRuns(v, 1, b);
    RunConcat(Initial(turn), WholeTurn(0, a), [Expire, Prune(0)]);
    RunConcat(Initial(turn), WholeTurn(0, a) + [Expire, Prune(0)], WholeTurn(1, b));
    events := WholeTurn(0, a) + [Expire, Prune(0)] + WholeTurn(1, b);
    assert Get(Mint(SanitizeResult(a)), "reply") != Get(Mint(SanitizeResult(b)), "reply") by {
      assert "first"[0] != "second"[0];
    }
  }

  lemma ReplyKept(reply: string)
    ensures Get(Mint(SanitizeResult(map["reply" := Str(reply)])), "reply") == Str(reply)
  {
    SanitizeKeepsOthers(map["reply" := Str(reply)], "reply");
  }
}
