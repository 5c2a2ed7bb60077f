/** What the durable turn's claims, leases and receipts promise: who may take a row over and when, how a receipt
    may change, what an interrupted step leaves behind, and how often one row lets the provider be called. */
module DurableClaims {
  import opened ChannelResult
  import opened Counting
  import opened DurableTurn
  import opened Wrappers

  // ---------------------------------------------------------------------------
  // Leases
  // ---------------------------------------------------------------------------

  /** Until ninety seconds after the reading nobody else can claim the row, and the token's holder alone may update
      it; from then on anybody with the same request can claim it, and the token is worth nothing. */
  predicate HeldFrom(row: Option<Row>, request: string, token: nat, now: int, other: nat, t: int) {
    && row.Some?
    && (if t < now + 90 then Claim(row, request, other, t) == (row, InProgress)
        else Claim(row, request, other, t).1 == Granted(row.value.phase))
    && (Holds(row, request, other, t) <==> other == token && t < now + 90)
  }

  /** A claim granted, a lease renewed and a provider phase entered each hold the row for ninety seconds. */
  lemma HeldForNinetySeconds(row: Option<Row>, request: string, token: nat, now: int, other: nat, t: int)
    ensures Claim(row, request, token, now).1.Granted? ==>
              HeldFrom(Claim(row, request, token, now).0, request, token, now, other, t)
    ensures Renew(row, request, token, now).1 ==>
              HeldFrom(Renew(row, request, token, now).0, request, token, now, other, t)
    ensures EnterPhase(row, request, token, now).1 ==>
              HeldFrom(EnterPhase(row, request, token, now).0, request, token, now, other, t)
  {
  }

  /** So does the heartbeat of a worker whose lease is live, whatever the worker is at; it changes nothing else, and
      nothing at all once the lease is lost. */
  lemma HeartbeatHolds(w: World, id: nat, now: int, other: nat, t: int)
    requires id in w.workers
    ensures var me, s, v := w.workers[id], w.shared, Next(w, Heartbeat(id, now));
            && v.workers == w.workers && v.shared == s.(outer := v.shared.outer)
            && (if Holds(s.outer, me.request, me.token, now)
                then HeldFrom(v.shared.outer, me.request, me.token, now, other, t) &&
                     v.shared.outer.value.phase == s.outer.value.phase
                else v == w)
  {
  }

  /** Without the token, the request or a live lease no update touches the row. */
  lemma FencedOff(row: Option<Row>, request: string, token: nat, response: Fields, now: int)
    requires row.None? || row.value.request != request || row.value.token != token || !row.value.status.Processing?
             || row.value.lease <= now
    ensures Renew(row, request, token, now) == (row, false) && EnterPhase(row, request, token, now) == (row, false)
    ensures Succeed(row, request, token, response, now) == (row, false) && Fail(row, request, token, now) == row
  {
  }

  /** With them: a success is what every later claim of the request is told; a failure lets the next claim in at once,
      and warns it if the provider phase was entered; the phase is entered once, and is remembered. */
  lemma UpdatesTake(row: Option<Row>, request: string, token: nat, response: Fields, now: int, other: nat, t: int)
    requires Holds(row, request, token, now)
    ensures var (after, ok) := Succeed(row, request, token, response, now);
            ok && Claim(after, request, other, t) == (after, AlreadySucceeded(response))
    ensures Claim(Fail(row, request, token, now), request, other, t).1 == Granted(row.value.phase)
    ensures var (after, ok) := EnterPhase(row, request, token, now);
            && (ok <==> !row.value.phase)
            && (ok ==> after.value.phase && !EnterPhase(after, request, token, t).1)
    ensures var (after, ok) := Renew(row, request, token, now);
            ok && after.value.phase == row.value.phase
  {
  }

  /** Pruning removes exactly the rows that ended or whose lease ran out: a row stays only for the token that holds it. */
  lemma PruneLeavesHeld(w: World, now: int)
    ensures var v, row := Next(w, Prune(now)), w.shared.outer;
            && v.workers == w.workers && v.shared == w.shared.(outer := v.shared.outer)
            && v.shared.outer == if row.Some? && Holds(row, row.value.request, row.value.token, now) then row else None
  {
  }

  predicate Settled(row: Option<Row>) {
    row.Some? && !row.value.status.Processing? ==> row.value.token == 0 && row.value.lease == 0
  }

  lemma NextSettled(w: World, e: Event)
    requires Settled(w.shared.outer)
    ensures Settled(Next(w, e).shared.outer)
  {
    assert Settled(None);
    hide WorkerStep, Settled;
    if e.Step? && e.id in w.workers {
      StepMovesRow(w.shared, e.id, w.workers[e.id], e.fault, e.now, e.choice);
    } else if e.Heartbeat? && e.id in w.workers {
      UpdatesMoveRow(w.shared.outer, w.workers[e.id].request, w.workers[e.id].token, map[], e.now);
      hide Renew;
    }
  }

  /** No worker's step removes a row, forgets that its provider phase was entered, or leaves an ended one unsettled. */
  predicate RowMoves(a: Option<Row>, b: Option<Row>) {
    && (a.Some? ==> b.Some?) && (a.Some? && a.value.phase ==> b.value.phase) && (Settled(a) ==> Settled(b))
  }

  lemma UpdatesMoveRow(row: Option<Row>, request: string, token: nat, response: Fields, now: int)
    ensures RowMoves(row, Claim(row, request, token, now).0)
    ensures RowMoves(row, Renew(row, request, token, now).0)
    ensures RowMoves(row, EnterPhase(row, request, token, now).0)
    ensures RowMoves(row, Succeed(row, request, token, response, now).0)
    ensures RowMoves(row, Fail(row, request, token, now))
    ensures RowMoves(row, row)
  {
  }

  lemma StepMovesRow(s: Shared, id: nat, me: Worker, fault: Fault, now: int, choice: Choice)
    ensures RowMoves(s.outer, WorkerStep(s, id, me, fault, now, choice).0.outer)
  {
    hide Mint, SanitizeResult, Project, RecoveryNotice, Claim, Renew, EnterPhase, Succeed, Fail, RowMoves;
    hide Reserve, StartProvider, Abandon, Commit;
    UpdatesMoveRow(s.outer, me.request, s.nextToken, map[], now);
    UpdatesMoveRow(s.outer, me.request, me.token, if Carries(me.stage) then me.stage.result else map[], now);
  }

  /** A row that ended, either way, holds neither token nor lease. */
  lemma {:induction false} EndedRowsAreFree(w: World, events: seq<Event>)
    requires Settled(w.shared.outer)
    ensures Settled(Run(w, events).shared.outer)
    decreases |events|
  {
    if events != [] {
      NextSettled(w, events[0]);
      hide Next;
      EndedRowsAreFree(Next(w, events[0]), events[1..]);
    }
  }

  // ---------------------------------------------------------------------------
  // Receipts
  // ---------------------------------------------------------------------------

  /** How a receipt may change, always for the same request: reserved, then abandoned or started; abandoned, then
      reserved anew; started, then committed; committed, then gone after its retention. */
  predicate Follows(a: Receipt, b: Receipt, expired: bool) {
    || a == b
    || match a
       case NoReceipt => b.Reserved?
       case Reserved(request) => b == Abandoned(request) || b == ProviderStarted(request)
       case Abandoned(request) => b == Reserved(request)
       case ProviderStarted(request) => b.Committed? && b.request == request
       case Committed(_, _) => expired && b.NoReceipt?
  }

  lemma ReceiptOrder(w: World, e: Event)
    ensures Follows(w.shared.inner, Next(w, e).shared.inner, e.Expire?)
  {
    hide WorkerStep;
    if e.Step? && e.id in w.workers {
      StepFollows(w.shared, e.id, w.workers[e.id], e.fault, e.now, e.choice);
    }
    hide Renew;
  }

  lemma OperationsFollow(receipt: Receipt, request: string, result: Fields)
    ensures Follows(receipt, Reserve(receipt, request).0, false)
    ensures Follows(receipt, StartProvider(receipt, request).0, false)
    ensures Follows(receipt, Abandon(receipt, request), false)
    ensures Follows(receipt, Commit(receipt, request, result).0, false)
    ensures Follows(receipt, receipt, false)
  {
  }

  lemma StepFollows(s: Shared, id: nat, me: Worker, fault: Fault, now: int, choice: Choice)
    ensures Follows(s.inner, WorkerStep(s, id, me, fault, now, choice).0.inner, false)
  {
    hide Mint, SanitizeResult, Project, RecoveryNotice, Claim, Renew, EnterPhase, Succeed, Fail;
    hide Reserve, StartProvider, Abandon, Commit, Follows;
    OperationsFollow(s.inner, me.request, RecoveryNotice(s.turn, me.trace));
    OperationsFollow(s.inner, me.request, if me.stage.ReadyToCommit? then me.stage.result else map[]);
  }

  // ---------------------------------------------------------------------------
  // Interrupted steps
  // ---------------------------------------------------------------------------

  /** Where a worker goes on when a ledger operation fails, as far as it can tell: it abandons a reservation of its
      own but leaves the row to its lease, or releases the row, or leaves both. */
  function Interrupted(stage: Stage): Stage {
    match stage
    case ReadyToRenew => Abandoning(false)
    case Renewed => Abandoning(false)
    case Preflight(_) => Releasing
    case RecoveryReady => Releasing
    case NoticeCommitted(_) => Releasing
    case ReadyToCommit(_) => Releasing
    case TurnCommitted(_) => Releasing
    case _ => Done
  }

  predicate TouchesLedger(stage: Stage) {
    !(stage.Checked? || stage.Entered? || stage.Calling? || stage.Replied? || stage.Done?)
  }

  /** An operation without effect changes nothing, one whose response is lost has the effect it would have had, and
      the worker takes the same turn after either. */
  lemma LostLooksLikeNothing(s: Shared, id: nat, me: Worker, now: int, choice: Choice)
    requires TouchesLedger(me.stage) && (choice.Deadline? ==> !me.stage.ReadyToRenew? && !me.stage.Renewed?)
    ensures WorkerStep(s, id, me, NoEffect, now, choice) == (s, me.(stage := Interrupted(me.stage)))
    ensures WorkerStep(s, id, me, LoseResponse, now, choice).1 == me.(stage := Interrupted(me.stage))
    ensures var lost, told := WorkerStep(s, id, me, LoseResponse, now, choice).0, WorkerStep(s, id, me, Deliver, now, choice).0;
            lost.outer == told.outer && lost.inner == told.inner && lost.history == told.history
  {
    hide Mint, SanitizeResult, Project, RecoveryNotice;
  }

  /** Nor does a worker give up without releasing the row, but where another request, another claim or another worker's
      work is in its way, or where it lost the row it would release or cannot give its reservation back. */
  lemma EndsReleased(s: Shared, id: nat, me: Worker, now: int, choice: Choice)
    requires !me.stage.Done?
    ensures WorkerStep(s, id, me, Deliver, now, choice).1.stage.Done? <==>
              || (me.stage.Start? && s.outer.Some? &&
                  (s.outer.value.request != me.request || (s.outer.value.status.Processing? && s.outer.value.lease > now)))
              || (me.stage.Claimed? && Foreign(s.inner, me.request))
              || (me.stage.SecondRead? && (Foreign(s.inner, me.request) || !s.inner.Committed?))
              || ((me.stage.Finished? || me.stage.Recovered? || me.stage.NoticeCommitted? || me.stage.TurnCommitted?) &&
                  !Holds(s.outer, me.request, me.token, now))
              || (me.stage.FenceRecovery? && s.inner !in {Reserved(me.request), ProviderStarted(me.request)})
              || (me.stage.Renewed? && !choice.Deadline? && s.inner.Committed? && s.inner.request == me.request)
              || (me.stage.Abandoning? && (!me.stage.release || Foreign(s.inner, me.request)))
              || me.stage.Releasing?
  {
    hide Mint, SanitizeResult, Project, RecoveryNotice;
  }

  /** A worker whose lease was lost before the provider was started gives its reservation back, but not the row. */
  lemma LostLeaseGivesBackReservation(s: Shared, id: nat, me: Worker, now: int)
    requires me.stage.ReadyToRenew? && !Holds(s.outer, me.request, me.token, now) && s.inner == Reserved(me.request)
    ensures Path(s, id, me, now, [Proceed, Proceed]) == (s.(inner := Abandoned(me.request)), me.(stage := Done))
  {
    assert WorkerStep(s, id, me, Deliver, now, Proceed) == (s, me.(stage := Abandoning(false)));
    PathSplit(s, id, me, now, Proceed, [Proceed]);
    var moved := me.(stage := Abandoning(false));
    assert WorkerStep(s, id, moved, Deliver, now, Proceed) == (s.(inner := Abandoned(me.request)), me.(stage := Done));
    PathSplit(s, id, moved, now, Proceed, []);
    hide WorkerStep;
  }

  /** The row after its holder gave it back: the next worker may claim at once. */
  function Freed(s: Shared): Shared
    requires s.outer.Some?
  {
    s.(outer := Some(s.outer.value.(status := Failed, token := 0, lease := 0)))
  }

  lemma ReleasingFrees(s: Shared, id: nat, me: Worker, now: int)
    requires me.stage.Releasing? && Holds(s.outer, me.request, me.token, now)
    ensures Path(s, id, me, now, [Proceed]) == (Freed(s), me.(stage := Done))
  {
    PathSplit(s, id, me, now, Proceed, []);
  }

  /** Out of time before the provider was entered, a worker gives its reservation and the row back. */
  lemma DeadlineGivesBack(s: Shared, id: nat, me: Worker, now: int)
    requires Holds(s.outer, me.request, me.token, now) && s.inner == Reserved(me.request)
    requires me.stage.ReadyToRenew? || me.stage.Renewed?
    ensures Path(s, id, me, now, [Deadline, Proceed, Proceed]) ==
            (Freed(s).(inner := Abandoned(me.request)), me.(stage := Done))
  {
    hide Freed, Holds, WorkerStep, Path;
    PathSplit(s, id, me, now, Deadline, [Proceed, Proceed]);
    OutOfTime(s, id, me, now);
    AbandoningFrees(s, id, me.(stage := Abandoning(true)), now);
    assert [Deadline] + [Proceed, Proceed] == [Deadline, Proceed, Proceed];
  }

  lemma OutOfTime(s: Shared, id: nat, me: Worker, now: int)
    requires me.stage.ReadyToRenew? || me.stage.Renewed?
    ensures WorkerStep(s, id, me, Deliver, now, Deadline) == (s, me.(stage := Abandoning(true)))
  {
  }

  lemma AbandoningFrees(s: Shared, id: nat, me: Worker, now: int)
    requires me.stage == Abandoning(true) && Holds(s.outer, me.request, me.token, now) && s.inner == Reserved(me.request)
    ensures Path(s, id, me, now, [Proceed, Proceed]) == (Freed(s).(inner := Abandoned(me.request)), me.(stage := Done))
  {
    var given := s.(inner := Abandoned(me.request));
    assert WorkerStep(s, id, me, Deliver, now, Proceed) == (given, me.(stage := Releasing));
    hide WorkerStep, Path;
    PathSplit(s, id, me, now, Proceed, [Proceed]);
    ReleasingFrees(given, id, me.(stage := Releasing), now);
  }

  /** Out of time or let down by the agent after that, or told that the provider's ledger is down before it, it gives
      the row back alone. */
  lemma FailureGivesBack(s: Shared, id: nat, me: Worker, now: int, choice: Choice)
    requires Holds(s.outer, me.request, me.token, now)
    requires || (me.stage.Entered? && choice.Deadline?) || (me.stage.Calling? && choice.AgentFails?)
             || (me.stage == Checked(false) && choice.LedgerDown?)
    ensures Path(s, id, me, now, [choice, Proceed]) == (Freed(s), me.(stage := Done))
  {
    hide Freed, Holds;
    PathSplit(s, id, me, now, choice, [Proceed]);
    ReleasingFrees(s, id, me.(stage := Releasing), now);
    hide Path;
    assert WorkerStep(s, id, me, Deliver, now, choice) == (s, me.(stage := Releasing));
  }

  /** A worker that crashed before it answered never touches the ledgers again. */
  lemma CrashedDoesNothing(w: World, id: nat, events: seq<Event>)
    requires id in w.workers && !w.workers[id].stage.Replied? && StepsOf(events, id)
    ensures var v := Run(Next(w, Crash(id)), events);
            v.shared == w.shared && v.workers == w.workers[id := w.workers[id].(stage := Done)]
  {
    DoneStays(Next(w, Crash(id)), id, events);
  }

  // ---------------------------------------------------------------------------
  // Recovery
  // ---------------------------------------------------------------------------

  /** The worker is past calling, or was told to recover. */
  predicate NeverToCall(stage: Stage) {
    match stage
    case Claimed(recovery) => recovery
    case Checked(recovery) => recovery
    case Preflight(recovery) => recovery
    case _ => !(stage.Start? || stage.ReadyToRenew? || stage.Renewed? || stage.InnerStarted? || stage.Entered? || stage.Calling?)
  }

  lemma NextNeverCalls(w: World, e: Event, id: nat)
    requires id in w.workers && NeverToCall(w.workers[id].stage)
    ensures var v := Next(w, e);
            && id in v.workers && NeverToCall(v.workers[id].stage)
            && (id in v.shared.called <==> id in w.shared.called)
  {
    if e.Step? && e.id in w.workers {
      CallsForItself(w.shared, e.id, w.workers[e.id], e.fault, e.now, e.choice);
      if e.id == id { StaysNeverToCall(w.shared, id, w.workers[id], e.fault, e.now, e.choice); }
    }
    assert NeverToCall(Done);
    hide WorkerStep, Renew, NeverToCall;
  }

  lemma StaysNeverToCall(s: Shared, id: nat, me: Worker, fault: Fault, now: int, choice: Choice)
    requires NeverToCall(me.stage)
    ensures var (t, after) := WorkerStep(s, id, me, fault, now, choice);
            NeverToCall(after.stage) && t.called == s.called
  {
    hide Mint, SanitizeResult, Project, RecoveryNotice, Claim, Renew, EnterPhase, Succeed, Fail, Reserve, StartProvider,
         Abandon, Commit, Foreign;
  }

  /** A step calls for its own worker only. */
  lemma CallsForItself(s: Shared, id: nat, me: Worker, fault: Fault, now: int, choice: Choice)
    ensures var t := WorkerStep(s, id, me, fault, now, choice).0;
            s.called <= t.called <= s.called + {id}
  {
    hide Mint, SanitizeResult, Project, RecoveryNotice, Claim, Renew, EnterPhase, Succeed, Fail, Reserve, StartProvider,
         Abandon, Commit, Foreign, NeverToCall;
  }

  lemma {:induction false} RunNeverCalls(w: World, events: seq<Event>, id: nat)
    requires id in w.workers && NeverToCall(w.workers[id].stage)
    ensures id in Run(w, events).shared.called <==> id in w.shared.called
    decreases |events|
  {
    hide Next, NeverToCall;
    if events != [] {
      NextNeverCalls(w, events[0], id);
      RunNeverCalls(Next(w, events[0]), events[1..], id);
    }
  }

  /** A worker whose claim meets a row of which the provider phase was entered, or that is told by the provider's
      ledger to recover, never calls the agent, whatever happens after; and such a row is never mistaken for another. */
  lemma RecoveryNeverCalls(w: World, id: nat, fault: Fault, now: int, choice: Choice, events: seq<Event>)
    requires id in w.workers
    requires (w.workers[id].stage.Start? && PhaseSeen(w.shared)) || (w.workers[id].stage.Checked? && choice.NeedsRecovery?)
    ensures var v := Run(w, [Step(id, fault, now, choice)] + events);
            id in v.shared.called <==> id in w.shared.called
  {
    hide Mint, SanitizeResult, Project, RecoveryNotice;
    var u := Next(w, Step(id, fault, now, choice));
    assert ([Step(id, fault, now, choice)] + events)[1..] == events;
    hide WorkerStep;
    StepNeverCalls(w.shared, id, w.workers[id], fault, now, choice);
    RunNeverCalls(u, events, id);
  }

  lemma StepNeverCalls(s: Shared, id: nat, me: Worker, fault: Fault, now: int, choice: Choice)
    requires (me.stage.Start? && PhaseSeen(s)) || (me.stage.Checked? && choice.NeedsRecovery?)
    ensures var (t, after) := WorkerStep(s, id, me, fault, now, choice);
            NeverToCall(after.stage) && t.called == s.called
  {
    hide Mint, SanitizeResult, Project, RecoveryNotice;
  }

  /** A worker that recovers goes on although the provider's ledger is down. */
  lemma RecoveryNeedsNoLedger(s: Shared, id: nat, me: Worker, fault: Fault, now: int, choice: Choice)
    requires me.stage == Checked(true)
    ensures WorkerStep(s, id, me, fault, now, choice) == (s, me.(stage := Preflight(true)))
  {
  }

  // ---------------------------------------------------------------------------
  // One entry for each row
  // ---------------------------------------------------------------------------

  function Phase(s: Shared): nat {
    if PhaseSeen(s) then 1 else 0
  }

  /** The event removes the row. */
  predicate Drops(w: World, e: Event) {
    w.shared.outer.Some? && Next(w, e).shared.outer.None?
  }

  function Dropped(w: World, events: seq<Event>): nat
    decreases |events|
  {
    if events == [] then 0 else (if Drops(w, events[0]) then 1 else 0) + Dropped(Next(w, events[0]), events[1..])
  }

  lemma StepEnters(s: Shared, id: nat, me: Worker, fault: Fault, now: int, choice: Choice)
    ensures var t := WorkerStep(s, id, me, fault, now, choice).0;
            && (s.outer.Some? ==> t.outer.Some?)
            && |t.entered| + Phase(s) <= |s.entered| + Phase(t)
  {
    StepMovesRow(s, id, me, fault, now, choice);
    if me.stage.InnerStarted? {
      EnterCounts(s, id, me, fault, now);
    } else {
      hide Mint, SanitizeResult, Project, RecoveryNotice, Claim, Renew, EnterPhase, Succeed, Fail, Reserve, StartProvider,
           Abandon, Commit, Settled;
    }
  }

  lemma EnterCounts(s: Shared, id: nat, me: Worker, fault: Fault, now: int)
    ensures var t := EnterStep(s, id, me, fault, now).0;
            |t.entered| + Phase(s) <= |s.entered| + Phase(t)
  {
  }

  lemma NextEnters(w: World, e: Event)
    requires Inv(w)
    ensures var v := Next(w, e);
            |v.shared.entered| + Phase(w.shared) <= |w.shared.entered| + Phase(v.shared) + if Drops(w, e) then 1 else 0
  {
    hide WorkerStep;
    if e.Step? && e.id in w.workers {
      StepEnters(w.shared, e.id, w.workers[e.id], e.fault, e.now, e.choice);
    }
    hide Inv;
  }

  lemma {:induction false} RunEnters(w: World, events: seq<Event>)
    requires Inv(w)
    ensures var v := Run(w, events);
            |v.shared.entered| + Phase(w.shared) <= |w.shared.entered| + Phase(v.shared) + Dropped(w, events)
    decreases |events|
  {
    hide Inv, Next, Drops;
    if events != [] {
      NextEnters(w, events[0]);
      NextKeeps(w, events[0]);
      RunEnters(Next(w, events[0]), events[1..]);
    }
  }

  /** Whatever becomes of the receipts, one row lets the agent be called once: over any run there is at most one call
      more than there were rows removed. */
  lemma CallsBoundedByRows(turn: string, events: seq<Event>)
    ensures |Run(Initial(turn), events).shared.called| <= 1 + Dropped(Initial(turn), events)
  {
    Reachable(turn, []);
    RunNone(Initial(turn));
    RunEnters(Initial(turn), events);
    Reachable(turn, events);
    var v := Run(Initial(turn), events);
    SubsetCounts(v.shared.called, v.shared.entered);
  }
}
