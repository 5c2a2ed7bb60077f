/** The daily request counter shared by processes and threads through one database. */
module DailyCounter {
  import opened Counting

  /** A principal on a day. */
  datatype Key = Key(bucket: string, day: string)

  /** The thread that runs the counter for a request: the attempt it is in, or how it ended. */
  datatype Thread =
    | Starting(attempt: nat)
    | Reading(attempt: nat)
    | Staged(attempt: nat, count: nat)
    | Returned(allowed: bool)
    | Raised
    | Gone

  /** A request and its thread. The request may be cancelled while its thread runs on. */
  datatype Request = Request(key: Key, thread: Thread, cancelled: bool, passed: bool)

  datatype Entry = Entry(request: nat, key: Key)

  /** `holder` has the write lock. `log` lists the transactions that took effect. */
  datatype World = World(stored: map<Key, nat>, holder: set<nat>, requests: map<nat, Request>, log: seq<Entry>)

  const EMPTY := World(map[], {}, map[], [])

  const ATTEMPTS := 3

  /** What a commit that took effect tells its thread. Transient stands for a store that loses the response and
      reports a lock error instead; a store whose lock errors mean that nothing was committed shows them as Fail. */
  datatype Report = Ok | Transient | Fatal

  datatype Step =
    | Arrive(r: nat, key: Key)
    | Begin(r: nat)
    | Decide(r: nat)
    | Commit(r: nat, report: Report)
    | Fail(r: nat, transient: bool)
    | Crash(r: nat)
    | Cancel(r: nat)
    | Deliver(r: nat)

  predicate Attempting(t: Thread) {
    t.Starting? || t.Reading? || t.Staged?
  }

  predicate Locking(t: Thread) {
    t.Reading? || t.Staged?
  }

  predicate Enabled(w: World, s: Step) {
    match s
    case Arrive(r, key) => r !in w.requests
    case _ =>
      s.r in w.requests &&
      var q := w.requests[s.r];
      match s
      case Begin(_) => q.thread.Starting? && w.holder == {}
      case Decide(_) => q.thread.Reading?
      case Commit(_, _) => q.thread.Staged?
      case Fail(_, _) => Attempting(q.thread)
      case Crash(_) => true
      case Cancel(_) => !q.passed
      case Deliver(_) => q.thread.Returned? && q.thread.allowed && !q.cancelled
  }

  /** Where a failed attempt leads: the next one after a transient lock error, at most three in all. */
  function AfterError(attempt: nat, transient: bool): Thread {
    if attempt + 1 < ATTEMPTS && transient then Starting(attempt + 1) else Raised
  }

  function With(w: World, r: nat, t: Thread): World
    requires r in w.requests
  {
    w.(requests := w.requests[r := w.requests[r].(thread := t)])
  }

  function Next(w: World, limit: nat, s: Step): World
    requires Enabled(w, s)
  {
    match s
    case Arrive(r, key) => w.(requests := w.requests[r := Request(key, Starting(0), false, false)])
    case Begin(r) => With(w, r, Reading(w.requests[r].thread.attempt)).(holder := {r})
    case Decide(r) =>
      var q := w.requests[r];
      if q.key in w.stored && w.stored[q.key] >= limit then With(w, r, Returned(false)).(holder := {})
      else With(w, r, Staged(q.thread.attempt, if q.key in w.stored then w.stored[q.key] + 1 else 1))
    case Commit(r, report) =>
      var q := w.requests[r];
      var t := if report.Ok? then Returned(true) else AfterError(q.thread.attempt, report.Transient?);
      With(w, r, t).(stored := w.stored[q.key := q.thread.count], holder := {}, log := w.log + [Entry(r, q.key)])
    case Fail(r, transient) =>
      With(w, r, AfterError(w.requests[r].thread.attempt, transient)).(holder := w.holder - {r})
    case Crash(r) => With(w, r, Gone).(holder := w.holder - {r})
    case Cancel(r) => w.(requests := w.requests[r := w.requests[r].(cancelled := true)])
    case Deliver(r) => w.(requests := w.requests[r := w.requests[r].(passed := true)])
  }

  predicate Runs(w: World, limit: nat, steps: seq<Step>)
    decreases |steps|
  {
    steps == [] || (Enabled(w, steps[0]) && Runs(Next(w, limit, steps[0]), limit, steps[1..]))
  }

  function After(w: World, limit: nat, steps: seq<Step>): World
    requires Runs(w, limit, steps)
    decreases |steps|
  {
    if steps == [] then w else After(Next(w, limit, steps[0]), limit, steps[1..])
  }

  // ---------------------------------------------------------------------------
  // Invariant
  // ---------------------------------------------------------------------------

  function Stored(w: World, key: Key): nat {
    if key in w.stored then w.stored[key] else 0
  }

  function CountKey(log: seq<Entry>, key: Key): nat {
    if log == [] then 0 else CountKey(log[..|log| - 1], key) + if log[|log| - 1].key == key then 1 else 0
  }

  function CountRequest(log: seq<Entry>, r: nat): nat {
    if log == [] then 0 else CountRequest(log[..|log| - 1], r) + if log[|log| - 1].request == r then 1 else 0
  }

  /** The attempts a thread has finished. */
  function Finished(t: Thread): nat {
    if Attempting(t) then t.attempt else ATTEMPTS
  }

  /** The lock is held by the one thread inside a transaction. */
  ghost predicate Locked(w: World) {
    && (forall a, b | a in w.holder && b in w.holder :: a == b)
    && (forall r :: r in w.holder <==> r in w.requests && Locking(w.requests[r].thread))
  }

  /** The count staged under the lock is the next one. */
  ghost predicate StagedNext(w: World, limit: nat) {
    forall r | r in w.requests && w.requests[r].thread.Staged? ::
      var q := w.requests[r];
      q.thread.count == Stored(w, q.key) + 1 && q.thread.count <= limit
  }

  ghost predicate Limited(w: World) {
    forall r | r in w.requests && Attempting(w.requests[r].thread) :: w.requests[r].thread.attempt < ATTEMPTS
  }

  /** The rows are the log's counts, within the limit. */
  ghost predicate Counted(w: World, limit: nat) {
    forall key :: Stored(w, key) == CountKey(w.log, key) && Stored(w, key) <= limit
  }

  /** No request is in the log more often than it has finished an attempt. */
  ghost predicate Tried(w: World) {
    forall r :: CountRequest(w.log, r) <= if r in w.requests then Finished(w.requests[r].thread) else 0
  }

  /** What a request was told, and whether it went on, is backed by the rows. */
  ghost predicate Backed(w: World, limit: nat) {
    forall r | r in w.requests ::
      var q := w.requests[r];
      && (q.passed || q.thread == Returned(true) ==> Entry(r, q.key) in w.log)
      && (q.thread == Returned(false) ==> Stored(w, q.key) >= limit)
  }

  ghost predicate Inv(w: World, limit: nat) {
    Locked(w) && StagedNext(w, limit) && Limited(w) && Counted(w, limit) && Tried(w) && Backed(w, limit)
  }

  lemma CountsAppend(log: seq<Entry>, e: Entry)
    ensures forall key :: CountKey(log + [e], key) == CountKey(log, key) + if e.key == key then 1 else 0
    ensures forall r :: CountRequest(log + [e], r) == CountRequest(log, r) + if e.request == r then 1 else 0
  {
    assert (log + [e])[..|log|] == log;
  }

  lemma NextLocked(w: World, limit: nat, s: Step)
    requires Locked(w) && Enabled(w, s)
    ensures Locked(Next(w, limit, s))
  {
  }

  lemma NextStaged(w: World, limit: nat, s: Step)
    requires Locked(w) && StagedNext(w, limit) && limit >= 1 && Enabled(w, s)
    ensures StagedNext(Next(w, limit, s), limit)
  {
  }

  lemma NextLimited(w: World, limit: nat, s: Step)
    requires Limited(w) && Enabled(w, s)
    ensures Limited(Next(w, limit, s))
  {
  }

  lemma NextCounted(w: World, limit: nat, s: Step)
    requires StagedNext(w, limit) && Counted(w, limit) && limit >= 1 && Enabled(w, s)
    ensures Counted(Next(w, limit, s), limit)
  {
    hide CountKey, CountRequest;
    var v := Next(w, limit, s);
    if s.Commit? {
      CountsAppend(w.log, Entry(s.r, w.requests[s.r].key));
    } else {
      assert v.stored == w.stored && v.log == w.log;
      assert forall key :: Stored(v, key) == Stored(w, key);
    }
  }

  lemma NextTried(w: World, limit: nat, s: Step)
    requires Limited(w) && Tried(w) && Enabled(w, s)
    ensures Tried(Next(w, limit, s))
  {
    hide CountRequest, CountKey;
    if s.Commit? { CountsAppend(w.log, Entry(s.r, w.requests[s.r].key)); }
  }

  lemma NextBacked(w: World, limit: nat, s: Step)
    requires Inv(w, limit) && limit >= 1 && Enabled(w, s)
    ensures Backed(Next(w, limit, s), limit)
  {
    hide CountKey, CountRequest;
  }

  lemma {:induction false} RunKeeps(w: World, limit: nat, steps: seq<Step>)
    requires Inv(w, limit) && limit >= 1 && Runs(w, limit, steps)
    ensures Inv(After(w, limit, steps), limit)
    decreases |steps|
  {
    if steps != [] {
      NextLocked(w, limit, steps[0]);
      NextStaged(w, limit, steps[0]);
      NextLimited(w, limit, steps[0]);
      NextCounted(w, limit, steps[0]);
      NextTried(w, limit, steps[0]);
      NextBacked(w, limit, steps[0]);
      hide Locked, StagedNext, Limited, Counted, Tried, Backed, Next;
      RunKeeps(Next(w, limit, steps[0]), limit, steps[1..]);
    }
  }

  lemma EmptyInv(limit: nat)
    ensures Inv(EMPTY, limit)
  {
  }

  // ---------------------------------------------------------------------------
  // Guarantees over every run
  // ---------------------------------------------------------------------------

  function Passed(w: World, key: Key): set<nat> {
    set r | r in w.requests && w.requests[r].key == key && w.requests[r].passed
  }

  function Named(log: seq<Entry>, key: Key): set<nat> {
    set e | e in log && e.key == key :: e.request
  }

  lemma {:induction false} NamedCount(log: seq<Entry>, key: Key)
    ensures |Named(log, key)| <= CountKey(log, key)
  {
    if log != [] {
      var n := |log| - 1;
      NamedCount(log[..n], key);
      assert log == log[..n] + [log[n]];
      assert Named(log, key) == Named(log[..n], key) + if log[n].key == key then {log[n].request} else {};
    }
  }

  /** Whatever the processes, retries, lost responses, crashes and cancellations: the stored count stays within
      the limit, and covers every request that went on. */
  lemma CountHolds(limit: nat, steps: seq<Step>, key: Key)
    requires limit >= 1 && Runs(EMPTY, limit, steps)
    ensures var w := After(EMPTY, limit, steps);
            |Passed(w, key)| <= Stored(w, key) <= limit
  {
    EmptyInv(limit);
    RunKeeps(EMPTY, limit, steps);
    var w := After(EMPTY, limit, steps);
    NamedCount(w.log, key);
    SubsetCounts(Passed(w, key), Named(w.log, key));
  }

  /** A request is refused for the day only when the day's count has reached the limit, where it stays. */
  lemma RefusalMeansFull(limit: nat, steps: seq<Step>, r: nat)
    requires limit >= 1 && Runs(EMPTY, limit, steps)
    ensures var w := After(EMPTY, limit, steps);
            r in w.requests && w.requests[r].thread == Returned(false) ==> Stored(w, w.requests[r].key) == limit
  {
    EmptyInv(limit);
    RunKeeps(EMPTY, limit, steps);
  }

  /** How often a commit of the request took effect while a transient lock error was reported. */
  function Lost(steps: seq<Step>, r: nat): nat {
    if steps == [] then 0
    else (if steps[0] == Commit(r, Transient) then 1 else 0) + Lost(steps[1..], r)
  }

  /** How often a request is in the log when `lost` of its responses were lost: once for each, and once more if it
      was told that it may pass. */
  ghost predicate CountedAs(w: World, r: nat, lost: nat) {
    var count := CountRequest(w.log, r);
    if r !in w.requests then count == lost == 0
    else
      var q := w.requests[r];
      && lost <= count <= lost + 1
      && (Attempting(q.thread) || q.thread == Returned(false) ==> count == lost)
      && (q.passed || q.thread == Returned(true) ==> count == lost + 1)
      && (q.passed ==> !Attempting(q.thread) && q.thread != Returned(false))
  }

  lemma NextCountedAs(w: World, limit: nat, s: Step, r: nat, lost: nat)
    requires CountedAs(w, r, lost) && Enabled(w, s)
    ensures CountedAs(Next(w, limit, s), r, lost + if s == Commit(r, Transient) then 1 else 0)
  {
    hide CountRequest, CountKey;
    if s.Commit? { CountsAppend(w.log, Entry(s.r, w.requests[s.r].key)); }
  }

  lemma {:induction false} RunCountedAs(w: World, limit: nat, steps: seq<Step>, r: nat, lost: nat)
    requires CountedAs(w, r, lost) && Runs(w, limit, steps)
    ensures CountedAs(After(w, limit, steps), r, lost + Lost(steps, r))
    decreases |steps|
  {
    if steps != [] {
      hide CountedAs, Next, Enabled;
      NextCountedAs(w, limit, steps[0], r, lost);
      RunCountedAs(Next(w, limit, steps[0]), limit, steps[1..], r, lost + if steps[0] == Commit(r, Transient) then 1 else 0);
    }
  }

  /** A request is counted once for each of its lost responses and at most once more; a request allowed, or passed
      on, exactly once more, and one refused not at all more. */
  lemma CountedOncePlusLost(limit: nat, steps: seq<Step>, r: nat)
    requires Runs(EMPTY, limit, steps)
    ensures var w := After(EMPTY, limit, steps);
            var count := CountRequest(w.log, r);
            && Lost(steps, r) <= count <= 1 + Lost(steps, r)
            && (r in w.requests && (w.requests[r].passed || w.requests[r].thread == Returned(true)) ==>
                  count == 1 + Lost(steps, r))
            && (r in w.requests && w.requests[r].thread == Returned(false) ==> count == Lost(steps, r))
  {
    RunCountedAs(EMPTY, limit, steps, r, 0);
  }

  /** In a store whose transient lock errors mean that nothing was committed, no request is counted twice, and one
      passed on is counted exactly once. */
  lemma CountedOnce(limit: nat, steps: seq<Step>, r: nat)
    requires Runs(EMPTY, limit, steps) && Commit(r, Transient) !in steps
    ensures var w := After(EMPTY, limit, steps);
            && CountRequest(w.log, r) <= 1
            && (r in w.requests && w.requests[r].passed ==> CountRequest(w.log, r) == 1)
  {
    NothingLost(steps, r);
    CountedOncePlusLost(limit, steps, r);
  }

  lemma {:induction false} NothingLost(steps: seq<Step>, r: nat)
    ensures Lost(steps, r) == 0 <==> Commit(r, Transient) !in steps
  {
    if steps != [] {
      NothingLost(steps[1..], r);
      assert steps == [steps[0]] + steps[1..];
    }
  }

  /** In such a store the stored count of a key is the number of its requests that were counted. */
  lemma StoredCountsRequests(limit: nat, steps: seq<Step>, key: Key)
    requires limit >= 1 && Runs(EMPTY, limit, steps) && forall r :: Commit(r, Transient) !in steps
    ensures var w := After(EMPTY, limit, steps);
            Stored(w, key) == |Named(w.log, key)| && Passed(w, key) <= Named(w.log, key)
  {
    EmptyInv(limit);
    RunKeeps(EMPTY, limit, steps);
    var w := After(EMPTY, limit, steps);
    forall r ensures CountRequest(w.log, r) <= 1 { CountedOnce(limit, steps, r); }
    OnceEach(w.log, key);
  }

  lemma {:induction false} OnceEach(log: seq<Entry>, key: Key)
    requires forall r :: CountRequest(log, r) <= 1
    ensures |Named(log, key)| == CountKey(log, key)
  {
    if log != [] {
      var n := |log| - 1;
      assert log == log[..n] + [log[n]];
      CountsAppend(log[..n], log[n]);
      OnceEach(log[..n], key);
      assert Named(log, key) == Named(log[..n], key) + if log[n].key == key then {log[n].request} else {};
      forall e | e in log[..n] ensures e.request != log[n].request {
        Mentioned(log[..n], e);
      }
    }
  }

  lemma {:induction false} Mentioned(log: seq<Entry>, e: Entry)
    requires e in log
    ensures CountRequest(log, e.request) >= 1
  {
    var n := |log| - 1;
    assert log == log[..n] + [log[n]];
    if e != log[n] { Mentioned(log[..n], e); }
  }

  /** A request passed on is counted exactly once if and only if none of its responses was lost. */
  lemma CountedOnceIffNoneLost(limit: nat, steps: seq<Step>, r: nat)
    requires Runs(EMPTY, limit, steps)
    requires r in After(EMPTY, limit, steps).requests && After(EMPTY, limit, steps).requests[r].passed
    ensures CountRequest(After(EMPTY, limit, steps).log, r) == 1 <==> Commit(r, Transient) !in steps
  {
    NothingLost(steps, r);
    CountedOncePlusLost(limit, steps, r);
  }

  /** Even a store that loses responses counts a request three times at most, as there are three attempts. */
  lemma CountedAtMostThrice(limit: nat, steps: seq<Step>, r: nat)
    requires limit >= 1 && Runs(EMPTY, limit, steps)
    ensures CountRequest(After(EMPTY, limit, steps).log, r) <= ATTEMPTS
  {
    EmptyInv(limit);
    RunKeeps(EMPTY, limit, steps);
  }

  // ---------------------------------------------------------------------------
  // How a request's thread ends
  // ---------------------------------------------------------------------------

  /** The step reports an error to the request's thread. */
  predicate Errs(s: Step, r: nat) {
    (s.Fail? && s.r == r) || (s.Commit? && s.r == r && !s.report.Ok?)
  }

  /** The error is no transient lock. */
  predicate Fatally(s: Step, r: nat) {
    s == Fail(r, false) || s == Commit(r, Fatal)
  }

  function Errors(steps: seq<Step>, r: nat): nat {
    if steps == [] then 0 else (if Errs(steps[0], r) then 1 else 0) + Errors(steps[1..], r)
  }

  predicate AnyFatal(steps: seq<Step>, r: nat) {
    exists i :: 0 <= i < |steps| && Fatally(steps[i], r)
  }

  /** Where a thread stands after so many errors. */
  predicate Stands(t: Thread, errors: nat, fatal: bool) {
    match t
    case Gone => true
    case Raised => fatal || errors == 3
    case Returned(_) => !fatal && errors < 3
    case _ => !fatal && errors < 3 && t.attempt == errors
  }

  lemma NextStands(w: World, limit: nat, s: Step, r: nat, errors: nat, fatal: bool)
    requires Enabled(w, s) && r in w.requests && Stands(w.requests[r].thread, errors, fatal)
    ensures var v := Next(w, limit, s);
            && r in v.requests
            && Stands(v.requests[r].thread, errors + if Errs(s, r) then 1 else 0, fatal || Fatally(s, r))
  {
  }

  lemma {:induction false} RunStands(w: World, limit: nat, steps: seq<Step>, r: nat, errors: nat, fatal: bool)
    requires Runs(w, limit, steps) && r in w.requests && Stands(w.requests[r].thread, errors, fatal)
    ensures var v := After(w, limit, steps);
            r in v.requests && Stands(v.requests[r].thread, errors + Errors(steps, r), fatal || AnyFatal(steps, r))
    decreases |steps|
  {
    if steps != [] {
      hide Stands, Next, Enabled, Fatally, Errs;
      NextStands(w, limit, steps[0], r, errors, fatal);
      RunStands(Next(w, limit, steps[0]), limit, steps[1..], r, errors + (if Errs(steps[0], r) then 1 else 0),
                fatal || Fatally(steps[0], r));
      AnyFatalSplit(steps, r);
    }
  }

  lemma AnyFatalSplit(steps: seq<Step>, r: nat)
    requires steps != []
    ensures AnyFatal(steps, r) <==> Fatally(steps[0], r) || AnyFatal(steps[1..], r)
  {
    hide Fatally;
    if AnyFatal(steps[1..], r) {
      var i :| 0 <= i < |steps| - 1 && Fatally(steps[1..][i], r);
      assert Fatally(steps[i + 1], r);
    }
    if AnyFatal(steps, r) && !Fatally(steps[0], r) {
      var i :| 0 <= i < |steps| && Fatally(steps[i], r);
      assert Fatally(steps[1..][i - 1], r);
    }
  }

  /** A request gets three attempts: its thread gives up exactly at the third error or the first that is no transient
      lock, and until then is in the attempt after the last error, unless it has its answer or crashed. */
  lemma GivesUpAfterThree(w: World, limit: nat, r: nat, key: Key, steps: seq<Step>)
    requires Enabled(w, Arrive(r, key)) && Runs(Next(w, limit, Arrive(r, key)), limit, steps)
    ensures var v := After(Next(w, limit, Arrive(r, key)), limit, steps);
            && r in v.requests
            && Stands(v.requests[r].thread, Errors(steps, r), AnyFatal(steps, r))
  {
    RunStands(Next(w, limit, Arrive(r, key)), limit, steps, r, 0, false);
  }

  predicate CrashedIn(w: World, r: nat) {
    r in w.requests && w.requests[r].thread == Gone && r !in w.holder
  }

  predicate CancelledIn(w: World, r: nat) {
    r in w.requests && w.requests[r].cancelled && !w.requests[r].passed
  }

  lemma NextEnds(w: World, limit: nat, s: Step, r: nat)
    requires Locked(w) && Enabled(w, s)
    ensures CrashedIn(w, r) || s == Crash(r) ==> CrashedIn(Next(w, limit, s), r)
    ensures CancelledIn(w, r) || s == Cancel(r) ==> CancelledIn(Next(w, limit, s), r)
  {
  }

  /** A thread that crashed is gone and holds no lock, and a request cancelled is never passed on. */
  lemma {:induction false} EndsForGood(w: World, limit: nat, steps: seq<Step>, r: nat)
    requires Inv(w, limit) && limit >= 1 && Runs(w, limit, steps)
    ensures CrashedIn(w, r) || Crash(r) in steps ==> CrashedIn(After(w, limit, steps), r)
    ensures CancelledIn(w, r) || Cancel(r) in steps ==> CancelledIn(After(w, limit, steps), r)
    decreases |steps|
  {
    if steps != [] {
      hide CrashedIn, CancelledIn, Next, Enabled, Locked, StagedNext, Limited, Counted, Tried, Backed;
      NextEnds(w, limit, steps[0], r);
      RunKeeps(w, limit, steps[..1]);
      assert steps[..1][1..] == [];
      EndsForGood(Next(w, limit, steps[0]), limit, steps[1..], r);
      assert steps == [steps[0]] + steps[1..];
    }
  }

  lemma OneStep(w: World, limit: nat, s: Step)
    requires Enabled(w, s)
    ensures Runs(w, limit, [s]) && After(w, limit, [s]) == Next(w, limit, s)
  {
    assert [s][1..] == [];
  }

  lemma StepThen(w: World, limit: nat, s: Step, steps: seq<Step>)
    requires Enabled(w, s) && Runs(Next(w, limit, s), limit, steps)
    ensures Runs(w, limit, [s] + steps)
    ensures After(w, limit, [s] + steps) == After(Next(w, limit, s), limit, steps)
  {
    assert ([s] + steps)[1..] == steps;
  }

  predicate Answered(v: World, r: nat, allowed: bool, stored: map<Key, nat>) {
    r in v.requests && v.requests[r].thread == Returned(allowed) && v.stored == stored && v.holder == {}
  }

  /** With the lock free, an attempt nothing disturbs answers: the request is refused if the day is full, and is
      otherwise allowed and counted, and the lock is free again. */
  lemma UndisturbedAnswers(w: World, limit: nat, r: nat)
    requires r in w.requests && w.requests[r].thread.Starting? && w.holder == {}
    ensures var key := w.requests[r].key;
            var full := Stored(w, key) >= limit && key in w.stored;
            var steps := [Begin(r)] + ([Decide(r)] + if full then [] else [Commit(r, Ok)]);
            && Runs(w, limit, steps)
            && Answered(After(w, limit, steps), r, !full, if full then w.stored else w.stored[key := Stored(w, key) + 1])
  {
    var key := w.requests[r].key;
    var a := Next(w, limit, Begin(r));
    var b := Next(a, limit, Decide(r));
    if Stored(w, key) >= limit && key in w.stored {
      StepThen(a, limit, Decide(r), []);
      StepThen(w, limit, Begin(r), [Decide(r)] + []);
    } else {
      OneStep(b, limit, Commit(r, Ok));
      StepThen(a, limit, Decide(r), [Commit(r, Ok)]);
      StepThen(w, limit, Begin(r), [Decide(r)] + [Commit(r, Ok)]);
    }
  }

  /** A count staged under the lock is committed and its request passed on. */
  lemma StagedPasses(w: World, limit: nat, r: nat)
    requires r in w.requests && w.requests[r].thread.Staged? && !w.requests[r].cancelled
    ensures var q := w.requests[r];
            var steps := [Commit(r, Ok)] + [Deliver(r)];
            && Runs(w, limit, steps)
            && var v := After(w, limit, steps);
            && v.requests == w.requests[r := q.(thread := Returned(true), passed := true)] && v.holder == {}
            && v.stored == w.stored[q.key := q.thread.count]
  {
    var d := Next(w, limit, Commit(r, Ok));
    OneStep(d, limit, Deliver(r));
    StepThen(w, limit, Commit(r, Ok), [Deliver(r)]);
    hide Runs, After;
  }

  /** A new request that nothing disturbs is passed on, and counted, if the day is not full. */
  lemma WholeRequestRuns(w: World, limit: nat, r: nat, key: Key)
    requires r !in w.requests && w.holder == {} && Stored(w, key) < limit
    ensures var steps := [Arrive(r, key)] + ([Begin(r)] + ([Decide(r)] + ([Commit(r, Ok)] + [Deliver(r)])));
            && Runs(w, limit, steps)
            && var v := After(w, limit, steps);
            && v.requests == w.requests[r := Request(key, Returned(true), false, true)] && v.holder == {}
            && v.stored == w.stored[key := Stored(w, key) + 1]
  {
    hide Runs, After;
    var a := Next(w, limit, Arrive(r, key));
    var b := Next(a, limit, Begin(r));
    var c := Next(b, limit, Decide(r));
    assert c.requests == w.requests[r := Request(key, Staged(0, Stored(w, key) + 1), false, false)];
    StagedPasses(c, limit, r);
    var last := [Commit(r, Ok)] + [Deliver(r)];
    StepThen(b, limit, Decide(r), last);
    StepThen(a, limit, Begin(r), [Decide(r)] + last);
    StepThen(w, limit, Arrive(r, key), [Begin(r)] + ([Decide(r)] + last));
  }
}
