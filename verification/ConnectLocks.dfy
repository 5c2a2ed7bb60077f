/** Reference-counted locks, one per provider, handed out to the tasks of one event loop. */
module ConnectLocks {
  import opened Counting

  /** A lock object with its user count; objects are told apart by their number. */
  datatype Table = Table(entries: map<string, nat>, users: map<nat, int>, made: nat)

  /** Entering under the guard: the provider's lock object, made if there is none, with one user more. */
  function Entered(t: Table, provider: string): (Table, nat) {
    if provider in t.entries && t.entries[provider] in t.users then
      var e := t.entries[provider];
      (t.(users := t.users[e := t.users[e] + 1]), e)
    else
      (Table(t.entries[provider := t.made], t.users[t.made := 1], t.made + 1), t.made)
  }

  /** Leaving under the guard: one user less, and the object goes once unused, if it is still the provider's. */
  function Left(t: Table, provider: string, e: nat): Table
    requires e in t.users
  {
    var users := t.users[e := t.users[e] - 1];
    if users[e] == 0 && provider in t.entries && t.entries[provider] == e then
      Table(t.entries - {provider}, users, t.made)
    else
      t.(users := users)
  }

  class ConnectionConnectLocks {
    var entries: map<string, nat>
    var users: map<nat, int>
    var made: nat

    ghost function State(): Table
      reads this
    {
      Table(entries, users, made)
    }

    constructor ()
      ensures State() == Table(map[], map[], 0)
    {
      entries, users, made := map[], map[], 0;
    }

    method Enter(provider: string) returns (e: nat)
      requires forall p | p in entries :: entries[p] in users
      modifies this
      ensures (State(), e) == Entered(old(State()), provider)
    {
      if provider !in entries {
        users := users[made := 0];
        entries := entries[provider := made];
        made := made + 1;
      }
      e := entries[provider];
      users := users[e := users[e] + 1];
      assert users == old(users)[e := users[e]];
    }

    method Leave(provider: string, e: nat)
      requires e in users
      modifies this
      ensures State() == Left(old(State()), provider, e)
    {
      users := users[e := users[e] - 1];
      if users[e] == 0 && provider in entries && entries[provider] == e {
        entries := entries - {provider};
      }
    }
  }

  // ---------------------------------------------------------------------------
  // Tasks
  // ---------------------------------------------------------------------------

  /** Where a task is in `hold`. The guarded sections contain no suspension, so the guard is free whenever a task
      reaches it and taking it does not suspend; entering and leaving are single steps. A scheduler that could all
      the same cancel a task at its final taking of the guard would leave it Leaked. */
  datatype Phase = AtEntry | Waiting(e: nat) | Inside(e: nat) | AtExit(e: nat) | Leaked(e: nat) | Done

  datatype Task = Task(provider: string, phase: Phase)

  /** `held` maps each lock that is held to its holder. */
  datatype World = World(table: Table, held: map<nat, nat>, tasks: map<nat, Task>)

  const EMPTY := World(Table(map[], map[], 0), map[], map[])

  datatype Step =
    | Call(k: nat, provider: string)
    | Enter(k: nat)
    | Acquire(k: nat)
    | Finish(k: nat)
    | Cancel(k: nat)
    | Exit(k: nat)

  /** The task has a lock object and has not given it back. */
  predicate Using(p: Phase) {
    p.Waiting? || p.Inside? || p.AtExit? || p.Leaked?
  }

  predicate Enabled(w: World, s: Step) {
    match s
    case Call(k, _) => k !in w.tasks
    case _ =>
      s.k in w.tasks &&
      var phase := w.tasks[s.k].phase;
      match s
      case Enter(_) => phase.AtEntry?
      case Acquire(_) => phase.Waiting? && phase.e !in w.held
      case Finish(_) => phase.Inside?
      case Cancel(_) => phase.AtEntry? || phase.Waiting? || phase.Inside? || phase.AtExit?
      case Exit(_) => phase.AtExit? && phase.e in w.table.users
      case Call(_, _) => true
  }

  function Moved(w: World, k: nat, phase: Phase): World
    requires k in w.tasks
  {
    w.(tasks := w.tasks[k := w.tasks[k].(phase := phase)])
  }

  /** A task inside gives the lock up whether it finishes or is cancelled. */
  function Next(w: World, s: Step): World
    requires Enabled(w, s)
  {
    match s
    case Call(k, provider) => w.(tasks := w.tasks[k := Task(provider, AtEntry)])
    case Enter(k) =>
      var (table, e) := Entered(w.table, w.tasks[k].provider);
      Moved(w, k, Waiting(e)).(table := table)
    case Acquire(k) => Moved(w, k, Inside(w.tasks[k].phase.e)).(held := w.held[w.tasks[k].phase.e := k])
    case Finish(k) => Moved(w, k, AtExit(w.tasks[k].phase.e)).(held := w.held - {w.tasks[k].phase.e})
    case Cancel(k) =>
      var phase := w.tasks[k].phase;
      if phase.AtEntry? then Moved(w, k, Done)
      else if phase.Waiting? then Moved(w, k, AtExit(phase.e))
      else if phase.Inside? then Moved(w, k, AtExit(phase.e)).(held := w.held - {phase.e})
      else Moved(w, k, Leaked(phase.e))
    case Exit(k) => Moved(w, k, Done).(table := Left(w.table, w.tasks[k].provider, w.tasks[k].phase.e))
  }

  /** The tasks that use a lock object. */
  function Users(w: World, e: nat): set<nat> {
    set k | k in w.tasks && Using(w.tasks[k].phase) && w.tasks[k].phase.e == e
  }

  /** Every task that uses a lock object uses the one in the map under its provider. */
  ghost predicate SameObject(w: World) {
    forall k | k in w.tasks && Using(w.tasks[k].phase) ::
      w.tasks[k].provider in w.table.entries && w.table.entries[w.tasks[k].provider] == w.tasks[k].phase.e
  }

  ghost predicate Tallied(w: World, e: nat) {
    if e in w.table.users then e < w.table.made && w.table.users[e] == |Users(w, e)| else Users(w, e) == {}
  }

  /** The counts are the numbers of users. */
  ghost predicate Counts(w: World) {
    && (forall e | e in w.table.users :: e < w.table.made && w.table.users[e] == |Users(w, e)|)
    && (forall e | e !in w.table.users :: Users(w, e) == {})
  }

  /** The map holds objects in use, each under one provider. */
  ghost predicate InUse(w: World) {
    && (forall p | p in w.table.entries :: w.table.entries[p] in w.table.users && w.table.users[w.table.entries[p]] > 0)
    && (forall p, q | p in w.table.entries && q in w.table.entries && w.table.entries[p] == w.table.entries[q] :: p == q)
  }

  /** A lock is held by whoever is inside it. */
  ghost predicate Held(w: World) {
    forall e, k :: e in w.held && w.held[e] == k <==> k in w.tasks && w.tasks[k].phase == Inside(e)
  }

  ghost predicate Inv(w: World) {
    SameObject(w) && Counts(w) && InUse(w) && Held(w)
  }

  /** Only entering and leaving change who uses what. */
  lemma UsersNext(w: World, s: Step, e: nat)
    requires Enabled(w, s)
    ensures var v := Next(w, s);
            && (s.Enter? ==> Users(v, e) == Users(w, e) + if Entered(w.table, w.tasks[s.k].provider).1 == e then {s.k} else {})
            && (s.Enter? ==> s.k !in Users(w, e))
            && (s.Exit? ==> Users(v, e) == Users(w, e) - {s.k})
            && (s.Exit? ==> (s.k in Users(w, e) <==> w.tasks[s.k].phase.e == e))
            && (!s.Enter? && !s.Exit? ==> Users(v, e) == Users(w, e))
  {
  }

  lemma NextSame(w: World, s: Step)
    requires SameObject(w) && Counts(w) && InUse(w) && Enabled(w, s)
    ensures SameObject(Next(w, s))
  {
    hide Counts;
    if s.Exit? {
      ExitSame(w, s.k);
    } else if s.Enter? {
      hide Left;
    } else {
      hide Entered, Left, InUse;
    }
  }

  lemma ExitSame(w: World, k: nat)
    requires SameObject(w) && Counts(w) && Enabled(w, Exit(k))
    ensures SameObject(Next(w, Exit(k)))
  {
    var e := w.tasks[k].phase.e;
    forall j | j in w.tasks && j != k && Using(w.tasks[j].phase) && w.tasks[j].phase.e == e
      ensures w.table.users[e] != 1
    {
      TwoUsers(w, e, j, k);
    }
    hide Users, Counts;
  }

  lemma TwoUsers(w: World, e: nat, j: nat, k: nat)
    requires j in w.tasks && Using(w.tasks[j].phase) && w.tasks[j].phase.e == e
    requires k in w.tasks && Using(w.tasks[k].phase) && w.tasks[k].phase.e == e
    requires j != k
    ensures |Users(w, e)| >= 2
  {
    SubsetCounts({j, k}, Users(w, e));
  }

  lemma NextCounts(w: World, s: Step)
    requires Inv(w) && Enabled(w, s)
    ensures Counts(Next(w, s))
  {
    var v := Next(w, s);
    forall e: nat
      ensures Tallied(v, e)
      ensures e in v.table.users ==> e < v.table.made && v.table.users[e] == |Users(v, e)|
      ensures e !in v.table.users ==> Users(v, e) == {}
    {
      UsersNext(w, s, e);
      if s.Enter? {
        EnterTallied(w, s.k, e);
      } else if s.Exit? {
        ExitTallied(w, s.k, e);
      } else {
        hide Users, SameObject, Held;
      }
    }
  }

  lemma EnterTallied(w: World, k: nat, e: nat)
    requires Counts(w) && InUse(w) && Enabled(w, Enter(k))
    ensures Tallied(Next(w, Enter(k)), e)
  {
    UsersNext(w, Enter(k), e);
    EnteredTable(w.table, w.tasks[k].provider);
    hide Users, Entered;
  }

  lemma ExitTallied(w: World, k: nat, e: nat)
    requires Counts(w) && Enabled(w, Exit(k))
    ensures Tallied(Next(w, Exit(k)), e)
  {
    UsersNext(w, Exit(k), e);
    hide Users;
  }

  lemma EnteredTable(t: Table, provider: string)
    requires forall p | p in t.entries :: t.entries[p] in t.users
    requires forall e | e in t.users :: e < t.made
    ensures var (u, e) := Entered(t, provider);
            && u.users == t.users[e := if e in t.users then t.users[e] + 1 else 1]
            && u.entries == t.entries[provider := e]
            && (e in t.users <==> provider in t.entries)
            && (e !in t.users ==> e == t.made && u.made == t.made + 1)
            && (e in t.users ==> u.made == t.made)
  {
  }

  lemma NextInUse(w: World, s: Step)
    requires Inv(w) && Enabled(w, s)
    ensures InUse(Next(w, s))
  {
    if s.Enter? {
      EnteredTable(w.table, w.tasks[s.k].provider);
      hide Users, SameObject, Held, Entered;
    } else if s.Exit? {
      var e := w.tasks[s.k].phase.e;
      assert s.k in Users(w, e);
      hide Users, Held;
    } else {
      hide Users, SameObject, Held;
    }
  }

  lemma NextHeld(w: World, s: Step)
    requires Held(w) && Enabled(w, s)
    ensures Held(Next(w, s))
  {
    hide Entered, Left;
  }

  predicate Runs(w: World, steps: seq<Step>)
    decreases |steps|
  {
    steps == [] || (Enabled(w, steps[0]) && Runs(Next(w, steps[0]), steps[1..]))
  }

  function After(w: World, steps: seq<Step>): World
    requires Runs(w, steps)
    decreases |steps|
  {
    if steps == [] then w else After(Next(w, steps[0]), steps[1..])
  }

  lemma {:induction false} RunKeeps(w: World, steps: seq<Step>)
    requires Inv(w) && Runs(w, steps)
    ensures Inv(After(w, steps))
    decreases |steps|
  {
    if steps != [] {
      NextSame(w, steps[0]);
      NextCounts(w, steps[0]);
      NextInUse(w, steps[0]);
      NextHeld(w, steps[0]);
      hide SameObject, Counts, InUse, Held, Next, Enabled;
      RunKeeps(Next(w, steps[0]), steps[1..]);
    }
  }

  // ---------------------------------------------------------------------------
  // Guarantees over every interleaving
  // ---------------------------------------------------------------------------

  /** Two tasks for one provider never use different lock objects, and at most one of them is inside. */
  lemma OneInside(steps: seq<Step>, j: nat, k: nat)
    requires Runs(EMPTY, steps)
    ensures var w := After(EMPTY, steps);
            j in w.tasks && k in w.tasks && w.tasks[j].provider == w.tasks[k].provider &&
            Using(w.tasks[j].phase) && Using(w.tasks[k].phase) ==>
              && w.tasks[j].phase.e == w.tasks[k].phase.e
              && (w.tasks[j].phase.Inside? && w.tasks[k].phase.Inside? ==> j == k)
  {
    RunKeeps(EMPTY, steps);
  }

  /** The map holds exactly the providers some task of which uses a lock object, and the object's count is the
      number of those tasks. */
  lemma MapIsInUse(steps: seq<Step>, provider: string)
    requires Runs(EMPTY, steps)
    ensures var w := After(EMPTY, steps);
            var using := set k | k in w.tasks && w.tasks[k].provider == provider && Using(w.tasks[k].phase);
            && (provider in w.table.entries <==> using != {})
            && (provider in w.table.entries ==>
                  w.table.entries[provider] in w.table.users && w.table.users[w.table.entries[provider]] == |using|)
  {
    RunKeeps(EMPTY, steps);
    var w := After(EMPTY, steps);
    var using := set k | k in w.tasks && w.tasks[k].provider == provider && Using(w.tasks[k].phase);
    if provider in w.table.entries {
      assert using == Users(w, w.table.entries[provider]);
    } else {
      assert forall k | k in using :: false;
    }
  }

  /** While no task is between entry and exit the map is empty. */
  lemma QuietMeansEmpty(steps: seq<Step>)
    requires Runs(EMPTY, steps)
    requires forall k | k in After(EMPTY, steps).tasks :: After(EMPTY, steps).tasks[k].phase in {AtEntry, Done}
    ensures After(EMPTY, steps).table.entries == map[]
  {
    forall p ensures p !in After(EMPTY, steps).table.entries { MapIsInUse(steps, p); }
  }

  /** No task waits while its lock is free to take: some task inside the same provider holds it. */
  lemma WaitingOnSomeone(steps: seq<Step>, k: nat)
    requires Runs(EMPTY, steps)
    ensures var w := After(EMPTY, steps);
            k in w.tasks && w.tasks[k].phase.Waiting? && !Enabled(w, Acquire(k)) ==>
              exists j :: j in w.tasks && j != k && w.tasks[j].phase == Inside(w.tasks[k].phase.e) &&
                          w.tasks[j].provider == w.tasks[k].provider
  {
    RunKeeps(EMPTY, steps);
    var w := After(EMPTY, steps);
    if k in w.tasks && w.tasks[k].phase.Waiting? && !Enabled(w, Acquire(k)) {
      var j := w.held[w.tasks[k].phase.e];
      assert w.tasks[j].phase == Inside(w.tasks[k].phase.e);
      assert w.table.entries[w.tasks[j].provider] == w.table.entries[w.tasks[k].provider];
    }
  }

  /** No task is cancelled at its final taking of the guard, as none can be while guarded sections do not suspend. */
  predicate NoLateCancel(w: World, steps: seq<Step>)
    requires Runs(w, steps)
    decreases |steps|
  {
    steps == [] ||
    (!(steps[0].Cancel? && w.tasks[steps[0].k].phase.AtExit?) && NoLateCancel(Next(w, steps[0]), steps[1..]))
  }

  ghost predicate NoneLeaked(w: World) {
    forall k | k in w.tasks :: !w.tasks[k].phase.Leaked?
  }

  lemma {:induction false} NeverLeaked(w: World, steps: seq<Step>)
    requires NoneLeaked(w) && Runs(w, steps) && NoLateCancel(w, steps)
    ensures NoneLeaked(After(w, steps))
    decreases |steps|
  {
    if steps != [] {
      assert NoneLeaked(Next(w, steps[0]));
      NeverLeaked(Next(w, steps[0]), steps[1..]);
    }
  }

  /** However tasks finish or are cancelled, once all have ended no lock object is left in the map. */
  lemma EndedMeansEmpty(steps: seq<Step>)
    requires Runs(EMPTY, steps) && NoLateCancel(EMPTY, steps)
    requires forall k | k in After(EMPTY, steps).tasks ::
               After(EMPTY, steps).tasks[k].phase.Done? || After(EMPTY, steps).tasks[k].phase.Leaked?
    ensures After(EMPTY, steps).table.entries == map[]
  {
    NeverLeaked(EMPTY, steps);
    QuietMeansEmpty(steps);
  }

  /** The task is on its way out or gone. */
  predicate Leaving(w: World, k: nat) {
    k in w.tasks && (w.tasks[k].phase.AtExit? || w.tasks[k].phase.Leaked? || w.tasks[k].phase.Done?) &&
    forall e | e in w.held :: w.held[e] != k
  }

  lemma NextLeaves(w: World, s: Step, k: nat)
    requires Held(w) && Enabled(w, s)
    ensures Leaving(w, k) || s == Cancel(k) || s == Finish(k) ==> Leaving(Next(w, s), k)
  {
    hide Left, Entered;
  }

  /** A task cancelled wherever it is, or finished, holds no lock and never takes one again. */
  lemma {:induction false} CancelledLeaves(w: World, steps: seq<Step>, k: nat)
    requires Inv(w) && Runs(w, steps)
    ensures Leaving(w, k) || Cancel(k) in steps || Finish(k) in steps ==> Leaving(After(w, steps), k)
    decreases |steps|
  {
    if steps != [] {
      hide Leaving, Next, Enabled, SameObject, Counts, InUse, Held;
      NextLeaves(w, steps[0], k);
      RunKeeps(w, steps[..1]);
      assert steps[..1][1..] == [];
      CancelledLeaves(Next(w, steps[0]), steps[1..], k);
      assert steps == [steps[0]] + steps[1..];
    }
  }
}
