/** The bridge's sliding-window limiter: per user at most `perMin` hits a minute, in a table of
    bounded size whose oldest slot is reclaimed once its window has passed. */
module BridgeRateLimiter {
  import opened Counting

  const WINDOW: real := 60.0

  /** An ordered dictionary: keys from least to most recently touched, and their hits. */
  datatype Table = Table(order: seq<string>, hits: map<string, seq<real>>)

  datatype Limits = Limits(perMin: nat, maxUsers: nat)

  function ClampLimits(perMin: int, maxUsers: int): (l: Limits) {
    Limits(if perMin <= 0 then 0 else if perMin < 10_000 then perMin else 10_000,
           if maxUsers < 1 then 1 else if maxUsers < 100_000 then maxUsers else 100_000)
  }

  ghost predicate WellFormed(t: Table) {
    && (forall i, j | 0 <= i < j < |t.order| :: t.order[i] != t.order[j])
    && (forall u :: u in t.order <==> u in t.hits)
  }

  predicate Expired(hit: real, now: real) {
    now - hit > WINDOW
  }

  /** Drop expired hits from the front. */
  function Prune(hits: seq<real>, now: real): seq<real> {
    if hits != [] && Expired(hits[0], now) then Prune(hits[1..], now) else hits
  }

  function Without(order: seq<string>, user: string): seq<string> {
    if order == [] then [] else if order[0] == user then order[1..] else [order[0]] + Without(order[1..], user)
  }

  /** Record a hit of a tracked user if the window has room. */
  function Decide(t: Table, l: Limits, user: string, now: real): (Table, bool)
    requires user in t.hits
  {
    var live := Prune(t.hits[user], now);
    if |live| >= l.perMin then (t.(hits := t.hits[user := live]), false)
    else (t.(hits := t.hits[user := live + [now]]), true)
  }

  /** Make room for a newcomer by reclaiming expired slots from the least recently touched end;
      false if the table stays full. */
  function Reclaim(t: Table, l: Limits, now: real): (Table, bool)
    decreases |t.order|
  {
    if |t.order| < l.maxUsers || t.order == [] then (t, true)
    else
      var oldest := t.order[0];
      var live := Prune(if oldest in t.hits then t.hits[oldest] else [], now);
      if live != [] then (t.(hits := t.hits[oldest := live]), false)
      else Reclaim(Table(t.order[1..], t.hits - {oldest}), l, now)
  }

  /** One call of `allow`. */
  function Allow(t: Table, l: Limits, user: string, now: real): (Table, bool) {
    if l.perMin == 0 then (t, true)
    else if user in t.hits then
      Decide(Table(Without(t.order, user) + [user], t.hits), l, user, now)
    else
      var (room, ok) := Reclaim(t, l, now);
      if !ok then (room, false)
      else Decide(Table(room.order + [user], room.hits[user := []]), l, user, now)
  }

  lemma {:induction false} WithoutKeeps(order: seq<string>, user: string)
    requires forall i, j | 0 <= i < j < |order| :: order[i] != order[j]
    ensures var rest := Without(order, user);
            && (forall i, j | 0 <= i < j < |rest| :: rest[i] != rest[j])
            && (forall u :: u in rest <==> u in order && u != user)
            && |rest| == |order| - if user in order then 1 else 0
  {
    if order != [] && order[0] != user {
      WithoutKeeps(order[1..], user);
      assert order == [order[0]] + order[1..];
      var rest := Without(order[1..], user);
      assert order[0] !in rest by {
        assert forall j | 0 <= j < |order[1..]| :: order[1..][j] == order[j + 1];
      }
    }
  }

  lemma {:induction false} PruneSuffix(hits: seq<real>, now: real)
    ensures |Prune(hits, now)| <= |hits|
    ensures Prune(hits, now) == hits[|hits| - |Prune(hits, now)|..]
    ensures forall i | 0 <= i < |hits| - |Prune(hits, now)| :: Expired(hits[i], now)
    ensures Prune(hits, now) != [] ==> !Expired(Prune(hits, now)[0], now)
  {
    if hits != [] && Expired(hits[0], now) {
      PruneSuffix(hits[1..], now);
      assert forall i | 0 < i < |hits| :: hits[i] == hits[1..][i - 1];
    }
  }

  lemma FirstGone(t: Table)
    requires WellFormed(t) && t.order != []
    ensures t.order[0] in t.hits && WellFormed(Table(t.order[1..], t.hits - {t.order[0]}))
  {
    assert t.order == [t.order[0]] + t.order[1..];
    assert forall i | 0 <= i < |t.order[1..]| :: t.order[1..][i] == t.order[i + 1];
  }

  lemma HitsOnly(t: Table, user: string, hits: seq<real>)
    requires WellFormed(t) && user in t.hits
    ensures WellFormed(t.(hits := t.hits[user := hits]))
  {
  }

  class RateLimiter {
    const limits: Limits
    var table: Table

    constructor (perMin: int, maxUsers: int)
      ensures limits == ClampLimits(perMin, maxUsers) && table == Table([], map[])
    {
      limits := ClampLimits(perMin, maxUsers);
      table := Table([], map[]);
    }

    method PopExpired(user: string, now: real)
      requires user in table.hits
      modifies this`table
      ensures table == old(table).(hits := old(table).hits[user := Prune(old(table).hits[user], now)])
    {
      while table.hits[user] != [] && now - table.hits[user][0] > WINDOW
        invariant user in table.hits && table.order == old(table).order
        invariant table.hits == old(table).hits[user := table.hits[user]]
        invariant Prune(table.hits[user], now) == Prune(old(table).hits[user], now)
        decreases |table.hits[user]|
      {
        table := table.(hits := table.hits[user := table.hits[user][1..]]);
      }
    }

    /** Reclaims expired slots from the least recently touched end while the table is full. */
    method MakeRoom(now: real) returns (ok: bool)
      requires WellFormed(table)
      modifies this`table
      ensures WellFormed(table) && (table, ok) == Reclaim(old(table), limits, now)
      ensures forall u | u in table.hits :: u in old(table).hits
    {
      hide WellFormed;
      while |table.order| >= limits.maxUsers && table.order != []
        invariant WellFormed(table) && forall u | u in table.hits :: u in old(table).hits
        invariant Reclaim(table, limits, now) == Reclaim(old(table), limits, now)
        decreases |table.order|
      {
        var oldest := table.order[0];
        ghost var before := table;
        FirstGone(before);
        PopExpired(oldest, now);
        HitsOnly(before, oldest, table.hits[oldest]);
        if table.hits[oldest] != [] { return false; }
        table := Table(table.order[1..], table.hits - {oldest});
        assert table.hits == before.hits - {oldest};
      }
      return true;
    }

    method Admit(user: string, now: real) returns (allowed: bool)
      requires WellFormed(table)
      modifies this`table
      ensures (table, allowed) == Allow(old(table), limits, user, now)
    {
      hide Reclaim;
      if limits.perMin == 0 {
        return true;
      }
      if user !in table.hits {
        var ok := MakeRoom(now);
        if !ok { return false; }
        table := Table(table.order + [user], table.hits[user := []]);
      } else {
        table := table.(order := Without(table.order, user) + [user]);
      }
      ghost var touched := table;
      PopExpired(user, now);
      if |table.hits[user]| >= limits.perMin {
        return false;
      }
      table := table.(hits := table.hits[user := table.hits[user] + [now]]);
      assert table.hits == touched.hits[user := Prune(touched.hits[user], now) + [now]];
      return true;
    }
  }

  // ---------------------------------------------------------------------------
  // Runs, and the unbounded limiter they are measured against
  // ---------------------------------------------------------------------------

  /** One call: the user and the clock reading it brought along. */
  datatype Call = Call(user: string, now: real)

  /** The table beside everything the limiter ever allowed, in order, per user. */
  datatype Observed = Observed(table: Table, allowed: map<string, seq<real>>)

  function AllowedOf(o: Observed, user: string): seq<real> {
    if user in o.allowed then o.allowed[user] else []
  }

  function KeptOf(t: Table, user: string): seq<real> {
    if user in t.hits then t.hits[user] else []
  }

  function Observe(o: Observed, l: Limits, c: Call): Observed {
    var (table, ok) := Allow(o.table, l, c.user, c.now);
    Observed(table, if ok then o.allowed[c.user := AllowedOf(o, c.user) + [c.now]] else o.allowed)
  }

  function Run(l: Limits, calls: seq<Call>): Observed {
    if calls == [] then Observed(Table([], map[]), map[])
    else Observe(Run(l, calls[..|calls| - 1]), l, calls[|calls| - 1])
  }

  /** Hits that an unbounded history counts at `now`. */
  ghost function Live(history: seq<real>, now: real): set<int> {
    set i | 0 <= i < |history| && !Expired(history[i], now)
  }

  ghost predicate ReadBefore(calls: seq<Call>, now: real) {
    forall i | 0 <= i < |calls| :: calls[i].now <= now
  }

  ghost predicate Nondecreasing(calls: seq<Call>) {
    forall i, j | 0 <= i <= j < |calls| :: calls[i].now <= calls[j].now
  }

  /** The table keeps the end of every user's history; what it forgot is expired at `peak`. */
  ghost predicate Remembers(kept: seq<real>, history: seq<real>, peak: real) {
    && |kept| <= |history| && kept == history[|history| - |kept|..]
    && forall i | 0 <= i < |history| - |kept| :: Expired(history[i], peak)
  }

  ghost predicate Faithful(o: Observed, l: Limits, peak: real) {
    && WellFormed(o.table) && |o.table.order| <= l.maxUsers
    && forall u :: Remembers(KeptOf(o.table, u), AllowedOf(o, u), peak)
  }

  function Later(peak: real, now: real): real {
    if now > peak then now else peak
  }

  lemma PruneRemembers(kept: seq<real>, history: seq<real>, peak: real, now: real)
    requires Remembers(kept, history, peak)
    ensures Remembers(Prune(kept, now), history, Later(peak, now))
    ensures Prune(kept, now) != [] ==> exists i :: i in Live(history, now)
  {
    PruneSuffix(kept, now);
    var pruned := Prune(kept, now);
    var gone := |history| - |kept|;
    forall i | 0 <= i < |history| - |pruned| ensures Expired(history[i], Later(peak, now)) {
      if i >= gone {
        assert history[i] == kept[i - gone];
      }
    }
    assert pruned == history[|history| - |pruned|..];
    if pruned != [] {
      assert history[|history| - |pruned|] == pruned[0];
      assert |history| - |pruned| in Live(history, now);
    }
  }

  /** Replacing what is kept of one user. */
  lemma KeepsFaithful(o: Observed, l: Limits, peak: real, now: real, next: Observed, user: string)
    requires Faithful(o, l, peak) && WellFormed(next.table) && |next.table.order| <= l.maxUsers
    requires forall u | u != user :: KeptOf(next.table, u) == KeptOf(o.table, u) && AllowedOf(next, u) == AllowedOf(o, u)
    requires Remembers(KeptOf(next.table, user), AllowedOf(next, user), Later(peak, now))
    ensures Faithful(next, l, Later(peak, now))
  {
    forall u ensures Remembers(KeptOf(next.table, u), AllowedOf(next, u), Later(peak, now)) {
      assert Remembers(KeptOf(o.table, u), AllowedOf(o, u), peak);
    }
  }

  lemma DropFaithful(o: Observed, l: Limits, peak: real, now: real)
    requires Faithful(o, l, peak) && o.table.order != []
    requires Prune(o.table.hits[o.table.order[0]], now) == []
    ensures Faithful(Observed(Table(o.table.order[1..], o.table.hits - {o.table.order[0]}), o.allowed), l, Later(peak, now))
  {
    var oldest := o.table.order[0];
    var next := Observed(Table(o.table.order[1..], o.table.hits - {oldest}), o.allowed);
    hide WellFormed, Remembers, Prune;
    FirstGone(o.table);
    FirstForgotten(o.table);
    assert Remembers(KeptOf(o.table, oldest), AllowedOf(o, oldest), peak);
    PruneRemembers(o.table.hits[oldest], AllowedOf(o, oldest), peak, now);
    hide KeptOf;
    KeepsFaithful(o, l, peak, now, next, oldest);
  }

  lemma FirstForgotten(t: Table)
    requires t.order != [] && t.order[0] in t.hits
    ensures var rest := Table(t.order[1..], t.hits - {t.order[0]});
            KeptOf(rest, t.order[0]) == [] && forall u | u != t.order[0] :: KeptOf(rest, u) == KeptOf(t, u)
    ensures KeptOf(t, t.order[0]) == t.hits[t.order[0]]
  {
  }

  lemma {:induction false} ReclaimFaithful(o: Observed, l: Limits, peak: real, now: real)
    requires l.maxUsers > 0 && Faithful(o, l, peak)
    ensures var (table, ok) := Reclaim(o.table, l, now);
            && Faithful(Observed(table, o.allowed), l, Later(peak, now))
            && (ok ==> |table.order| < l.maxUsers)
            && (!ok ==> |o.table.order| == l.maxUsers
                        && exists i :: i in Live(AllowedOf(o, o.table.order[0]), now))
            && (forall u | u !in o.table.hits :: u !in table.hits)
    decreases |o.table.order|
  {
    if |o.table.order| < l.maxUsers {
      KeepsFaithfulLater(o, l, peak, now);
    } else {
      var oldest := o.table.order[0];
      var live := Prune(o.table.hits[oldest], now);
      assert Remembers(KeptOf(o.table, oldest), AllowedOf(o, oldest), peak);
      PruneRemembers(o.table.hits[oldest], AllowedOf(o, oldest), peak, now);
      if live != [] {
        var next := Observed(o.table.(hits := o.table.hits[oldest := live]), o.allowed);
        KeepsFaithful(o, l, peak, now, next, oldest);
      } else {
        DropFaithful(o, l, peak, now);
        var smaller := Table(o.table.order[1..], o.table.hits - {oldest});
        assert |smaller.order| < l.maxUsers;
        assert Reclaim(o.table, l, now) == Reclaim(smaller, l, now) == (smaller, true);
      }
    }
  }

  lemma KeepsFaithfulLater(o: Observed, l: Limits, peak: real, now: real)
    requires Faithful(o, l, peak)
    ensures Faithful(o, l, Later(peak, now))
  {
    forall u ensures Remembers(KeptOf(o.table, u), AllowedOf(o, u), Later(peak, now)) {
      assert Remembers(KeptOf(o.table, u), AllowedOf(o, u), peak);
    }
  }

  /** Live hits are all still kept, so the kept ones bound them. */
  lemma LiveAreKept(kept: seq<real>, history: seq<real>, peak: real, now: real)
    requires Remembers(kept, history, peak) && peak <= now
    ensures |Live(history, now)| <= |Prune(kept, now)|
  {
    PruneRemembers(kept, history, peak, now);
    var pruned := Prune(kept, now);
    SubsetCounts(Live(history, now), Range(|history| - |pruned|, |history|));
  }

  lemma DecideFaithful(o: Observed, l: Limits, peak: real, user: string, now: real)
    requires Faithful(o, l, peak) && user in o.table.hits
    ensures var (table, ok) := Decide(o.table, l, user, now);
            && var allowed := if ok then o.allowed[user := AllowedOf(o, user) + [now]] else o.allowed;
            && Faithful(Observed(table, allowed), l, Later(peak, now))
            && (ok <==> |Prune(o.table.hits[user], now)| < l.perMin)
            && (ok && peak <= now ==> |Live(AllowedOf(o, user), now)| < l.perMin)
  {
    var kept := o.table.hits[user];
    var history := AllowedOf(o, user);
    assert kept == KeptOf(o.table, user);
    assert Remembers(kept, history, peak);
    PruneRemembers(kept, history, peak, now);
    if peak <= now {
      LiveAreKept(kept, history, peak, now);
    }
    var (table, ok) := Decide(o.table, l, user, now);
    var next := Observed(table, if ok then o.allowed[user := history + [now]] else o.allowed);
    var pruned := Prune(kept, now);
    if ok {
      var longer := history + [now];
      assert pruned + [now] == longer[|longer| - |pruned + [now]|..];
    }
    HitsOnly(o.table, user, if ok then pruned + [now] else pruned);
    hide WellFormed, Prune;
    KeepsFaithful(o, l, peak, now, next, user);
  }

  lemma TouchFaithful(o: Observed, l: Limits, peak: real, user: string)
    requires Faithful(o, l, peak) && user in o.table.hits
    ensures Faithful(Observed(Table(Without(o.table.order, user) + [user], o.table.hits), o.allowed), l, peak)
  {
    WithoutKeeps(o.table.order, user);
    var next := Observed(Table(Without(o.table.order, user) + [user], o.table.hits), o.allowed);
    forall u ensures Remembers(KeptOf(next.table, u), AllowedOf(next, u), peak) {
      assert Remembers(KeptOf(o.table, u), AllowedOf(o, u), peak);
    }
  }

  /** Every call keeps the table faithful, whatever the clock readings.  A call whose reading is
      not behind any earlier one admits only within the budget of the unbounded history; and a
      user is refused beyond that only as a newcomer to a full table whose oldest slot is live. */
  lemma CallFaithful(o: Observed, l: Limits, peak: real, c: Call)
    requires l.perMin > 0 && l.maxUsers > 0 && Faithful(o, l, peak)
    ensures Faithful(Observe(o, l, c), l, Later(peak, c.now))
    ensures var ok := Allow(o.table, l, c.user, c.now).1;
            && (ok && peak <= c.now ==> |Live(AllowedOf(o, c.user), c.now)| < l.perMin)
            && (c.user in o.table.hits ==> (ok <==> |Prune(o.table.hits[c.user], c.now)| < l.perMin))
            && (c.user !in o.table.hits ==>
                  (ok <==> Reclaim(o.table, l, c.now).1)
                  && (!ok ==> |o.table.order| == l.maxUsers
                              && exists i :: i in Live(AllowedOf(o, o.table.order[0]), c.now)))
  {
    var user, now := c.user, c.now;
    if user in o.table.hits {
      TouchFaithful(o, l, peak, user);
      DecideFaithful(Observed(Table(Without(o.table.order, user) + [user], o.table.hits), o.allowed), l, peak, user, now);
    } else {
      ReclaimFaithful(o, l, peak, now);
      var (room, ok) := Reclaim(o.table, l, now);
      if ok {
        var roomy := Observed(room, o.allowed);
        var joined := Observed(Table(room.order + [user], room.hits[user := []]), o.allowed);
        JoinFaithful(roomy, l, Later(peak, now), user);
        DecideFaithful(joined, l, Later(peak, now), user, now);
      }
    }
  }

  lemma JoinFaithful(o: Observed, l: Limits, peak: real, user: string)
    requires Faithful(o, l, peak) && user !in o.table.hits && |o.table.order| < l.maxUsers
    ensures Faithful(Observed(Table(o.table.order + [user], o.table.hits[user := []]), o.allowed), l, peak)
  {
    var next := Observed(Table(o.table.order + [user], o.table.hits[user := []]), o.allowed);
    forall u ensures Remembers(KeptOf(next.table, u), AllowedOf(next, u), peak) {
      assert Remembers(KeptOf(o.table, u), AllowedOf(o, u), peak);
      assert KeptOf(next.table, u) == KeptOf(o.table, u);
    }
  }

  function Peak(calls: seq<Call>): real
    requires calls != []
  {
    if |calls| == 1 then calls[0].now else Later(Peak(calls[..|calls| - 1]), calls[|calls| - 1].now)
  }

  lemma {:induction false} PeakBounds(calls: seq<Call>, now: real)
    requires calls != []
    ensures ReadBefore(calls, now) <==> Peak(calls) <= now
  {
    var n := |calls| - 1;
    if n > 0 {
      PeakBounds(calls[..n], now);
      assert calls == calls[..n] + [calls[n]];
      assert Peak(calls) <= now <==> Peak(calls[..n]) <= now && calls[n].now <= now;
      assert ReadBefore(calls, now) <==> ReadBefore(calls[..n], now) && calls[n].now <= now;
    }
  }

  /** After any calls the table is faithful and within its size. */
  lemma {:induction false} RunFaithful(l: Limits, calls: seq<Call>)
    requires l.perMin > 0 && l.maxUsers > 0 && calls != []
    ensures Faithful(Run(l, calls), l, Peak(calls))
  {
    var n := |calls| - 1;
    if n == 0 {
      var empty := Run(l, calls[..0]);
      assert Faithful(empty, l, calls[0].now);
      CallFaithful(empty, l, calls[0].now, calls[0]);
    } else {
      RunFaithful(l, calls[..n]);
      CallFaithful(Run(l, calls[..n]), l, Peak(calls[..n]), calls[n]);
    }
  }

  predicate Decision(l: Limits, calls: seq<Call>, c: Call) {
    Allow(Run(l, calls).table, l, c.user, c.now).1
  }

  /** After any earlier calls, a call whose reading is not behind theirs is allowed only if the
      user's whole history has fewer than `perMin` hits in the last minute. */
  lemma AdmitsWithinBudget(l: Limits, calls: seq<Call>, c: Call)
    requires l.perMin > 0 && l.maxUsers > 0 && ReadBefore(calls, c.now)
    ensures Decision(l, calls, c) ==> |Live(AllowedOf(Run(l, calls), c.user), c.now)| < l.perMin
  {
    if calls != [] {
      RunFaithful(l, calls);
      PeakBounds(calls, c.now);
      CallFaithful(Run(l, calls), l, Peak(calls), c);
    }
  }

  function Repeat(c: Call, n: nat): seq<Call> {
    if n == 0 then [] else Repeat(c, n - 1) + [c]
  }

  lemma {:induction false} RepeatedHits(l: Limits, c: Call, n: nat)
    requires 0 < n <= l.perMin && l.maxUsers > 0
    ensures Run(l, Repeat(c, n)) == Observed(Table([c.user], map[c.user := AllowedOf(Run(l, Repeat(c, n)), c.user)]),
                                             map[c.user := AllowedOf(Run(l, Repeat(c, n)), c.user)])
    ensures |AllowedOf(Run(l, Repeat(c, n)), c.user)| == n
    ensures forall i | 0 <= i < n :: AllowedOf(Run(l, Repeat(c, n)), c.user)[i] == c.now
  {
    assert Repeat(c, n)[..n - 1] == Repeat(c, n - 1) && |Repeat(c, n)| == n by { RepeatLength(c, n); }
    if n > 1 {
      RepeatedHits(l, c, n - 1);
      var before := Run(l, Repeat(c, n - 1));
      var hits := AllowedOf(before, c.user);
      assert Prune(hits, c.now) == hits;
      assert Without([c.user], c.user) == [];
    }
  }

  lemma {:induction false} RepeatLength(c: Call, n: nat)
    ensures |Repeat(c, n)| == n
    ensures n > 0 ==> Repeat(c, n)[..n - 1] == Repeat(c, n - 1)
  {
    if n > 0 { RepeatLength(c, n - 1); }
  }

  /** The reading matters: it is taken before the lock, and a call that enters with a reading
      behind an earlier one can be allowed beyond the budget.  For every limit of two or more and
      every stale reading there are such calls, none read later than the one it is behind. */
  lemma StaleReadingOverAdmits(l: Limits, user: string, now: real, peak: real) returns (calls: seq<Call>)
    requires l.perMin >= 2 && l.maxUsers > 0 && now < peak
    ensures forall i | 0 <= i < |calls| :: calls[i].now <= peak
    ensures Decision(l, calls, Call(user, now))
    ensures |Live(AllowedOf(Run(l, calls), user), now)| >= l.perMin
  {
    var early := Call(user, now - WINDOW);
    var n := l.perMin;
    var prefix := Repeat(early, n);
    calls := prefix + [Call(user, peak)];
    RepeatLength(early, n);
    RepeatedHits(l, early, n);
    assert calls[..n] == prefix;
    var before := Run(l, prefix);
    var hits := AllowedOf(before, user);
    AllExpired(hits, peak);
    assert Without([user], user) == [];
    var after := Run(l, calls);
    assert after == Observe(before, l, Call(user, peak));
    assert after.table.hits[user] == [peak];
    var history := AllowedOf(after, user);
    assert history == hits + [peak];
    SubsetCounts(Range(0, n), Live(history, now));
    RepeatBelow(early, n, peak);
  }

  lemma {:induction false} RepeatBelow(c: Call, n: nat, peak: real)
    requires c.now <= peak
    ensures forall i | 0 <= i < |Repeat(c, n)| :: Repeat(c, n)[i].now <= peak
  {
    if n > 0 { RepeatBelow(c, n - 1, peak); }
  }

  lemma {:induction false} AllExpired(hits: seq<real>, now: real)
    requires forall i | 0 <= i < |hits| :: Expired(hits[i], now)
    ensures Prune(hits, now) == []
  {
    if hits != [] { AllExpired(hits[1..], now); }
  }

  /** Names of further users, all different. */
  function Other(user: string, i: nat): string {
    user + seq(i + 1, _ => 'x')
  }

  /** After one hit of `user` at `peak`, `k` others have joined with one early hit each. */
  ghost predicate Joined(o: Observed, user: string, peak: real, early: real, k: nat) {
    && |o.table.order| == k + 1 && o.table.order[0] == user
    && user in o.table.hits && o.table.hits[user] == [peak] && AllowedOf(o, user) == [peak]
    && (forall u | u in o.table.order[1..] :: u != user && u in o.table.hits && o.table.hits[u] == [early])
    && (forall i | k <= i :: Other(user, i) !in o.table.hits)
  }

  lemma OthersDiffer(user: string, i: nat, j: nat)
    ensures Other(user, i) != user && (i != j ==> Other(user, i) != Other(user, j))
  {
    assert |Other(user, i)| == |user| + i + 1 && |Other(user, j)| == |user| + j + 1;
  }

  lemma {:induction false} OthersJoin(l: Limits, user: string, peak: real, early: real, k: nat) returns (calls: seq<Call>)
    requires l.perMin == 1 && k + 1 <= l.maxUsers && early <= peak
    ensures Joined(Run(l, calls), user, peak, early, k)
    ensures forall i | 0 <= i < |calls| :: calls[i].now <= peak
  {
    if k == 0 {
      calls := [Call(user, peak)];
      assert calls[..0] == [];
      forall i: nat ensures Other(user, i) != user { OthersDiffer(user, i, i); }
    } else {
      var fewer := OthersJoin(l, user, peak, early, k - 1);
      var next := Call(Other(user, k - 1), early);
      calls := fewer + [next];
      assert calls[..|fewer|] == fewer;
      OneMoreJoins(l, Run(l, fewer), user, peak, early, k - 1);
    }
  }

  lemma OneMoreJoins(l: Limits, o: Observed, user: string, peak: real, early: real, k: nat)
    requires l.perMin == 1 && k + 1 < l.maxUsers && Joined(o, user, peak, early, k)
    ensures Joined(Observe(o, l, Call(Other(user, k), early)), user, peak, early, k + 1)
  {
    forall i: nat ensures Other(user, i) != user && (i != k ==> Other(user, i) != Other(user, k)) {
      OthersDiffer(user, i, k);
    }
    hide Other;
    var next := Observe(o, l, Call(Other(user, k), early));
    assert [] + [early] == [early] && Prune([], early) == [];
    assert next.table.order == o.table.order + [Other(user, k)];
    assert next.table.order[1..] == o.table.order[1..] + [Other(user, k)];
    assert next.table.hits[Other(user, k)] == [early];
  }

  /** With a limit of one and more than one slot it takes an eviction: a newcomer read at `peak` reclaims the user's
      slot, and the stale call the slot of somebody else, whose hit is older still. */
  lemma StaleReadingOverAdmitsOne(l: Limits, user: string, now: real, peak: real) returns (calls: seq<Call>)
    requires l.perMin == 1 && l.maxUsers >= 2 && now < peak
    ensures forall i | 0 <= i < |calls| :: calls[i].now <= peak
    ensures Decision(l, calls, Call(user, now))
    ensures |Live(AllowedOf(Run(l, calls), user), now)| >= l.perMin
  {
    var hit := now - WINDOW;
    var early := hit - 1.0;
    var k := l.maxUsers - 1;
    var full := OthersJoin(l, user, hit, early, k);
    var newcomer := Call(Other(user, k), peak);
    calls := full + [newcomer];
    assert calls[..|full|] == full;
    var o := Run(l, full);
    OthersDiffer(user, k, k);
    hide Other;
    assert Prune([hit], peak) == [] by { AllExpired([hit], peak); }
    var smaller := Table(o.table.order[1..], o.table.hits - {user});
    assert Reclaim(o.table, l, peak) == (smaller, true);
    var after := Run(l, calls);
    assert after.table.order == smaller.order + [newcomer.user];
    var oldest := after.table.order[0];
    assert o.table.order[1..][0] in o.table.order[1..];
    assert oldest == o.table.order[1..][0] && after.table.hits[oldest] == [early];
    assert Prune([early], now) == [] by { AllExpired([early], now); }
    assert user !in after.table.hits && |after.table.order| == l.maxUsers;
    var room := Table(after.table.order[1..], after.table.hits - {oldest});
    assert Reclaim(after.table, l, now) == (room, true);
    assert Prune([], now) == [];
    assert AllowedOf(after, user) == [hit];
    SubsetCounts({0}, Live([hit], now));
  }

  /** With a limit of one and one slot no reading can exceed the budget: the one hit kept is later than all before. */
  lemma {:induction false} SingleSlotWithinBudget(l: Limits, calls: seq<Call>, c: Call)
    requires l.perMin == 1 && l.maxUsers == 1
    ensures Decision(l, calls, c) ==> Live(AllowedOf(Run(l, calls), c.user), c.now) == {}
  {
    if calls != [] { SingleSlot(l, calls); }
  }

  /** The table holds one hit, and nothing ever allowed is later. */
  ghost predicate Single(o: Observed) {
    && |o.table.order| == 1 && o.table.hits.Keys == {o.table.order[0]} && |o.table.hits[o.table.order[0]]| == 1
    && forall u, i | 0 <= i < |AllowedOf(o, u)| :: AllowedOf(o, u)[i] <= o.table.hits[o.table.order[0]][0]
  }

  lemma {:induction false} SingleSlot(l: Limits, calls: seq<Call>)
    requires l.perMin == 1 && l.maxUsers == 1 && calls != []
    ensures Single(Run(l, calls))
  {
    var n := |calls| - 1;
    var o := Run(l, calls[..n]);
    if n > 0 { SingleSlot(l, calls[..n]); }
    SingleNext(l, o, calls[n]);
  }

  lemma SingleNext(l: Limits, o: Observed, c: Call)
    requires l.perMin == 1 && l.maxUsers == 1 && (Single(o) || o == Observed(Table([], map[]), map[]))
    ensures Single(Observe(o, l, c))
  {
    var next := Observe(o, l, c);
    if o.table.order == [] {
      assert Prune([], c.now) == [];
      NextSingle(o, next, c);
    } else {
      var held := o.table.order[0];
      var kept := o.table.hits[held];
      assert o.table.order == [held] && kept == [kept[0]] && kept[1..] == [] && Without([held], held) == [];
      if Expired(kept[0], c.now) {
        assert Prune(kept, c.now) == [] && Prune([], c.now) == [];
        assert (o.table.hits - {held}).Keys == {};
        assert Reclaim(Table(o.table.order[1..], o.table.hits - {held}), l, c.now).1;
        NextSingle(o, next, c);
      } else {
        assert Prune(kept, c.now) == kept;
        assert o.table.hits[held := kept] == o.table.hits;
        assert next.allowed == o.allowed && next.table.hits == o.table.hits && next.table.order == [held];
      }
    }
  }

  lemma NextSingle(o: Observed, next: Observed, c: Call)
    requires next.table.order == [c.user] && next.table.hits.Keys == {c.user} && next.table.hits[c.user] == [c.now]
    requires next.allowed == o.allowed[c.user := AllowedOf(o, c.user) + [c.now]]
    requires forall u, i | 0 <= i < |AllowedOf(o, u)| :: AllowedOf(o, u)[i] <= c.now
    ensures Single(next)
  {
    forall u, i | 0 <= i < |AllowedOf(next, u)| ensures AllowedOf(next, u)[i] <= c.now {
      assert u != c.user ==> AllowedOf(next, u) == AllowedOf(o, u);
    }
  }

  /** After calls read no later than `peak`, a call read at `now` is never allowed beyond the budget. */
  ghost predicate StaysInBudget(l: Limits, now: real, peak: real) {
    forall calls, user | ReadBefore(calls, peak) && Decision(l, calls, Call(user, now)) ::
      |Live(AllowedOf(Run(l, calls), user), now)| < l.perMin
  }

  /** The budget holds at a reading exactly when no earlier one was ahead of it; only the limiter of one hit and one
      user does without that. */
  lemma OrderedReadingsNeeded(l: Limits, now: real, peak: real)
    requires l.perMin > 0 && l.maxUsers > 0
    ensures StaysInBudget(l, now, peak) <==> peak <= now || (l.perMin == 1 && l.maxUsers == 1)
  {
    if l.perMin == 1 && l.maxUsers == 1 {
      forall calls, user | Decision(l, calls, Call(user, now))
        ensures |Live(AllowedOf(Run(l, calls), user), now)| < l.perMin
      {
        SingleSlotWithinBudget(l, calls, Call(user, now));
      }
    } else if peak <= now {
      forall calls, user | ReadBefore(calls, peak) && Decision(l, calls, Call(user, now))
        ensures |Live(AllowedOf(Run(l, calls), user), now)| < l.perMin
      {
        AdmitsWithinBudget(l, calls, Call(user, now));
      }
    } else {
      var calls: seq<Call>;
      if l.perMin == 1 {
        calls := StaleReadingOverAdmitsOne(l, "", now, peak);
      } else {
        calls := StaleReadingOverAdmits(l, "", now, peak);
      }
      assert ReadBefore(calls, peak) && Decision(l, calls, Call("", now));
    }
  }

  // ---------------------------------------------------------------------------
  // Readings in order: exactly the unbounded limiter, and no crowded window
  // ---------------------------------------------------------------------------

  ghost predicate Sorted(history: seq<real>) {
    forall i, j | 0 <= i <= j < |history| :: history[i] <= history[j]
  }

  /** Any `n + 1` consecutive hits span more than a window. */
  ghost predicate Spaced(history: seq<real>, n: nat) {
    forall i, j | 0 <= i && j == i + n && j < |history| :: Expired(history[i], history[j])
  }

  /** Kept hits of a sorted history, once pruned, are exactly the live ones. */
  lemma KeptAreLive(kept: seq<real>, history: seq<real>, peak: real, now: real)
    requires Remembers(kept, history, peak) && Sorted(history) && peak <= now
    ensures Live(history, now) == Range(|history| - |Prune(kept, now)|, |history|)
  {
    PruneRemembers(kept, history, peak, now);
    PruneSuffix(kept, now);
    var gone := |history| - |Prune(kept, now)|;
    assert gone < |history| ==> !Expired(history[gone], now);
    hide Range, Prune, Remembers;
    forall i ensures i in Live(history, now) <==> i in Range(gone, |history|) {
      if gone <= i < |history| {
        assert history[gone] <= history[i];
      }
    }
  }

  ghost predicate Orderly(o: Observed, l: Limits, peak: real) {
    forall u :: var h := AllowedOf(o, u);
                Sorted(h) && Spaced(h, l.perMin) && (forall i | 0 <= i < |h| :: h[i] <= peak)
  }

  lemma AppendOrderly(history: seq<real>, n: nat, now: real)
    requires n > 0 && Sorted(history) && Spaced(history, n) && (forall i | 0 <= i < |history| :: history[i] <= now)
    requires |history| >= n ==> Expired(history[|history| - n], now)
    ensures Sorted(history + [now]) && Spaced(history + [now], n)
  {
    var longer := history + [now];
    forall i, j | 0 <= i && j == i + n && j < |longer| ensures Expired(longer[i], longer[j]) {
      if j < |history| {
        assert Expired(history[i], history[j]);
      }
    }
  }

  /** An allowed call finds the hit `perMin` places back expired. */
  lemma AllowedLeavesRoom(o: Observed, l: Limits, peak: real, c: Call)
    requires l.perMin > 0 && l.maxUsers > 0 && Faithful(o, l, peak) && peak <= c.now
    requires Sorted(AllowedOf(o, c.user)) && Allow(o.table, l, c.user, c.now).1
    ensures var h := AllowedOf(o, c.user); |h| >= l.perMin ==> Expired(h[|h| - l.perMin], c.now)
  {
    var history := AllowedOf(o, c.user);
    CallFaithful(o, l, peak, c);
    assert Remembers(KeptOf(o.table, c.user), history, peak);
    KeptAreLive(KeptOf(o.table, c.user), history, peak, c.now);
    if |history| >= l.perMin {
      assert |history| - l.perMin !in Live(history, c.now);
    }
  }

  lemma CallOrderly(o: Observed, l: Limits, peak: real, c: Call)
    requires l.perMin > 0 && l.maxUsers > 0 && Faithful(o, l, peak) && Orderly(o, l, peak) && peak <= c.now
    ensures Orderly(Observe(o, l, c), l, c.now)
  {
    var history := AllowedOf(o, c.user);
    var next := Observe(o, l, c);
    var ok := Allow(o.table, l, c.user, c.now).1;
    if ok {
      AllowedLeavesRoom(o, l, peak, c);
      AppendOrderly(history, l.perMin, c.now);
    }
    hide Allow;
    forall u ensures var h := AllowedOf(next, u);
                     Sorted(h) && Spaced(h, l.perMin) && (forall i | 0 <= i < |h| :: h[i] <= c.now)
    {
      assert AllowedOf(next, u) == if ok && u == c.user then history + [c.now] else AllowedOf(o, u);
    }
  }

  lemma {:induction false} RunOrderly(l: Limits, calls: seq<Call>)
    requires l.perMin > 0 && l.maxUsers > 0 && calls != [] && Nondecreasing(calls)
    ensures Orderly(Run(l, calls), l, Peak(calls))
  {
    var n := |calls| - 1;
    if n == 0 {
      var empty := Run(l, calls[..0]);
      CallOrderly(empty, l, calls[0].now, calls[0]);
    } else {
      RunOrderly(l, calls[..n]);
      RunFaithful(l, calls[..n]);
      PeakBounds(calls[..n], calls[n].now);
      assert ReadBefore(calls[..n], calls[n].now);
      CallOrderly(Run(l, calls[..n]), l, Peak(calls[..n]), calls[n]);
    }
  }

  /** With readings in order the limiter decides as one with unbounded memory would: a user it
      tracks is allowed exactly when fewer than `perMin` of all the user's hits are live, and one
      it does not track has no live hit at all. */
  lemma DecidesAsUnbounded(l: Limits, calls: seq<Call>, c: Call)
    requires l.perMin > 0 && l.maxUsers > 0 && Nondecreasing(calls) && ReadBefore(calls, c.now)
    ensures var o := Run(l, calls);
            && (c.user in o.table.hits ==>
                  (Decision(l, calls, c) <==> |Live(AllowedOf(o, c.user), c.now)| < l.perMin))
            && (c.user !in o.table.hits ==> Live(AllowedOf(o, c.user), c.now) == {})
            && |o.table.order| <= l.maxUsers
  {
    if calls != [] {
      var o := Run(l, calls);
      RunFaithful(l, calls);
      RunOrderly(l, calls);
      PeakBounds(calls, c.now);
      CallFaithful(o, l, Peak(calls), c);
      assert Remembers(KeptOf(o.table, c.user), AllowedOf(o, c.user), Peak(calls));
      KeptAreLive(KeptOf(o.table, c.user), AllowedOf(o, c.user), Peak(calls), c.now);
    }
  }

  /** A newcomer is refused exactly when the table is full and its oldest slot has a live hit. */
  lemma NewcomerRefused(l: Limits, calls: seq<Call>, c: Call)
    requires l.perMin > 0 && l.maxUsers > 0 && Nondecreasing(calls) && ReadBefore(calls, c.now)
    requires c.user !in Run(l, calls).table.hits
    ensures var o := Run(l, calls);
            !Decision(l, calls, c) <==>
              |o.table.order| == l.maxUsers && Live(AllowedOf(o, o.table.order[0]), c.now) != {}
  {
    if calls != [] {
      var o := Run(l, calls);
      RunFaithful(l, calls);
      RunOrderly(l, calls);
      PeakBounds(calls, c.now);
      CallFaithful(o, l, Peak(calls), c);
      if |o.table.order| == l.maxUsers {
        var oldest := o.table.order[0];
        assert Remembers(KeptOf(o.table, oldest), AllowedOf(o, oldest), Peak(calls));
        KeptAreLive(KeptOf(o.table, oldest), AllowedOf(o, oldest), Peak(calls), c.now);
        var smaller := Table(o.table.order[1..], o.table.hits - {oldest});
        if Prune(o.table.hits[oldest], c.now) == [] {
          assert |smaller.order| < l.maxUsers;
          assert Reclaim(o.table, l, c.now) == Reclaim(smaller, l, c.now);
        }
      }
    }
  }

  ghost function InWindow(history: seq<real>, from: real): set<int> {
    set i | 0 <= i < |history| && from <= history[i] <= from + 60.0
  }

  /** With readings in order no closed window of 60 seconds holds more than `perMin` allowed hits
      of one user. */
  lemma WindowNeverCrowded(l: Limits, calls: seq<Call>, user: string, from: real)
    requires l.perMin > 0 && l.maxUsers > 0 && Nondecreasing(calls)
    ensures |InWindow(AllowedOf(Run(l, calls), user), from)| <= l.perMin
  {
    if calls != [] {
      RunOrderly(l, calls);
      SpacedWindow(AllowedOf(Run(l, calls), user), l.perMin, from);
    }
  }

  lemma SpacedWindow(history: seq<real>, n: nat, from: real)
    requires Sorted(history) && Spaced(history, n)
    ensures |InWindow(history, from)| <= n
  {
    var inside := InWindow(history, from);
    var first := 0;
    while first < |history| && first !in inside
      invariant first <= |history| && forall i | i in inside :: first <= i
    {
      first := first + 1;
    }
    if first < |history| {
      forall i | first + n <= i < |history| ensures history[i] > from + WINDOW {
        assert Expired(history[first], history[first + n]);
      }
    }
    SubsetCounts(inside, Range(first, first + n));
  }

  function Distance(a: int, b: int): nat {
    if a < b then b - a else a - b
  }

  /** Settings are taken as the nearest of 0 to 10,000 hits a minute and 1 to 100,000 users. */
  lemma ClampsToNearest(perMin: int, maxUsers: int, n: int)
    ensures var l := ClampLimits(perMin, maxUsers);
            && 0 <= l.perMin <= 10_000 && 1 <= l.maxUsers <= 100_000
            && (0 <= n <= 10_000 ==> Distance(perMin, l.perMin) <= Distance(perMin, n))
            && (1 <= n <= 100_000 ==> Distance(maxUsers, l.maxUsers) <= Distance(maxUsers, n))
  {
  }

  /** A limit of zero hits means no limit: every call is allowed, and nobody is tracked. */
  lemma {:induction false} ZeroIsUnlimited(l: Limits, calls: seq<Call>, c: Call)
    requires l.perMin == 0
    ensures Decision(l, calls, c) && Run(l, calls).table == Table([], map[])
  {
    if calls != [] { ZeroIsUnlimited(l, calls[..|calls| - 1], calls[|calls| - 1]); }
  }

  /** The list without its first entries. */
  ghost predicate EndOf(rest: seq<string>, order: seq<string>) {
    |rest| <= |order| && rest == order[|order| - |rest|..]
  }

  lemma {:induction false} ReclaimDropsOldest(t: Table, l: Limits, now: real)
    ensures EndOf(Reclaim(t, l, now).0.order, t.order)
    decreases |t.order|
  {
    if |t.order| >= l.maxUsers && t.order != [] {
      var oldest := t.order[0];
      if Prune(if oldest in t.hits then t.hits[oldest] else [], now) == [] {
        ReclaimDropsOldest(Table(t.order[1..], t.hits - {oldest}), l, now);
      }
    }
  }

  /** Slots are kept from the least to the most recently used: a tracked user's call moves the user to the end, a
      newcomer joins there, and slots are only ever taken from the front. */
  lemma CalledLast(t: Table, l: Limits, user: string, now: real)
    requires l.perMin > 0
    ensures var (after, ok) := Allow(t, l, user, now);
            if user in t.hits then after.order == Without(t.order, user) + [user]
            else if ok then after.order != [] && after.order[|after.order| - 1] == user && EndOf(after.order[..|after.order| - 1], t.order)
            else EndOf(after.order, t.order)
  {
    hide Reclaim, Prune;
    ReclaimDropsOldest(t, l, now);
    if user !in t.hits {
      var room := Reclaim(t, l, now).0;
      assert (room.order + [user])[..|room.order|] == room.order;
      PruneNone(now);
    }
  }

  lemma PruneNone(now: real)
    ensures Prune([], now) == []
  {
  }
}
