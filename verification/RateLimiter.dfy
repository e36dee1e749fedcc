/** The fixed-window rate limiter with its lazy GC, against the same limiter without GC. */
module RateLimiter {
  import opened Runs

  type UserId = string
  type Action = string

  datatype Entry = Entry(count: nat, resetAt: int)
  type Limits = map<UserId, map<Action, Entry>>

  const GC_EVERY: nat := 64

  function Find(limits: Limits, user: UserId, action: Action): Option<Entry>
  {
    if user in limits && action in limits[user] then Some(limits[user][action]) else None
  }

  /** The GC drops expired entries, then users without entries. */
  function Unexpired(m: map<Action, Entry>, now: int): map<Action, Entry>
  {
    map a | a in m && now <= m[a].resetAt :: m[a]
  }

  function Collected(limits: Limits, now: int): Limits
  {
    map u | u in limits && Unexpired(limits[u], now) != map[] :: Unexpired(limits[u], now)
  }

  /** The entry a request is judged against: a missing or expired one starts a new window. */
  function Window(e: Option<Entry>, window: int, now: int): Entry
  {
    if e.None? || now > e.value.resetAt then Entry(0, now + window) else e.value
  }

  function Store(limits: Limits, user: UserId, action: Action, e: Entry): Limits
  {
    limits[user := (if user in limits then limits[user] else map[])[action := e]]
  }

  datatype Request = Request(user: UserId, action: Action, max: nat, window: int, now: int)

  /** One request without GC: the new limits and the decision. */
  function Decided(limits: Limits, r: Request): (Limits, bool)
  {
    var w := Window(Find(limits, r.user, r.action), r.window, r.now);
    if w.count >= r.max then (Store(limits, r.user, r.action, w), false)
    else (Store(limits, r.user, r.action, w.(count := w.count + 1)), true)
  }

  /** The decision on one request, case by case: without an entry, or after its window, a new window opens;
      within it the request is counted until the maximum is reached. */
  predicate InWords(before: Limits, after: Limits, r: Request, admitted: bool)
  {
    && r.user in after && r.action in after[r.user]
    && var e := after[r.user][r.action];
       if r.user !in before || r.action !in before[r.user] || before[r.user][r.action].resetAt < r.now then
         e.resetAt == r.now + r.window && e.count == (if r.max > 0 then 1 else 0) && (admitted <==> r.max > 0)
       else
         var was := before[r.user][r.action];
         && e.resetAt == was.resetAt && (admitted <==> was.count < r.max)
         && e.count == (if was.count < r.max then was.count + 1 else was.count)
  }

  /** Exactly the expired entries are gone, and nobody is left without entries. */
  ghost predicate OnlyExpiredGone(before: Limits, after: Limits, now: int)
  {
    && (forall u, a :: Find(after, u, a) == Surviving(before, now, u, a)) && forall u :: u in after ==>
         after[u] != map[]
  }

  function Surviving(limits: Limits, now: int, u: UserId, a: Action): Option<Entry>
  {
    if u in limits && a in limits[u] && now <= limits[u][a].resetAt then Some(limits[u][a]) else None
  }

  /** The entries of others, and of other actions, are as before, or gone if they had expired and it was
      the GC's turn. */
  ghost predicate OthersKept(before: Limits, after: Limits, r: Request, gc: bool)
  {
    forall u, a :: u != r.user || a != r.action ==>
      Find(after, u, a) == if gc then Surviving(before, r.now, u, a) else Find(before, u, a)
  }

  lemma CollectedInWords(limits: Limits, now: int)
    ensures OnlyExpiredGone(limits, Collected(limits, now), now)
  {
    forall u, a ensures Find(Collected(limits, now), u, a) == Surviving(limits, now, u, a) {
      if u in limits && a in limits[u] && now <= limits[u][a].resetAt { assert a in Unexpired(limits[u], now); }
    }
  }

  lemma CheckedInWords(limits: Limits, r: Request, gc: bool)
    ensures var (after, ok) := Decided(if gc then Collected(limits, r.now) else limits, r);
            InWords(limits, after, r, ok) && OthersKept(limits, after, r, gc)
  {
    if gc { CollectedInWords(limits, r.now); }
    var g := if gc then Collected(limits, r.now) else limits;
    assert Find(g, r.user, r.action) == if gc then Surviving(limits, r.now, r.user, r.action)
           else Find(limits, r.user, r.action);
    var (after, ok) := Decided(g, r);
    forall u, a | u != r.user || a != r.action ensures Find(after, u, a) == Find(g, u, a) {}
  }

  class Limiter {
    var limits: Limits
    var calls: nat

    constructor ()
      ensures limits == map[] && calls == 0
    {
      limits, calls := map[], 0;
    }

    method Gc(now: int)
      modifies this`limits
      ensures limits == Collected(old(limits), now)
      ensures OnlyExpiredGone(old(limits), limits, now)
    {
      var users := limits.Keys;
      var kept: Limits := map[];
      while users != {}
        invariant users <= limits.Keys && limits == old(limits)
        invariant kept.Keys <= limits.Keys - users
        invariant forall u :: u in limits && u !in users ==>
                    if Unexpired(limits[u], now) == map[] then u !in kept
                    else u in kept && kept[u] == Unexpired(limits[u], now)
        decreases |users|
      {
        var u :| u in users;
        users := users - {u};
        var actions := map a | a in limits[u] && now <= limits[u][a].resetAt :: limits[u][a];
        assert actions == Unexpired(limits[u], now);
        if actions != map[] { kept := kept[u := actions]; }
      }
      assert kept == Collected(limits, now);
      CollectedInWords(limits, now);
      limits := kept;
    }

    method CheckRateLimit(r: Request) returns (admitted: bool)
      modifies this
      ensures calls == old(calls) + 1
      ensures (limits, admitted) ==
              Decided(if old(calls) % GC_EVERY == 0 then Collected(old(limits), r.now) else old(limits), r)
      ensures InWords(old(limits), limits, r, admitted) && OthersKept(old(limits), limits, r, old(calls) % 64 == 0)
    {
      CheckedInWords(limits, r, calls % GC_EVERY == 0);
      var gc := calls % GC_EVERY == 0;
      calls := calls + 1;
      if gc { Gc(r.now); }
      var userLimits := if r.user in limits then limits[r.user] else map[];
      var entry := if r.action in userLimits then userLimits[r.action] else Entry(0, r.now + r.window);
      if r.now > entry.resetAt {
        entry := Entry(0, r.now + r.window);
      }
      admitted := entry.count < r.max;
      if admitted { entry := entry.(count := entry.count + 1); }
      limits := limits[r.user := userLimits[r.action := entry]];
    }
  }

  // ---- a run of requests and state clears ----

  datatype Call = Check(r: Request) | Clear(user: UserId)

  function Outcome(limits: Limits, c: Call): (Limits, bool)
  {
    match c
    case Clear(user) => (limits - {user}, false)
    case Check(r) => Decided(limits, r)
  }

  /** What each call admits, with the GC running on every 64th request; a clear admits nothing. */
  function WithGc(limits: Limits, calls: nat, es: seq<Call>): (r: seq<bool>)
    ensures |r| == |es|
    decreases es
  {
    if es == [] then []
    else
      var seen := if es[0].Check? && calls % GC_EVERY == 0 then Collected(limits, es[0].r.now) else limits;
      var (after, ok) := Outcome(seen, es[0]);
      [ok] + WithGc(after, if es[0].Check? then calls + 1 else calls, es[1..])
  }

  /** The same for the limiter that never collects. */
  function WithoutGc(limits: Limits, es: seq<Call>): (r: seq<bool>)
    ensures |r| == |es|
    decreases es
  {
    if es == [] then [] else var (after, ok) := Outcome(limits, es[0]); [ok] + WithoutGc(after, es[1..])
  }

  /** The clock never goes back, and has reached `start`. */
  predicate ClockFrom(start: int, es: seq<Call>)
    decreases es
  {
    es == [] || (start <= Time(start, es[0]) && ClockFrom(Time(start, es[0]), es[1..]))
  }

  function Time(last: int, c: Call): int { if c.Check? then c.r.now else last }

  /** Collected limits stand for full ones when they differ only in entries that have expired. */
  predicate StandsFor(g: Limits, full: Limits, now: int, user: UserId, action: Action)
  {
    || Find(g, user, action) == Find(full, user, action)
    || (Find(g, user, action) == None && Find(full, user, action).Some? && Find(full, user, action).value.resetAt < now)
  }

  ghost predicate Refines(g: Limits, full: Limits, now: int) { forall u, a :: StandsFor(g, full, now, u, a) }

  lemma CollectedStandsFor(g: Limits, full: Limits, now: int)
    requires Refines(g, full, now)
    ensures Refines(Collected(g, now), full, now)
  {
    forall u, a ensures StandsFor(Collected(g, now), full, now, u, a) {
      assert StandsFor(g, full, now, u, a);
      if u in g && a in g[u] && now <= g[u][a].resetAt {
        assert a in Unexpired(g[u], now);
      }
    }
  }

  lemma DecidedAlike(g: Limits, full: Limits, r: Request)
    requires Refines(g, full, r.now)
    ensures Decided(g, r).1 == Decided(full, r).1
    ensures Refines(Decided(g, r).0, Decided(full, r).0, r.now)
  {
    assert StandsFor(g, full, r.now, r.user, r.action);
    forall u, a ensures StandsFor(Decided(g, r).0, Decided(full, r).0, r.now, u, a) {
      assert StandsFor(g, full, r.now, u, a);
    }
  }

  lemma OutcomeAlike(g: Limits, full: Limits, last: int, c: Call)
    requires Refines(g, full, last) && last <= Time(last, c)
    ensures Outcome(g, c).1 == Outcome(full, c).1
    ensures Refines(Outcome(g, c).0, Outcome(full, c).0, Time(last, c))
  {
    match c
    case Clear(user) =>
      forall u, a ensures StandsFor(g - {user}, full - {user}, last, u, a) { assert StandsFor(g, full, last, u, a); }
    case Check(r) =>
      forall u, a ensures StandsFor(g, full, r.now, u, a) { assert StandsFor(g, full, last, u, a); }
      DecidedAlike(g, full, r);
  }

  /** With a clock that does not go back, collecting never changes a decision. */
  lemma {:induction false} GcIsInvisible(g: Limits, full: Limits, calls: nat, last: int, es: seq<Call>)
    requires Refines(g, full, last) && ClockFrom(last, es)
    ensures WithGc(g, calls, es) == WithoutGc(full, es)
    decreases es
  {
    if es != [] {
      var now := Time(last, es[0]);
      forall u, a ensures StandsFor(g, full, now, u, a) { assert StandsFor(g, full, last, u, a); }
      CollectedStandsFor(g, full, now);
      var seen := if es[0].Check? && calls % GC_EVERY == 0 then Collected(g, now) else g;
      OutcomeAlike(seen, full, now, es[0]);
      var n := if es[0].Check? then calls + 1 else calls;
      GcIsInvisible(Outcome(seen, es[0]).0, Outcome(full, es[0]).0, n, now, es[1..]);
    }
  }

  // ---- how many admissions fit into a window ----

  /** Times at which (user, action) was admitted. */
  function AdmittedAt(es: seq<Call>, oks: seq<bool>, user: UserId, action: Action): seq<int>
    requires |oks| == |es|
    decreases es
  {
    if es == [] then [] else Admitted(es[0], oks[0], user, action) + AdmittedAt(es[1..], oks[1..], user, action)
  }

  function Admitted(c: Call, ok: bool, user: UserId, action: Action): seq<int>
  {
    if ok && c.Check? && c.r.user == user && c.r.action == action then [c.r.now] else []
  }

  /** Every request for (user, action) uses the same limits, and the user's state is not cleared. */
  predicate Steady(es: seq<Call>, user: UserId, action: Action, max: nat, window: int)
  {
    forall i :: 0 <= i < |es| ==> SteadyCall(es[i], user, action, max, window)
  }

  predicate SteadyCall(c: Call, user: UserId, action: Action, max: nat, window: int)
  {
    match c
    case Clear(u) => u != user
    case Check(r) => r.user == user && r.action == action ==> r.max == max && r.window == window
  }

  /** Ascending, always fewer than 2 * max within one window, and never more than max at one instant. */
  ghost predicate Sparse(times: seq<int>, max: nat, window: int)
  {
    && (forall i, j :: 0 <= i <= j < |times| ==> times[i] <= times[j])
    && (forall i, j :: 0 <= i <= j < |times| && i + max <= j ==> times[i] < times[j])
    && (forall i, j :: 0 <= i <= j < |times| && i + 2 * max <= j + 1 ==> times[j] - times[i] > window)
  }

  /** What is known of the admissions so far when the current window began at resetAt - window:
      the last `count` fell inside it, the first of them opening it; all others came before it, and
      the first ones, up to the opening of a full previous window, more than a window before it. */
  ghost predicate Spaced(times: seq<int>, e: Option<Entry>, max: nat, window: int, now: int)
  {
    && Sparse(times, max, window)
    && (forall i :: 0 <= i < |times| ==> times[i] <= now)
    && (e.None? ==> times == [])
    && (e.Some? ==> CurrentWindow(times, e.value, max, window, now) && (e.value.count == 0 ==> max == 0))
  }

  ghost predicate CurrentWindow(times: seq<int>, e: Entry, max: nat, window: int, now: int)
  {
    && e.count <= max && e.count <= |times| && e.resetAt - window <= now
    && (e.count > 0 ==> times[|times| - e.count] == e.resetAt - window)
    && (forall i :: 0 <= i < |times| ==> times[i] <= e.resetAt)
    && (forall i :: 0 <= i < |times| - e.count ==> times[i] < e.resetAt - window)
    && (forall i :: 0 <= i < |times| - e.count && i <= |times| - e.count - max ==>
         times[i] + window < e.resetAt - window)
  }

  lemma WindowIsCurrent(times: seq<int>, e: Option<Entry>, max: nat, window: nat, last: int, now: int)
    requires Spaced(times, e, max, window, last) && last <= now
    ensures var w := Window(e, window, now);
            && CurrentWindow(times, w, max, window, now) && now <= w.resetAt
            && (w.count == 0 && max > 0 ==> now == w.resetAt - window)
  {
  }

  lemma AdmittedIsSparse(times: seq<int>, w: Entry, max: nat, window: nat, now: int)
    requires Sparse(times, max, window) && CurrentWindow(times, w, max, window, now)
    requires w.count < max && forall i :: 0 <= i < |times| ==> times[i] <= now
    ensures Sparse(times + [now], max, window)
  {
    var more := times + [now];
    forall i, j | 0 <= i <= j < |more| && i + 2 * max <= j + 1 ensures more[j] - more[i] > window {
      if j == |times| { assert i <= |times| - w.count - max; }
    }
  }

  lemma AdmittedIsCurrent(times: seq<int>, w: Entry, max: nat, window: nat, now: int)
    requires CurrentWindow(times, w, max, window, now) && now <= w.resetAt
    requires w.count < max && (w.count == 0 ==> now == w.resetAt - window)
    ensures CurrentWindow(times + [now], w.(count := w.count + 1), max, window, now)
  {
  }

  lemma RequestKeepsSpacing(times: seq<int>, e: Option<Entry>, max: nat, window: nat, last: int, now: int)
    requires Spaced(times, e, max, window, last) && last <= now
    ensures var w := Window(e, window, now);
            && (w.count >= max ==> Spaced(times, Some(w), max, window, now))
            && (w.count < max ==> Spaced(times + [now], Some(w.(count := w.count + 1)), max, window, now))
  {
    var w := Window(e, window, now);
    WindowIsCurrent(times, e, max, window, last, now);
    if w.count < max {
      AdmittedIsSparse(times, w, max, window, now);
      AdmittedIsCurrent(times, w, max, window, now);
    }
  }

  /** One request touches one entry. */
  lemma OutcomeOnEntry(limits: Limits, c: Call, user: UserId, action: Action)
    requires c.Clear? ==> c.user != user
    ensures var (after, ok) := Outcome(limits, c);
            if c.Check? && c.r.user == user && c.r.action == action then
              var w := Window(Find(limits, user, action), c.r.window, c.r.now);
              ok == (w.count < c.r.max) && Find(after, user, action) == Some(if ok then w.(count := w.count + 1) else w)
            else Find(after, user, action) == Find(limits, user, action)
  {
  }

  lemma SpacedLater(times: seq<int>, e: Option<Entry>, max: nat, window: nat, last: int, now: int)
    requires Spaced(times, e, max, window, last) && last <= now
    ensures Spaced(times, e, max, window, now)
  {
  }

  lemma CallKeepsSpacing(limits: Limits, c: Call, user: UserId, action: Action, max: nat, window: nat, times: seq<int>,
                         last: int)
    requires Spaced(times, Find(limits, user, action), max, window, last)
    requires last <= Time(last, c) && SteadyCall(c, user, action, max, window)
    ensures var (after, ok) := Outcome(limits, c);
            Spaced(times + Admitted(c, ok, user, action), Find(after, user, action), max, window, Time(last, c))
  {
    OutcomeOnEntry(limits, c, user, action);
    var (after, ok) := Outcome(limits, c);
    if c.Check? && c.r.user == user && c.r.action == action {
      RequestKeepsSpacing(times, Find(limits, user, action), max, window, last, c.r.now);
      assert !ok ==> times + Admitted(c, ok, user, action) == times;
    } else {
      SpacedLater(times, Find(limits, user, action), max, window, last, Time(last, c));
      assert times + Admitted(c, ok, user, action) == times;
    }
  }

  lemma AdmissionsUnfold(limits: Limits, es: seq<Call>, user: UserId, action: Action)
    requires es != []
    ensures var (after, ok) := Outcome(limits, es[0]);
            AdmittedAt(es, WithoutGc(limits, es), user, action)
            == Admitted(es[0], ok, user, action) + AdmittedAt(es[1..], WithoutGc(after, es[1..]), user, action)
  {
    var (after, ok) := Outcome(limits, es[0]);
    assert WithoutGc(limits, es)[1..] == WithoutGc(after, es[1..]);
  }

  lemma {:induction false} AdmissionsStaySparse(limits: Limits, es: seq<Call>, user: UserId, action: Action,
                                                max: nat, window: nat, times: seq<int>, last: int)
    requires Spaced(times, Find(limits, user, action), max, window, last)
    requires ClockFrom(last, es) && Steady(es, user, action, max, window)
    ensures Sparse(times + AdmittedAt(es, WithoutGc(limits, es), user, action), max, window)
    decreases es
  {
    if es == [] {
      Regroup(times, [], []);
    } else {
      var c, now := es[0], Time(last, es[0]);
      var (after, ok) := Outcome(limits, c);
      var here := Admitted(c, ok, user, action);
      assert SteadyCall(c, user, action, max, window) && Steady(es[1..], user, action, max, window);
      CallKeepsSpacing(limits, c, user, action, max, window, times, last);
      AdmissionsStaySparse(after, es[1..], user, action, max, window, times + here, now);
      AdmissionsUnfold(limits, es, user, action);
      Regroup(times, here, AdmittedAt(es[1..], WithoutGc(after, es[1..]), user, action));
    }
  }

  /** Any state will do in which nothing is on record for the user and action, whatever is for others
      and wherever the GC counter stands: the beginning, or the moment after a clear of the user. */
  lemma GcAdmissionsAreSparse(limits: Limits, calls: nat, es: seq<Call>, start: int, user: UserId, action: Action,
                              max: nat, window: nat)
    requires Find(limits, user, action) == None
    requires ClockFrom(start, es) && Steady(es, user, action, max, window)
    ensures Sparse(AdmittedAt(es, WithGc(limits, calls, es), user, action), max, window)
  {
    assert Refines(limits, limits, start);
    GcIsInvisible(limits, limits, calls, start, es);
    AdmissionsStaySparse(limits, es, user, action, max, window, [], start);
    var times := AdmittedAt(es, WithoutGc(limits, es), user, action);
    assert [] + times == times;
  }

  /** Between clears, a closed interval no longer than the window holds fewer than 2 * max
      admissions: times are ascending, and a stretch lo..hi that fits is shorter than 2 * max. */
  lemma FewerThanTwiceMaxPerWindow(limits: Limits, calls: nat, es: seq<Call>, start: int, user: UserId, action: Action,
                                   max: nat, window: nat, lo: nat, hi: nat)
    requires Find(limits, user, action) == None
    requires ClockFrom(start, es) && Steady(es, user, action, max, window)
    requires var times := AdmittedAt(es, WithGc(limits, calls, es), user, action);
             lo <= hi < |times| && times[hi] - times[lo] <= window
    ensures hi - lo + 1 < 2 * max
    ensures var times := AdmittedAt(es, WithGc(limits, calls, es), user, action);
            forall i :: lo <= i <= hi ==> times[lo] <= times[i] <= times[hi]
  {
    GcAdmissionsAreSparse(limits, calls, es, start, user, action, max, window);
  }

  // ---- a stretch between clears, inside a longer run ----

  /** The limits and the GC counter after a run. */
  function AfterGc(limits: Limits, calls: nat, es: seq<Call>): (Limits, nat)
    decreases es
  {
    if es == [] then (limits, calls)
    else
      var seen := if es[0].Check? && calls % GC_EVERY == 0 then Collected(limits, es[0].r.now) else limits;
      AfterGc(Outcome(seen, es[0]).0, if es[0].Check? then calls + 1 else calls, es[1..])
  }

  lemma {:induction false} WithGcSplits(limits: Limits, calls: nat, es: seq<Call>, fs: seq<Call>)
    ensures var (after, n) := AfterGc(limits, calls, es);
            WithGc(limits, calls, es + fs) == WithGc(limits, calls, es) + WithGc(after, n, fs)
    decreases es
  {
    if es == [] {
      assert es + fs == fs;
      var rest := WithGc(limits, calls, fs);
      assert [] + rest == rest;
    } else {
      assert (es + fs)[0] == es[0] && (es + fs)[1..] == es[1..] + fs;
      var seen := if es[0].Check? && calls % GC_EVERY == 0 then Collected(limits, es[0].r.now) else limits;
      var (after, ok) := Outcome(seen, es[0]);
      var n := if es[0].Check? then calls + 1 else calls;
      WithGcSplits(after, n, es[1..], fs);
      var (end, m) := AfterGc(limits, calls, es);
      Regroup([ok], WithGc(after, n, es[1..]), WithGc(end, m, fs));
    }
  }

  lemma {:induction false} AfterGcSplits(limits: Limits, calls: nat, es: seq<Call>, c: Call)
    ensures var (after, n) := AfterGc(limits, calls, es); AfterGc(limits, calls, es + [c]) == AfterGc(after, n, [c])
    decreases es
  {
    if es == [] {
      assert es + [c] == [c];
    } else {
      assert (es + [c])[0] == es[0] && (es + [c])[1..] == es[1..] + [c];
      var seen := if es[0].Check? && calls % GC_EVERY == 0 then Collected(limits, es[0].r.now) else limits;
      AfterGcSplits(Outcome(seen, es[0]).0, if es[0].Check? then calls + 1 else calls, es[1..], c);
    }
  }

  /** A clear takes everything of the user and nothing of anybody else. */
  lemma ClearIsPersonal(limits: Limits, user: UserId, u: UserId, a: Action)
    ensures Find(Outcome(limits, Clear(user)).0, u, a) == if u == user then None else Find(limits, u, a)
  {
  }

  lemma ClearForgets(limits: Limits, calls: nat, before: seq<Call>, user: UserId, action: Action)
    ensures Find(AfterGc(limits, calls, before + [Clear(user)]).0, user, action) == None
  {
    AfterGcSplits(limits, calls, before, Clear(user));
    var (after, n) := AfterGc(limits, calls, before);
    assert [Clear(user)][1..] == [];
    assert AfterGc(after - {user}, n, []) == (after - {user}, n);
  }

  /** In a run from the very beginning: whatever went before, the decisions on a stretch that follows
      a clear of the user (or starts the run) keep to the bound. */
  lemma EveryStretchKeepsTheBound(before: seq<Call>, es: seq<Call>, start: int, user: UserId, action: Action,
                                  max: nat, window: nat)
    requires before == [] || before[|before| - 1] == Clear(user)
    requires ClockFrom(start, es) && Steady(es, user, action, max, window)
    ensures Sparse(AdmittedAt(es, WithGc(map[], 0, before + es)[|before|..], user, action), max, window)
  {
    var (limits, calls) := AfterGc(map[], 0, before);
    if before != [] {
      assert before[..|before| - 1] + [Clear(user)] == before;
      ClearForgets(map[], 0, before[..|before| - 1], user, action);
    }
    StretchDecisions(before, es);
    GcAdmissionsAreSparse(limits, calls, es, start, user, action, max, window);
  }

  lemma StretchDecisions(before: seq<Call>, es: seq<Call>)
    ensures var (limits, calls) := AfterGc(map[], 0, before);
            WithGc(map[], 0, before + es)[|before|..] == WithGc(limits, calls, es)
  {
    WithGcSplits(map[], 0, before, es);
    var (limits, calls) := AfterGc(map[], 0, before);
    Tail(WithGc(map[], 0, before), WithGc(limits, calls, es));
  }

  // ---- exactly how many admissions a window can hold ----

  /** A stretch between clears, from whatever state, in which n admissions of one user and action fall
      into a closed interval of one window. */
  ghost predicate Holds(limits: Limits, calls: nat, es: seq<Call>, start: int, user: UserId, action: Action,
                        max: nat, window: nat, n: nat)
  {
    && Find(limits, user, action) == None && ClockFrom(start, es) && Steady(es, user, action, max, window)
    && exists lo: nat, hi: nat ::
         var times := AdmittedAt(es, WithGc(limits, calls, es), user, action);
         lo <= hi < |times| && times[hi] - times[lo] <= window && hi - lo + 1 == n
  }

  /** What the limiter allows in one window. */
  predicate Allowed(n: nat, max: nat, window: nat) { n <= max || (window >= 1 && n < 2 * max) }

  lemma NoMoreThanAllowed(limits: Limits, calls: nat, es: seq<Call>, start: int, user: UserId, action: Action,
                          max: nat, window: nat, n: nat)
    requires Holds(limits, calls, es, start, user, action, max, window, n)
    ensures Allowed(n, max, window)
  {
    GcAdmissionsAreSparse(limits, calls, es, start, user, action, max, window);
  }

  // The runs that use the allowance up: bursts of one user and action.

  function Ask(user: UserId, action: Action, max: nat, window: nat, now: int): Call
  {
    Check(Request(user, action, max, window, now))
  }
  function Burst(n: nat, c: Call): seq<Call> { seq(n, _ => c) }
  function Trues(n: nat): seq<bool> { seq(n, _ => true) }

  lemma FirstOfBurst(n: nat, c: Call, rest: seq<Call>)
    requires n > 0
    ensures (Burst(n, c) + rest)[0] == c && (Burst(n, c) + rest)[1..] == Burst(n - 1, c) + rest
    ensures Trues(n) == [true] + Trues(n - 1)
  {
  }

  lemma AskOutcome(limits: Limits, user: UserId, action: Action, max: nat, window: nat, now: int)
    ensures var w := Window(Find(limits, user, action), window, now);
            var (after, ok) := Outcome(limits, Ask(user, action, max, window, now));
            ok == (w.count < max) && Find(after, user, action) == Some(if ok then w.(count := w.count + 1) else w)
  {
  }

  /** A burst that fits what is left of the current window is admitted in full. */
  lemma {:induction false} BurstIsAdmitted(limits: Limits, user: UserId, action: Action, max: nat, window: nat,
                                           now: int, n: nat, rest: seq<Call>)
      returns (after: Limits)
    requires var w := Window(Find(limits, user, action), window, now); w.count + n <= max && now <= w.resetAt
    ensures WithoutGc(limits, Burst(n, Ask(user, action, max, window, now)) + rest) == Trues(n) + WithoutGc(after, rest)
    ensures var w := Window(Find(limits, user, action), window, now);
            if n == 0 then after == limits else Find(after, user, action) == Some(w.(count := w.count + n))
    decreases n
  {
    var c := Ask(user, action, max, window, now);
    if n == 0 {
      after := limits;
      assert Burst(0, c) + rest == rest && Trues(0) + WithoutGc(limits, rest) == WithoutGc(limits, rest);
    } else {
      var next := Outcome(limits, c).0;
      AskOutcome(limits, user, action, max, window, now);
      FirstOfBurst(n, c, rest);
      after := BurstIsAdmitted(next, user, action, max, window, now, n - 1, rest);
      Regroup([true], Trues(n - 1), WithoutGc(after, rest));
    }
  }

  /** One request at `start`, all but one of the allowance at the last moment of that window, and a full
      allowance just after it. */
  function Bursts(start: int, user: UserId, action: Action, max: nat, window: nat): seq<Call>
    requires max > 0
  {
    Burst(1, Ask(user, action, max, window, start)) +
    (Burst(max - 1, Ask(user, action, max, window, start + window)) +
     (Burst(max, Ask(user, action, max, window, start + window + 1)) + []))
  }

  lemma ThreeBurstsOfTrues(max: nat, third: seq<bool>)
    requires max > 0 && third == Trues(max) + []
    ensures Trues(1) + (Trues(max - 1) + third) == Trues(2 * max)
  {
  }

  lemma BurstsAreAdmitted(limits: Limits, start: int, user: UserId, action: Action, max: nat, window: nat)
    requires max > 0 && Find(limits, user, action) == None
    ensures WithoutGc(limits, Bursts(start, user, action, max, window)) == Trues(2 * max)
  {
    var third := Burst(max, Ask(user, action, max, window, start + window + 1)) + [];
    var second := Burst(max - 1, Ask(user, action, max, window, start + window)) + third;
    var a := BurstIsAdmitted(limits, user, action, max, window, start, 1, second);
    assert Find(a, user, action) == Some(Entry(1, start + window));
    LaterBursts(a, start, user, action, max, window);
    ThreeBurstsOfTrues(max, Trues(max) + []);
  }

  lemma LaterBursts(a: Limits, start: int, user: UserId, action: Action, max: nat, window: nat)
    requires max > 0 && Find(a, user, action) == Some(Entry(1, start + window))
    ensures var third := Burst(max, Ask(user, action, max, window, start + window + 1)) + [];
            WithoutGc(a, Burst(max - 1, Ask(user, action, max, window, start + window)) + third)
            == Trues(max - 1) + (Trues(max) + [])
  {
    var third := Burst(max, Ask(user, action, max, window, start + window + 1)) + [];
    var b := BurstIsAdmitted(a, user, action, max, window, start + window, max - 1, third);
    assert Find(b, user, action) == Some(Entry(max, start + window));
    var c := BurstIsAdmitted(b, user, action, max, window, start + window + 1, max, []);
    assert WithoutGc(c, []) == [];
  }

  lemma {:induction false} AllAdmittedAt(es: seq<Call>, user: UserId, action: Action)
    requires forall i :: 0 <= i < |es| ==> es[i].Check? && es[i].r.user == user && es[i].r.action == action
    ensures var times := AdmittedAt(es, Trues(|es|), user, action);
            |times| == |es| && forall i :: 0 <= i < |es| ==> times[i] == es[i].r.now
    decreases es
  {
    if es != [] {
      assert Trues(|es|)[1..] == Trues(|es[1..]|);
      AllAdmittedAt(es[1..], user, action);
    }
  }

  /** Times never go back along the list. */
  lemma {:induction false} AscendingClock(es: seq<Call>, start: int)
    requires forall i :: 0 <= i < |es| ==> es[i].Check? && start <= es[i].r.now
    requires forall i, j :: 0 <= i < j < |es| ==> es[i].r.now <= es[j].r.now
    ensures ClockFrom(start, es)
    decreases es
  {
    if es != [] { AscendingClock(es[1..], es[0].r.now); }
  }

  function BurstTime(start: int, max: nat, window: nat, i: nat): int
  {
    if i == 0 then start else if i < max then start + window else start + window + 1
  }

  lemma BurstTimes(start: int, user: UserId, action: Action, max: nat, window: nat)
    requires max > 0
    ensures var es := Bursts(start, user, action, max, window);
            |es| == 2 * max &&
            forall i :: 0 <= i < |es| ==> es[i] == Ask(user, action, max, window, BurstTime(start, max, window, i))
  {
  }

  /** All 2 * max requests of the three bursts are admitted, GC or not. */
  lemma BurstsGoThrough(limits: Limits, calls: nat, start: int, user: UserId, action: Action, max: nat, window: nat)
    requires max > 0 && Find(limits, user, action) == None
    ensures var es := Bursts(start, user, action, max, window);
            var times := AdmittedAt(es, WithGc(limits, calls, es), user, action);
            && ClockFrom(start, es) && Steady(es, user, action, max, window) && |times| == 2 * max
            && forall i :: 0 <= i < |times| ==> times[i] == BurstTime(start, max, window, i)
  {
    var es := Bursts(start, user, action, max, window);
    BurstTimes(start, user, action, max, window);
    AscendingClock(es, start);
    assert Refines(limits, limits, start);
    GcIsInvisible(limits, limits, calls, start, es);
    BurstsAreAdmitted(limits, start, user, action, max, window);
    AllAdmittedAt(es, user, action);
  }

  /** For every limit and from every such state: 2 * max - 1 admissions from the last moment of one
      window to the first moment of the next. */
  lemma BoundIsReached(limits: Limits, calls: nat, start: int, user: UserId, action: Action, max: nat, window: nat,
                       n: nat)
    requires Find(limits, user, action) == None && 1 <= n < 2 * max && window >= 1
    ensures Holds(limits, calls, Bursts(start, user, action, max, window), start, user, action, max, window, n)
  {
    BurstsGoThrough(limits, calls, start, user, action, max, window);
    var lo: nat, hi: nat := 1, n;
    var es := Bursts(start, user, action, max, window);
    var times := AdmittedAt(es, WithGc(limits, calls, es), user, action);
    assert times[hi] - times[lo] <= window && hi - lo + 1 == n;
  }

  /** A window takes a full allowance, even one of length zero. */
  lemma FullAllowance(limits: Limits, calls: nat, start: int, user: UserId, action: Action, max: nat, window: nat,
                      n: nat)
    requires Find(limits, user, action) == None && 1 <= n <= max
    ensures Holds(limits, calls, Bursts(start, user, action, max, window), start, user, action, max, window, n)
  {
    BurstsGoThrough(limits, calls, start, user, action, max, window);
    var lo: nat, hi: nat := max, max + n - 1;
    var es := Bursts(start, user, action, max, window);
    var times := AdmittedAt(es, WithGc(limits, calls, es), user, action);
    assert times[hi] - times[lo] <= window && hi - lo + 1 == n;
  }

  /** Exactly how many admissions one closed window can hold, for all limits and from any state with
      nothing on record: up to max, and if the window has any length, up to 2 * max - 1. */
  lemma WindowHoldsExactly(limits: Limits, calls: nat, user: UserId, action: Action, max: nat, window: nat, n: nat)
    requires n >= 1 && Find(limits, user, action) == None
    ensures (exists es: seq<Call>, start: int :: Holds(limits, calls, es, start, user, action, max, window, n)) <==>
            Allowed(n, max, window)
  {
    forall es: seq<Call>, start: int | Holds(limits, calls, es, start, user, action, max, window, n)
      ensures Allowed(n, max, window)
    {
      NoMoreThanAllowed(limits, calls, es, start, user, action, max, window, n);
    }
    if n <= max {
      FullAllowance(limits, calls, 0, user, action, max, window, n);
    } else if Allowed(n, max, window) {
      BoundIsReached(limits, calls, 0, user, action, max, window, n);
    }
  }

  /** So on the stretches between clears, from any such state, the limiter keeps to its maximum in
      every closed window exactly when the maximum is at most one or the window is empty. */
  lemma MaximumIsEnforcedExactlyWhen(limits: Limits, calls: nat, user: UserId, action: Action, max: nat, window: nat)
    requires Find(limits, user, action) == None
    ensures (forall es: seq<Call>, start: int, n: nat ::
               Holds(limits, calls, es, start, user, action, max, window, n) ==> n <= max) <==>
            max <= 1 || window == 0
  {
    forall es: seq<Call>, start: int, n: nat | Holds(limits, calls, es, start, user, action, max, window, n)
      ensures Allowed(n, max, window)
    {
      NoMoreThanAllowed(limits, calls, es, start, user, action, max, window, n);
    }
    if max > 1 && window >= 1 { BoundIsReached(limits, calls, 0, user, action, max, window, max + 1); }
  }
}
