/** The `isOnline` flag of one user while socket tasks, connect tasks and disconnect tasks race.
    The flag is written by tasks that run long after the count they acted on was read, so it can
    be wrong at any moment; what holds is that a wrong flag always has a task that will mend it. */
module Presence {
  import opened Runs
  import opened Counting
  import Sockets = SocketAccounting

  /** The reads of the connection count that a disconnect task makes before its offline write:
      one guard in the teardown task and five in the handler, two reads each. */
  const READS_BEFORE_OFFLINE: nat := 12

  /** The stored flag of one user. */
  class OnlineFlag {
    var online: bool
  }

  /** Both ways of asking the counters, which others move in between. */
  predicate SeesSocket(counts: nat -> nat, guard: nat) { counts(2 * guard) > 0 || counts(2 * guard + 1) > 0 }

  /** The disconnect task from the end of its sleep: `counts(k)` is the k-th reading of the
      connection count, `available` whether an availability status was found. The flag is written
      only if all six guards saw no socket, and is put back if the next look does. */
  method OnUserDisconnected(flag: OnlineFlag, counts: nat -> nat, available: bool)
    modifies flag
    ensures (exists g :: 0 <= g < 6 && SeesSocket(counts, g)) || !available ==> flag.online == old(flag.online)
    ensures (forall g :: 0 <= g < 6 ==> !SeesSocket(counts, g)) && available ==> flag.online == SeesSocket(counts, 6)
  {
    if SeesSocket(counts, 0) { return; }
    if SeesSocket(counts, 1) { return; }
    if SeesSocket(counts, 2) { return; }   // call sessions taken, and restored here
    if SeesSocket(counts, 3) { return; }   // call sessions finalised
    if SeesSocket(counts, 4) { return; }   // voice channels cleared
    if !available { return; }
    if SeesSocket(counts, 5) { return; }
    flag.online := false;
    if SeesSocket(counts, 6) { flag.online := true; }
  }

  datatype Phase =
    | Arriving                 // handle_socket before register_connection
    | Registered(first: bool)  // counted; the connect task is spawned next when `first`
    | Connected                // select loop
    | Leaving                  // uncounted; about to ask whether it was the last
    | ConnectPending           // connect task that has not written yet
    | Waiting(left: nat)      // disconnect task, reads left before the offline write
    | Recheck(second: bool)    // offline written; reading the count again
    | Repair                   // saw a connection after the offline write
    | Gone

  datatype State = State(count: nat, online: bool, tasks: seq<Phase>)

  datatype Event =
    | Upgrade                  // a new socket task
    | Advance(t: nat)          // the next atomic action of task t
    | Abandon(t: nat)          // the exits that depend on something else than the count
    | SetOnline                // an explicit set-online frame

  function Step(s: State, e: Event): Option<State>
  {
    match e
    case Upgrade => Some(s.(tasks := s.tasks + [Arriving]))
    case SetOnline => Some(s.(online := true))
    case Advance(t) =>
      if t >= |s.tasks| || s.tasks[t].Gone? then None
      else
        var (count, online, phase, spawned) := Action(s.count, s.online, s.tasks[t]);
        Some(State(count, online, s.tasks[t := phase] + spawned))
    case Abandon(t) =>
      if t >= |s.tasks| then None
      else match s.tasks[t]
        case Arriving => Some(s.(tasks := s.tasks[t := Gone]))                          // IP cap
        case Connected =>                                                              // cipher set-up failed
          Some(State(if s.count == 0 then 0 else s.count - 1, s.online, s.tasks[t := Gone]))
        case Waiting(left) =>                                                          // no availability status
          if left == 2 then Some(s.(tasks := s.tasks[t := Gone])) else None
        case _ => None
  }

  /** New count, new flag, new phase, spawned tasks. */
  function Action(count: nat, online: bool, p: Phase): (nat, bool, Phase, seq<Phase>)
  {
    match p
    case Arriving =>
      if count >= Sockets.MAX_CONNECTIONS_PER_USER then (count, online, Gone, [])
      else (count + 1, online, Registered(count == 0), [])
    case Registered(first) => (count, online, Connected, if first then [ConnectPending] else [])
    case Connected => (if count == 0 then 0 else count - 1, online, Leaving, [])
    case Leaving => (count, online, Gone, if count == 0 then [Waiting(READS_BEFORE_OFFLINE)] else [])
    case ConnectPending => (count, true, Gone, [])
    case Waiting(left) =>
      if left == 0 then (count, false, Recheck(false), [])
      else if count > 0 then (count, online, Gone, [])
      else (count, online, Waiting(left - 1), [])
    case Recheck(second) =>
      if count > 0 then (count, online, Repair, [])
      else (count, online, if second then Gone else Recheck(true), [])
    case Repair => (count, true, Gone, [])
    case Gone => (count, online, Gone, [])
  }

  predicate HoldsConnection(p: Phase) { p.Registered? || p.Connected? }

  /** A task that will write `isOnline: true`, or look at the count again before it ends. */
  predicate OwesOnline(p: Phase) { p == Registered(true) || p.ConnectPending? || p.Recheck? || p.Repair? }

  predicate Settled(p: Phase) { p.Connected? || p.Gone? }

  ghost predicate SomeoneOwes(tasks: seq<Phase>) { exists t :: 0 <= t < |tasks| && OwesOnline(tasks[t]) }

  ghost predicate Inv(s: State)
  {
    && s.count == Count(s.tasks, HoldsConnection)
    && (s.count > 0 && !s.online ==> SomeoneOwes(s.tasks))
  }

  lemma {:induction false} CountConcat(xs: seq<Phase>, ys: seq<Phase>)
    ensures Count(xs + ys, HoldsConnection) == Count(xs, HoldsConnection) + Count(ys, HoldsConnection)
  {
    if xs == [] {
      assert xs + ys == ys;
    } else {
      assert (xs + ys)[1..] == xs[1..] + ys;
      CountConcat(xs[1..], ys);
    }
  }

  lemma ActionOnCount(count: nat, online: bool, p: Phase)
    requires HoldsConnection(p) ==> count > 0
    ensures var (count', _, p', spawned) := Action(count, online, p);
            && count' + Bit(HoldsConnection(p)) == count + Bit(HoldsConnection(p'))
            && Count(spawned, HoldsConnection) == 0
  {
  }

  lemma AdvanceKeepsCount(s: State, t: nat)
    requires s.count == Count(s.tasks, HoldsConnection) && Step(s, Advance(t)).Some?
    ensures var s' := Step(s, Advance(t)).value; s'.count == Count(s'.tasks, HoldsConnection)
  {
    var (_, _, phase, spawned) := Action(s.count, s.online, s.tasks[t]);
    CountPositive(s.tasks, HoldsConnection);
    ActionOnCount(s.count, s.online, s.tasks[t]);
    CountUpdate(s.tasks, t, phase, HoldsConnection);
    CountConcat(s.tasks[t := phase], spawned);
  }

  /** The debt is passed on, paid, or no longer owed. */
  lemma AdvanceKeepsDebt(s: State, t: nat)
    requires Inv(s) && Step(s, Advance(t)).Some?
    ensures var s' := Step(s, Advance(t)).value; s'.count > 0 && !s'.online ==> SomeoneOwes(s'.tasks)
  {
    var s' := Step(s, Advance(t)).value;
    var (count, online, phase, spawned) := Action(s.count, s.online, s.tasks[t]);
    assert s'.tasks[t] == phase;
    if s.tasks[t] == Registered(true) { assert OwesOnline(s'.tasks[|s.tasks|]); }
    if SomeoneOwes(s.tasks) {
      var u :| 0 <= u < |s.tasks| && OwesOnline(s.tasks[u]);
      if u != t { assert s'.tasks[u] == s.tasks[u]; }
    }
  }

  lemma StepKeepsInv(s: State, e: Event)
    requires Inv(s) && Step(s, e).Some?
    ensures Inv(Step(s, e).value)
  {
    var s' := Step(s, e).value;
    match e
    case Upgrade =>
      CountAppend(s.tasks, Arriving, HoldsConnection);
      if SomeoneOwes(s.tasks) {
        var u :| 0 <= u < |s.tasks| && OwesOnline(s.tasks[u]);
        assert OwesOnline(s'.tasks[u]);
      }
    case SetOnline =>
    case Advance(t) =>
      AdvanceKeepsCount(s, t);
      AdvanceKeepsDebt(s, t);
    case Abandon(t) =>
      CountUpdate(s.tasks, t, Gone, HoldsConnection);
      if SomeoneOwes(s.tasks) {
        var u :| 0 <= u < |s.tasks| && OwesOnline(s.tasks[u]);
        assert OwesOnline(s'.tasks[u]);
      }
  }

  lemma EveryRunKeepsInv(online: bool, es: seq<Event>)
    requires Run(Step, State(0, online, []), es).Some?
    ensures Inv(Run(Step, State(0, online, []), es).value)
  {
    forall s, e | Inv(s) && Step(s, e).Some? ensures Inv(Step(s, e).value) { StepKeepsInv(s, e); }
    RunKeeps(Step, Inv, State(0, online, []), es);
  }

  /** A user with a live socket who shows as offline is about to be mended. */
  lemma OfflineIsAlwaysOwed(online: bool, es: seq<Event>)
    requires Run(Step, State(0, online, []), es).Some?
    ensures var s := Run(Step, State(0, online, []), es).value;
            (exists t :: 0 <= t < |s.tasks| && HoldsConnection(s.tasks[t])) && !s.online ==> SomeoneOwes(s.tasks)
  {
    EveryRunKeepsInv(online, es);
    CountPositive(Run(Step, State(0, online, []), es).value.tasks, HoldsConnection);
  }

  /** Once every spawned task has run, connected implies online. */
  lemma ConnectedImpliesOnlineAtRest(online: bool, es: seq<Event>, t: nat)
    requires Run(Step, State(0, online, []), es).Some?
    requires var s := Run(Step, State(0, online, []), es).value;
             (forall p :: p in s.tasks ==> Settled(p)) && t < |s.tasks| && s.tasks[t].Connected?
    ensures Run(Step, State(0, online, []), es).value.online
  {
    OfflineIsAlwaysOwed(online, es);
    var s := Run(Step, State(0, online, []), es).value;
    assert HoldsConnection(s.tasks[t]);
    assert forall u :: 0 <= u < |s.tasks| ==> s.tasks[u] in s.tasks;
  }

  /** The debt is real: two actions of the owing task, or of the task it spawns, pay it. */
  lemma DebtCanBePaid(s: State, t: nat)
    requires Inv(s) && s.count > 0 && t < |s.tasks| && OwesOnline(s.tasks[t])
    ensures exists u :: Run(Step, s, [Advance(t)]).Some? && Run(Step, s, [Advance(t)]).value.count == s.count &&
                        (Run(Step, s, [Advance(t)]).value.online ||
                         (Run(Step, s, [Advance(t), Advance(u)]).Some? &&
                           Run(Step, s, [Advance(t), Advance(u)]).value.online))
  {
    var s1 := Step(s, Advance(t)).value;
    assert [Advance(t)][1..] == [];
    assert Run(Step, s1, []) == Some(s1);
    assert Run(Step, s, [Advance(t)]) == Some(s1);
    var u := if s.tasks[t].Registered? then |s.tasks| else t;
    if !s1.online {
      var s2 := Step(s1, Advance(u)).value;
      assert [Advance(t), Advance(u)][1..] == [Advance(u)] && [Advance(u)][1..] == [];
      assert Run(Step, s2, []) == Some(s2);
      assert Run(Step, s1, [Advance(u)]) == Some(s2);
      assert Run(Step, s, [Advance(t), Advance(u)]) == Some(s2);
    }
  }

  // ---- who announces ----

  ghost predicate NobodyElse(s: State, t: nat)
  {
    forall u :: 0 <= u < |s.tasks| && u != t ==> !HoldsConnection(s.tasks[u])
  }

  lemma {:induction false} CountWithout(tasks: seq<Phase>, t: nat)
    requires t < |tasks|
    ensures Count(tasks, HoldsConnection) == Bit(HoldsConnection(tasks[t])) <==>
            forall u :: 0 <= u < |tasks| && u != t ==> !HoldsConnection(tasks[u])
  {
    CountUpdate(tasks, t, Gone, HoldsConnection);
    CountPositive(tasks[t := Gone], HoldsConnection);
    if forall u :: 0 <= u < |tasks| && u != t ==> !HoldsConnection(tasks[u]) {
      var rest := tasks[t := Gone];
      assert forall u :: 0 <= u < |rest| ==> !HoldsConnection(rest[u]);
    } else {
      var u :| 0 <= u < |tasks| && u != t && HoldsConnection(tasks[u]);
      assert HoldsConnection(tasks[t := Gone][u]);
    }
  }

  /** A socket that registers spawns a connect task exactly when no other socket of the user is held at
      that moment, and is refused exactly when six are. */
  lemma OnlyTheFirstAnnounces(s: State, t: nat) returns (s1: State, s2: State)
    requires Inv(s) && t < |s.tasks| && s.tasks[t].Arriving?
    ensures Step(s, Advance(t)) == Some(s1)
    ensures s.count >= 6 ==> s1 == s.(tasks := s.tasks[t := Gone])
    ensures s.count < 6 ==> s1.count == s.count + 1 && s1.online == s.online && Step(s1, Advance(t)) == Some(s2)
    ensures s.count < 6 && NobodyElse(s, t) ==> s2 == s1.(tasks := s.tasks[t := Connected] + [ConnectPending])
    ensures s.count < 6 && !NobodyElse(s, t) ==> s2 == s1.(tasks := s.tasks[t := Connected])
  {
    CountWithout(s.tasks, t);
    s1 := Step(s, Advance(t)).value;
    s2 := s1;
    assert s.tasks[t := Gone] + [] == s.tasks[t := Gone];
    if s.count < 6 {
      s2 := Step(s1, Advance(t)).value;
      assert s1.tasks[t := Connected] == s.tasks[t := Connected];
    }
  }

  /** A socket that leaves spawns a disconnect task exactly when no other socket of the user is held. */
  lemma OnlyTheLastDisconnects(s: State, t: nat) returns (s1: State, s2: State)
    requires Inv(s) && t < |s.tasks| && s.tasks[t].Connected?
    ensures Step(s, Advance(t)) == Some(s1) && Step(s1, Advance(t)) == Some(s2)
    ensures s1.count == s.count - 1 && s1.online == s.online
    ensures NobodyElse(s, t) ==> s2 == s1.(tasks := s.tasks[t := Gone] + [Waiting(12)])
    ensures !NobodyElse(s, t) ==> s2 == s1.(tasks := s.tasks[t := Gone])
  {
    CountWithout(s.tasks, t);
    CountPositive(s.tasks, HoldsConnection);
    s1 := Step(s, Advance(t)).value;
    assert s1.tasks == s.tasks[t := Leaving];
    assert s1.tasks[t := Gone] == s.tasks[t := Gone];
    s2 := Step(s1, Advance(t)).value;
  }

  /** A disconnect task that sees a socket at any of its guards ends without writing; a connect task and
      a repair write online; a recheck that sees a socket goes on to repair. */
  lemma SocketsHoldTheFlag(s: State, t: nat)
    requires Inv(s) && s.count > 0 && t < |s.tasks| && !s.tasks[t].Gone?
    ensures var s1 := Step(s, Advance(t)).value;
            && (s.tasks[t].Waiting? && s.tasks[t].left > 0 ==> s1.tasks[t].Gone? && s1.online == s.online)
            && (s.tasks[t].Recheck? ==> s1.tasks[t].Repair? && s1.online == s.online)
            && (s.tasks[t].ConnectPending? || s.tasks[t].Repair? ==> s1.tasks[t].Gone? && s1.online)
  {
  }

  // ---- the other direction does not hold ----

  function Times(n: nat, e: Event): seq<Event> { seq(n, _ => e) }

  /** Task 0 is the socket, task 1 its connect task, task 2 its disconnect task: the connect task
      writes after everything else. */
  function LateConnect(waiting: seq<Event>): seq<Event>
  {
    [Upgrade, Advance(0), Advance(0)] + ([Advance(0), Advance(0)] + (waiting + [Advance(1)]))
  }

  lemma {:induction false} DisconnectRuns(n: nat, s: State)
    requires |s.tasks| == 3 && s.count == 0 && s.tasks[2] == Waiting(n)
    ensures Run(Step, s, Times(n + 3, Advance(2))) == Some(s.(online := false, tasks := s.tasks[2 := Gone]))
  {
    var es := Times(n + 3, Advance(2));
    assert es[1..] == Times(n + 2, Advance(2));
    if n == 0 {
      assert es == [Advance(2), Advance(2), Advance(2)];
      var s1 := s.(online := false, tasks := s.tasks[2 := Recheck(false)]);
      var s2 := s.(online := false, tasks := s.tasks[2 := Recheck(true)]);
      var s3 := s.(online := false, tasks := s.tasks[2 := Gone]);
      assert s1.tasks == s.tasks[2 := Recheck(false)] + [] && s2.tasks == s1.tasks[2 := Recheck(true)] + [] &&
             s3.tasks == s2.tasks[2 := Gone] + [];
      assert Run(Step, s3, []) == Some(s3);
      assert Run(Step, s2, [Advance(2)]) == Some(s3);
      assert [Advance(2), Advance(2)][1..] == [Advance(2)];
      assert Run(Step, s1, [Advance(2), Advance(2)]) == Some(s3);
      assert es[1..] == [Advance(2), Advance(2)];
    } else {
      var s1 := s.(tasks := s.tasks[2 := Waiting(n - 1)]);
      assert s1.tasks == s.tasks[2 := Waiting(n - 1)] + [];
      DisconnectRuns(n - 1, s1);
      assert s1.tasks[2 := Gone] == s.tasks[2 := Gone];
    }
  }

  const Opened: State := State(1, false, [Connected, ConnectPending])
  const Left: State := State(0, false, [Gone, ConnectPending, Waiting(12)])

  lemma SocketOpens()
    ensures Run(Step, State(0, false, []), [Upgrade, Advance(0), Advance(0)]) == Some(Opened)
  {
    var s0, s1, s2 := State(0, false, []), State(0, false, [Arriving]), State(1, false, [Registered(true)]);
    assert s1.tasks == s0.tasks + [Arriving] && s2.tasks == s1.tasks[0 := Registered(true)] + [];
    assert Opened.tasks == s2.tasks[0 := Connected] + [ConnectPending];
    RunOfTwo(Step, s0, Upgrade, s1, Advance(0), s2);
    RunOfOne(Step, s2, Advance(0), Opened);
    RunsJoin(Step, s0, [Upgrade, Advance(0)], s2, [Advance(0)], Opened);
    assert [Upgrade, Advance(0)] + [Advance(0)] == [Upgrade, Advance(0), Advance(0)];
  }

  lemma SocketLeaves()
    ensures Run(Step, Opened, [Advance(0), Advance(0)]) == Some(Left)
  {
    var s4 := State(0, false, [Leaving, ConnectPending]);
    assert s4.tasks == Opened.tasks[0 := Leaving] + [] && Left.tasks == s4.tasks[0 := Gone] + [Waiting(12)];
    RunOfTwo(Step, Opened, Advance(0), s4, Advance(0), Left);
  }

  const Offline: State := State(0, false, [Gone, ConnectPending, Gone])
  const OnlineAgain: State := State(0, true, [Gone, Gone, Gone])

  lemma LateConnectRuns(waiting: seq<Event>)
    requires Run(Step, Left, waiting) == Some(Offline)
    ensures Run(Step, State(0, false, []), LateConnect(waiting)) == Some(OnlineAgain)
  {
    SocketOpens();
    SocketLeaves();
    assert OnlineAgain.tasks == Offline.tasks[1 := Gone] + [];
    RunOfOne(Step, Offline, Advance(1), OnlineAgain);
    RunsJoin(Step, Left, waiting, Offline, [Advance(1)], OnlineAgain);
    RunsJoin(Step, Opened, [Advance(0), Advance(0)], Left, waiting + [Advance(1)], OnlineAgain);
    RunsJoin(Step, State(0, false, []), [Upgrade, Advance(0), Advance(0)],
             Opened, [Advance(0), Advance(0)] + (waiting + [Advance(1)]), OnlineAgain);
  }

  /** A connect task that is scheduled late leaves a user without sockets online for good. */
  lemma OnlineCanOutliveTheLastSocket()
    ensures Run(Step, State(0, false, []), LateConnect(Times(15, Advance(2)))) == Some(OnlineAgain)
  {
    DisconnectRuns(12, Left);
    assert Left.tasks[2 := Gone] == Offline.tasks;
    LateConnectRuns(Times(15, Advance(2)));
  }

  // ---- exactly when offline lasts ----

  /** No new socket and no explicit set-online frame. */
  predicate NoNewcomer(e: Event) { !e.Upgrade? && !e.SetOnline? }
  ghost predicate NoNewcomers(es: seq<Event>) { forall i :: 0 <= i < |es| ==> NoNewcomer(es[i]) }

  /** A task that writes offline, or writes nothing unless it first sees a connection. */
  predicate WritesNoOnline(p: Phase) { p.Leaving? || p.Waiting? || p.Recheck? || p.Gone? }

  /** Nobody is connected or on the way in, and no online write is under way. */
  ghost predicate Departed(s: State) { s.count == 0 && forall t :: 0 <= t < |s.tasks| ==> WritesNoOnline(s.tasks[t]) }

  ghost predicate StaysOffline(s: State)
  {
    forall es :: NoNewcomers(es) && Run(Step, s, es).Some? ==> !Run(Step, s, es).value.online
  }

  function QuietStep(s: State, e: Event): Option<State> { if NoNewcomer(e) then Step(s, e) else None }

  lemma {:induction false} QuietRun(s: State, es: seq<Event>)
    requires NoNewcomers(es)
    ensures Run(QuietStep, s, es) == Run(Step, s, es)
    decreases es
  {
    if es != [] {
      assert NoNewcomer(es[0]);
      assert forall i :: 0 <= i < |es[1..]| ==> es[1..][i] == es[i + 1];
      if Step(s, es[0]).Some? { QuietRun(Step(s, es[0]).value, es[1..]); }
    }
  }

  lemma DepartedStays(s: State, e: Event)
    requires Departed(s) && QuietStep(s, e).Some?
    ensures Departed(QuietStep(s, e).value)
    ensures !s.online ==> !QuietStep(s, e).value.online
  {
    var s' := QuietStep(s, e).value;
    if e.Advance? {
      var (count, online, phase, spawned) := Action(s.count, s.online, s.tasks[e.t]);
      assert WritesNoOnline(s.tasks[e.t]);
      forall t | 0 <= t < |s'.tasks| ensures WritesNoOnline(s'.tasks[t]) {
        if t < |s.tasks| { assert WritesNoOnline(s.tasks[t]); }
      }
    }
  }

  lemma DepartedStaysOffline(s: State, es: seq<Event>)
    requires Departed(s) && !s.online && NoNewcomers(es) && Run(Step, s, es).Some?
    ensures !Run(Step, s, es).value.online
  {
    var inv := (x: State) => Departed(x) && !x.online;
    forall x, e | inv(x) && QuietStep(x, e).Some? ensures inv(QuietStep(x, e).value) { DepartedStays(x, e); }
    QuietRun(s, es);
    RunKeeps(QuietStep, inv, s, es);
  }

  /** Any other task can bring the flag up, in at most three actions. */
  lemma OtherTaskGoesOnline(s: State, t: nat) returns (es: seq<Event>)
    requires Inv(s) && s.count == 0 && t < |s.tasks| && !WritesNoOnline(s.tasks[t])
    ensures NoNewcomers(es) && Run(Step, s, es).Some? && Run(Step, s, es).value.online
  {
    CountPositive(s.tasks, HoldsConnection);
    var s1 := Step(s, Advance(t)).value;
    RunOfOne(Step, s, Advance(t), s1);
    es := [Advance(t)];
    if s.tasks[t].Arriving? {
      var s2 := Step(s1, Advance(t)).value;
      RunOfTwo(Step, s, Advance(t), s1, Advance(t), s2);
      var n := |s.tasks|;
      assert s2.tasks[n] == ConnectPending;
      var s3 := Step(s2, Advance(n)).value;
      RunOfOne(Step, s2, Advance(n), s3);
      RunsJoin(Step, s, [Advance(t), Advance(t)], s2, [Advance(n)], s3);
      es := [Advance(t), Advance(t)] + [Advance(n)];
    }
  }

  /** A user without sockets who shows as offline stays so until somebody new arrives if and only if
      every task is leaving, waiting, rechecking or gone; a connect task that has not written, a
      repair or a half-open socket is enough to bring the flag up again. */
  lemma OfflineLastsExactlyWhenDeparted(online: bool, es: seq<Event>)
    requires Run(Step, State(0, online, []), es).Some?
    requires Run(Step, State(0, online, []), es).value.count == 0 && !Run(Step, State(0, online, []), es).value.online
    ensures var s := Run(Step, State(0, online, []), es).value;
            StaysOffline(s) <==> forall t :: 0 <= t < |s.tasks| ==> WritesNoOnline(s.tasks[t])
  {
    EveryRunKeepsInv(online, es);
    var s := Run(Step, State(0, online, []), es).value;
    if forall t :: 0 <= t < |s.tasks| ==> WritesNoOnline(s.tasks[t]) {
      forall fs | NoNewcomers(fs) && Run(Step, s, fs).Some? ensures !Run(Step, s, fs).value.online {
        DepartedStaysOffline(s, fs);
      }
    } else {
      var t :| 0 <= t < |s.tasks| && !WritesNoOnline(s.tasks[t]);
      var fs := OtherTaskGoesOnline(s, t);
    }
  }

  // ---- exactly when the user ends up offline ----

  /** Like NoNewcomer, and every task goes all the way: no failed cipher set-up, no missing status. */
  predicate Undisturbed(e: Event) { e.Advance? }
  ghost predicate OnlyTasks(es: seq<Event>) { forall i :: 0 <= i < |es| ==> Undisturbed(es[i]) }

  ghost predicate AllGone(s: State) { forall t :: 0 <= t < |s.tasks| ==> s.tasks[t].Gone? }

  /** Whatever the order, the tasks that are there end with the flag down. */
  ghost predicate EndsOffline(s: State)
  {
    forall es :: OnlyTasks(es) && Run(Step, s, es).Some? && AllGone(Run(Step, s, es).value) ==>
      !Run(Step, s, es).value.online
  }

  /** A task that is still going to write offline if nobody comes. */
  predicate WillWriteOffline(p: Phase) { p.Leaving? || p.Waiting? }

  ghost predicate OfflineAhead(s: State) { !s.online || exists t :: 0 <= t < |s.tasks| && WillWriteOffline(s.tasks[t]) }

  lemma AheadStays(s: State, e: Event)
    requires Departed(s) && OfflineAhead(s) && Undisturbed(e) && Step(s, e).Some?
    ensures Departed(Step(s, e).value) && OfflineAhead(Step(s, e).value)
  {
    DepartedStays(s, e);
    var s' := Step(s, e).value;
    if s'.online {
      var u :| 0 <= u < |s.tasks| && WillWriteOffline(s.tasks[u]);
      if s.tasks[e.t].Leaving? { assert WillWriteOffline(s'.tasks[|s.tasks|]); }
      assert WillWriteOffline(s'.tasks[u]) || s.tasks[e.t].Leaving?;
    }
  }

  function TaskStep(s: State, e: Event): Option<State> { if Undisturbed(e) then Step(s, e) else None }

  lemma {:induction false} TaskRun(s: State, es: seq<Event>)
    requires OnlyTasks(es)
    ensures Run(TaskStep, s, es) == Run(Step, s, es)
    decreases es
  {
    if es != [] {
      assert Undisturbed(es[0]);
      assert forall i :: 0 <= i < |es[1..]| ==> es[1..][i] == es[i + 1];
      if Step(s, es[0]).Some? { TaskRun(Step(s, es[0]).value, es[1..]); }
    }
  }

  lemma AheadEndsOffline(s: State, es: seq<Event>)
    requires Departed(s) && OfflineAhead(s) && OnlyTasks(es) && Run(Step, s, es).Some? &&
             AllGone(Run(Step, s, es).value)
    ensures !Run(Step, s, es).value.online
  {
    var inv := (x: State) => Departed(x) && OfflineAhead(x);
    forall x, e | inv(x) && TaskStep(x, e).Some? ensures inv(TaskStep(x, e).value) { AheadStays(x, e); }
    TaskRun(s, es);
    RunKeeps(TaskStep, inv, s, es);
  }

  /** es is a run of task actions from s to end. */
  ghost predicate Reaches(s: State, es: seq<Event>, end: State) { OnlyTasks(es) && Run(Step, s, es) == Some(end) }

  lemma ReachesJoin(a: State, es: seq<Event>, b: State, fs: seq<Event>, c: State)
    requires Reaches(a, es, b) && Reaches(b, fs, c)
    ensures Reaches(a, es + fs, c)
  {
    RunsJoin(Step, a, es, b, fs, c);
  }

  lemma OneAction(s: State, t: nat) returns (end: State)
    requires t < |s.tasks| && !s.tasks[t].Gone?
    ensures end == Step(s, Advance(t)).value && Reaches(s, [Advance(t)], end)
  {
    end := Step(s, Advance(t)).value;
    RunOfOne(Step, s, Advance(t), end);
  }

  predicate Simple(p: Phase) { p.Waiting? || p.Recheck? || p.ConnectPending? || p.Repair? || p.Gone? }

  function ActionsLeft(p: Phase): nat
    requires Simple(p)
  {
    match p
    case Waiting(left) => left + 3
    case Recheck(second) => if second then 1 else 2
    case ConnectPending => 1
    case Repair => 1
    case Gone => 0
  }

  /** A task without a connection of its own runs to its end when nobody is connected. */
  lemma {:induction false} SimpleEnds(s: State, t: nat) returns (es: seq<Event>, end: State)
    requires s.count == 0 && t < |s.tasks| && Simple(s.tasks[t])
    ensures Reaches(s, es, end) && end.count == 0 && end.tasks == s.tasks[t := Gone]
    ensures s.tasks[t].Recheck? || s.tasks[t].Gone? ==> end.online == s.online
    decreases ActionsLeft(s.tasks[t])
  {
    if s.tasks[t].Gone? {
      es, end := [], s;
    } else {
      var s1 := OneAction(s, t);
      assert s1.tasks == s.tasks[t := s1.tasks[t]];
      var rest;
      rest, end := SimpleEnds(s1, t);
      ReachesJoin(s, [Advance(t)], s1, rest, end);
      es := [Advance(t)] + rest;
    }
  }

  lemma LeavingEnds(s: State, t: nat) returns (es: seq<Event>, end: State)
    requires s.count == 0 && t < |s.tasks| && s.tasks[t].Leaving?
    ensures Reaches(s, es, end) && end.count == 0 && end.tasks == s.tasks[t := Gone] + [Gone]
  {
    var s1 := OneAction(s, t);
    var rest;
    rest, end := SimpleEnds(s1, |s.tasks|);
    ReachesJoin(s, [Advance(t)], s1, rest, end);
    es := [Advance(t)] + rest;
  }

  /** A half-open socket opens, leaves again, and has left its connect task behind. */
  lemma ArrivingLeaves(s: State, t: nat) returns (es: seq<Event>, end: State)
    requires s.count == 0 && t < |s.tasks| && s.tasks[t].Arriving?
    ensures Reaches(s, es, end) && end.count == 0 && end.tasks == s.tasks[t := Leaving] + [ConnectPending]
  {
    var s1 := OneAction(s, t);
    var s2 := OneAction(s1, t);
    var s3 := OneAction(s2, t);
    ReachesJoin(s, [Advance(t)], s1, [Advance(t)], s2);
    ReachesJoin(s, [Advance(t)] + [Advance(t)], s2, [Advance(t)], s3);
    es, end := [Advance(t)] + [Advance(t)] + [Advance(t)], s3;
  }

  ghost predicate GoneFrom(tasks: seq<Phase>, n: nat) { forall i :: n <= i < |tasks| ==> tasks[i].Gone? }

  /** One task to its end; what it spawns has ended as well. */
  lemma TaskEnds(s: State, t: nat) returns (es: seq<Event>, end: State)
    requires s.count == 0 && t < |s.tasks| && !HoldsConnection(s.tasks[t])
    ensures Reaches(s, es, end) && end.count == 0 && |s.tasks| <= |end.tasks|
    ensures end.tasks[..|s.tasks|] == s.tasks[t := Gone] && GoneFrom(end.tasks, |s.tasks|)
    ensures s.tasks[t].Recheck? || s.tasks[t].Gone? ==> end.online == s.online
  {
    if Simple(s.tasks[t]) {
      es, end := SimpleEnds(s, t);
    } else if s.tasks[t].Leaving? {
      es, end := LeavingEnds(s, t);
    } else {
      var first, s1 := ArrivingLeaves(s, t);
      var second, s2 := LeavingEnds(s1, t);
      var third;
      third, end := SimpleEnds(s2, |s.tasks|);
      ReachesJoin(s, first, s1, second, s2);
      ReachesJoin(s, first + second, s2, third, end);
      es := first + second + third;
    }
  }

  /** All tasks but `spare` (if there is one) to their ends, from number k on. */
  lemma {:induction false} OthersEnd(s: State, k: nat, n: nat, spare: int) returns (es: seq<Event>, end: State)
    requires s.count == 0 && k <= n <= |s.tasks| && GoneFrom(s.tasks, n)
    requires forall i :: 0 <= i < k && i != spare ==> s.tasks[i].Gone?
    requires forall i :: 0 <= i < n ==> !HoldsConnection(s.tasks[i])
    ensures Reaches(s, es, end) && end.count == 0 && |s.tasks| <= |end.tasks|
    ensures forall i :: 0 <= i < |end.tasks| && i != spare ==> end.tasks[i].Gone?
    ensures 0 <= spare < n ==> end.tasks[spare] == s.tasks[spare]
    ensures (forall i :: 0 <= i < n && i != spare ==> s.tasks[i].Recheck? || s.tasks[i].Gone?) ==>
            end.online == s.online
    decreases n - k
  {
    if k == n {
      es, end := [], s;
    } else if k == spare {
      es, end := OthersEnd(s, k + 1, n, spare);
    } else {
      var first, s1 := TaskEnds(s, k);
      assert forall i :: 0 <= i < |s.tasks| ==> s1.tasks[i] == s1.tasks[..|s.tasks|][i];
      var rest;
      rest, end := OthersEnd(s1, k + 1, n, spare);
      ReachesJoin(s, first, s1, rest, end);
      es := first + rest;
    }
  }

  /** A pending online write can be the last one of all. */
  lemma LastWriteIsOnline(s: State, t: nat) returns (es: seq<Event>)
    requires s.count == 0 && t < |s.tasks| && (forall i :: 0 <= i < |s.tasks| ==> !HoldsConnection(s.tasks[i]))
    requires s.tasks[t].ConnectPending? || s.tasks[t].Repair?
    ensures OnlyTasks(es) && Run(Step, s, es).Some? && AllGone(Run(Step, s, es).value) && Run(Step, s, es).value.online
  {
    var first, s1 := OthersEnd(s, 0, |s.tasks|, t);
    var end := OneAction(s1, t);
    ReachesJoin(s, first, s1, [Advance(t)], end);
    es := first + [Advance(t)];
  }

  lemma CanEndOnline(s: State) returns (es: seq<Event>)
    requires Inv(s) && s.count == 0 && !(Departed(s) && OfflineAhead(s))
    ensures OnlyTasks(es) && Run(Step, s, es).Some? && AllGone(Run(Step, s, es).value) && Run(Step, s, es).value.online
  {
    CountPositive(s.tasks, HoldsConnection);
    if Departed(s) {
      var end;
      es, end := OthersEnd(s, 0, |s.tasks|, -1);
    } else {
      var t :| 0 <= t < |s.tasks| && !WritesNoOnline(s.tasks[t]);
      if s.tasks[t].Arriving? {
        var first, s1 := ArrivingLeaves(s, t);
        var rest := LastWriteIsOnline(s1, |s.tasks|);
        ReachesJoin(s, first, s1, rest, Run(Step, s1, rest).value);
        es := first + rest;
      } else {
        es := LastWriteIsOnline(s, t);
      }
    }
  }

  /** From any reachable state without sockets, the tasks that are left end with the user offline in
      every order if and only if no connect task, repair or half-open socket is among them and either
      the flag is down already or some task has yet to write it down. */
  lemma EndsOfflineExactlyWhen(online: bool, es: seq<Event>)
    requires Run(Step, State(0, online, []), es).Some? && Run(Step, State(0, online, []), es).value.count == 0
    ensures var s := Run(Step, State(0, online, []), es).value;
            EndsOffline(s) <==> (forall t :: 0 <= t < |s.tasks| ==> WritesNoOnline(s.tasks[t])) && OfflineAhead(s)
  {
    EveryRunKeepsInv(online, es);
    var s := Run(Step, State(0, online, []), es).value;
    if Departed(s) && OfflineAhead(s) {
      forall fs | OnlyTasks(fs) && Run(Step, s, fs).Some? && AllGone(Run(Step, s, fs).value)
        ensures !Run(Step, s, fs).value.online
      {
        AheadEndsOffline(s, fs);
      }
    } else {
      var fs := CanEndOnline(s);
    }
  }
}
