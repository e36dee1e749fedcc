/** Per-user FIFO lanes: one bounded channel and one worker task per user, created on demand and
    dropped by a lazy GC. A dropped lane loses its sender, not its worker: the worker goes on. */
module FifoLanes {
  import opened Runs
  import opened Counting

  type UserId = string
  type Job = nat

  const FIFO_IDLE_GC_MS: int := 60_000

  /** The map entry: it owns the only sender of worker `worker`'s channel. */
  datatype Slot = Slot(worker: nat, lastUsed: int)

  datatype Phase =
    | Idle             // in recv
    | Took(job: Job)   // received, `busy` not yet set
    | Busy(job: Job)   // running the job
    | Ending           // recv returned None
    | Dead             // `alive` cleared
    | Gone             // receiver dropped

  /** `accepted` and `ran` record the jobs sent to this worker and those it has finished. */
  datatype Worker = Worker(user: UserId, queue: seq<Job>, phase: Phase, accepted: seq<Job>, ran: seq<Job>)

  datatype Lanes = Lanes(slots: map<UserId, Slot>, workers: seq<Worker>)

  predicate Alive(w: Worker) { !w.phase.Dead? && !w.phase.Gone? }

  /** What the GC leaves in place. */
  predicate Survives(l: Lanes, connections: map<UserId, nat>, now: int, user: UserId)
    requires user in l.slots && l.slots[user].worker < |l.workers|
  {
    var w := l.workers[l.slots[user].worker];
    Alive(w) && (w.phase.Busy? || Get(connections, user) > 0 || now - l.slots[user].lastUsed < FIFO_IDLE_GC_MS)
  }

  predicate WellFormed(l: Lanes) { forall u :: u in l.slots ==> l.slots[u].worker < |l.workers| }

  function Collected(l: Lanes, connections: map<UserId, nat>, now: int): Lanes
    requires WellFormed(l)
  {
    l.(slots := map u | u in l.slots && Survives(l, connections, now, u) :: l.slots[u])
  }

  function Spawned(l: Lanes, user: UserId, job: Job, now: int): Lanes
  {
    Lanes(l.slots[user := Slot(|l.workers|, now)], l.workers + [Worker(user, [job], Idle, [job], [])])
  }

  function Sent(w: Worker, job: Job): Worker { w.(queue := w.queue + [job], accepted := w.accepted + [job]) }

  /** `fifo_enqueue` after its GC: the new lanes, and whether the job was accepted. */
  function Delivered(l: Lanes, user: UserId, job: Job, cap: nat, now: int): (Lanes, bool)
    requires WellFormed(l)
  {
    if user !in l.slots then (Spawned(l, user, job, now), true)
    else
      var i := l.slots[user].worker;
      var w := l.workers[i];
      if !Alive(w) || w.phase.Gone? then (Spawned(l.(slots := l.slots - {user}), user, job, now), true)
      else
        var touched := l.(slots := l.slots[user := Slot(i, now)]);
        if |w.queue| >= cap then (touched, false)
        else (touched.(workers := l.workers[i := Sent(w, job)]), true)
  }

  /** Worker i has been sent one more job, behind the others; nothing else differs. */
  ghost predicate GainsJob(before: seq<Worker>, after: seq<Worker>, i: nat, job: Job)
  {
    && i < |before| == |after| && (forall k :: 0 <= k < |before| && k != i ==> after[k] == before[k])
    && after[i].queue == before[i].queue + [job] && after[i].accepted == before[i].accepted + [job]
    && after[i].user == before[i].user && after[i].phase == before[i].phase && after[i].ran == before[i].ran
  }

  /** A new idle worker has been sent the job, and the others are as before. */
  ghost predicate StartsWorker(before: seq<Worker>, after: seq<Worker>, user: UserId, job: Job)
  {
    && |after| == |before| + 1 && (forall k :: 0 <= k < |before| ==> after[k] == before[k])
    && after[|before|].user == user && after[|before|].queue == [job] && after[|before|].accepted == [job]
    && after[|before|].ran == [] && after[|before|].phase == Idle
  }

  /** In so many words: the worker has not ended, and it is running a job, its user is connected, or the
      lane was used within the last minute. */
  predicate Wanted(slot: Slot, workers: seq<Worker>, connections: map<UserId, nat>, user: UserId, now: int)
  {
    slot.worker < |workers| && workers[slot.worker].phase != Dead && workers[slot.worker].phase != Gone &&
    (workers[slot.worker].phase.Busy? || (user in connections && connections[user] > 0) || now - slot.lastUsed < 60_000)
  }

  class FifoMap {
    var slots: map<UserId, Slot>
    var workers: seq<Worker>

    function View(): Lanes reads this { Lanes(slots, workers) }

    constructor ()
      ensures View() == Lanes(map[], [])
    {
      slots, workers := map[], [];
    }

    method Gc(connections: map<UserId, nat>, now: int)
      requires WellFormed(View())
      modifies this`slots
      ensures View() == Collected(old(View()), connections, now)
      ensures forall u :: u in slots <==> u in old(slots) && Wanted(old(slots)[u], workers, connections, u, now)
      ensures forall u :: u in slots ==> slots[u] == old(slots)[u]
    {
      var todo := slots.Keys;
      while todo != {}
        invariant todo <= slots.Keys <= old(slots).Keys && workers == old(workers)
        invariant forall u :: u in slots ==> slots[u] == old(slots)[u]
        invariant forall u :: u in old(slots) && u !in todo ==>
                    (u in slots <==> Survives(old(View()), connections, now, u))
        decreases |todo|
      {
        var u :| u in todo;
        todo := todo - {u};
        var w := workers[slots[u].worker];
        var keep := false;
        if Alive(w) {
          if w.phase.Busy? {
            keep := true;
          } else if u in connections && connections[u] > 0 {
            keep := true;
          } else {
            keep := now - slots[u].lastUsed < FIFO_IDLE_GC_MS;
          }
        }
        if !keep { slots := slots - {u}; }
      }
      assert slots == Collected(old(View()), connections, now).slots;
    }

    method Spawn(user: UserId, job: Job, now: int)
      modifies this
      ensures View() == Spawned(old(View()), user, job, now)
    {
      slots := slots[user := Slot(|workers|, now)];
      workers := workers + [Worker(user, [job], Idle, [job], [])];
    }

    method Deliver(user: UserId, job: Job, cap: nat, now: int) returns (ok: bool)
      requires WellFormed(View())
      modifies this
      ensures (View(), ok) == Delivered(old(View()), user, job, cap, now)
    {
      if user in slots {
        var i := slots[user].worker;
        if Alive(workers[i]) {
          slots := slots[user := Slot(i, now)];
          if |workers[i].queue| >= cap {
            return false;
          }
          workers := workers[i := Sent(workers[i], job)];
          return true;
        }
        slots := slots - {user};
      }
      Spawn(user, job, now);
      ok := true;
    }

    method Enqueue(connections: map<UserId, nat>, user: UserId, job: Job, cap: nat, now: int) returns (ok: bool)
      requires WellFormed(View())
      modifies this
      ensures (View(), ok) == Delivered(Collected(old(View()), connections, now), user, job, cap, now)
      ensures var kept := user in old(slots) && Wanted(old(slots)[user], old(workers), connections, user, now);
              && (!ok <==> kept && |old(workers)[old(slots)[user].worker].queue| >= cap)
              && (!ok ==> workers == old(workers))
              && (ok && kept ==> GainsJob(old(workers), workers, old(slots)[user].worker, job))
              && (ok && !kept ==> StartsWorker(old(workers), workers, user, job))
              && user in slots && slots[user] == Slot(if kept then old(slots)[user].worker else |old(workers)|, now)
    {
      Gc(connections, now);
      ok := Deliver(user, job, cap, now);
    }
  }

  // ---- lanes and workers, interleaved ----

  datatype State = State(lanes: Lanes, connections: map<UserId, nat>, cap: nat)

  /** One `fifo_enqueue` is a Collect and then a Send; workers may act in between. */
  datatype Event =
    | Collect(now: int)
    | Send(user: UserId, job: Job, now: int)
    | Connections(user: UserId, count: nat)   // sockets come and go
    | Work(i: nat)                            // the next action of worker i

  predicate Orphan(l: Lanes, i: nat) { forall u :: u in l.slots ==> l.slots[u].worker != i }

  function Worked(w: Worker, orphan: bool): Option<Worker>
  {
    match w.phase
    case Idle =>
      if w.queue != [] then Some(w.(queue := w.queue[1..], phase := Took(w.queue[0])))
      else if orphan then Some(w.(phase := Ending)) else None
    case Took(job) => Some(w.(phase := Busy(job)))
    case Busy(job) => Some(w.(phase := Idle, ran := w.ran + [job]))
    case Ending => Some(w.(phase := Dead))
    case Dead => Some(w.(phase := Gone))
    case Gone => None
  }

  function Step(s: State, e: Event): Option<State>
  {
    match e
    case Collect(now) =>
      if !WellFormed(s.lanes) then None else Some(s.(lanes := Collected(s.lanes, s.connections, now)))
    case Send(user, job, now) =>
      if !WellFormed(s.lanes) then None else Some(s.(lanes := Delivered(s.lanes, user, job, s.cap, now).0))
    case Connections(user, count) => Some(s.(connections := s.connections[user := count]))
    case Work(i) =>
      if i >= |s.lanes.workers| then None
      else match Worked(s.lanes.workers[i], Orphan(s.lanes, i))
        case None => None
        case Some(w) => Some(s.(lanes := s.lanes.(workers := s.lanes.workers[i := w])))
  }

  predicate Accepts(s: State, e: Event)
  {
    e.Send? && WellFormed(s.lanes) && Delivered(s.lanes, e.user, e.job, s.cap, e.now).1
  }

  /** What the worker has in hand. */
  function InHand(p: Phase): seq<Job> { if p.Took? || p.Busy? then [p.job] else [] }

  /** Nothing is lost, reordered or repeated between acceptance and execution, and a worker only
      ends with everything done. */
  predicate Ordered(w: Worker, cap: nat)
  {
    && w.accepted == w.ran + InHand(w.phase) + w.queue
    && |w.queue| <= cap
    && (w.phase.Ending? || w.phase.Dead? || w.phase.Gone? ==> w.queue == [])
  }

  predicate Running(w: Worker) { w.phase.Idle? || w.phase.Took? || w.phase.Busy? }

  ghost predicate Inv(s: State)
  {
    && s.cap > 0
    && WellFormed(s.lanes)
    && (forall u :: u in s.lanes.slots ==> SlotServed(s.lanes, u) && Latest(s.lanes, u))
    && (forall i :: 0 <= i < |s.lanes.workers| ==> Ordered(s.lanes.workers[i], s.cap))
  }

  ghost predicate SlotServed(l: Lanes, u: UserId)
    requires u in l.slots && l.slots[u].worker < |l.workers|
  {
    l.workers[l.slots[u].worker].user == u && Running(l.workers[l.slots[u].worker])
  }

  /** The entry's worker is the newest one its user has had. */
  ghost predicate Latest(l: Lanes, u: UserId)
    requires u in l.slots
  {
    forall i :: l.slots[u].worker < i < |l.workers| ==> l.workers[i].user != u
  }

  /** With its worker running, an entry is alive and its channel open: the two recovery branches
      of `fifo_enqueue` and the first GC test are never taken. */
  lemma RecoveryBranchesUnreachable(s: State, user: UserId, now: int)
    requires Inv(s) && user in s.lanes.slots
    ensures Alive(s.lanes.workers[s.lanes.slots[user].worker])
    ensures !s.lanes.workers[s.lanes.slots[user].worker].phase.Gone?
    ensures user in Collected(s.lanes, s.connections, now).slots <==>
              s.lanes.workers[s.lanes.slots[user].worker].phase.Busy? || Get(s.connections, user) > 0 ||
              now - s.lanes.slots[user].lastUsed < FIFO_IDLE_GC_MS
  {
    assert SlotServed(s.lanes, user);
  }

  lemma CollectKeepsInv(s: State, now: int)
    requires Inv(s)
    ensures Inv(Step(s, Collect(now)).value)
  {
    var s' := Step(s, Collect(now)).value;
    forall u | u in s'.lanes.slots ensures SlotServed(s'.lanes, u) && Latest(s'.lanes, u) {
      assert SlotServed(s.lanes, u) && Latest(s.lanes, u);
    }
  }

  lemma SendKeepsOrder(s: State, user: UserId, job: Job, now: int, i: nat)
    requires Inv(s) && i < |Delivered(s.lanes, user, job, s.cap, now).0.workers|
    ensures Ordered(Delivered(s.lanes, user, job, s.cap, now).0.workers[i], s.cap)
  {
    if user in s.lanes.slots { assert SlotServed(s.lanes, user); }
    if i < |s.lanes.workers| { assert Ordered(s.lanes.workers[i], s.cap); }
  }

  lemma SendKeepsServing(s: State, user: UserId, job: Job, now: int, u: UserId)
    requires Inv(s) && u in Delivered(s.lanes, user, job, s.cap, now).0.slots
    ensures var l := Delivered(s.lanes, user, job, s.cap, now).0;
            l.slots[u].worker < |l.workers| && SlotServed(l, u) && Latest(l, u)
  {
    if user in s.lanes.slots { assert SlotServed(s.lanes, user); }
    if u in s.lanes.slots { assert SlotServed(s.lanes, u) && Latest(s.lanes, u); }
  }

  lemma SendKeepsInv(s: State, user: UserId, job: Job, now: int)
    requires Inv(s)
    ensures Inv(Step(s, Send(user, job, now)).value)
  {
    var l := Delivered(s.lanes, user, job, s.cap, now).0;
    forall u | u in l.slots ensures l.slots[u].worker < |l.workers| && SlotServed(l, u) && Latest(l, u) {
      SendKeepsServing(s, user, job, now, u);
    }
    forall i | 0 <= i < |l.workers| ensures Ordered(l.workers[i], s.cap) { SendKeepsOrder(s, user, job, now, i); }
  }

  lemma WorkKeepsInv(s: State, i: nat)
    requires Inv(s) && Step(s, Work(i)).Some?
    ensures Inv(Step(s, Work(i)).value)
  {
    var s' := Step(s, Work(i)).value;
    var w := s.lanes.workers[i];
    assert Ordered(w, s.cap);
    assert Ordered(s'.lanes.workers[i], s.cap);
    forall u | u in s'.lanes.slots ensures SlotServed(s'.lanes, u) && Latest(s'.lanes, u) {
      assert SlotServed(s.lanes, u) && Latest(s.lanes, u);
    }
  }

  lemma StepKeepsInv(s: State, e: Event)
    requires Inv(s) && Step(s, e).Some?
    ensures Inv(Step(s, e).value)
  {
    match e
    case Collect(now) => CollectKeepsInv(s, now);
    case Send(user, job, now) => SendKeepsInv(s, user, job, now);
    case Work(i) => WorkKeepsInv(s, i);
    case Connections(_, _) =>
  }

  lemma EveryRunKeepsInv(s: State, es: seq<Event>)
    requires Inv(s) && Run(Step, s, es).Some?
    ensures Inv(Run(Step, s, es).value)
  {
    forall t, e | Inv(t) && Step(t, e).Some? ensures Inv(Step(t, e).value) { StepKeepsInv(t, e); }
    RunKeeps(Step, Inv, s, es);
  }

  /** Every state a run reaches from empty lanes satisfies it. */
  lemma ReachableStatesAreOrdered(cap: nat, es: seq<Event>)
    requires cap > 0 && Run(Step, State(Lanes(map[], []), map[], cap), es).Some?
    ensures Inv(Run(Step, State(Lanes(map[], []), map[], cap), es).value)
  {
    EveryRunKeepsInv(State(Lanes(map[], []), map[], cap), es);
  }

  /** Exactly when a job is refused, and what happens to it otherwise: it is refused if and only if the
      user has an entry whose worker's queue is full; else it goes to the end of that queue, or to a
      new worker if there is no entry. Other users and workers are not touched. */
  lemma RefusedExactlyWhenFull(s: State, user: UserId, job: Job, now: int)
    requires Inv(s)
    ensures var e := Send(user, job, now);
            var l, l' := s.lanes, Step(s, e).value.lanes;
            var full := user in l.slots && |l.workers[l.slots[user].worker].queue| == s.cap;
            && (Accepts(s, e) <==> !full)
            && (full ==> l'.workers == l.workers)
            && (!full && user in l.slots ==> GainsJob(l.workers, l'.workers, l.slots[user].worker, job))
            && (user !in l.slots ==> StartsWorker(l.workers, l'.workers, user, job))
            && user in l'.slots
            && l'.slots[user] == Slot(if user in l.slots then l.slots[user].worker else |l.workers|, now)
            && (forall u :: u != user ==> (u in l'.slots <==> u in l.slots))
            && (forall u :: u != user && u in l.slots ==> l'.slots[u] == l.slots[u])
  {
    if user in s.lanes.slots {
      assert SlotServed(s.lanes, user);
      assert Ordered(s.lanes.workers[s.lanes.slots[user].worker], s.cap);
    }
  }

  // ---- a user who stays connected ----

  ghost predicate StaysConnected(user: UserId, s: State, es: seq<Event>)
    requires Run(Step, s, es).Some?
    decreases es
  {
    Get(s.connections, user) > 0 && (es == [] || StaysConnected(user, Step(s, es[0]).value, es[1..]))
  }

  ghost function Newly(user: UserId, s: State, e: Event): seq<Job>
  {
    if Accepts(s, e) && e.user == user then [e.job] else []
  }

  /** The user's jobs that `fifo_enqueue` accepted during the run, in that order. */
  ghost function AcceptedJobs(user: UserId, s: State, es: seq<Event>): seq<Job>
    requires Run(Step, s, es).Some?
    decreases es
  {
    if es == [] then []
    else
      Newly(user, s, es[0]) + AcceptedJobs(user, Step(s, es[0]).value, es[1..])
  }

  /** Since worker number `from`, the user has had one worker at most, and it was sent `jobs`. */
  ghost predicate OneLane(s: State, user: UserId, from: nat, jobs: seq<Job>)
  {
    && from <= |s.lanes.workers|
    && (forall i :: from <= i < |s.lanes.workers| && s.lanes.workers[i].user == user ==>
          user in s.lanes.slots && s.lanes.slots[user].worker == i && s.lanes.workers[i].accepted == jobs)
    && (user in s.lanes.slots ==> s.lanes.slots[user].worker >= from)
    && (user !in s.lanes.slots ==> jobs == [])
  }

  lemma SendKeepsOneLane(s: State, u: UserId, job: Job, now: int, user: UserId, from: nat, jobs: seq<Job>)
    requires Inv(s) && OneLane(s, user, from, jobs)
    ensures OneLane(Step(s, Send(u, job, now)).value, user, from, jobs + Newly(user, s, Send(u, job, now)))
  {
    if user in s.lanes.slots { assert SlotServed(s.lanes, user); }
    if u in s.lanes.slots { assert SlotServed(s.lanes, u); }
  }

  lemma StepKeepsOneLane(s: State, e: Event, user: UserId, from: nat, jobs: seq<Job>)
    requires Inv(s) && OneLane(s, user, from, jobs) && Get(s.connections, user) > 0 && Step(s, e).Some?
    ensures OneLane(Step(s, e).value, user, from, jobs + Newly(user, s, e))
  {
    match e
    case Collect(now) =>
      if user in s.lanes.slots { RecoveryBranchesUnreachable(s, user, now); }
    case Send(u, job, now) => SendKeepsOneLane(s, u, job, now, user, from, jobs);
    case Work(i) =>
    case Connections(_, _) =>
  }

  lemma {:induction false} OneLaneForTheSession(s: State, es: seq<Event>, user: UserId, from: nat, jobs: seq<Job>)
    requires Inv(s) && OneLane(s, user, from, jobs)
    requires Run(Step, s, es).Some? && StaysConnected(user, s, es)
    ensures OneLane(Run(Step, s, es).value, user, from, jobs + AcceptedJobs(user, s, es))
    decreases es
  {
    if es == [] {
      Regroup(jobs, [], []);
    } else {
      var next := Step(s, es[0]).value;
      var more := Newly(user, s, es[0]);
      StepKeepsOneLane(s, es[0], user, from, jobs);
      StepKeepsInv(s, es[0]);
      OneLaneForTheSession(next, es[1..], user, from, jobs + more);
      Regroup(jobs, more, AcceptedJobs(user, next, es[1..]));
    }
  }

  /** The worker a user's session begins with, or the next one to be spawned. */
  function FirstWorker(l: Lanes, user: UserId): nat { if user in l.slots then l.slots[user].worker else |l.workers| }

  /** What that worker had accepted before the session. */
  function Earlier(l: Lanes, user: UserId): seq<Job>
    requires WellFormed(l)
  {
    if user in l.slots then l.workers[l.slots[user].worker].accepted else []
  }

  lemma SessionBegins(s: State, user: UserId)
    requires Inv(s)
    ensures OneLane(s, user, FirstWorker(s.lanes, user), Earlier(s.lanes, user))
  {
    if user in s.lanes.slots { assert SlotServed(s.lanes, user) && Latest(s.lanes, user); }
  }

  lemma {:induction false} WorkersKeepTheirUser(s: State, es: seq<Event>, i: nat)
    requires Run(Step, s, es).Some? && i < |s.lanes.workers|
    ensures i < |Run(Step, s, es).value.lanes.workers|
    ensures Run(Step, s, es).value.lanes.workers[i].user == s.lanes.workers[i].user
    decreases es
  {
    if es != [] { WorkersKeepTheirUser(Step(s, es[0]).value, es[1..], i); }
  }

  /** While a user stays connected, one worker runs exactly the accepted jobs, in acceptance order,
      one at a time, with at most `cap` waiting. The session may begin in any reachable state: a lane
      that is still there from before goes on, after what it had accepted already, and no second
      worker is ever started for the user; otherwise the first job starts one. */
  lemma LaneRunsAcceptedJobsInOrder(s: State, es: seq<Event>, user: UserId)
    requires Inv(s) && Run(Step, s, es).Some? && StaysConnected(user, s, es)
    ensures var end := Run(Step, s, es).value.lanes;
            var jobs := AcceptedJobs(user, s, es);
            if user !in end.slots then user !in s.lanes.slots && jobs == []
            else end.slots[user].worker < |end.workers| &&
                 var i := end.slots[user].worker;
                 var w := end.workers[i];
                 && (if user in s.lanes.slots then i == s.lanes.slots[user].worker else i >= |s.lanes.workers|)
                 && Earlier(s.lanes, user) + jobs == w.accepted == w.ran + InHand(w.phase) + w.queue
                 && |InHand(w.phase)| <= 1 && |w.queue| <= s.cap
                 && forall k :: FirstWorker(s.lanes, user) <= k < |end.workers| && end.workers[k].user == user ==>
                      k == i
  {
    SessionBegins(s, user);
    OneLaneForTheSession(s, es, user, FirstWorker(s.lanes, user), Earlier(s.lanes, user));
    EveryRunKeepsInv(s, es);
    CapIsConstant(s, es);
    var end := Run(Step, s, es).value.lanes;
    if user in s.lanes.slots {
      assert SlotServed(s.lanes, user);
      WorkersKeepTheirUser(s, es, s.lanes.slots[user].worker);
    }
    if user in end.slots { assert SlotServed(end, user); }
  }

  lemma {:induction false} CapIsConstant(s: State, es: seq<Event>)
    requires Run(Step, s, es).Some?
    ensures Run(Step, s, es).value.cap == s.cap
    decreases es
  {
    if es != [] { CapIsConstant(Step(s, es[0]).value, es[1..]); }
  }

  // ---- a collected lane ----

  /** Actions left until an orphaned worker has finished everything. */
  function Remaining(w: Worker): nat
  {
    3 * |w.queue| + match w.phase
                    case Idle => 3 case Took(_) => 5 case Busy(_) => 4 case Ending => 2 case Dead => 1 case Gone => 0
  }

  lemma OrphanStays(s: State, e: Event, i: nat)
    requires WellFormed(s.lanes) && i < |s.lanes.workers| && Orphan(s.lanes, i) && Step(s, e).Some?
    ensures var s' := Step(s, e).value;
            && i < |s'.lanes.workers| && Orphan(s'.lanes, i)
            && s'.lanes.workers[i].accepted == s.lanes.workers[i].accepted
            && s.lanes.workers[i].ran <= s'.lanes.workers[i].ran
            && (e != Work(i) ==> s'.lanes.workers[i] == s.lanes.workers[i])
  {
  }

  function IsWorkOf(i: nat): Event -> bool { (e: Event) => e == Work(i) }

  lemma OneActionLess(w: Worker)
    requires Worked(w, true).Some?
    ensures Remaining(Worked(w, true).value) == Remaining(w) - 1
  {
  }

  lemma OrphanIsNeverStuck(w: Worker, cap: nat)
    requires Ordered(w, cap)
    ensures Worked(w, true).None? <==> w.phase.Gone?
    ensures w.phase.Gone? <==> Remaining(w) == 0
  {
  }

  /** Over a whole run, whatever else happens in between: each action of the dropped lane's worker
      leaves exactly one less to do, so it can take no more than `Remaining`; it has ended if and
      only if it took them all, and has then run everything the lane accepted. */
  lemma {:induction false} CollectedLaneDrainsInAnyRun(s: State, es: seq<Event>, i: nat)
    requires Inv(s) && i < |s.lanes.workers| && Orphan(s.lanes, i) && Run(Step, s, es).Some?
    ensures var end := Run(Step, s, es).value; var n := Count(es, IsWorkOf(i));
            && i < |end.lanes.workers| && n + Remaining(end.lanes.workers[i]) == Remaining(s.lanes.workers[i])
            && (end.lanes.workers[i].phase.Gone? <==> n == Remaining(s.lanes.workers[i]))
            && (end.lanes.workers[i].phase.Gone? ==> end.lanes.workers[i].ran == s.lanes.workers[i].accepted)
            && (!end.lanes.workers[i].phase.Gone? ==> Step(end, Work(i)).Some?)
    decreases es
  {
    var w := s.lanes.workers[i];
    assert Ordered(w, s.cap);
    OrphanIsNeverStuck(w, s.cap);
    if es != [] {
      var next := Step(s, es[0]).value;
      StepKeepsInv(s, es[0]);
      OrphanStays(s, es[0], i);
      if es[0] == Work(i) { OneActionLess(w); }
      CollectedLaneDrainsInAnyRun(next, es[1..], i);
    }
  }

  // ---- one job of a user at a time ----

  predicate HasWork(w: Worker) { w.queue != [] || InHand(w.phase) != [] }

  /** All unfinished jobs of the user are with the worker of the user's entry. */
  ghost predicate OnlyEntryWorks(l: Lanes, user: UserId)
  {
    forall i :: 0 <= i < |l.workers| && l.workers[i].user == user && HasWork(l.workers[i]) ==>
      user in l.slots && l.slots[user].worker == i
  }

  /** The GC drops the user's lane although its worker has a job waiting or just received. */
  predicate DropsWork(s: State, e: Event, user: UserId)
  {
    && e.Collect? && WellFormed(s.lanes) && user in s.lanes.slots
    && HasWork(s.lanes.workers[s.lanes.slots[user].worker]) && !Survives(s.lanes, s.connections, e.now, user)
  }

  lemma SendKeepsOnlyEntry(s: State, u: UserId, job: Job, now: int, user: UserId)
    requires Inv(s) && OnlyEntryWorks(s.lanes, user)
    ensures OnlyEntryWorks(Delivered(s.lanes, u, job, s.cap, now).0, user)
  {
    if u in s.lanes.slots { assert SlotServed(s.lanes, u); }
    if user in s.lanes.slots { assert SlotServed(s.lanes, user); }
  }

  lemma WorkKeepsOnlyEntry(s: State, k: nat, user: UserId)
    requires Inv(s) && OnlyEntryWorks(s.lanes, user) && Step(s, Work(k)).Some?
    ensures OnlyEntryWorks(Step(s, Work(k)).value.lanes, user)
  {
    assert HasWork(Step(s, Work(k)).value.lanes.workers[k]) ==> HasWork(s.lanes.workers[k]);
  }

  /** Nothing but such a collection takes the user's work away from the entry. */
  lemma StepKeepsOnlyEntry(s: State, e: Event, user: UserId)
    requires Inv(s) && OnlyEntryWorks(s.lanes, user) && Step(s, e).Some?
    ensures OnlyEntryWorks(Step(s, e).value.lanes, user) <==> !DropsWork(s, e, user)
  {
    match e
    case Send(u, job, now) => SendKeepsOnlyEntry(s, u, job, now, user);
    case Work(k) => WorkKeepsOnlyEntry(s, k, user);
    case Connections(_, _) =>
    case Collect(now) => CollectOnOnlyEntry(s, now, user);
  }

  lemma CollectOnOnlyEntry(s: State, now: int, user: UserId)
    requires Inv(s) && OnlyEntryWorks(s.lanes, user)
    ensures OnlyEntryWorks(Step(s, Collect(now)).value.lanes, user) <==> !DropsWork(s, Collect(now), user)
  {
    var l := Step(s, Collect(now)).value.lanes;
    if user in s.lanes.slots {
      assert SlotServed(s.lanes, user);
      var i := s.lanes.slots[user].worker;
      assert user in l.slots <==> Survives(s.lanes, s.connections, now, user);
      assert l.workers[i] == s.lanes.workers[i];
    }
  }

  ghost predicate DropsNoWork(user: UserId, s: State, es: seq<Event>)
    requires Run(Step, s, es).Some?
    decreases es
  {
    es == [] || (!DropsWork(s, es[0], user) && DropsNoWork(user, Step(s, es[0]).value, es[1..]))
  }

  /** In every state along the run. */
  ghost predicate AlwaysOnlyEntry(user: UserId, s: State, es: seq<Event>)
    requires Run(Step, s, es).Some?
    decreases es
  {
    OnlyEntryWorks(s.lanes, user) && (es == [] || AlwaysOnlyEntry(user, Step(s, es[0]).value, es[1..]))
  }

  /** Along a run the user's jobs stay with one worker, the entry's, if and only if they start there and
      no collection drops the lane while it has work. */
  lemma {:induction false} OneWorkerExactlyWhenNoWorkDropped(s: State, es: seq<Event>, user: UserId)
    requires Inv(s) && Run(Step, s, es).Some?
    ensures AlwaysOnlyEntry(user, s, es) <==> OnlyEntryWorks(s.lanes, user) && DropsNoWork(user, s, es)
    decreases es
  {
    if es != [] && OnlyEntryWorks(s.lanes, user) {
      StepKeepsOnlyEntry(s, es[0], user);
      StepKeepsInv(s, es[0]);
      OneWorkerExactlyWhenNoWorkDropped(Step(s, es[0]).value, es[1..], user);
    }
  }

  predicate RunsFor(w: Worker, user: UserId) { w.user == user && w.phase.Busy? }

  /** Two jobs of the user are being run. */
  ghost predicate Overlap(s: State, user: UserId)
  {
    exists i, j :: 0 <= i < j < |s.lanes.workers| &&
      RunsFor(s.lanes.workers[i], user) && RunsFor(s.lanes.workers[j], user)
  }

  ghost predicate NoCollect(es: seq<Event>) { forall k :: 0 <= k < |es| ==> !es[k].Collect? }

  /** Without any further collection, two jobs of the user may still come to run at once. */
  ghost predicate MayOverlap(s: State, user: UserId)
  {
    exists es :: NoCollect(es) && Run(Step, s, es).Some? && Overlap(Run(Step, s, es).value, user)
  }

  lemma {:induction false} OnlyEntryLasts(s: State, es: seq<Event>, user: UserId)
    requires Inv(s) && OnlyEntryWorks(s.lanes, user) && NoCollect(es) && Run(Step, s, es).Some?
    ensures OnlyEntryWorks(Run(Step, s, es).value.lanes, user)
    decreases es
  {
    if es != [] {
      assert !es[0].Collect? && forall k :: 0 <= k < |es[1..]| ==> es[1..][k] == es[k + 1];
      StepKeepsOnlyEntry(s, es[0], user);
      StepKeepsInv(s, es[0]);
      OnlyEntryLasts(Step(s, es[0]).value, es[1..], user);
    }
  }

  /** es is a run from s to t without collections. */
  ghost predicate Reaches(s: State, es: seq<Event>, t: State) { NoCollect(es) && Run(Step, s, es) == Some(t) }

  lemma ReachesJoin(a: State, es: seq<Event>, b: State, fs: seq<Event>, c: State)
    requires Reaches(a, es, b) && Reaches(b, fs, c)
    ensures Reaches(a, es + fs, c)
  {
    RunsJoin(Step, a, es, b, fs, c);
  }

  /** A worker with work comes to run a job by its own actions alone. */
  lemma StartsAJob(s: State, i: nat) returns (es: seq<Event>, end: State)
    requires Inv(s) && i < |s.lanes.workers| && HasWork(s.lanes.workers[i])
    ensures Reaches(s, es, end) && Inv(end) && end.lanes.slots == s.lanes.slots && end.cap == s.cap
    ensures |end.lanes.workers| == |s.lanes.workers| && end.lanes.workers[i].phase.Busy?
    ensures end.lanes.workers[i].user == s.lanes.workers[i].user
    ensures forall j :: 0 <= j < |s.lanes.workers| && j != i ==> end.lanes.workers[j] == s.lanes.workers[j]
  {
    assert Ordered(s.lanes.workers[i], s.cap);
    es, end := [], s;
    if end.lanes.workers[i].phase.Idle? {
      var next := Step(end, Work(i)).value;
      WorkKeepsInv(end, i);
      RunOfOne(Step, end, Work(i), next);
      es, end := [Work(i)], next;
    }
    if end.lanes.workers[i].phase.Took? {
      var next := Step(end, Work(i)).value;
      WorkKeepsInv(end, i);
      RunOfOne(Step, end, Work(i), next);
      ReachesJoin(s, es, end, [Work(i)], next);
      es, end := es + [Work(i)], next;
    }
  }

  /** One more job gives the user's entry work, if it had none. */
  lemma EntryGetsWork(s: State, user: UserId, job: Job, now: int) returns (es: seq<Event>, end: State)
    requires Inv(s)
    ensures Reaches(s, es, end) && Inv(end) && |s.lanes.workers| <= |end.lanes.workers|
    ensures user in end.lanes.slots && end.lanes.slots[user].worker < |end.lanes.workers|
    ensures var j := end.lanes.slots[user].worker;
            && HasWork(end.lanes.workers[j]) && end.lanes.workers[j].user == user
            && (if user in s.lanes.slots then j == s.lanes.slots[user].worker else j == |s.lanes.workers|)
            && forall i :: 0 <= i < |s.lanes.workers| && i != j ==> end.lanes.workers[i] == s.lanes.workers[i]
  {
    if user in s.lanes.slots {
      assert SlotServed(s.lanes, user);
      assert Ordered(s.lanes.workers[s.lanes.slots[user].worker], s.cap);
    }
    if user in s.lanes.slots && HasWork(s.lanes.workers[s.lanes.slots[user].worker]) {
      es, end := [], s;
    } else {
      end := Step(s, Send(user, job, now)).value;
      SendKeepsInv(s, user, job, now);
      RunOfOne(Step, s, Send(user, job, now), end);
      es := [Send(user, job, now)];
    }
  }

  lemma OrphanOverlaps(s: State, user: UserId, i: nat)
    requires Inv(s) && i < |s.lanes.workers| && s.lanes.workers[i].user == user && HasWork(s.lanes.workers[i])
    requires user in s.lanes.slots ==> s.lanes.slots[user].worker != i
    ensures MayOverlap(s, user)
  {
    var first, s1 := StartsAJob(s, i);
    var second, s2 := EntryGetsWork(s1, user, 0, 0);
    var j := s2.lanes.slots[user].worker;
    var third, s3 := StartsAJob(s2, j);
    ReachesJoin(s, first, s1, second, s2);
    ReachesJoin(s, first + second, s2, third, s3);
    assert Overlap(s3, user);
  }

  /** In any reachable state: two jobs of a user can come to run at once, without any further
      collection, if and only if a worker other than the entry's already has work of that user. */
  lemma OverlapExactlyWhenOrphanHasWork(s: State, user: UserId)
    requires Inv(s)
    ensures MayOverlap(s, user) <==> !OnlyEntryWorks(s.lanes, user)
  {
    if OnlyEntryWorks(s.lanes, user) {
      forall es | NoCollect(es) && Run(Step, s, es).Some? ensures !Overlap(Run(Step, s, es).value, user) {
        OnlyEntryLasts(s, es, user);
      }
    } else {
      var i :| 0 <= i < |s.lanes.workers| && s.lanes.workers[i].user == user && HasWork(s.lanes.workers[i]) &&
               !(user in s.lanes.slots && s.lanes.slots[user].worker == i);
      OrphanOverlaps(s, user, i);
    }
  }

  /** It is reachable, for any user, job and cap: the job is still waiting when the lane of the
      disconnected user is dropped for idleness, and the user comes back. */
  lemma WaitingJobCanOverlap(cap: nat, user: UserId, job: Job, now: int) returns (es: seq<Event>)
    requires cap > 0
    ensures Run(Step, State(Lanes(map[], []), map[], cap), es).Some?
    ensures var s := Run(Step, State(Lanes(map[], []), map[], cap), es).value;
            Get(s.connections, user) > 0 && MayOverlap(s, user)
  {
    var s0 := State(Lanes(map[], []), map[], cap);
    var later := now + FIFO_IDLE_GC_MS;
    var s1 := Step(s0, Send(user, job, now)).value;
    var s2 := Step(s1, Collect(later)).value;
    var s3 := Step(s2, Connections(user, 1)).value;
    RunOfTwo(Step, s0, Send(user, job, now), s1, Collect(later), s2);
    RunOfOne(Step, s2, Connections(user, 1), s3);
    RunsJoin(Step, s0, [Send(user, job, now), Collect(later)], s2, [Connections(user, 1)], s3);
    es := [Send(user, job, now), Collect(later)] + [Connections(user, 1)];
    ReachableStatesAreOrdered(cap, es);
    assert user !in s2.lanes.slots && HasWork(s3.lanes.workers[0]);
    OrphanOverlaps(s3, user, 0);
  }
}
