/** The coalescing typing queue: per user at most one waiting frame per chat, one worker task that
    drains it, and a lazy GC that must not pull a slot from under its worker. */
module TypingQueue {
  import opened Runs
  import opened Counting

  type UserId = string
  type ChatId = string
  type Job = nat

  const TYPING_QUEUE_MAX: nat := 512
  const FIFO_IDLE_GC_MS: int := 60_000

  datatype Entry = Entry(chat: ChatId, isTyping: Option<bool>, job: Job)

  datatype Slot = Slot(queue: seq<Entry>, running: bool, lastUsed: int)

  predicate Same(e: Entry, f: Entry) { e.chat == f.chat && e.isTyping == f.isTyping }

  /** First waiting frame with the same chat and the same flag. */
  function Find(queue: seq<Entry>, e: Entry): (i: nat)
    ensures i <= |queue|
    ensures i < |queue| ==> Same(queue[i], e)
    ensures forall j :: 0 <= j < i ==> !Same(queue[j], e)
  {
    if queue == [] || Same(queue[0], e) then 0 else 1 + Find(queue[1..], e)
  }

  /** What `retain(|j| j.chat_id != chat_id)` leaves. */
  function OtherChats(queue: seq<Entry>, chat: ChatId): (r: seq<Entry>)
    ensures |r| <= |queue|
    ensures forall e :: e in r <==> e in queue && e.chat != chat
    ensures UniqueChats(queue) ==> UniqueChats(r)
  {
    if queue == [] then []
    else
      var rest := OtherChats(queue[1..], chat);
      assert UniqueChats(queue) ==> UniqueChats(queue[1..]) && forall e :: e in rest ==> e.chat != queue[0].chat;
      if queue[0].chat != chat then [queue[0]] + rest else rest
  }

  predicate UniqueChats(queue: seq<Entry>)
  {
    forall i, j :: 0 <= i < j < |queue| ==> queue[i].chat != queue[j].chat
  }

  /** Whether this submission pushes out the oldest frame. */
  predicate Evicts(queue: seq<Entry>, e: Entry)
  {
    Find(queue, e) == |queue| && |OtherChats(queue, e.chat)| >= TYPING_QUEUE_MAX
  }

  function Coalesced(queue: seq<Entry>, e: Entry): seq<Entry>
  {
    var i := Find(queue, e);
    if i < |queue| then queue[i := queue[i].(job := e.job)]
    else
      var rest := OtherChats(queue, e.chat);
      (if |rest| >= TYPING_QUEUE_MAX then rest[1..] else rest) + [e]
  }

  predicate Kept(slot: Slot, connected: bool, now: int)
  {
    slot.running || slot.queue != [] || connected || now - slot.lastUsed < FIFO_IDLE_GC_MS
  }

  function Collected(slots: map<UserId, Slot>, connections: map<UserId, nat>, now: int): map<UserId, Slot>
  {
    map u | u in slots && Kept(slots[u], Get(connections, u) > 0, now) :: slots[u]
  }

  function QueueOf(slots: map<UserId, Slot>, user: UserId): seq<Entry>
  {
    if user in slots then slots[user].queue else []
  }
  predicate IsRunning(slots: map<UserId, Slot>, user: UserId) { user in slots && slots[user].running }

  /** One submission: the new slots, and whether a worker is spawned. */
  function Submitted(slots: map<UserId, Slot>, connections: map<UserId, nat>, user: UserId, e: Entry, now: int)
    : (map<UserId, Slot>, bool)
  {
    var g := Collected(slots, connections, now);
    (g[user := Slot(Coalesced(QueueOf(g, user), e), true, now)], !IsRunning(g, user))
  }

  /** Room for one more: the first frame goes if 512 are waiting. */
  function Room(queue: seq<Entry>): seq<Entry> { if |queue| >= TYPING_QUEUE_MAX then queue[1..] else queue }

  /** q is the queue after e came in. A frame of the same chat and flag is replaced where it stands; a
      frame of the same chat with the other flag is taken out; in the latter case, and if the chat had
      no frame, e goes to the end, all others keep their order, and of too many the first one goes. */
  ghost predicate Entered(queue: seq<Entry>, e: Entry, q: seq<Entry>)
  {
    && (forall p :: 0 <= p < |queue| && queue[p].chat == e.chat && queue[p].isTyping == e.isTyping ==>
         q == queue[p := e])
    && (forall p :: 0 <= p < |queue| && queue[p].chat == e.chat && queue[p].isTyping != e.isTyping ==>
          q == Room(queue[..p] + queue[p + 1..]) + [e])
    && ((forall p :: 0 <= p < |queue| ==> queue[p].chat != e.chat) ==> q == Room(queue) + [e])
  }

  lemma {:induction false} OthersSplit(a: seq<Entry>, b: seq<Entry>, chat: ChatId)
    ensures OtherChats(a + b, chat) == OtherChats(a, chat) + OtherChats(b, chat)
  {
    if a == [] {
      assert a + b == b;
    } else {
      assert (a + b)[1..] == a[1..] + b;
      OthersSplit(a[1..], b, chat);
    }
  }

  ghost predicate NoneOf(queue: seq<Entry>, chat: ChatId) { forall p :: 0 <= p < |queue| ==> queue[p].chat != chat }

  lemma OthersAround(a: seq<Entry>, e: Entry, b: seq<Entry>)
    requires NoneOf(a, e.chat) && NoneOf(b, e.chat)
    ensures OtherChats(a + ([e] + b), e.chat) == a + b
  {
    OthersSplit(a, [e] + b, e.chat);
    AllOthers(a, e.chat);
    AllOthers(b, e.chat);
    assert ([e] + b)[0] == e && ([e] + b)[1..] == b;
  }

  lemma CutAt<T>(queue: seq<T>, p: nat)
    requires p < |queue|
    ensures queue == queue[..p] + ([queue[p]] + queue[p + 1..])
  {
  }

  lemma NoneBesides(queue: seq<Entry>, p: nat)
    requires UniqueChats(queue) && p < |queue|
    ensures NoneOf(queue[..p], queue[p].chat) && NoneOf(queue[p + 1..], queue[p].chat)
  {
  }

  lemma OthersWithoutOne(queue: seq<Entry>, p: nat)
    requires UniqueChats(queue) && p < |queue|
    ensures OtherChats(queue, queue[p].chat) == queue[..p] + queue[p + 1..]
  {
    CutAt(queue, p);
    NoneBesides(queue, p);
    OthersAround(queue[..p], queue[p], queue[p + 1..]);
  }

  lemma {:induction false} AllOthers(queue: seq<Entry>, chat: ChatId)
    requires NoneOf(queue, chat)
    ensures OtherChats(queue, chat) == queue
  {
    if queue != [] { AllOthers(queue[1..], chat); }
  }

  lemma CoalescedIsEntered(queue: seq<Entry>, e: Entry)
    requires UniqueChats(queue)
    ensures Entered(queue, e, Coalesced(queue, e))
  {
    var q, i := Coalesced(queue, e), Find(queue, e);
    if p :| 0 <= p < |queue| && queue[p].chat == e.chat {
      assert i < |queue| ==> i == p;
      OthersWithoutOne(queue, p);
    } else {
      AllOthers(queue, e.chat);
    }
  }

  /** The queue part of a submission: replace the job of an equal frame in place, or drop the
      chat's other frame, make room, and append. */
  method Coalesce(queue: seq<Entry>, e: Entry) returns (r: seq<Entry>)
    ensures r == Coalesced(queue, e)
    ensures UniqueChats(queue) ==> Entered(queue, e, r)
  {
    if UniqueChats(queue) { CoalescedIsEntered(queue, e); }
    var i := 0;
    while i < |queue| && !Same(queue[i], e)
      invariant 0 <= i <= |queue|
      invariant forall j :: 0 <= j < i ==> !Same(queue[j], e)
    {
      i := i + 1;
    }
    if i < |queue| {
      return queue[i := queue[i].(job := e.job)];
    }
    r := OtherChats(queue, e.chat);
    if |r| >= TYPING_QUEUE_MAX { r := r[1..]; }
    r := r + [e];
  }

  /** In so many words: at work, with frames waiting, connected, or used within the last minute. */
  predicate Wanted(slot: Slot, connections: map<UserId, nat>, user: UserId, now: int)
  {
    slot.running || slot.queue != [] || (user in connections && connections[user] > 0) || now - slot.lastUsed < 60_000
  }

  class TypingMap {
    var slots: map<UserId, Slot>

    constructor ()
      ensures slots == map[]
    {
      slots := map[];
    }

    method Gc(connections: map<UserId, nat>, now: int)
      modifies this
      ensures slots == Collected(old(slots), connections, now)
      ensures forall u :: u in slots <==> u in old(slots) && Wanted(old(slots)[u], connections, u, now)
      ensures forall u :: u in slots ==> slots[u] == old(slots)[u]
    {
      var todo := slots.Keys;
      while todo != {}
        invariant todo <= slots.Keys <= old(slots).Keys
        invariant forall u :: u in slots ==> slots[u] == old(slots)[u]
        invariant forall u :: u in old(slots) && u !in todo ==>
                    (u in slots <==> Kept(old(slots)[u], Get(connections, u) > 0, now))
        decreases |todo|
      {
        var u :| u in todo;
        todo := todo - {u};
        if !slots[u].running && slots[u].queue == [] {
          var connected := u in connections && connections[u] > 0;
          if !connected && now - slots[u].lastUsed >= FIFO_IDLE_GC_MS {
            slots := slots - {u};
          }
        }
      }
    }

    /** `spawn_user_ordered_eventually`, up to the point where the worker task starts. */
    method Submit(connections: map<UserId, nat>, user: UserId, e: Entry, now: int) returns (spawn: bool)
      modifies this
      ensures (slots, spawn) == Submitted(old(slots), connections, user, e, now)
      ensures spawn <==> !(user in old(slots) && old(slots)[user].running)
      ensures user in slots && slots[user].running && slots[user].lastUsed == now
      ensures UniqueChats(QueueOf(old(slots), user)) ==> Entered(QueueOf(old(slots), user), e, slots[user].queue)
      ensures forall u :: u != user ==> (u in slots <==> u in old(slots) && Wanted(old(slots)[u], connections, u, now))
      ensures forall u :: u != user && u in slots ==> slots[u] == old(slots)[u]
    {
      Gc(connections, now);
      var slot := if user in slots then slots[user] else Slot([], false, now);
      var queue := Coalesce(slot.queue, e);
      spawn := !slot.running;
      slots := slots[user := Slot(queue, true, now)];
    }
  }

  // ---- submissions and workers, interleaved ----

  datatype Phase =
    | AtLock               // about to take the lock and pop
    | Running(entry: Entry)
    | Stopped

  datatype Worker = Worker(user: UserId, phase: Phase)

  /** Jobs submitted and started, per user and chat, and the chats whose last job was evicted. */
  datatype History = History(submitted: map<(UserId, ChatId), seq<Job>>, started: map<(UserId, ChatId), seq<Job>>,
                             evicted: set<(UserId, ChatId)>)

  datatype State = State(slots: map<UserId, Slot>, workers: seq<Worker>, connections: map<UserId, nat>,
    history: History)

  datatype Event =
    | Submit(user: UserId, entry: Entry, now: int)
    | Connections(user: UserId, count: nat)
    | Work(i: nat)

  const Initial: State := State(map[], [], map[], History(map[], map[], {}))

  function Jobs(m: map<(UserId, ChatId), seq<Job>>, u: UserId, c: ChatId): seq<Job>
  {
    if (u, c) in m then m[(u, c)] else []
  }

  function Noted(m: map<(UserId, ChatId), seq<Job>>, u: UserId, e: Entry): map<(UserId, ChatId), seq<Job>>
  {
    m[(u, e.chat) := Jobs(m, u, e.chat) + [e.job]]
  }

  function Evicted(h: History, u: UserId, queue: seq<Entry>, e: Entry): set<(UserId, ChatId)>
  {
    h.evicted - {(u, e.chat)} + if Evicts(queue, e) then {(u, OtherChats(queue, e.chat)[0].chat)} else {}
  }

  function Step(s: State, e: Event): Option<State>
  {
    match e
    case Connections(user, count) => Some(s.(connections := s.connections[user := count]))
    case Submit(user, entry, now) => Some(AfterSubmit(s, user, entry, now))
    case Work(i) => if i < |s.workers| && !s.workers[i].phase.Stopped? then Some(AfterWork(s, i)) else None
  }

  function AfterSubmit(s: State, user: UserId, entry: Entry, now: int): State
  {
    var (slots, spawn) := Submitted(s.slots, s.connections, user, entry, now);
    State(slots, if spawn then s.workers + [Worker(user, AtLock)] else s.workers, s.connections,
          s.history.(submitted := Noted(s.history.submitted, user, entry),
                     evicted := Evicted(s.history, user, QueueOf(s.slots, user), entry)))
  }

  function AfterWork(s: State, i: nat): State
    requires i < |s.workers|
  {
    var w := s.workers[i];
    if w.phase.Running? then s.(workers := s.workers[i := w.(phase := AtLock)])
    else if w.user !in s.slots then s.(workers := s.workers[i := w.(phase := Stopped)])
    else
      var slot := s.slots[w.user];
      if slot.queue == [] then
        s.(workers := s.workers[i := w.(phase := Stopped)], slots := s.slots[w.user := slot.(running := false)])
      else
        s.(workers := s.workers[i := w.(phase := Running(slot.queue[0]))],
           slots := s.slots[w.user := slot.(queue := slot.queue[1..])],
           history := s.history.(started := Noted(s.history.started, w.user, slot.queue[0])))
  }

  // ---- the queue and its worker ----

  function Active(user: UserId): Worker -> bool { (w: Worker) => w.user == user && !w.phase.Stopped? }

  /** At most one frame per chat, bounded, and a worker exactly while `running`. */
  ghost predicate UserOk(s: State, u: UserId)
  {
    && UniqueChats(QueueOf(s.slots, u)) && |QueueOf(s.slots, u)| <= TYPING_QUEUE_MAX
    && (QueueOf(s.slots, u) != [] ==> IsRunning(s.slots, u))
    && Count(s.workers, Active(u)) == Bit(IsRunning(s.slots, u))
  }

  /** The waiting job of a chat, if any. */
  function Pending(queue: seq<Entry>, c: ChatId): (r: seq<Job>)
    ensures r == [] <==> forall e :: e in queue ==> e.chat != c
    ensures UniqueChats(queue) ==> forall e :: e in queue && e.chat == c ==> r == [e.job]
    ensures |r| <= 1
  {
    if queue == [] then [] else if queue[0].chat == c then [queue[0].job] else Pending(queue[1..], c)
  }

  /** `at` places the items of a inside b, in order. */
  predicate Embeds(a: seq<Job>, b: seq<Job>, at: seq<nat>)
  {
    && |at| == |a|
    && (forall i :: 0 <= i < |a| ==> at[i] < |b| && b[at[i]] == a[i])
    && (forall i, j :: 0 <= i < j < |a| ==> at[i] < at[j])
  }

  ghost predicate Subsequence(a: seq<Job>, b: seq<Job>) { exists at :: Embeds(a, b, at) }

  lemma SubsequenceShorter(a: seq<Job>, x: Job, b: seq<Job>)
    requires Subsequence(a + [x], b)
    ensures Subsequence(a, b)
  {
    var at: seq<nat> :| Embeds(a + [x], b, at);
    assert forall i :: 0 <= i < |a| ==> (a + [x])[i] == a[i];
    assert Embeds(a, b, at[..|a|]);
  }

  lemma SubsequenceLonger(a: seq<Job>, b: seq<Job>, x: Job)
    requires Subsequence(a, b)
    ensures Subsequence(a, b + [x]) && Subsequence(a + [x], b + [x])
  {
    var at: seq<nat> :| Embeds(a, b, at);
    assert Embeds(a, b + [x], at);
    assert Embeds(a + [x], b + [x], at + [|b|]);
  }

  /** What was started for a chat, followed by what waits, is part of what was submitted, in order,
      and ends with the last submission unless that was evicted. */
  ghost predicate InStep(started: seq<Job>, waiting: seq<Job>, all: seq<Job>, evicted: bool)
  {
    var done := started + waiting;
    Subsequence(done, all) && (all != [] && !evicted ==> done != [] && done[|done| - 1] == all[|all| - 1])
  }

  ghost predicate ChatOk(s: State, u: UserId, c: ChatId)
  {
    InStep(Jobs(s.history.started, u, c), Pending(QueueOf(s.slots, u), c), Jobs(s.history.submitted, u, c),
      (u, c) in s.history.evicted)
  }

  lemma WaitingDropped(started: seq<Job>, waiting: seq<Job>, all: seq<Job>)
    requires Subsequence(started + waiting, all) && |waiting| <= 1
    ensures Subsequence(started + [], all)
  {
    assert started + [] == started;
    if waiting != [] {
      assert started + waiting == started + [waiting[0]];
      SubsequenceShorter(started, waiting[0], all);
    } else {
      assert started + waiting == started;
    }
  }

  lemma NewJobWaits(started: seq<Job>, waiting: seq<Job>, all: seq<Job>, evicted: bool, job: Job)
    requires InStep(started, waiting, all, evicted) && |waiting| <= 1
    ensures InStep(started, [job], all + [job], false)
  {
    WaitingDropped(started, waiting, all);
    assert started + [] == started;
    SubsequenceLonger(started, all, job);
  }

  lemma WaitingJobStarts(started: seq<Job>, job: Job, all: seq<Job>, evicted: bool)
    requires InStep(started, [job], all, evicted)
    ensures InStep(started + [job], [], all, evicted)
  {
    assert (started + [job]) + [] == started + [job];
  }

  ghost predicate Inv(s: State) { forall u :: UserOk(s, u) && forall c :: ChatOk(s, u, c) }

  lemma CoalescedStaysBounded(queue: seq<Entry>, e: Entry)
    requires UniqueChats(queue) && |queue| <= TYPING_QUEUE_MAX
    ensures UniqueChats(Coalesced(queue, e)) && 0 < |Coalesced(queue, e)| <= TYPING_QUEUE_MAX
  {
    var rest := OtherChats(queue, e.chat);
    forall i | 0 <= i < |rest| ensures rest[i].chat != e.chat { assert rest[i] in rest; }
  }

  lemma ReplacedPending(queue: seq<Entry>, e: Entry, c: ChatId)
    requires UniqueChats(queue) && Find(queue, e) < |queue|
    ensures Pending(Coalesced(queue, e), c) == if c == e.chat then [e.job] else Pending(queue, c)
  {
    var q := Coalesced(queue, e);
    var i := Find(queue, e);
    assert UniqueChats(q) by { assert forall j :: 0 <= j < |q| ==> q[j].chat == queue[j].chat; }
    if c == e.chat {
      assert q[i] in q;
    } else {
      forall x: Entry | x.chat == c ensures x in queue <==> x in q {
        assert forall j :: 0 <= j < |q| && queue[j].chat == c ==> q[j] == queue[j];
      }
      PendingSame(queue, q, c);
    }
  }

  lemma AppendedPending(queue: seq<Entry>, e: Entry, c: ChatId)
    requires UniqueChats(queue) && Find(queue, e) == |queue|
    ensures Pending(Coalesced(queue, e), c) ==
            if c == e.chat then [e.job]
            else if Evicts(queue, e) && OtherChats(queue, e.chat)[0].chat == c then []
            else Pending(queue, c)
  {
    var q := Coalesced(queue, e);
    var rest := OtherChats(queue, e.chat);
    var kept := if |rest| >= TYPING_QUEUE_MAX then rest[1..] else rest;
    assert |rest| > 0 ==> rest == [rest[0]] + rest[1..];
    assert forall x :: x in kept ==> x in rest;
    UniqueAppend(kept, e);
    assert forall x :: x in q <==> x in kept || x == e;
    if c != e.chat {
      if Evicts(queue, e) && rest[0].chat == c {
        assert forall x :: x in rest[1..] ==> x.chat != c;
      } else {
        PendingSame(queue, q, c);
      }
    }
  }

  /** After a submission the chat waits with the new job; the other chats wait as before, except
      the evicted one. */
  lemma CoalescedPending(queue: seq<Entry>, e: Entry, c: ChatId)
    requires UniqueChats(queue)
    ensures Pending(Coalesced(queue, e), c) ==
            if c == e.chat then [e.job]
            else if Evicts(queue, e) && OtherChats(queue, e.chat)[0].chat == c then []
            else Pending(queue, c)
  {
    if Find(queue, e) < |queue| { ReplacedPending(queue, e, c); } else { AppendedPending(queue, e, c); }
  }

  lemma UniqueAppend(kept: seq<Entry>, e: Entry)
    requires UniqueChats(kept) && forall x :: x in kept ==> x.chat != e.chat
    ensures UniqueChats(kept + [e])
  {
    assert forall i :: 0 <= i < |kept| ==> kept[i] in kept;
  }

  lemma PendingSame(p: seq<Entry>, q: seq<Entry>, c: ChatId)
    requires UniqueChats(p) && UniqueChats(q)
    requires forall e: Entry :: e.chat == c ==> (e in p <==> e in q)
    ensures Pending(p, c) == Pending(q, c)
  {
    if Pending(p, c) != [] {
      var e :| e in p && e.chat == c;
      assert e in q;
    } else {
      assert forall e :: e in q ==> e.chat != c;
    }
  }

  lemma QueueSurvivesGc(s: State, u: UserId, now: int)
    requires UserOk(s, u)
    ensures QueueOf(Collected(s.slots, s.connections, now), u) == QueueOf(s.slots, u)
    ensures IsRunning(Collected(s.slots, s.connections, now), u) == IsRunning(s.slots, u)
  {
  }

  lemma SubmitKeepsUser(s: State, user: UserId, entry: Entry, now: int, u: UserId)
    requires UserOk(s, user) && UserOk(s, u)
    ensures UserOk(AfterSubmit(s, user, entry, now), u)
  {
    QueueSurvivesGc(s, u, now);
    QueueSurvivesGc(s, user, now);
    CoalescedStaysBounded(QueueOf(s.slots, user), entry);
    CountAppend(s.workers, Worker(user, AtLock), Active(u));
  }

  lemma EvictedIsOther(queue: seq<Entry>, e: Entry)
    requires Evicts(queue, e)
    ensures OtherChats(queue, e.chat)[0].chat != e.chat
  {
    assert OtherChats(queue, e.chat)[0] in OtherChats(queue, e.chat);
  }

  lemma CoalescingKeepsStep(queue: seq<Entry>, e: Entry, c: ChatId, started: seq<Job>, all: seq<Job>, evicted: bool)
    requires UniqueChats(queue) && InStep(started, Pending(queue, c), all, evicted)
    ensures InStep(started, Pending(Coalesced(queue, e), c), if c == e.chat then all + [e.job] else all,
                   (evicted && c != e.chat) || (Evicts(queue, e) && OtherChats(queue, e.chat)[0].chat == c))
  {
    CoalescedPending(queue, e, c);
    if c == e.chat {
      NewJobWaits(started, Pending(queue, c), all, evicted, e.job);
      if Evicts(queue, e) { EvictedIsOther(queue, e); }
    } else {
      WaitingDropped(started, Pending(queue, c), all);
    }
  }

  lemma SubmitKeepsChat(s: State, user: UserId, entry: Entry, now: int, u: UserId, c: ChatId)
    requires UserOk(s, user) && UserOk(s, u) && ChatOk(s, u, c)
    ensures ChatOk(AfterSubmit(s, user, entry, now), u, c)
  {
    QueueSurvivesGc(s, u, now);
    QueueSurvivesGc(s, user, now);
    if u == user {
      CoalescingKeepsStep(QueueOf(s.slots, user), entry, c, Jobs(s.history.started, u, c),
        Jobs(s.history.submitted, u, c), (u, c) in s.history.evicted);
    }
  }

  lemma WorkKeepsUser(s: State, i: nat, u: UserId)
    requires UserOk(s, u) && i < |s.workers| && !s.workers[i].phase.Stopped? && UserOk(s, s.workers[i].user)
    ensures UserOk(AfterWork(s, i), u)
    ensures s.workers[i].user in s.slots && s.slots[s.workers[i].user].running
  {
    CountUpdate(s.workers, i, AfterWork(s, i).workers[i], Active(u));
    CountPositive(s.workers, Active(s.workers[i].user));
    if s.workers[i].phase.AtLock? && s.workers[i].user == u && QueueOf(s.slots, u) != [] {
      assert forall j, k :: 0 <= j < k < |QueueOf(s.slots, u)[1..]| ==>
             QueueOf(s.slots, u)[1..][j].chat != QueueOf(s.slots, u)[1..][k].chat;
    }
  }

  lemma PopKeepsStep(queue: seq<Entry>, c: ChatId, started: seq<Job>, all: seq<Job>, evicted: bool)
    requires queue != [] && UniqueChats(queue) && InStep(started, Pending(queue, c), all, evicted)
    ensures var more := if queue[0].chat == c then started + [queue[0].job] else started;
            InStep(more, Pending(queue[1..], c), all, evicted)
  {
    if queue[0].chat == c {
      assert forall e :: e in queue[1..] ==> e.chat != c;
      WaitingJobStarts(started, queue[0].job, all, evicted);
    }
  }

  /** Only the popped frame's own chat has started anything new. */
  lemma PoppedHistory(s: State, i: nat, u: UserId, c: ChatId)
    requires i < |s.workers| && s.workers[i].phase.AtLock? && QueueOf(s.slots, s.workers[i].user) != []
    ensures var s' := AfterWork(s, i); var w := s.workers[i]; var head := QueueOf(s.slots, w.user)[0];
            && QueueOf(s'.slots, u) == (if u == w.user then QueueOf(s.slots, u)[1..] else QueueOf(s.slots, u))
            && Jobs(s'.history.started, u, c) ==
                 (if u == w.user && c == head.chat then Jobs(s.history.started, u, c) + [head.job]
                   else Jobs(s.history.started, u, c))
            && s'.history.submitted == s.history.submitted && s'.history.evicted == s.history.evicted
  {
  }

  lemma NothingPopped(s: State, i: nat, u: UserId)
    requires i < |s.workers| && !s.workers[i].phase.Stopped? &&
             !(s.workers[i].phase.AtLock? && QueueOf(s.slots, s.workers[i].user) != [])
    ensures QueueOf(AfterWork(s, i).slots, u) == QueueOf(s.slots, u) && AfterWork(s, i).history == s.history
  {
  }

  lemma WorkKeepsChat(s: State, i: nat, u: UserId, c: ChatId)
    requires UserOk(s, u) && ChatOk(s, u, c)
    requires i < |s.workers| && !s.workers[i].phase.Stopped?
    ensures ChatOk(AfterWork(s, i), u, c)
  {
    var w := s.workers[i];
    if w.phase.AtLock? && QueueOf(s.slots, w.user) != [] {
      PoppedHistory(s, i, u, c);
      if w.user == u {
        PopKeepsStep(QueueOf(s.slots, u), c, Jobs(s.history.started, u, c), Jobs(s.history.submitted, u, c),
          (u, c) in s.history.evicted);
      }
    } else {
      NothingPopped(s, i, u);
    }
  }

  lemma StepKeepsInv(s: State, e: Event)
    requires Inv(s) && Step(s, e).Some?
    ensures Inv(Step(s, e).value)
  {
    var s' := Step(s, e).value;
    forall u ensures UserOk(s', u) {
      assert UserOk(s, u);
      match e
      case Submit(user, entry, now) => assert UserOk(s, user); SubmitKeepsUser(s, user, entry, now, u);
      case Work(i) => assert UserOk(s, s.workers[i].user); WorkKeepsUser(s, i, u);
      case Connections(_, _) =>
    }
    forall u, c ensures ChatOk(s', u, c) {
      assert UserOk(s, u) && ChatOk(s, u, c);
      match e
      case Submit(user, entry, now) => assert UserOk(s, user); SubmitKeepsChat(s, user, entry, now, u, c);
      case Work(i) => WorkKeepsChat(s, i, u, c);
      case Connections(_, _) =>
    }
  }

  lemma EveryRunKeepsInv(es: seq<Event>)
    requires Run(Step, Initial, es).Some?
    ensures Inv(Run(Step, Initial, es).value)
  {
    forall u, c ensures UserOk(Initial, u) && ChatOk(Initial, u, c) {
      assert Embeds([], [], []);
    }
    forall s, e | Inv(s) && Step(s, e).Some? ensures Inv(Step(s, e).value) { StepKeepsInv(s, e); }
    RunKeeps(Step, Inv, Initial, es);
  }

  /** What the invariant says for one user and chat. */
  ghost predicate SoundFor(s: State, u: UserId, c: ChatId)
  {
    var queue := QueueOf(s.slots, u);
    var all := Jobs(s.history.submitted, u, c);
    var done := Jobs(s.history.started, u, c) + Pending(queue, c);
    && UniqueChats(queue) && |queue| <= TYPING_QUEUE_MAX
    && (queue != [] ==> IsRunning(s.slots, u))
    && Count(s.workers, Active(u)) == Bit(IsRunning(s.slots, u))
    && Subsequence(done, all)
    && (all != [] && (u, c) !in s.history.evicted ==> done != [] && done[|done| - 1] == all[|all| - 1])
  }

  lemma OkIsSound(s: State, u: UserId, c: ChatId)
    requires UserOk(s, u) && ChatOk(s, u, c)
    ensures SoundFor(s, u, c)
  {
  }

  /** In every reachable state, for every user and chat. */
  lemma TypingQueueIsSound(es: seq<Event>, u: UserId, c: ChatId)
    requires Run(Step, Initial, es).Some?
    ensures SoundFor(Run(Step, Initial, es).value, u, c)
  {
    EveryRunKeepsInv(es);
    var s := Run(Step, Initial, es).value;
    assert UserOk(s, u) && ChatOk(s, u, c);
    OkIsSound(s, u, c);
  }

  // ---- the job that runs ----

  /** The job in a worker's hands is the last one started for its user and chat. */
  ghost predicate RunsLastStarted(s: State, i: nat)
    requires i < |s.workers|
  {
    var w := s.workers[i];
    w.phase.Running? ==>
      var started := Jobs(s.history.started, w.user, w.phase.entry.chat);
      started != [] && started[|started| - 1] == w.phase.entry.job
  }

  ghost predicate AllRunLastStarted(s: State) { Inv(s) && forall i :: 0 <= i < |s.workers| ==> RunsLastStarted(s, i) }

  lemma WorkRunsLastStarted(s: State, k: nat, i: nat)
    requires AllRunLastStarted(s) && k < |s.workers| && !s.workers[k].phase.Stopped? && i < |s.workers|
    ensures RunsLastStarted(AfterWork(s, k), i)
  {
    assert RunsLastStarted(s, i) && UserOk(s, s.workers[i].user);
    if i != k && s.workers[i].phase.Running? { OneActive(s, i, k); }
  }

  /** In every run the jobs that are executed are the jobs that were started. */
  lemma StartedJobsRun(es: seq<Event>)
    requires Run(Step, Initial, es).Some?
    ensures AllRunLastStarted(Run(Step, Initial, es).value)
  {
    forall s, e | AllRunLastStarted(s) && Step(s, e).Some? ensures AllRunLastStarted(Step(s, e).value) {
      StepKeepsInv(s, e);
      var s' := Step(s, e).value;
      forall i | 0 <= i < |s'.workers| ensures RunsLastStarted(s', i) {
        match e
        case Work(k) => WorkRunsLastStarted(s, k, i);
        case Submit(_, _, _) => if i < |s.workers| { assert RunsLastStarted(s, i); }
        case Connections(_, _) => assert RunsLastStarted(s, i);
      }
    }
    EveryRunKeepsInv([]);
    RunKeeps(Step, AllRunLastStarted, Initial, es);
  }

  /** The GC leaves the slot of every live worker alone, so a worker always finds it. */
  lemma GcSparesWorkers(es: seq<Event>, i: nat, now: int)
    requires Run(Step, Initial, es).Some?
    requires i < |Run(Step, Initial, es).value.workers| && !Run(Step, Initial, es).value.workers[i].phase.Stopped?
    ensures var s := Run(Step, Initial, es).value; var u := s.workers[i].user;
            u in s.slots && u in Collected(s.slots, s.connections, now) &&
              Collected(s.slots, s.connections, now)[u] == s.slots[u]
  {
    EveryRunKeepsInv(es);
    var s := Run(Step, Initial, es).value;
    assert UserOk(s, s.workers[i].user);
    WorkKeepsUser(s, i, s.workers[i].user);
  }

  // ---- draining ----

  /** Worker actions left if nothing more is submitted. */
  function Remaining(s: State, i: nat): nat
    requires i < |s.workers|
  {
    match s.workers[i].phase
    case Stopped => 0
    case AtLock => 1 + 2 * |QueueOf(s.slots, s.workers[i].user)|
    case Running(_) => 2 + 2 * |QueueOf(s.slots, s.workers[i].user)|
  }

  lemma {:induction false} WorkerDrains(s: State, i: nat, n: nat)
    requires i < |s.workers| && UserOk(s, s.workers[i].user) && Remaining(s, i) == n
    ensures var end := Run(Step, s, seq(n, _ => Work(i)));
            && end.Some? && i < |end.value.workers| && end.value.workers[i].phase.Stopped?
            && (n > 0 ==>
                  QueueOf(end.value.slots, s.workers[i].user) == [] && !IsRunning(end.value.slots, s.workers[i].user))
    decreases n
  {
    var es := seq(n, _ => Work(i));
    if n > 0 {
      var u := s.workers[i].user;
      WorkKeepsUser(s, i, u);
      var s' := AfterWork(s, i);
      assert es[1..] == seq(n - 1, _ => Work(i));
      assert Remaining(s', i) == n - 1;
      WorkerDrains(s', i, n - 1);
    }
  }

  /** Without new submissions, and with whatever other users do in between, the worker's own
      actions stay enabled, each one brings it closer to its end, and it ends with nothing waiting. */
  lemma OthersDoNotDelay(s: State, e: Event, i: nat)
    requires Inv(s) && Step(s, e).Some? && i < |s.workers| && !s.workers[i].phase.Stopped?
    requires e != Work(i) && (e.Submit? ==> e.user != s.workers[i].user)
    ensures var s' := Step(s, e).value;
            s'.workers[i] == s.workers[i] && Remaining(s', i) == Remaining(s, i) && Step(s', Work(i)).Some?
  {
    var u := s.workers[i].user;
    assert UserOk(s, u);
    WorkKeepsUser(s, i, u);
    if e.Work? {
      OneActive(s, i, e.i);
    }
  }

  lemma OneActive(s: State, i: nat, j: nat)
    requires i < |s.workers| && j < |s.workers| && i != j && UserOk(s, s.workers[i].user)
    requires !s.workers[i].phase.Stopped? && !s.workers[j].phase.Stopped?
    ensures s.workers[i].user != s.workers[j].user
  {
    var u := s.workers[i].user;
    var without := s.workers[i := s.workers[i].(phase := Stopped)];
    CountUpdate(s.workers, i, s.workers[i].(phase := Stopped), Active(u));
    CountPositive(without, Active(u));
    assert without[j] == s.workers[j];
  }

  function IsWorkOf(i: nat): Event -> bool { (e: Event) => e == Work(i) }

  ghost predicate NoSubmitBy(user: UserId, es: seq<Event>)
  {
    forall k :: 0 <= k < |es| && es[k].Submit? ==> es[k].user != user
  }

  /** The worker is at work, or has stopped with nothing left. */
  ghost predicate Draining(s: State, i: nat)
  {
    && Inv(s) && i < |s.workers|
    && (s.workers[i].phase.Stopped? ==>
         QueueOf(s.slots, s.workers[i].user) == [] && !IsRunning(s.slots, s.workers[i].user))
  }

  lemma OwnActionDrains(s: State, i: nat)
    requires Inv(s) && i < |s.workers| && !s.workers[i].phase.Stopped?
    ensures var s' := AfterWork(s, i);
            && s'.workers[i].user == s.workers[i].user && Remaining(s', i) == Remaining(s, i) - 1
            && (s'.workers[i].phase.Stopped? ==>
                 QueueOf(s'.slots, s.workers[i].user) == [] && !IsRunning(s'.slots, s.workers[i].user))
  {
    assert UserOk(s, s.workers[i].user);
    WorkKeepsUser(s, i, s.workers[i].user);
  }

  /** A stopped user stays stopped until the next submission. */
  lemma StoppedStays(s: State, e: Event, i: nat)
    requires Draining(s, i) && s.workers[i].phase.Stopped? && Step(s, e).Some? &&
             (e.Submit? ==> e.user != s.workers[i].user)
    ensures var s' := Step(s, e).value; var u := s.workers[i].user;
            s'.workers[i] == s.workers[i] && QueueOf(s'.slots, u) == [] && !IsRunning(s'.slots, u)
  {
    var u := s.workers[i].user;
    assert UserOk(s, u);
    if e.Submit? { QueueSurvivesGc(s, u, e.now); }
    if e.Work? {
      assert UserOk(s, s.workers[e.i].user);
      WorkKeepsUser(s, e.i, s.workers[e.i].user);
    }
  }

  lemma StepDrains(s: State, e: Event, i: nat)
    requires Draining(s, i) && Step(s, e).Some? && (e.Submit? ==> e.user != s.workers[i].user)
    ensures var s' := Step(s, e).value;
            && Draining(s', i) && s'.workers[i].user == s.workers[i].user
            && Remaining(s', i) + Bit(e == Work(i)) == Remaining(s, i)
  {
    StepKeepsInv(s, e);
    if s.workers[i].phase.Stopped? {
      StoppedStays(s, e, i);
    } else if e == Work(i) {
      OwnActionDrains(s, i);
    } else {
      OthersDoNotDelay(s, e, i);
    }
  }

  /** Over a whole run without new submissions by that user, whatever the others do in between: each
      action of the worker leaves exactly one less to do, so it stops if and only if it has taken
      `Remaining` of them, and then nothing waits and `running` is clear. */
  lemma {:induction false} WorkerDrainsInAnyRun(s: State, es: seq<Event>, i: nat)
    requires Draining(s, i) && Run(Step, s, es).Some? && NoSubmitBy(s.workers[i].user, es)
    ensures var end := Run(Step, s, es).value; var n := Count(es, IsWorkOf(i)); var u := s.workers[i].user;
            && i < |end.workers| && n + Remaining(end, i) == Remaining(s, i)
            && (end.workers[i].phase.Stopped? <==> n == Remaining(s, i))
            && (end.workers[i].phase.Stopped? ==> QueueOf(end.slots, u) == [] && !IsRunning(end.slots, u))
            && (!end.workers[i].phase.Stopped? ==> Step(end, Work(i)).Some?)
    decreases es
  {
    if es != [] {
      StepDrains(s, es[0], i);
      assert forall k :: 0 <= k < |es[1..]| ==> es[1..][k] == es[k + 1];
      WorkerDrainsInAnyRun(Step(s, es[0]).value, es[1..], i);
    }
  }

  // ---- the order among chats ----

  /** The frame of chat c, with this flag, and ahead of it only frames of these chats. */
  ghost predicate WaitsBehind(queue: seq<Entry>, c: ChatId, flag: Option<bool>, ahead: set<ChatId>)
  {
    exists p :: 0 <= p < |queue| && PlaceOf(queue, p, c, flag, ahead)
  }

  ghost predicate PlaceOf(queue: seq<Entry>, p: nat, c: ChatId, flag: Option<bool>, ahead: set<ChatId>)
    requires p < |queue|
  {
    queue[p].chat == c && queue[p].isTyping == flag && forall k :: 0 <= k < p ==> queue[k].chat in ahead
  }

  ghost predicate Waits(queue: seq<Entry>, c: ChatId) { exists p :: 0 <= p < |queue| && queue[p].chat == c }

  lemma PlaceAfterTaking(queue: seq<Entry>, r: nat, p: nat, c: ChatId, flag: Option<bool>, ahead: set<ChatId>)
    requires r < |queue| && p < |queue| && r != p && PlaceOf(queue, p, c, flag, ahead)
    ensures WaitsBehind(queue[..r] + queue[r + 1..], c, flag, ahead)
    ensures UniqueChats(queue) ==> UniqueChats(queue[..r] + queue[r + 1..])
  {
    var rest := queue[..r] + queue[r + 1..];
    assert forall k :: 0 <= k < |rest| ==> rest[k] == queue[if k < r then k else k + 1];
    var p' := if r < p then p - 1 else p;
    assert forall k :: 0 <= k < p' ==> rest[k] == queue[if k < r then k else k + 1];
    assert PlaceOf(rest, p', c, flag, ahead);
  }

  lemma PlaceAfterAppending(queue: seq<Entry>, e: Entry, c: ChatId, flag: Option<bool>, ahead: set<ChatId>)
    requires WaitsBehind(queue, c, flag, ahead)
    ensures WaitsBehind(queue + [e], c, flag, ahead)
  {
    var p :| 0 <= p < |queue| && PlaceOf(queue, p, c, flag, ahead);
    assert PlaceOf(queue + [e], p, c, flag, ahead);
  }

  lemma PlaceAfterRoom(queue: seq<Entry>, e: Entry, c: ChatId, flag: Option<bool>, ahead: set<ChatId>)
    requires WaitsBehind(queue, c, flag, ahead) && UniqueChats(queue) && e.chat != c && Waits(Room(queue) + [e], c)
    ensures WaitsBehind(Room(queue) + [e], c, flag, ahead)
  {
    var q := Room(queue) + [e];
    var r :| 0 <= r < |q| && q[r].chat == c;
    assert r < |Room(queue)| && q[r] == Room(queue)[r];
    if |queue| >= TYPING_QUEUE_MAX { HeadIsAhead(queue, c, flag, ahead); }
    PlaceAfterAppending(Room(queue), e, c, flag, ahead);
  }

  lemma PlaceAfterReplacing(queue: seq<Entry>, r: nat, e: Entry, c: ChatId, flag: Option<bool>, ahead: set<ChatId>)
    requires r < |queue| && queue[r].chat == e.chat && WaitsBehind(queue, c, flag, ahead)
    requires e.chat == c ==> e.isTyping == flag
    ensures WaitsBehind(queue[r := e], c, flag, ahead)
  {
    var p :| 0 <= p < |queue| && PlaceOf(queue, p, c, flag, ahead);
    assert PlaceOf(queue[r := e], p, c, flag, ahead);
  }

  /** A frame that comes in gets ahead of none that stays. */
  lemma EnteringKeepsPlace(queue: seq<Entry>, e: Entry, q: seq<Entry>, c: ChatId, flag: Option<bool>,
                           ahead: set<ChatId>)
    requires UniqueChats(queue) && Entered(queue, e, q) && WaitsBehind(queue, c, flag, ahead) && Waits(q, c)
    requires e.chat == c ==> e.isTyping == flag
    ensures WaitsBehind(q, c, flag, ahead)
  {
    if r :| 0 <= r < |queue| && queue[r].chat == e.chat {
      if queue[r].isTyping == e.isTyping {
        PlaceAfterReplacing(queue, r, e, c, flag, ahead);
      } else {
        var p :| 0 <= p < |queue| && PlaceOf(queue, p, c, flag, ahead);
        PlaceAfterTaking(queue, r, p, c, flag, ahead);
        PlaceAfterRoom(queue[..r] + queue[r + 1..], e, c, flag, ahead);
      }
    } else {
      PlaceAfterRoom(queue, e, c, flag, ahead);
    }
  }

  /** Chat c waits for the user in every state along the run, and keeps its flag. */
  ghost predicate KeepsWaiting(s: State, es: seq<Event>, u: UserId, c: ChatId, flag: Option<bool>)
    requires Run(Step, s, es).Some?
    decreases es
  {
    && Waits(QueueOf(s.slots, u), c)
    && (es != [] ==> KeepsFlag(es[0], u, c, flag) && KeepsWaiting(Step(s, es[0]).value, es[1..], u, c, flag))
  }

  predicate KeepsFlag(e: Event, u: UserId, c: ChatId, flag: Option<bool>)
  {
    e.Submit? && e.user == u && e.entry.chat == c ==> e.entry.isTyping == flag
  }

  lemma StepKeepsPlace(s: State, e: Event, u: UserId, c: ChatId, flag: Option<bool>, ahead: set<ChatId>)
    requires Inv(s) && Step(s, e).Some? && KeepsFlag(e, u, c, flag)
    requires WaitsBehind(QueueOf(s.slots, u), c, flag, ahead) && Waits(QueueOf(Step(s, e).value.slots, u), c)
    ensures WaitsBehind(QueueOf(Step(s, e).value.slots, u), c, flag, ahead)
    ensures forall d :: d !in ahead ==> Jobs(Step(s, e).value.history.started, u, d) == Jobs(s.history.started, u, d)
  {
    assert UserOk(s, u);
    match e
    case Connections(_, _) =>
    case Submit(user, entry, now) =>
      QueueSurvivesGc(s, u, now);
      if user == u {
        CoalescedIsEntered(QueueOf(s.slots, u), entry);
        EnteringKeepsPlace(QueueOf(s.slots, u), entry, Coalesced(QueueOf(s.slots, u), entry), c, flag, ahead);
      }
    case Work(i) => WorkKeepsPlace(s, i, u, c, flag, ahead);
  }

  lemma WorkKeepsPlace(s: State, i: nat, u: UserId, c: ChatId, flag: Option<bool>, ahead: set<ChatId>)
    requires UserOk(s, u) && i < |s.workers| && !s.workers[i].phase.Stopped?
    requires WaitsBehind(QueueOf(s.slots, u), c, flag, ahead) && Waits(QueueOf(AfterWork(s, i).slots, u), c)
    ensures WaitsBehind(QueueOf(AfterWork(s, i).slots, u), c, flag, ahead)
    ensures forall d :: d !in ahead ==> Jobs(AfterWork(s, i).history.started, u, d) == Jobs(s.history.started, u, d)
  {
    var w := s.workers[i];
    if w.phase.AtLock? && QueueOf(s.slots, w.user) != [] {
      forall d ensures d !in ahead ==> Jobs(AfterWork(s, i).history.started, u, d) == Jobs(s.history.started, u, d) {
        PoppedHistory(s, i, u, d);
        if w.user == u { HeadIsAhead(QueueOf(s.slots, u), c, flag, ahead); }
      }
      PoppedHistory(s, i, u, c);
      if w.user == u { HeadIsAhead(QueueOf(s.slots, u), c, flag, ahead); }
    } else {
      NothingPopped(s, i, u);
    }
  }

  lemma HeadIsAhead(queue: seq<Entry>, c: ChatId, flag: Option<bool>, ahead: set<ChatId>)
    requires queue != [] && UniqueChats(queue) && WaitsBehind(queue, c, flag, ahead) && Waits(queue[1..], c)
    ensures queue[0].chat in ahead && WaitsBehind(queue[1..], c, flag, ahead)
  {
    var p :| 0 <= p < |queue| && PlaceOf(queue, p, c, flag, ahead);
    var r :| 0 <= r < |queue[1..]| && queue[1..][r].chat == c;
    assert queue[r + 1].chat == c && p == r + 1;
    assert PlaceOf(queue[1..], r, c, flag, ahead);
  }

  /** A user's frames start in the order in which they came into the queue: as long as the frame of
      chat c waits, whatever is submitted for other chats, nothing of the user is started but frames of
      chats that were ahead of it. */
  lemma {:induction false} NoFrameOvertakes(s: State, es: seq<Event>, u: UserId, c: ChatId, flag: Option<bool>,
                                            ahead: set<ChatId>)
    requires Inv(s) && WaitsBehind(QueueOf(s.slots, u), c, flag, ahead)
    requires Run(Step, s, es).Some? && KeepsWaiting(s, es, u, c, flag)
    ensures var end := Run(Step, s, es).value;
            && WaitsBehind(QueueOf(end.slots, u), c, flag, ahead)
            && forall d :: d !in ahead ==> Jobs(end.history.started, u, d) == Jobs(s.history.started, u, d)
    decreases es
  {
    if es != [] {
      var next := Step(s, es[0]).value;
      assert Waits(QueueOf(next.slots, u), c);
      StepKeepsPlace(s, es[0], u, c, flag, ahead);
      StepKeepsInv(s, es[0]);
      NoFrameOvertakes(next, es[1..], u, c, flag, ahead);
    }
  }
}
