/** The denormalised last message of a conversation. Upserts only move the tip forward; after a
    delete a refresh looks for the newest live message and otherwise clears the tip, under a guard
    on the tip's message id. */
module ConversationTips {
  import opened Runs

  type Id = nat

  datatype Message = Message(id: Id, at: int, preview: string)
  /** `lastMessageId`, `lastMessageAt`, `lastMessage`. */
  datatype Tip = Tip(id: Id, at: int, preview: string)

  function TipOf(m: Message): Tip { Tip(m.id, m.at, m.preview) }

  /** Lexicographic order on (timestamp, id). */
  predicate Below(at: int, id: Id, at': int, id': Id) { at < at' || (at == at' && id < id') }
  predicate AtMost(at: int, id: Id, at': int, id': Id) { Below(at, id, at', id') || (at == at' && id == id') }

  /** The filter of the forward-only upsert. */
  predicate Guard(tip: Option<Tip>, m: Message)
  {
    || tip.None?
    || tip.value.at < m.at
    || (tip.value.at == m.at && tip.value.id < m.id)
    || tip.value.id == m.id
  }

  function Upserted(tip: Option<Tip>, m: Message): Option<Tip> { if Guard(tip, m) then Some(TipOf(m)) else tip }

  /** The guarded clear: nothing happens unless the tip still shows that message. */
  function Cleared(tip: Option<Tip>, shown: Option<Id>): Option<Tip>
  {
    if tip.Some? && shown == Some(tip.value.id) then None else tip
  }

  /** The tip that an upsert of this message leaves, field by field: the message takes over unless a
      greater one is shown. */
  predicate TakesOver(before: Option<Tip>, after: Option<Tip>, id: Id, at: int, preview: string)
  {
    if before.None? || before.value.at < at || (before.value.at == at && before.value.id < id) || before.value.id == id
      then after == Some(Tip(id, at, preview))
      else after == before
  }

  class TipDoc {
    var tip: Option<Tip>

    constructor ()
      ensures tip == None
    {
      tip := None;
    }

    /** An upsert whose filter misses an existing document runs into the unique pair key: no effect. */
    method Upsert(m: Message)
      modifies this
      ensures tip == Upserted(old(tip), m) && TakesOver(old(tip), tip, m.id, m.at, m.preview)
    {
      if tip.None? {
        tip := Some(TipOf(m));
      } else if tip.value.at < m.at || (tip.value.at == m.at && tip.value.id < m.id) || tip.value.id == m.id {
        tip := Some(TipOf(m));
      }
    }

    method ClearIfShown(shown: Option<Id>)
      modifies this
      ensures tip == Cleared(old(tip), shown)
      ensures tip == if old(tip).Some? && shown == Some(old(tip).value.id) then None else old(tip)
    {
      if tip.Some? && shown.Some? && tip.value.id == shown.value { tip := None; }
    }
  }

  // ---- confluence of upserts ----

  function UpsertAll(tip: Option<Tip>, ms: seq<Message>): Option<Tip>
  {
    if ms == [] then tip else Upserted(UpsertAll(tip, ms[..|ms| - 1]), ms[|ms| - 1])
  }

  /** A message keeps its timestamp; only its text may be edited between upserts. */
  predicate SameClock(ms: seq<Message>)
  {
    forall i, j :: 0 <= i < |ms| && 0 <= j < |ms| && ms[i].id == ms[j].id ==> ms[i].at == ms[j].at
  }

  predicate Shows(tip: Tip, m: Message) { tip.id == m.id && tip.at == m.at && tip.preview == m.preview }

  /** The tip is the greatest message of the list, with the text of its last upsert. */
  ghost predicate IsGreatest(tip: Tip, ms: seq<Message>)
  {
    && (forall i :: 0 <= i < |ms| ==> AtMost(ms[i].at, ms[i].id, tip.at, tip.id))
    && exists i :: 0 <= i < |ms| && Shows(tip, ms[i]) && forall j :: i < j < |ms| ==> ms[j].id != tip.id
  }

  lemma {:induction false} UpsertsKeepTheGreatest(ms: seq<Message>)
    requires SameClock(ms) && ms != []
    ensures UpsertAll(None, ms).Some? && IsGreatest(UpsertAll(None, ms).value, ms)
  {
    var front, m := ms[..|ms| - 1], ms[|ms| - 1];
    if front == [] {
      assert UpsertAll(None, front) == None;
      assert ms[0] == m && Shows(UpsertAll(None, ms).value, ms[0]);
    } else {
      UpsertsKeepTheGreatest(front);
      GreatestExtends(UpsertAll(None, front).value, front, m);
      assert front + [m] == ms;
    }
  }

  lemma GreatestExtends(tip: Tip, front: seq<Message>, m: Message)
    requires SameClock(front + [m]) && IsGreatest(tip, front)
    ensures IsGreatest(Upserted(Some(tip), m).value, front + [m])
  {
    var ms := front + [m];
    var k :| 0 <= k < |front| && Shows(tip, front[k]) && forall j :: k < j < |front| ==> front[j].id != tip.id;
    assert ms[k] == front[k] && ms[|front|] == m;
    assert forall i :: 0 <= i < |front| ==> ms[i] == front[i];
    var w := if Guard(Some(tip), m) then |front| else k;
    assert Shows(Upserted(Some(tip), m).value, ms[w]) && forall j :: w < j < |ms| ==> ms[j].id != ms[w].id;
  }

  /** Any order and any repetition of the same upserts give the same tip key. */
  lemma UpsertsAreConfluent(ms: seq<Message>, ns: seq<Message>)
    requires SameClock(ms) && ms != [] && (forall m :: m in ms <==> m in ns)
    ensures UpsertAll(None, ms).Some? && UpsertAll(None, ns).Some?
    ensures UpsertAll(None, ms).value.at == UpsertAll(None, ns).value.at
    ensures UpsertAll(None, ms).value.id == UpsertAll(None, ns).value.id
  {
    assert ms[0] in ns;
    assert forall j :: 0 <= j < |ns| ==> ns[j] in ms;
    assert forall j :: 0 <= j < |ms| ==> ms[j] in ns;
    forall i, j | 0 <= i < |ns| && 0 <= j < |ns| && ns[i].id == ns[j].id ensures ns[i].at == ns[j].at {
      var i' :| 0 <= i' < |ms| && ms[i'] == ns[i];
      var j' :| 0 <= j' < |ms| && ms[j'] == ns[j];
    }
    UpsertsKeepTheGreatest(ms);
    UpsertsKeepTheGreatest(ns);
    var s, t := UpsertAll(None, ms).value, UpsertAll(None, ns).value;
    GreatestBounds(s, ms, t, ns);
    GreatestBounds(t, ns, s, ms);
  }

  lemma GreatestBounds(s: Tip, ms: seq<Message>, t: Tip, ns: seq<Message>)
    requires IsGreatest(s, ms) && IsGreatest(t, ns) && forall m :: m in ms ==> m in ns
    ensures AtMost(s.at, s.id, t.at, t.id)
  {
    var i :| 0 <= i < |ms| && Shows(s, ms[i]);
    assert ms[i] in ms;
    var j :| 0 <= j < |ns| && ns[j] == ms[i];
  }

  /** The tip key never decreases, and a message above it always takes over, however stale it is. */
  lemma UpsertMovesForward(tip: Option<Tip>, m: Message)
    requires tip.Some? && tip.value.id == m.id ==> tip.value.at == m.at
    ensures Upserted(tip, m).Some? && AtMost(m.at, m.id, Upserted(tip, m).value.at, Upserted(tip, m).value.id)
    ensures tip.Some? ==> AtMost(tip.value.at, tip.value.id, Upserted(tip, m).value.at, Upserted(tip, m).value.id)
    ensures tip.None? || Below(tip.value.at, tip.value.id, m.at, m.id) ==> Upserted(tip, m) == Some(TipOf(m))
  {
  }

  // ---- sends, deletes and refreshes, interleaved ----

  datatype Entry = Entry(at: int, deleted: bool)
  type Log = map<Id, Entry>

  predicate Live(log: Log, id: Id) { id in log && !log[id].deleted }

  /** What the newest-first query for a live message may return. */
  ghost predicate IsLatest(log: Log, latest: Option<Id>)
  {
    match latest
    case None => forall i :: !Live(log, i)
    case Some(id) => Live(log, id) && forall i :: Live(log, i) ==> AtMost(log[i].at, i, log[id].at, id)
  }

  datatype Task =
    | Probe(id: Id)                    // upsert: still-active probe
    | Update(id: Id)                   // upsert: guarded update
    | DmRead(deleted: Id)              // DM refresh: read the tip
    | DmQuery(deleted: Id)
    | ChannelRead(deleted: Id)         // channel refresh: read the tip
    | PriorRead                        // channel recompute: read the prior tip id
    | ChannelQuery(prior: Option<Id>)
    | Clear(shown: Option<Id>)         // guarded clear
    | Done

  /** `updated` holds the messages whose guarded update has run. */
  datatype State = State(log: Log, tip: Option<Tip>, tasks: seq<Task>, updated: set<Id>)

  datatype Event =
    | Insert(id: Id, at: int)
    | Delete(id: Id)
    | StartUpsert(id: Id)
    | StartDmRefresh(deleted: Id)
    | StartChannelRefresh(deleted: Id)
    | StartRecompute
    | Act(t: nat, latest: Option<Id>)  // next action of task t; `latest` is what its query returns
    | Fail(t: nat)                     // a database error ends the task

  ghost function Step(s: State, e: Event): Option<State>
  {
    match e
    case Insert(id, at) => if id in s.log then None else Some(s.(log := s.log[id := Entry(at, false)]))
    case Delete(id) => if id in s.log then Some(s.(log := s.log[id := s.log[id].(deleted := true)])) else None
    case StartUpsert(id) => if id in s.log then Some(s.(tasks := s.tasks + [Probe(id)])) else None
    case StartDmRefresh(d) => if d in s.log && s.log[d].deleted then Some(s.(tasks := s.tasks + [DmRead(d)])) else None
    case StartChannelRefresh(d) => if d in s.log && s.log[d].deleted
         then Some(s.(tasks := s.tasks + [ChannelRead(d)])) else None
    case StartRecompute => Some(s.(tasks := s.tasks + [PriorRead]))
    case Fail(t) => if t < |s.tasks| then Some(s.(tasks := s.tasks[t := Done])) else None
    case Act(t, latest) =>
      if t >= |s.tasks| || !Enabled(s.log, s.tasks[t], latest) then None
      else
        var task := s.tasks[t];
        Some(State(s.log, TipAfter(s.log, s.tip, task), s.tasks[t := TaskAfter(s.log, s.tip, task, latest)],
                   if task.Update? then s.updated + {task.id} else s.updated))
  }

  ghost predicate Enabled(log: Log, k: Task, latest: Option<Id>)
  {
    match k
    case Done => false
    case DmQuery(_) => IsLatest(log, latest)
    case ChannelQuery(_) => IsLatest(log, latest)
    case Update(id) => id in log
    case _ => true
  }

  function TaskAfter(log: Log, tip: Option<Tip>, k: Task, latest: Option<Id>): Task
  {
    match k
    case Probe(id) => if Live(log, id) then Update(id) else Done
    case Update(_) => Done
    case DmRead(d) => if tip.Some? && tip.value.id != d then Done else DmQuery(d)
    case DmQuery(d) => if latest.Some? then Probe(latest.value) else Clear(Some(d))
    case ChannelRead(d) => if tip.Some? && tip.value.id != d then Done else PriorRead
    case PriorRead => ChannelQuery(if tip.Some? then Some(tip.value.id) else None)
    case ChannelQuery(prior) => if latest.Some? then Probe(latest.value) else Clear(prior)
    case Clear(_) => Done
    case Done => Done
  }

  function TipAfter(log: Log, tip: Option<Tip>, k: Task): Option<Tip>
  {
    match k
    case Update(id) => if id in log then Upserted(tip, Message(id, log[id].at, "")) else tip
    case Clear(shown) => Cleared(tip, shown)
    case _ => tip
  }

  const Initial: State := State(map[], None, [], {})

  /** What a task may rely on: the messages it names exist, and a clear names a deleted one. */
  ghost predicate TaskOk(log: Log, k: Task)
  {
    match k
    case Probe(id) => id in log
    case Update(id) => id in log
    case DmRead(d) => d in log && log[d].deleted
    case DmQuery(d) => d in log && log[d].deleted
    case ChannelRead(d) => d in log && log[d].deleted
    case PriorRead => true
    case ChannelQuery(prior) => prior.Some? ==> prior.value in log
    case Clear(shown) => shown.Some? ==> shown.value in log && log[shown.value].deleted
    case Done => true
  }

  ghost predicate TipShowsMessage(s: State)
  {
    s.tip.Some? ==> s.tip.value.id in s.log && s.log[s.tip.value.id].at == s.tip.value.at
  }

  ghost predicate Inv(s: State)
  {
    && TipShowsMessage(s)
    && (forall i :: i in s.updated ==> i in s.log)
    && (forall t :: 0 <= t < |s.tasks| ==> TaskOk(s.log, s.tasks[t]))
  }

  lemma StepKeepsInv(s: State, e: Event)
    requires Inv(s) && Step(s, e).Some?
    ensures Inv(Step(s, e).value)
  {
    var s' := Step(s, e).value;
    if e.Act? {
      assert TaskOk(s.log, s.tasks[e.t]);
      if s.tasks[e.t].ChannelQuery? && s.tasks[e.t].prior.Some? && e.latest.None? {
        assert !Live(s.log, s.tasks[e.t].prior.value);
      }
    }
    forall t | 0 <= t < |s'.tasks| ensures TaskOk(s'.log, s'.tasks[t]) {
      if t < |s.tasks| { assert TaskOk(s.log, s.tasks[t]); }
    }
  }

  lemma EveryRunKeepsInv(es: seq<Event>)
    requires Run(Step, Initial, es).Some?
    ensures Inv(Run(Step, Initial, es).value)
  {
    forall s, e | Inv(s) && Step(s, e).Some? ensures Inv(Step(s, e).value) { StepKeepsInv(s, e); }
    RunKeeps(Step, Inv, Initial, es);
  }

  /** No clear on a delete path erases the tip of a live message, whatever was sent between the
      reads and the clear. */
  lemma ClearsOnlyDeadTips(es: seq<Event>, e: Event)
    requires Run(Step, Initial, es).Some? && Step(Run(Step, Initial, es).value, e).Some?
    requires Run(Step, Initial, es).value.tip.Some? && Step(Run(Step, Initial, es).value, e).value.tip.None?
    ensures var s := Run(Step, Initial, es).value;
            s.tip.value.id in s.log && s.log[s.tip.value.id].deleted
  {
    EveryRunKeepsInv(es);
    var s := Run(Step, Initial, es).value;
    assert e.Act? && TaskOk(s.log, s.tasks[e.t]);
  }

  // ---- when message keys grow in insertion order ----

  ghost predicate Newest(log: Log, at: int, id: Id) { forall i :: i in log ==> Below(log[i].at, i, at, id) }

  ghost function GrowingStep(s: State, e: Event): Option<State>
  {
    if e.Insert? && !Newest(s.log, e.at, e.id) then None else Step(s, e)
  }

  /** Everything live is newer than what a pending clear waits for. */
  ghost predicate ClearIsOld(log: Log, k: Task)
  {
    k.Clear? && k.shown.Some? && k.shown.value in log ==>
      forall i :: Live(log, i) ==> Below(log[k.shown.value].at, k.shown.value, log[i].at, i)
  }

  ghost predicate UpdatedBelowTip(s: State)
  {
    forall i :: i in s.updated && Live(s.log, i) ==>
      s.tip.Some? && AtMost(s.log[i].at, i, s.tip.value.at, s.tip.value.id)
  }

  ghost predicate GrowingInv(s: State)
  {
    && Inv(s)
    && (forall t :: 0 <= t < |s.tasks| ==> ClearIsOld(s.log, s.tasks[t]))
    && UpdatedBelowTip(s)
  }

  lemma StepKeepsClearsOld(s: State, e: Event, t: nat)
    requires GrowingInv(s) && GrowingStep(s, e).Some? && t < |GrowingStep(s, e).value.tasks|
    ensures ClearIsOld(GrowingStep(s, e).value.log, GrowingStep(s, e).value.tasks[t])
  {
    if t < |s.tasks| { assert ClearIsOld(s.log, s.tasks[t]) && TaskOk(s.log, s.tasks[t]); }
  }

  lemma ActKeepsUpdatedBelowTip(s: State, t: nat, latest: Option<Id>)
    requires GrowingInv(s) && Step(s, Act(t, latest)).Some?
    ensures UpdatedBelowTip(Step(s, Act(t, latest)).value)
  {
    var k := s.tasks[t];
    assert TaskOk(s.log, k) && ClearIsOld(s.log, k);
    if k.Update? {
      UpsertMovesForward(s.tip, Message(k.id, s.log[k.id].at, ""));
    }
  }

  lemma StepKeepsGrowingInv(s: State, e: Event)
    requires GrowingInv(s) && GrowingStep(s, e).Some?
    ensures GrowingInv(GrowingStep(s, e).value)
  {
    StepKeepsInv(s, e);
    var s' := GrowingStep(s, e).value;
    forall t | 0 <= t < |s'.tasks| ensures ClearIsOld(s'.log, s'.tasks[t]) { StepKeepsClearsOld(s, e, t); }
    if e.Act? {
      ActKeepsUpdatedBelowTip(s, e.t, e.latest);
    } else {
      assert forall i :: i in s.updated && Live(s'.log, i) ==> Live(s.log, i);
    }
  }

  /** If keys grow in insertion order, every live message whose upsert has run is at most the tip. */
  lemma LiveMessagesStayBelowTip(es: seq<Event>, id: Id)
    requires Run(GrowingStep, Initial, es).Some?
    requires id in Run(GrowingStep, Initial, es).value.updated && Live(Run(GrowingStep, Initial, es).value.log, id)
    ensures var s := Run(GrowingStep, Initial, es).value;
            s.tip.Some? && AtMost(s.log[id].at, id, s.tip.value.at, s.tip.value.id)
  {
    forall s, e | GrowingInv(s) && GrowingStep(s, e).Some? ensures GrowingInv(GrowingStep(s, e).value) {
      StepKeepsGrowingInv(s, e);
    }
    RunKeeps(GrowingStep, GrowingInv, Initial, es);
  }

  // ---- growing keys are necessary ----

  /** A message key: what decides its place. */
  datatype Key = Key(id: Id, at: int)

  predicate KeyBelow(k: Key, l: Key) { Below(k.at, k.id, l.at, l.id) }

  ghost predicate DistinctKeys(ks: seq<Key>) { forall i, j :: 0 <= i < j < |ks| ==> ks[i].id != ks[j].id }
  ghost predicate Growing(ks: seq<Key>) { forall i, j :: 0 <= i < j < |ks| ==> KeyBelow(ks[i], ks[j]) }

  function Inserted(e: Event): seq<Key> { if e.Insert? then [Key(e.id, e.at)] else [] }

  /** The messages a run sends, in order. */
  function Sends(es: seq<Event>): seq<Key>
  {
    if es == [] then [] else Inserted(es[0]) + Sends(es[1..])
  }

  lemma {:induction false} SendsJoin(es: seq<Event>, fs: seq<Event>)
    ensures Sends(es + fs) == Sends(es) + Sends(fs)
  {
    if es == [] {
      assert es + fs == fs;
      Regroup(Sends(fs), [], []);
    } else {
      assert (es + fs)[1..] == es[1..] + fs;
      SendsJoin(es[1..], fs);
      Regroup(Inserted(es[0]), Sends(es[1..]), Sends(fs));
    }
  }

  /** Some live message whose upsert has run is above the tip, or there is no tip. */
  ghost predicate LosesTip(s: State)
  {
    exists id :: id in s.updated && Live(s.log, id) &&
      (s.tip.None? || !AtMost(s.log[id].at, id, s.tip.value.at, s.tip.value.id))
  }

  /** es is a run from s to t that sends ks. */
  ghost predicate Leg(s: State, es: seq<Event>, t: State, ks: seq<Key>)
  {
    Run(Step, s, es) == Some(t) && Sends(es) == ks
  }

  lemma LegsJoin(a: State, es: seq<Event>, b: State, ks: seq<Key>, fs: seq<Event>, c: State, ls: seq<Key>)
    requires Leg(a, es, b, ks) && Leg(b, fs, c, ls)
    ensures Leg(a, es + fs, c, ks + ls)
  {
    RunsJoin(Step, a, es, b, fs, c);
    SendsJoin(es, fs);
  }

  lemma LegOfOne(a: State, e: Event, b: State)
    requires Step(a, e) == Some(b)
    ensures Leg(a, [e], b, Inserted(e))
  {
    RunOfOne(Step, a, e, b);
    assert [e][1..] == [] && Sends([]) == [];
    assert Sends([e]) == Inserted(e) + [];
  }

  lemma {:induction false} NothingSent(es: seq<Event>)
    requires forall i :: 0 <= i < |es| ==> !es[i].Insert?
    ensures Sends(es) == []
  {
    if es != [] { NothingSent(es[1..]); }
  }

  lemma LegOfFour(a: State, e: seq<Event>, s1: State, s2: State, s3: State, b: State, ks: seq<Key>)
    requires |e| == 4 && Step(a, e[0]) == Some(s1) && Step(s1, e[1]) == Some(s2) && Step(s2, e[2]) == Some(s3) &&
             Step(s3, e[3]) == Some(b)
    requires ks == Inserted(e[0]) && !e[1].Insert? && !e[2].Insert? && !e[3].Insert?
    ensures Leg(a, e, b, ks)
  {
    RunOfFour(Step, a, e, s1, s2, s3, b);
    NothingSent(e[1..]);
    Regroup(ks, [], []);
  }

  /** Messages that were sent and deleted again before anybody showed them. */
  function Dead(log: Log, ks: seq<Key>): Log
  {
    if ks == [] then log else Dead(log, ks[..|ks| - 1])[ks[|ks| - 1].id := Entry(ks[|ks| - 1].at, true)]
  }

  lemma {:induction false} DeadLog(log: Log, ks: seq<Key>, id: Id)
    ensures (forall i :: 0 <= i < |ks| ==> ks[i].id != id) ==>
              (id in Dead(log, ks) <==> id in log) && (id in log ==> Dead(log, ks)[id] == log[id])
    ensures (exists i :: 0 <= i < |ks| && ks[i].id == id) ==> id in Dead(log, ks) && Dead(log, ks)[id].deleted
  {
    if ks != [] { DeadLog(log, ks[..|ks| - 1], id); }
  }

  lemma DeadOne(s: State, k: Key)
    requires k.id !in s.log
    ensures Leg(s, [Insert(k.id, k.at)] + [Delete(k.id)], s.(log := s.log[k.id := Entry(k.at, true)]), [k])
  {
    var s1 := s.(log := s.log[k.id := Entry(k.at, false)]);
    var s2 := s.(log := s.log[k.id := Entry(k.at, true)]);
    assert s1.log[k.id := Entry(k.at, true)] == s2.log;
    LegOfOne(s, Insert(k.id, k.at), s1);
    LegOfOne(s1, Delete(k.id), s2);
    LegsJoin(s, [Insert(k.id, k.at)], s1, [k], [Delete(k.id)], s2, []);
    Regroup([k], [], []);
  }

  lemma {:induction false} DeadRun(s: State, ks: seq<Key>) returns (es: seq<Event>)
    requires DistinctKeys(ks) && forall i :: 0 <= i < |ks| ==> ks[i].id !in s.log
    ensures Leg(s, es, s.(log := Dead(s.log, ks)), ks)
  {
    if ks == [] {
      es := [];
    } else {
      var front, k := ks[..|ks| - 1], ks[|ks| - 1];
      var before := DeadRun(s, front);
      var s1 := s.(log := Dead(s.log, front));
      DeadLog(s.log, front, k.id);
      DeadOne(s1, k);
      LegsJoin(s, before, s1, front, [Insert(k.id, k.at)] + [Delete(k.id)],
        s1.(log := s1.log[k.id := Entry(k.at, true)]), [k]);
      assert front + [k] == ks;
      es := before + ([Insert(k.id, k.at)] + [Delete(k.id)]);
    }
  }

  ghost predicate NothingLive(log: Log) { forall i :: !Live(log, i) }

  // The stages, over a log without live messages: a is sent and shown; it is deleted and a clear is
  // prepared; b arrives with a smaller key and its upsert is refused; the clear goes through.

  function Shown(log: Log, a: Key): State
  {
    State(log[a.id := Entry(a.at, false)], Some(Tip(a.id, a.at, "")), [Done], {a.id})
  }
  function ClearReady(log: Log, a: Key): State
  {
    State(log[a.id := Entry(a.at, true)], Some(Tip(a.id, a.at, "")), [Done, Clear(Some(a.id))], {a.id})
  }
  function Refused(log: Log, a: Key, b: Key): State
  {
    State(log[a.id := Entry(a.at, true)][b.id := Entry(b.at, false)], Some(Tip(a.id, a.at, "")),
      [Done, Clear(Some(a.id)), Done], {a.id, b.id})
  }
  function Lost(log: Log, a: Key, b: Key): State { Refused(log, a, b).(tip := None, tasks := [Done, Done, Done]) }

  lemma SendingRuns(log: Log, a: Key) returns (es: seq<Event>)
    requires a.id !in log
    ensures Leg(State(log, None, [], {}), es, Shown(log, a), [a])
  {
    var s0, end := State(log, None, [], {}), Shown(log, a);
    es := [Insert(a.id, a.at), StartUpsert(a.id), Act(0, None), Act(0, None)];
    var s1 := s0.(log := end.log);
    var s2, s3 := s1.(tasks := [Probe(a.id)]), s1.(tasks := [Update(a.id)]);
    assert [] + [Probe(a.id)] == [Probe(a.id)] && [Probe(a.id)][0 := Update(a.id)] == [Update(a.id)] &&
           [Update(a.id)][0 := Done] == [Done];
    assert {} + {a.id} == {a.id};
    LegOfFour(s0, es, s1, s2, s3, end, [a]);
  }

  lemma DeletingRuns(log: Log, a: Key) returns (es: seq<Event>)
    requires NothingLive(log)
    ensures Leg(Shown(log, a), es, ClearReady(log, a), [])
  {
    var s0, end := Shown(log, a), ClearReady(log, a);
    es := [Delete(a.id), StartRecompute, Act(1, None), Act(1, None)];
    var s1 := s0.(log := end.log);
    var s2, s3 := s1.(tasks := [Done, PriorRead]), s1.(tasks := [Done, ChannelQuery(Some(a.id))]);
    assert s0.log[a.id := Entry(a.at, true)] == end.log;
    assert IsLatest(end.log, None) by { assert forall i :: Live(end.log, i) ==> Live(log, i); }
    assert s2.tasks == s1.tasks + [PriorRead] && s3.tasks == s2.tasks[1 := ChannelQuery(Some(a.id))];
    assert end.tasks == s3.tasks[1 := Clear(Some(a.id))];
    LegOfFour(s0, es, s1, s2, s3, end, []);
  }

  lemma OvertakingRuns(log: Log, a: Key, b: Key) returns (es: seq<Event>)
    requires a.id != b.id && b.id !in log && KeyBelow(b, a)
    ensures Leg(ClearReady(log, a), es, Refused(log, a, b), [b])
  {
    var s0, end := ClearReady(log, a), Refused(log, a, b);
    es := [Insert(b.id, b.at), StartUpsert(b.id), Act(2, None), Act(2, None)];
    var s1 := s0.(log := end.log);
    var s2 := s1.(tasks := [Done, Clear(Some(a.id)), Probe(b.id)]);
    var s3 := s1.(tasks := [Done, Clear(Some(a.id)), Update(b.id)]);
    assert {a.id} + {b.id} == {a.id, b.id};
    assert s2.tasks == s1.tasks + [Probe(b.id)] && s3.tasks == s2.tasks[2 := Update(b.id)] &&
           end.tasks == s3.tasks[2 := Done];
    LegOfFour(s0, es, s1, s2, s3, end, [b]);
  }

  lemma ClearingRuns(log: Log, a: Key, b: Key)
    ensures Leg(Refused(log, a, b), [Act(1, None)], Lost(log, a, b), [])
  {
    assert Lost(log, a, b).tasks == Refused(log, a, b).tasks[1 := Done];
    LegOfOne(Refused(log, a, b), Act(1, None), Lost(log, a, b));
  }

  lemma LosingRun(log: Log, a: Key, b: Key) returns (es: seq<Event>)
    requires NothingLive(log) && a.id !in log && b.id !in log && a.id != b.id && KeyBelow(b, a)
    ensures Leg(State(log, None, [], {}), es, Lost(log, a, b), [a, b])
  {
    var start := State(log, None, [], {});
    var sending := SendingRuns(log, a);
    var deleting := DeletingRuns(log, a);
    var overtaking := OvertakingRuns(log, a, b);
    ClearingRuns(log, a, b);
    LegsJoin(start, sending, Shown(log, a), [a], deleting, ClearReady(log, a), []);
    LegsJoin(start, sending + deleting, ClearReady(log, a), [a] + [], overtaking, Refused(log, a, b), [b]);
    es := sending + deleting + overtaking;
    LegsJoin(start, es, Refused(log, a, b), [a] + [] + [b], [Act(1, None)], Lost(log, a, b), []);
    assert [a] + [] + [b] + [] == [a, b];
    es := es + [Act(1, None)];
  }

  /** Any two messages whose keys come in the wrong order: the later one can be live, upserted, and
      without any tip. It is refused because of the deleted earlier one, whose clear then goes
      through. */
  lemma OlderClockCanLoseTheTip(a: Key, b: Key) returns (es: seq<Event>)
    requires a.id != b.id && KeyBelow(b, a)
    ensures Run(Step, Initial, es).Some? && Sends(es) == [a, b]
    ensures var s := Run(Step, Initial, es).value; b.id in s.updated && Live(s.log, b.id) && s.tip == None
  {
    es := LosingRun(map[], a, b);
  }

  // ---- which sequences of sends are safe ----

  lemma DeadIsNotLive(ks: seq<Key>)
    ensures NothingLive(Dead(map[], ks))
    ensures forall id :: id in Dead(map[], ks) ==> exists i :: 0 <= i < |ks| && ks[i].id == id
  {
    forall id
      ensures !Live(Dead(map[], ks), id) && (id in Dead(map[], ks) ==> exists i :: 0 <= i < |ks| && ks[i].id == id)
    {
      DeadLog(map[], ks, id);
    }
  }

  /** Keys are totally ordered, so an adjacent pair is out of order wherever any pair is. */
  lemma {:induction false} FirstDescent(ks: seq<Key>) returns (p: nat)
    requires DistinctKeys(ks) && !Growing(ks)
    ensures p + 1 < |ks| && KeyBelow(ks[p + 1], ks[p])
  {
    var front := ks[..|ks| - 1];
    if !Growing(front) {
      p := FirstDescent(front);
    } else {
      p := |ks| - 2;
      var i, j :| 0 <= i < j < |ks| && !KeyBelow(ks[i], ks[j]);
      assert forall x, y :: 0 <= x < y < |front| ==>
             KeyBelow(front[x], front[y]) && front[x] == ks[x] && front[y] == ks[y];
    }
  }

  /** Whatever else is sent before and after, one pair out of order is enough. */
  lemma DescentLosesTip(ks: seq<Key>) returns (es: seq<Event>)
    requires DistinctKeys(ks) && !Growing(ks)
    ensures Run(Step, Initial, es).Some? && Sends(es) == ks && LosesTip(Run(Step, Initial, es).value)
  {
    var p := FirstDescent(ks);
    es := PairLosesTip(ks[..p], ks[p], ks[p + 1], ks[p + 2..]);
    assert ks[..p] + [ks[p], ks[p + 1]] + ks[p + 2..] == ks;
  }

  lemma PairLosesTip(before: seq<Key>, a: Key, b: Key, after: seq<Key>) returns (es: seq<Event>)
    requires DistinctKeys(before + [a, b] + after) && KeyBelow(b, a)
    ensures Run(Step, Initial, es).Some? && Sends(es) == before + [a, b] + after &&
            LosesTip(Run(Step, Initial, es).value)
  {
    var ks, p := before + [a, b] + after, |before|;
    assert ks[p] == a && ks[p + 1] == b && forall i :: 0 <= i < p ==> ks[i] == before[i];
    assert forall i :: 0 <= i < |after| ==> ks[p + 2 + i] == after[i];
    var log := Dead(map[], before);
    DeadIsNotLive(before);
    var first := DeadRun(Initial, before);
    var middle := LosingRun(log, a, b);
    var lost := Lost(log, a, b);
    var last := DeadRun(lost, after);
    var end := lost.(log := Dead(lost.log, after));
    LegsJoin(Initial, first, State(log, None, [], {}), before, middle, lost, [a, b]);
    es := first + middle;
    LegsJoin(Initial, es, lost, before + [a, b], last, end, after);
    es := es + last;
    StillLost(log, a, b, after);
  }

  lemma StillLost(log: Log, a: Key, b: Key, after: seq<Key>)
    requires a.id != b.id && forall i :: 0 <= i < |after| ==> after[i].id != b.id
    ensures LosesTip(Lost(log, a, b).(log := Dead(Lost(log, a, b).log, after)))
  {
    DeadLog(Lost(log, a, b).log, after, b.id);
    assert b.id in Lost(log, a, b).updated && Live(Dead(Lost(log, a, b).log, after), b.id);
  }

  ghost predicate LogBelow(log: Log, k: Key) { forall i :: i in log ==> Below(log[i].at, i, k.at, k.id) }

  /** A run that sends growing keys is a run of the growing machine. */
  lemma {:induction false} GrowingRun(s: State, es: seq<Event>)
    requires Run(Step, s, es).Some? && Growing(Sends(es))
    requires forall i :: 0 <= i < |Sends(es)| ==> LogBelow(s.log, Sends(es)[i])
    ensures Run(GrowingStep, s, es) == Run(Step, s, es)
    decreases es
  {
    if es != [] {
      var next, rest := Step(s, es[0]).value, Sends(es[1..]);
      assert forall i :: 0 <= i < |rest| ==> rest[i] == Sends(es)[|Inserted(es[0])| + i];
      assert es[0].Insert? ==> Sends(es)[0] == Key(es[0].id, es[0].at);
      GrowingRun(next, es[1..]);
    }
  }

  /** Sending ks in this order is safe: every run keeps every live upserted message at or below the
      tip. */
  ghost predicate SafeToSend(ks: seq<Key>)
  {
    forall es :: Run(Step, Initial, es).Some? && Sends(es) == ks ==> !LosesTip(Run(Step, Initial, es).value)
  }

  /** Growing keys are what the tip needs, no more and no less. */
  lemma SafeExactlyWhenGrowing(ks: seq<Key>)
    requires DistinctKeys(ks)
    ensures SafeToSend(ks) <==> Growing(ks)
  {
    if Growing(ks) {
      forall es | Run(Step, Initial, es).Some? && Sends(es) == ks ensures !LosesTip(Run(Step, Initial, es).value) {
        GrowingRun(Initial, es);
        GrowingRunsAreSafe(es);
      }
    } else {
      var es := DescentLosesTip(ks);
    }
  }

  lemma GrowingRunsAreSafe(es: seq<Event>)
    requires Run(GrowingStep, Initial, es).Some?
    ensures !LosesTip(Run(GrowingStep, Initial, es).value)
  {
    var s := Run(GrowingStep, Initial, es).value;
    forall id | id in s.updated && Live(s.log, id)
      ensures s.tip.Some? && AtMost(s.log[id].at, id, s.tip.value.at, s.tip.value.id)
    {
      LiveMessagesStayBelowTip(es, id);
    }
  }

  // ---- what an undisturbed refresh after a delete achieves ----

  /** The tip a refresh of deleted message d leaves when nothing else runs: the newest live message
      goes through the same forward-only guard. */
  ghost function Refreshed(log: Log, tip: Option<Tip>, d: Id, latest: Option<Id>): Option<Tip>
    requires IsLatest(log, latest)
  {
    if tip.Some? && tip.value.id != d then tip
    else if latest.Some? then Upserted(tip, Message(latest.value, log[latest.value].at, ""))
    else Cleared(tip, Some(d))
  }

  /** `refresh_dm_tip_after_delete`: `latest` is what its query returns; the upsert probes the message
      first, and finds it live when nothing else runs. Texts are left empty, as in the machine above. */
  method RefreshDmTip(doc: TipDoc, log: Log, d: Id, latest: Option<Message>)
    requires IsLatest(log, if latest.Some? then Some(latest.value.id) else None)
    requires latest.Some? ==> latest.value == Message(latest.value.id, log[latest.value.id].at, "")
    modifies doc
    ensures if old(doc.tip).Some? && old(doc.tip).value.id != d then doc.tip == old(doc.tip)
            else if latest.None? then doc.tip == None
            else TakesOver(old(doc.tip), doc.tip, latest.value.id, latest.value.at, "")
    ensures doc.tip == Refreshed(log, old(doc.tip), d, if latest.Some? then Some(latest.value.id) else None)
  {
    if doc.tip.Some? && doc.tip.value.id != d { return; }
    if latest.Some? {
      doc.Upsert(latest.value);
    } else {
      doc.ClearIfShown(Some(d));
    }
  }

  /** The refresh replaces the deleted tip by the newest live message exactly when that message is
      newer than the deleted one; it removes the tip exactly when nothing live is left; and in the
      remaining case the deleted message stays on display until something newer arrives. */
  lemma RefreshMendsExactlyWhenNewer(log: Log, tip: Tip, latest: Option<Id>)
    requires IsLatest(log, latest) && tip.id in log && log[tip.id] == Entry(tip.at, true)
    ensures var after := Refreshed(log, Some(tip), tip.id, latest);
            && (after.None? <==> latest.None?)
            && (after.Some? && Live(log, after.value.id) <==>
                  latest.Some? && Below(tip.at, tip.id, log[latest.value].at, latest.value))
            && (after.Some? && Live(log, after.value.id) ==> after.value.id == latest.value)
            && (after.Some? && !Live(log, after.value.id) ==> after == Some(tip))
  {
  }

  /** That is what the DM refresh task does when it runs undisturbed. */
  lemma UndisturbedRefresh(s: State, t: nat, d: Id, latest: Option<Id>)
    requires t < |s.tasks| && s.tasks[t] == DmRead(d) && IsLatest(s.log, latest)
    ensures exists es :: Run(Step, s, es).Some? && Run(Step, s, es).value.tip == Refreshed(s.log, s.tip, d, latest) &&
                         Run(Step, s, es).value.tasks == s.tasks[t := Done] && Run(Step, s, es).value.log == s.log
  {
    var act := Act(t, latest);
    var s1 := Step(s, act).value;
    if s.tip.Some? && s.tip.value.id != d {
      RunOfOne(Step, s, act, s1);
    } else {
      var s2 := Step(s1, act).value;
      RunOfTwo(Step, s, act, s1, act, s2);
      var rest, end := UndisturbedFinish(s2, t, latest);
      RunsJoin(Step, s, [act, act], s2, rest, end);
      assert s2.tasks[t := Done] == s.tasks[t := Done];
    }
  }

  lemma UndisturbedFinish(s: State, t: nat, latest: Option<Id>) returns (es: seq<Event>, end: State)
    requires t < |s.tasks| && IsLatest(s.log, latest)
    requires if latest.Some? then s.tasks[t] == Probe(latest.value) else s.tasks[t].Clear?
    ensures Run(Step, s, es) == Some(end) && end.log == s.log && end.tasks == s.tasks[t := Done]
    ensures end.tip == if latest.Some? then Upserted(s.tip, Message(latest.value, s.log[latest.value].at, ""))
                       else Cleared(s.tip, s.tasks[t].shown)
  {
    var act := Act(t, latest);
    var s1 := Step(s, act).value;
    if latest.None? {
      RunOfOne(Step, s, act, s1);
      es, end := [act], s1;
    } else {
      var s2 := Step(s1, act).value;
      RunOfTwo(Step, s, act, s1, act, s2);
      es, end := [act, act], s2;
      assert s2.tasks == s.tasks[t := Done];
    }
  }

  // ---- one task, alone ----

  /** An upsert shows the message if it is still live and no greater one is shown, and is counted as run;
      the upsert of a deleted message changes nothing. */
  lemma UndisturbedUpsert(s: State, t: nat, id: Id) returns (es: seq<Event>, end: State)
    requires t < |s.tasks| && s.tasks[t] == Probe(id) && id in s.log
    ensures Run(Step, s, es) == Some(end) && end.log == s.log && end.tasks == s.tasks[t := Done]
    ensures if s.log[id].deleted then end.tip == s.tip && end.updated == s.updated
            else TakesOver(s.tip, end.tip, id, s.log[id].at, "") && end.updated == s.updated + {id}
  {
    var act := Act(t, None);
    var s1 := Step(s, act).value;
    if s.log[id].deleted {
      RunOfOne(Step, s, act, s1);
      es, end := [act], s1;
    } else {
      var s2 := Step(s1, act).value;
      RunOfTwo(Step, s, act, s1, act, s2);
      es, end := [act, act], s2;
      assert s2.tasks == s.tasks[t := Done];
    }
  }

  /** Recomputing a channel's tip puts the newest live message through the same guard, and takes the tip
      away if nothing is live, whatever it showed. */
  lemma UndisturbedRecompute(s: State, t: nat, latest: Option<Id>) returns (es: seq<Event>, end: State)
    requires t < |s.tasks| && s.tasks[t] == PriorRead && IsLatest(s.log, latest)
    ensures Run(Step, s, es) == Some(end) && end.log == s.log && end.tasks == s.tasks[t := Done]
    ensures if latest.None? then end.tip == None
            else TakesOver(s.tip, end.tip, latest.value, s.log[latest.value].at, "")
  {
    var act := Act(t, latest);
    var s1 := Step(s, act).value;
    var s2 := Step(s1, act).value;
    RunOfTwo(Step, s, act, s1, act, s2);
    var rest;
    rest, end := UndisturbedFinish(s2, t, latest);
    RunsJoin(Step, s, [act, act], s2, rest, end);
    es := [act, act] + rest;
    assert s2.tasks[t := Done] == s.tasks[t := Done];
  }

  /** The channel refresh after a delete does that only while the deleted message, or none, is shown. */
  lemma UndisturbedChannelRefresh(s: State, t: nat, d: Id, latest: Option<Id>) returns (es: seq<Event>, end: State)
    requires t < |s.tasks| && s.tasks[t] == ChannelRead(d) && IsLatest(s.log, latest)
    ensures Run(Step, s, es) == Some(end) && end.log == s.log && end.tasks == s.tasks[t := Done]
    ensures if s.tip.Some? && s.tip.value.id != d then end.tip == s.tip
            else if latest.None? then end.tip == None
            else TakesOver(s.tip, end.tip, latest.value, s.log[latest.value].at, "")
  {
    var act := Act(t, latest);
    var s1 := Step(s, act).value;
    RunOfOne(Step, s, act, s1);
    if s.tip.Some? && s.tip.value.id != d {
      es, end := [act], s1;
    } else {
      var rest;
      rest, end := UndisturbedRecompute(s1, t, latest);
      RunsJoin(Step, s, [act], s1, rest, end);
      es := [act] + rest;
      assert s1.tasks[t := Done] == s.tasks[t := Done];
    }
  }

  // ---- the refresh may be refused ----

  function BothSent(a: Key, b: Key): State
  {
    State(map[b.id := Entry(b.at, false)][a.id := Entry(a.at, false)], Some(Tip(a.id, a.at, "")), [Done], {a.id})
  }
  function Stuck(a: Key, b: Key): State
  {
    State(map[b.id := Entry(b.at, false)][a.id := Entry(a.at, true)], Some(Tip(a.id, a.at, "")), [Done, Done],
      {a.id, b.id})
  }

  lemma BothAreSent(a: Key, b: Key) returns (es: seq<Event>)
    requires a.id != b.id && KeyBelow(b, a)
    ensures Run(GrowingStep, Initial, es) == Some(BothSent(a, b))
  {
    var s1, end := Initial.(log := map[b.id := Entry(b.at, false)]), BothSent(a, b);
    var s2 := s1.(log := end.log);
    var s3, s4 := s2.(tasks := [Probe(a.id)]), s2.(tasks := [Update(a.id)]);
    assert [] + [Probe(a.id)] == [Probe(a.id)] && [Probe(a.id)][0 := Update(a.id)] == [Update(a.id)] &&
           [Update(a.id)][0 := Done] == [Done];
    assert {} + {a.id} == {a.id};
    RunOfTwo(GrowingStep, Initial, Insert(b.id, b.at), s1, Insert(a.id, a.at), s2);
    RunOfTwo(GrowingStep, s2, StartUpsert(a.id), s3, Act(0, None), s4);
    RunOfOne(GrowingStep, s4, Act(0, None), end);
    RunsJoin(GrowingStep, s2, [StartUpsert(a.id), Act(0, None)], s4, [Act(0, None)], end);
    RunsJoin(GrowingStep, Initial, [Insert(b.id, b.at), Insert(a.id, a.at)],
             s2, [StartUpsert(a.id), Act(0, None)] + [Act(0, None)], end);
    es := [Insert(b.id, b.at), Insert(a.id, a.at)] + ([StartUpsert(a.id), Act(0, None)] + [Act(0, None)]);
  }

  lemma OlderIsLatest(a: Key, b: Key)
    requires a.id != b.id
    ensures IsLatest(Stuck(a, b).log, Some(b.id))
  {
    assert forall i :: Live(Stuck(a, b).log, i) ==> i == b.id;
  }

  lemma RefreshIsRefused(a: Key, b: Key) returns (es: seq<Event>)
    requires a.id != b.id && KeyBelow(b, a)
    ensures Run(GrowingStep, BothSent(a, b), es) == Some(Stuck(a, b))
  {
    var s0, end := BothSent(a, b), Stuck(a, b);
    var s1 := s0.(log := end.log);
    var s2 := s1.(tasks := [Done, DmRead(a.id)]);
    var s3 := s1.(tasks := [Done, DmQuery(a.id)]);
    var s4 := s1.(tasks := [Done, Probe(b.id)]);
    var s5 := s1.(tasks := [Done, Update(b.id)]);
    OlderIsLatest(a, b);
    var act := Act(1, Some(b.id));
    assert s0.log[a.id := Entry(a.at, true)] == end.log;
    assert s2.tasks == s1.tasks + [DmRead(a.id)] && s3.tasks == s2.tasks[1 := DmQuery(a.id)] &&
           s4.tasks == s3.tasks[1 := Probe(b.id)];
    assert s5.tasks == s4.tasks[1 := Update(b.id)] && end.tasks == s5.tasks[1 := Done] &&
           {a.id} + {b.id} == {a.id, b.id};
    RunOfTwo(GrowingStep, s0, Delete(a.id), s1, StartDmRefresh(a.id), s2);
    RunOfFour(GrowingStep, s2, [act, act, act, act], s3, s4, s5, end);
    RunsJoin(GrowingStep, s0, [Delete(a.id), StartDmRefresh(a.id)], s2, [act, act, act, act], end);
    es := [Delete(a.id), StartDmRefresh(a.id)] + [act, act, act, act];
  }

  /** It does happen, even with growing keys: for any two messages, the newer one shown and deleted
      and the refresh run to its end, the deleted message is still on display while the older one
      is live. */
  lemma DeletedMessageCanStay(a: Key, b: Key) returns (es: seq<Event>)
    requires a.id != b.id && KeyBelow(b, a)
    ensures Run(GrowingStep, Initial, es).Some?
    ensures var s := Run(GrowingStep, Initial, es).value;
            && (forall k :: k in s.tasks ==> k.Done?) && Live(s.log, b.id)
            && s.tip.Some? && s.tip.value.id == a.id && a.id in s.log && s.log[a.id].deleted
  {
    var sent := BothAreSent(a, b);
    var refused := RefreshIsRefused(a, b);
    RunsJoin(GrowingStep, Initial, sent, BothSent(a, b), refused, Stuck(a, b));
    es := sent + refused;
  }
}
