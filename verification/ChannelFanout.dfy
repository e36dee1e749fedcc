/** Telling the members of a channel about one new message: read-state counters are bumped, and each
    member gets either a "+1" for the unread generation captured before the message was stored, or a
    recount. Generations and the message may change at any moment in between. */
module ChannelFanout {
  import opened Runs
  import opened ChannelReadStates

  // ---- the fan-out ----

  /** Everything the task does not decide itself. `peek(u, k)` is the unread generation of `u` at
      the k-th look, `active(k)` the k-th answer to "is the message still there" (None: the
      database failed), `sync` the answer of a recount. */
  datatype World = World(
    captured: map<UserId, nat>,
    peek: (UserId, nat) -> nat,
    active: nat -> Option<bool>,
    bumpOk: UserId -> bool,
    sync: UserId -> Option<nat>)

  /** What the task does, in order. A recount that answers is sent as an absolute count. */
  datatype Effect =
    | Active(answer: Option<bool>)
    | Peek(user: UserId, generation: nat)
    | Bumped(user: UserId, ok: bool)
    | Delta(user: UserId, generation: nat)
    | Recount(user: UserId, answered: Option<nat>)

  function Captured(w: World, u: UserId): nat { if u in w.captured then w.captured[u] else 0 }

  function Fresh(w: World, k: nat): UserId -> bool { u => w.peek(u, k) == Captured(w, u) }
  function Stale(w: World, k: nat): UserId -> bool { u => w.peek(u, k) != Captured(w, u) }
  function Silent(w: World): UserId -> bool { u => w.sync(u).None? }

  function Peeks(s: seq<UserId>, w: World, k: nat): seq<Effect>
  {
    seq(|s|, i requires 0 <= i < |s| => Peek(s[i], w.peek(s[i], k)))
  }
  function Bumps(s: seq<UserId>, w: World): seq<Effect>
  {
    seq(|s|, i requires 0 <= i < |s| => Bumped(s[i], w.bumpOk(s[i])))
  }
  function Deltas(s: seq<UserId>, w: World): seq<Effect>
  {
    seq(|s|, i requires 0 <= i < |s| => Delta(s[i], Captured(w, s[i])))
  }
  function Recounts(s: seq<UserId>, w: World): seq<Effect>
  {
    seq(|s|, i requires 0 <= i < |s| => Recount(s[i], w.sync(s[i])))
  }

  function FanOutLog(targets: seq<UserId>, w: World): seq<Effect>
  {
    [Active(w.active(0))] +
    if w.active(0) == Some(false) then Recounts(targets, w)
    else Peeks(targets, w, 0) + Recounts(Filter(targets, Stale(w, 0)), w) + LateLog(Filter(targets, Fresh(w, 0)), w)
  }

  function LateLog(bumpOids: seq<UserId>, w: World): seq<Effect>
  {
    Peeks(bumpOids, w, 1) + Recounts(Filter(bumpOids, Stale(w, 1)), w) + BumpLog(Filter(bumpOids, Fresh(w, 1)), w)
  }

  function BumpLog(stillOk: seq<UserId>, w: World): seq<Effect>
  {
    if stillOk == [] then []
    else if w.active(1) == Some(false) then [Active(w.active(1))] + Recounts(stillOk, w)
    else [Active(w.active(1))] + (Bumps(stillOk, w) + ([Active(w.active(2))] + PostLog(stillOk, w)))
  }

  /** Successful bumps that are recounted all the same. */
  function LandedMismatch(stillOk: seq<UserId>, w: World): seq<UserId>
  {
    if w.active(2) == Some(false) then Filter(stillOk, w.bumpOk) else Filter(Filter(stillOk, w.bumpOk), Stale(w, 2))
  }

  /** The users whose bump is followed by a recount. */
  function PostMismatch(stillOk: seq<UserId>, w: World): seq<UserId>
  {
    Filter(stillOk, Failing(w.bumpOk)) + LandedMismatch(stillOk, w)
  }

  function LastLooks(stillOk: seq<UserId>, w: World): seq<Effect>
  {
    if w.active(2) == Some(false) then [] else Peeks(Filter(stillOk, w.bumpOk), w, 2)
  }

  function BumpedOk(stillOk: seq<UserId>, w: World): seq<UserId>
  {
    if w.active(2) == Some(false) then [] else Filter(Filter(stillOk, w.bumpOk), Fresh(w, 2))
  }

  function PostLog(stillOk: seq<UserId>, w: World): seq<Effect>
  {
    LastLooks(stillOk, w) + (Deltas(BumpedOk(stillOk, w), w) + Recounts(PostMismatch(stillOk, w), w))
  }

  /** Who reaches the bump. */
  function StillOk(targets: seq<UserId>, w: World): seq<UserId>
  {
    if w.active(0) == Some(false) || w.active(1) == Some(false) then []
    else Filter(Filter(targets, Fresh(w, 0)), Fresh(w, 1))
  }

  // ---- everyone is settled once ----

  /** The users that were told something, with repetitions. */
  function Settled(log: seq<Effect>): multiset<UserId>
  {
    if log == [] then multiset{}
    else
      Settled(log[..|log| - 1]) +
      match log[|log| - 1]
      case Delta(u, _) => multiset{u}
      case Recount(u, _) => multiset{u}
      case _ => multiset{}
  }

  lemma {:induction false} SettledAppend(a: seq<Effect>, b: seq<Effect>)
    ensures Settled(a + b) == Settled(a) + Settled(b)
  {
    if b == [] {
      assert a + b == a;
    } else {
      assert (a + b)[..|a + b| - 1] == a + b[..|b| - 1];
      SettledAppend(a, b[..|b| - 1]);
    }
  }

  ghost predicate Quiet(log: seq<Effect>) { forall k :: 0 <= k < |log| ==> !log[k].Delta? && !log[k].Recount? }

  lemma {:induction false} QuietSettlesNobody(log: seq<Effect>)
    requires Quiet(log)
    ensures Settled(log) == multiset{}
  {
    if log != [] { QuietSettlesNobody(log[..|log| - 1]); }
  }

  lemma QuietFirst(a: seq<Effect>, b: seq<Effect>)
    requires Quiet(a)
    ensures Settled(a + b) == Settled(b)
  {
    QuietSettlesNobody(a);
    SettledAppend(a, b);
  }

  lemma {:induction false} SettledUsers(s: seq<UserId>, log: seq<Effect>)
    requires |log| == |s|
    requires forall k :: 0 <= k < |s| ==> (log[k].Delta? || log[k].Recount?) && log[k].user == s[k]
    ensures Settled(log) == multiset(s)
  {
    if s != [] {
      assert s == s[..|s| - 1] + [s[|s| - 1]];
      SettledUsers(s[..|s| - 1], log[..|s| - 1]);
    }
  }

  lemma {:induction false} FilterParts(s: seq<UserId>, p: UserId -> bool, q: UserId -> bool)
    requires forall u :: p(u) != q(u)
    ensures multiset(Filter(s, p)) + multiset(Filter(s, q)) == multiset(s)
  {
    if s != [] {
      assert s == s[..|s| - 1] + [s[|s| - 1]];
      FilterParts(s[..|s| - 1], p, q);
    }
  }

  lemma PostParts(stillOk: seq<UserId>, w: World)
    ensures multiset(BumpedOk(stillOk, w)) + multiset(PostMismatch(stillOk, w)) == multiset(stillOk)
  {
    FilterParts(stillOk, w.bumpOk, Failing(w.bumpOk));
    FilterParts(Filter(stillOk, w.bumpOk), Fresh(w, 2), Stale(w, 2));
  }

  lemma PostSettles(stillOk: seq<UserId>, w: World)
    ensures Settled(PostLog(stillOk, w)) == multiset(stillOk)
  {
    var told, recounted := BumpedOk(stillOk, w), PostMismatch(stillOk, w);
    PostParts(stillOk, w);
    SettledUsers(told, Deltas(told, w));
    SettledUsers(recounted, Recounts(recounted, w));
    SettledAppend(Deltas(told, w), Recounts(recounted, w));
    QuietFirst(LastLooks(stillOk, w), Deltas(told, w) + Recounts(recounted, w));
  }

  lemma BumpSettles(stillOk: seq<UserId>, w: World)
    ensures Settled(BumpLog(stillOk, w)) == multiset(stillOk)
  {
    if stillOk == [] {
    } else if w.active(1) == Some(false) {
      SettledUsers(stillOk, Recounts(stillOk, w));
      QuietFirst([Active(w.active(1))], Recounts(stillOk, w));
    } else {
      PostSettles(stillOk, w);
      QuietFirst([Active(w.active(2))], PostLog(stillOk, w));
      QuietFirst(Bumps(stillOk, w), [Active(w.active(2))] + PostLog(stillOk, w));
      QuietFirst([Active(w.active(1))], Bumps(stillOk, w) + ([Active(w.active(2))] + PostLog(stillOk, w)));
    }
  }

  lemma LateSettles(bumpOids: seq<UserId>, w: World)
    ensures Settled(LateLog(bumpOids, w)) == multiset(bumpOids)
  {
    var stale, same := Filter(bumpOids, Stale(w, 1)), Filter(bumpOids, Fresh(w, 1));
    FilterParts(bumpOids, Stale(w, 1), Fresh(w, 1));
    BumpSettles(same, w);
    SettledUsers(stale, Recounts(stale, w));
    QuietFirst(Peeks(bumpOids, w, 1), Recounts(stale, w));
    SettledAppend(Peeks(bumpOids, w, 1) + Recounts(stale, w), BumpLog(same, w));
  }

  /** Whatever the generations, the database and the other tasks do, every target is told exactly
      once: by one delta or by one recount, never both and never neither. */
  lemma EveryTargetIsSettledOnce(targets: seq<UserId>, w: World)
    ensures Settled(FanOutLog(targets, w)) == multiset(targets)
  {
    var head := [Active(w.active(0))];
    if w.active(0) == Some(false) {
      SettledUsers(targets, Recounts(targets, w));
      QuietFirst(head, Recounts(targets, w));
    } else {
      var stale, same := Filter(targets, Stale(w, 0)), Filter(targets, Fresh(w, 0));
      FilterParts(targets, Stale(w, 0), Fresh(w, 0));
      LateSettles(same, w);
      SettledUsers(stale, Recounts(stale, w));
      QuietFirst(Peeks(targets, w, 0), Recounts(stale, w));
      SettledAppend(Peeks(targets, w, 0) + Recounts(stale, w), LateLog(same, w));
      QuietFirst(head, Peeks(targets, w, 0) + Recounts(stale, w) + LateLog(same, w));
    }
  }

  // ---- who gets the delta ----

  /** No look found a changed generation, no answer said "deleted", and the bump succeeded. */
  predicate Undisturbed(w: World, u: UserId)
  {
    && w.active(0) != Some(false) && w.active(1) != Some(false) && w.active(2) != Some(false)
    && (forall k :: 0 <= k < 3 ==> w.peek(u, k) == if u in w.captured then w.captured[u] else 0)
    && w.bumpOk(u)
  }

  ghost predicate NoDelta(log: seq<Effect>) { forall k :: 0 <= k < |log| ==> !log[k].Delta? }

  lemma DeltaBehind(pre: seq<Effect>, log: seq<Effect>, u: UserId, g: nat)
    requires NoDelta(pre)
    ensures Delta(u, g) in pre + log <==> Delta(u, g) in log
  {
    if Delta(u, g) in log {
      var i :| 0 <= i < |log| && log[i] == Delta(u, g);
      assert (pre + log)[|pre| + i] == Delta(u, g);
    }
  }

  lemma PostDelta(stillOk: seq<UserId>, w: World, u: UserId, g: nat)
    ensures Delta(u, g) in PostLog(stillOk, w) <==>
            u in stillOk && g == Captured(w, u) && w.active(2) != Some(false) && w.bumpOk(u) && w.peek(u, 2) == g
  {
    var told := BumpedOk(stillOk, w);
    if u in told {
      var i :| 0 <= i < |told| && told[i] == u;
      assert Deltas(told, w)[i] == Delta(u, Captured(w, u));
    }
    DeltaBehind(LastLooks(stillOk, w), Deltas(told, w) + Recounts(PostMismatch(stillOk, w), w), u, g);
  }

  lemma BumpDelta(stillOk: seq<UserId>, w: World, u: UserId, g: nat)
    ensures Delta(u, g) in BumpLog(stillOk, w) <==> w.active(1) != Some(false) && Delta(u, g) in PostLog(stillOk, w)
  {
    PostDelta(stillOk, w, u, g);
    if w.active(1) != Some(false) && stillOk != [] {
      var last := [Active(w.active(2))] + PostLog(stillOk, w);
      DeltaBehind([Active(w.active(2))], PostLog(stillOk, w), u, g);
      DeltaBehind(Bumps(stillOk, w), last, u, g);
      DeltaBehind([Active(w.active(1))], Bumps(stillOk, w) + last, u, g);
    }
  }

  lemma LateDelta(bumpOids: seq<UserId>, w: World, u: UserId, g: nat)
    ensures Delta(u, g) in LateLog(bumpOids, w) <==> Delta(u, g) in BumpLog(Filter(bumpOids, Fresh(w, 1)), w)
  {
    DeltaBehind(Peeks(bumpOids, w, 1) + Recounts(Filter(bumpOids, Stale(w, 1)), w),
      BumpLog(Filter(bumpOids, Fresh(w, 1)), w), u, g);
  }

  lemma FirstDelta(targets: seq<UserId>, w: World, u: UserId, g: nat)
    ensures Delta(u, g) in FanOutLog(targets, w) <==>
            w.active(0) != Some(false) && Delta(u, g) in LateLog(Filter(targets, Fresh(w, 0)), w)
  {
    if w.active(0) != Some(false) {
      var pre, late := Peeks(targets, w, 0) + Recounts(Filter(targets, Stale(w, 0)), w),
        LateLog(Filter(targets, Fresh(w, 0)), w);
      DeltaBehind(pre, late, u, g);
      DeltaBehind([Active(w.active(0))], pre + late, u, g);
    }
  }

  /** Exactly the undisturbed targets get a delta, and it carries the captured generation. */
  lemma DeltaExactlyWhenUndisturbed(targets: seq<UserId>, w: World, u: UserId, g: nat)
    ensures Delta(u, g) in FanOutLog(targets, w) <==>
            u in targets && Undisturbed(w, u) && g == if u in w.captured then w.captured[u] else 0
  {
    var bumpOids := Filter(targets, Fresh(w, 0));
    var stillOk := Filter(bumpOids, Fresh(w, 1));
    assert Undisturbed(w, u) <==>
      w.active(0) != Some(false) && w.active(1) != Some(false) && w.active(2) != Some(false) && w.bumpOk(u) &&
      w.peek(u, 0) == Captured(w, u) && w.peek(u, 1) == Captured(w, u) && w.peek(u, 2) == Captured(w, u);
    FirstDelta(targets, w, u, g);
    LateDelta(bumpOids, w, u, g);
    BumpDelta(stillOk, w, u, g);
    PostDelta(stillOk, w, u, g);
  }

  predicate Settles(e: Effect, u: UserId) { (e.Delta? || e.Recount?) && e.user == u }

  lemma {:induction false} SettledSomewhere(log: seq<Effect>, u: UserId) returns (k: nat)
    requires Settled(log)[u] > 0
    ensures k < |log| && Settles(log[k], u)
  {
    k := |log| - 1;
    if !Settles(log[k], u) { k := SettledSomewhere(log[..k], u); }
  }

  lemma {:induction false} SettledAt(log: seq<Effect>, i: nat, u: UserId)
    requires i < |log| && Settles(log[i], u)
    ensures Settled(log)[u] > 0
  {
    if i < |log| - 1 { SettledAt(log[..|log| - 1], i, u); }
  }

  lemma {:induction false} SettledTwice(log: seq<Effect>, i: nat, j: nat, u: UserId)
    requires i < j < |log| && Settles(log[i], u) && Settles(log[j], u)
    ensures Settled(log)[u] > 1
  {
    if j < |log| - 1 { SettledTwice(log[..|log| - 1], i, j, u); } else { SettledAt(log[..|log| - 1], i, u); }
  }

  ghost predicate Recounted(log: seq<Effect>, u: UserId)
  {
    exists k :: 0 <= k < |log| && log[k].Recount? && log[k].user == u
  }

  lemma DeltaExcludesRecount(log: seq<Effect>, u: UserId, g: nat)
    requires Delta(u, g) in log && Recounted(log, u)
    ensures Settled(log)[u] > 1
  {
    var i :| 0 <= i < |log| && log[i].Recount? && log[i].user == u;
    var j :| 0 <= j < |log| && log[j] == Delta(u, g);
    if i < j { SettledTwice(log, i, j, u); } else { SettledTwice(log, j, i, u); }
  }

  /** Who is settled got a delta or a recount. */
  lemma SettledOneWay(log: seq<Effect>, u: UserId)
    ensures Settled(log)[u] > 0 <==> Recounted(log, u) || exists g :: Delta(u, g) in log
  {
    if Settled(log)[u] > 0 {
      var k := SettledSomewhere(log, u);
      if log[k].Delta? { assert Delta(u, log[k].generation) in log; }
    } else if Recounted(log, u) {
      var i :| 0 <= i < |log| && log[i].Recount? && log[i].user == u;
      SettledAt(log, i, u);
    } else if g :| Delta(u, g) in log {
      var i :| 0 <= i < |log| && log[i] == Delta(u, g);
      SettledAt(log, i, u);
    }
  }

  /** Exactly the disturbed targets are recounted. */
  lemma RecountExactlyWhenDisturbed(targets: seq<UserId>, w: World, u: UserId)
    requires Distinct(targets)
    ensures Recounted(FanOutLog(targets, w), u) <==> u in targets && !Undisturbed(w, u)
  {
    var log := FanOutLog(targets, w);
    EveryTargetIsSettledOnce(targets, w);
    DistinctOnce(targets, u);
    SettledOneWay(log, u);
    forall g ensures Delta(u, g) in log <==> u in targets && Undisturbed(w, u) && g == Captured(w, u) {
      DeltaExactlyWhenUndisturbed(targets, w, u, g);
    }
    if Recounted(log, u) && Undisturbed(w, u) { DeltaExcludesRecount(log, u, Captured(w, u)); }
  }

  lemma {:induction false} DistinctOnce(s: seq<UserId>, u: UserId)
    requires Distinct(s)
    ensures multiset(s)[u] == if u in s then 1 else 0
  {
    if s != [] {
      var init := s[..|s| - 1];
      assert s == init + [s[|s| - 1]];
      DistinctOnce(init, u);
    }
  }

  // ---- who is bumped, and what recounts say ----

  /** Who reaches the bump, in so many words. */
  predicate Reaches(w: World, u: UserId)
  {
    && w.active(0) != Some(false) && w.active(1) != Some(false)
    && (forall k :: 0 <= k < 2 ==> w.peek(u, k) == if u in w.captured then w.captured[u] else 0)
  }

  lemma StillOkReaches(targets: seq<UserId>, w: World, u: UserId)
    ensures u in StillOk(targets, w) <==> u in targets && Reaches(w, u)
  {
    assert Reaches(w, u) <==>
      w.active(0) != Some(false) && w.active(1) != Some(false) && w.peek(u, 0) == Captured(w, u) &&
        w.peek(u, 1) == Captured(w, u);
  }

  lemma InEither(a: seq<Effect>, b: seq<Effect>, x: Effect)
    ensures x in a + b <==> x in a || x in b
  {
  }

  lemma BumpsInLog(stillOk: seq<UserId>, w: World, u: UserId, ok: bool)
    ensures Bumped(u, ok) in BumpLog(stillOk, w) <==> w.active(1) != Some(false) && u in stillOk && ok == w.bumpOk(u)
  {
    var x, post := Bumped(u, ok), PostLog(stillOk, w);
    InEither(LastLooks(stillOk, w), Deltas(BumpedOk(stillOk, w), w) + Recounts(PostMismatch(stillOk, w), w), x);
    InEither([Active(w.active(2))], post, x);
    InEither(Bumps(stillOk, w), [Active(w.active(2))] + post, x);
    InEither([Active(w.active(1))], Bumps(stillOk, w) + ([Active(w.active(2))] + post), x);
    if u in stillOk {
      var i :| 0 <= i < |stillOk| && stillOk[i] == u;
      assert Bumps(stillOk, w)[i] == Bumped(u, w.bumpOk(u));
    }
  }

  /** Exactly the targets that two looks found unchanged are bumped, unless the message was seen
      deleted by then. */
  lemma BumpedExactlyWhenReached(targets: seq<UserId>, w: World, u: UserId, ok: bool)
    ensures Bumped(u, ok) in FanOutLog(targets, w) <==> u in targets && Reaches(w, u) && ok == w.bumpOk(u)
  {
    var x := Bumped(u, ok);
    var bumpOids, stale := Filter(targets, Fresh(w, 0)), Filter(targets, Stale(w, 0));
    var stillOk, late := Filter(bumpOids, Fresh(w, 1)), Filter(bumpOids, Stale(w, 1));
    StillOkReaches(targets, w, u);
    BumpsInLog(stillOk, w, u, ok);
    InEither(Peeks(bumpOids, w, 1) + Recounts(late, w), BumpLog(stillOk, w), x);
    InEither(Peeks(targets, w, 0) + Recounts(stale, w), LateLog(bumpOids, w), x);
    InEither([Active(w.active(0))], Peeks(targets, w, 0) + Recounts(stale, w) + LateLog(bumpOids, w), x);
  }

  /** Every recount reports what the recount answered, and every look what it saw. */
  ghost predicate Truthful(log: seq<Effect>, w: World)
  {
    forall k :: 0 <= k < |log| ==>
      (log[k].Recount? ==> log[k].answered == w.sync(log[k].user)) &&
      (log[k].Peek? ==> exists j :: 0 <= j < 3 && log[k].generation == w.peek(log[k].user, j))
  }

  lemma TruthfulJoin(a: seq<Effect>, b: seq<Effect>, w: World)
    requires Truthful(a, w) && Truthful(b, w)
    ensures Truthful(a + b, w)
  {
  }

  lemma PeeksAreTruthful(s: seq<UserId>, w: World, k: nat)
    requires k < 3
    ensures Truthful(Peeks(s, w, k), w)
  {
  }

  lemma FanOutIsTruthful(targets: seq<UserId>, w: World)
    ensures Truthful(FanOutLog(targets, w), w)
  {
    if w.active(0) != Some(false) {
      var bumpOids, stale := Filter(targets, Fresh(w, 0)), Filter(targets, Stale(w, 0));
      var stillOk, late := Filter(bumpOids, Fresh(w, 1)), Filter(bumpOids, Stale(w, 1));
      BumpIsTruthful(stillOk, w);
      PeeksAreTruthful(bumpOids, w, 1);
      TruthfulJoin(Peeks(bumpOids, w, 1), Recounts(late, w), w);
      TruthfulJoin(Peeks(bumpOids, w, 1) + Recounts(late, w), BumpLog(stillOk, w), w);
      PeeksAreTruthful(targets, w, 0);
      TruthfulJoin(Peeks(targets, w, 0), Recounts(stale, w), w);
      TruthfulJoin(Peeks(targets, w, 0) + Recounts(stale, w), LateLog(bumpOids, w), w);
      TruthfulJoin([Active(w.active(0))], Peeks(targets, w, 0) + Recounts(stale, w) + LateLog(bumpOids, w), w);
    }
  }

  lemma BumpIsTruthful(stillOk: seq<UserId>, w: World)
    ensures Truthful(BumpLog(stillOk, w), w)
  {
    if stillOk != [] && w.active(1) != Some(false) {
      var told := Deltas(BumpedOk(stillOk, w), w) + Recounts(PostMismatch(stillOk, w), w);
      PeeksAreTruthful(Filter(stillOk, w.bumpOk), w, 2);
      TruthfulJoin(LastLooks(stillOk, w), told, w);
      TruthfulJoin([Active(w.active(2))], PostLog(stillOk, w), w);
      TruthfulJoin(Bumps(stillOk, w), [Active(w.active(2))] + PostLog(stillOk, w), w);
      TruthfulJoin([Active(w.active(1))], Bumps(stillOk, w) + ([Active(w.active(2))] + PostLog(stillOk, w)), w);
    }
  }

  // ---- a delta is earned before it is sent ----

  /** Before position `k`: a successful bump, after it an answer that is not "deleted", and after
      that a look at the generation the delta carries. */
  ghost predicate Earned(log: seq<Effect>, k: nat, u: UserId, g: nat)
  {
    exists a: nat, b: nat, c: nat :: a < b < c < k <= |log| &&
      log[a] == Bumped(u, true) && (log[b].Active? && log[b].answer != Some(false)) && log[c] == Peek(u, g)
  }

  ghost predicate DeltasAreEarned(log: seq<Effect>)
  {
    forall k: nat :: k < |log| && log[k].Delta? ==> Earned(log, k, log[k].user, log[k].generation)
  }

  lemma EarnedAfterPrefix(pre: seq<Effect>, log: seq<Effect>)
    requires NoDelta(pre) && DeltasAreEarned(log)
    ensures DeltasAreEarned(pre + log)
  {
    var all := pre + log;
    forall k: nat | k < |all| && all[k].Delta? ensures Earned(all, k, all[k].user, all[k].generation) {
      assert all[k] == log[k - |pre|];
      assert Earned(log, k - |pre|, log[k - |pre|].user, log[k - |pre|].generation);
      var a: nat, b: nat, c: nat :| a < b < c < k - |pre| && log[a] == Bumped(all[k].user, true) &&
        (log[b].Active? && log[b].answer != Some(false)) && log[c] == Peek(all[k].user, all[k].generation);
      assert all[|pre| + a] == log[a] && all[|pre| + b] == log[b] && all[|pre| + c] == log[c];
    }
  }

  lemma EarnedBecause(bumps: seq<Effect>, x: Effect, post: seq<Effect>, a: nat, c: nat, j: nat)
    requires a < |bumps| && c < j < |post| && post[j].Delta? && post[c] == Peek(post[j].user, post[j].generation)
    requires bumps[a] == Bumped(post[j].user, true) && x.Active? && x.answer != Some(false)
    ensures Earned(bumps + ([x] + post), |bumps| + 1 + j, post[j].user, post[j].generation)
  {
    var log, n := bumps + ([x] + post), |bumps|;
    assert log[a] == bumps[a] && log[n] == x && log[n + 1 + c] == post[c];
  }

  lemma DeltaFollowsTheBump(stillOk: seq<UserId>, w: World, j: nat)
    requires var post := PostLog(stillOk, w); j < |post| && post[j].Delta?
    ensures var post := PostLog(stillOk, w);
            Earned(Bumps(stillOk, w) + ([Active(w.active(2))] + post), |stillOk| + 1 + j, post[j].user,
              post[j].generation)
  {
    var post := PostLog(stillOk, w);
    assert post[j] in post;
    PostDelta(stillOk, w, post[j].user, post[j].generation);
    var a :| 0 <= a < |stillOk| && stillOk[a] == post[j].user;
    var c := LookBefore(stillOk, w, j);
    EarnedBecause(Bumps(stillOk, w), Active(w.active(2)), post, a, c, j);
  }

  lemma LookBefore(stillOk: seq<UserId>, w: World, k: nat) returns (c: nat)
    requires k < |PostLog(stillOk, w)| && PostLog(stillOk, w)[k].Delta?
    ensures c < k && PostLog(stillOk, w)[c] == Peek(PostLog(stillOk, w)[k].user, PostLog(stillOk, w)[k].generation)
  {
    var post, landed := PostLog(stillOk, w), Filter(stillOk, w.bumpOk);
    PostDelta(stillOk, w, post[k].user, post[k].generation);
    assert post[k] in post;
    c :| c < |landed| && landed[c] == post[k].user;
    assert post[c] == LastLooks(stillOk, w)[c];
  }

  lemma EarnedInPart(bumps: seq<Effect>, x: Effect, post: seq<Effect>)
    requires NoDelta(bumps) && x.Active?
    requires forall j: nat :: j < |post| && post[j].Delta? ==>
               Earned(bumps + ([x] + post), |bumps| + 1 + j, post[j].user, post[j].generation)
    ensures DeltasAreEarned(bumps + ([x] + post))
  {
    var log, n := bumps + ([x] + post), |bumps| + 1;
    forall k: nat | k < |log| && log[k].Delta? ensures Earned(log, k, log[k].user, log[k].generation) {
      assert k >= n && log[k] == post[k - n];
      assert Earned(log, n + (k - n), post[k - n].user, post[k - n].generation);
    }
  }

  lemma BumpEarned(stillOk: seq<UserId>, w: World)
    ensures DeltasAreEarned(BumpLog(stillOk, w))
  {
    if stillOk != [] && w.active(1) != Some(false) {
      var bumps, x, post := Bumps(stillOk, w), Active(w.active(2)), PostLog(stillOk, w);
      forall j: nat | j < |post| && post[j].Delta?
        ensures Earned(bumps + ([x] + post), |bumps| + 1 + j, post[j].user, post[j].generation)
      {
        DeltaFollowsTheBump(stillOk, w, j);
      }
      EarnedInPart(bumps, x, post);
      EarnedAfterPrefix([Active(w.active(1))], bumps + ([x] + post));
    }
  }

  lemma LateEarned(bumpOids: seq<UserId>, w: World)
    ensures DeltasAreEarned(LateLog(bumpOids, w))
  {
    BumpEarned(Filter(bumpOids, Fresh(w, 1)), w);
    EarnedAfterPrefix(Peeks(bumpOids, w, 1) + Recounts(Filter(bumpOids, Stale(w, 1)), w),
      BumpLog(Filter(bumpOids, Fresh(w, 1)), w));
  }

  /** A delta is sent only after its own bump succeeded, after a later answer that did not say
      "deleted", and after a still later look that found the generation it carries. */
  lemma EveryDeltaIsEarned(targets: seq<UserId>, w: World)
    ensures DeltasAreEarned(FanOutLog(targets, w))
  {
    if w.active(0) != Some(false) {
      var pre, late := Peeks(targets, w, 0) + Recounts(Filter(targets, Stale(w, 0)), w),
        LateLog(Filter(targets, Fresh(w, 0)), w);
      LateEarned(Filter(targets, Fresh(w, 0)), w);
      EarnedAfterPrefix(pre, late);
      EarnedAfterPrefix([Active(w.active(0))], pre + late);
    }
  }

  // ---- what is left in the store ----

  /** What the task leaves in the store, user by user. */
  lemma FanOutOnStore(docs: Docs, targets: seq<UserId>, w: World, messageTs: int, now: UserId -> int, u: UserId)
    requires Distinct(targets)
    ensures var after := BumpEach(docs, StillOk(targets, w), messageTs, now, w.bumpOk);
            if u in targets && Reaches(w, u) && w.bumpOk(u) then BumpedOnce(docs, after, u, messageTs, now(u))
            else Untouched(docs, after, u)
  {
    FilterKeepsDistinct(targets, Fresh(w, 0));
    FilterKeepsDistinct(Filter(targets, Fresh(w, 0)), Fresh(w, 1));
    StillOkReaches(targets, w, u);
    BumpsRaiseByOne(docs, StillOk(targets, w), messageTs, now, w.bumpOk, u);
  }

  /** A "+1" that is sent is exactly what the task's write is worth, whoever else writes in between:
      the member's counter is one higher than it would be without the task, until somebody overwrites
      it after the bump, and from then on the same. */
  lemma DeltaIsWorthOne(docs: Docs, xs: seq<Marked>, targets: seq<UserId>, w: World, u: UserId, g: nat)
    requires OursAre(xs, Filter(StillOk(targets, w), w.bumpOk))
    ensures Delta(u, g) in FanOutLog(targets, w) ==> exists k :: WorthOne(docs, xs, u, k)
  {
    if Delta(u, g) in FanOutLog(targets, w) {
      DeltaExactlyWhenUndisturbed(targets, w, u, g);
      var k := BumpIsWorthOne(docs, xs, Filter(StillOk(targets, w), w.bumpOk), u);
    }
  }
}
