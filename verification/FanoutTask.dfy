/** The task itself, step by step, against the log and the store that ChannelFanout specifies. */
module FanoutTask {
  import opened Runs
  import opened ChannelReadStates
  import opened ChannelFanout

  // ---- who is told ----

  /** Repeated member ids are told once; the sender gets no unread. */
  method Targets(memberIds: seq<UserId>, sender: UserId) returns (recipients: seq<UserId>, unreadTargets: seq<UserId>)
    ensures Distinct(recipients) && (forall u :: u in recipients <==> u in memberIds)
    ensures Distinct(unreadTargets) && (forall u :: u in unreadTargets <==> u in memberIds && u != sender)
  {
    var notified: set<UserId> := {};
    recipients, unreadTargets := [], [];
    for i := 0 to |memberIds|
      invariant forall u :: u in notified <==> u in memberIds[..i]
      invariant Distinct(recipients) && (forall u :: u in recipients <==> u in notified)
      invariant Distinct(unreadTargets) && (forall u :: u in unreadTargets <==> u in notified && u != sender)
    {
      var member := memberIds[i];
      if member !in notified {
        notified := notified + {member};
        recipients := recipients + [member];
        if member != sender { unreadTargets := unreadTargets + [member]; }
      }
    }
    assert memberIds[..|memberIds|] == memberIds;
  }

  // ---- the task itself ----

  lemma PeeksNext(users: seq<UserId>, i: nat, w: World, k: nat)
    requires i < |users|
    ensures Peeks(users[..i + 1], w, k) == Peeks(users[..i], w, k) + [Peek(users[i], w.peek(users[i], k))]
  {
  }

  /** One look at every generation: who still has the captured one, and who does not. */
  method Look(users: seq<UserId>, w: World, k: nat) returns (same: seq<UserId>, stale: seq<UserId>, log: seq<Effect>)
    ensures same == Filter(users, Fresh(w, k)) && stale == Filter(users, Stale(w, k))
    ensures log == Peeks(users, w, k)
  {
    same, stale, log := [], [], [];
    for i := 0 to |users|
      invariant same == Filter(users[..i], Fresh(w, k)) && stale == Filter(users[..i], Stale(w, k))
      invariant log == Peeks(users[..i], w, k)
    {
      FilterPrefix(users, i, Fresh(w, k));
      FilterPrefix(users, i, Stale(w, k));
      PeeksNext(users, i, w, k);
      var generation := w.peek(users[i], k);
      log := log + [Peek(users[i], generation)];
      if generation == Captured(w, users[i]) { same := same + [users[i]]; } else { stale := stale + [users[i]]; }
    }
    assert users[..|users|] == users;
  }

  /** Recount each user; those without an answer are returned. */
  method RecountAll(users: seq<UserId>, w: World) returns (silent: seq<UserId>, log: seq<Effect>)
    ensures silent == Filter(users, Silent(w)) && log == Recounts(users, w)
  {
    silent, log := [], [];
    for i := 0 to |users|
      invariant silent == Filter(users[..i], Silent(w)) && log == Recounts(users[..i], w)
    {
      assert users[..i + 1][..i] == users[..i];
      log := log + [Recount(users[i], w.sync(users[i]))];
      if w.sync(users[i]).None? { silent := silent + [users[i]]; }
    }
    assert users[..|users|] == users;
  }

  /** With distinct ids, being in the growing list means exactly that the bump failed. */
  lemma ListedMeansFailed(stillOk: seq<UserId>, i: nat, w: World)
    requires i < |stillOk| && Distinct(stillOk)
    ensures stillOk[i] in Filter(stillOk, Failing(w.bumpOk)) + LandedMismatch(stillOk[..i], w) <==>
            !w.bumpOk(stillOk[i])
  {
    var failed := Filter(stillOk, Failing(w.bumpOk));
    assert stillOk[i] !in stillOk[..i];
    assert stillOk[i] !in LandedMismatch(stillOk[..i], w);
    assert stillOk[i] in failed <==> !w.bumpOk(stillOk[i]);
  }

  lemma ClassifyNext(stillOk: seq<UserId>, i: nat, w: World)
    requires i < |stillOk|
    ensures var u, before, after := stillOk[i], stillOk[..i], stillOk[..i + 1];
            && LandedMismatch(after, w) ==
                 (if w.bumpOk(u) && (w.active(2) == Some(false) || Stale(w, 2)(u))
                   then LandedMismatch(before, w) + [u] else LandedMismatch(before, w))
            && BumpedOk(after, w) ==
                 (if w.bumpOk(u) && w.active(2) != Some(false) && Fresh(w, 2)(u) then BumpedOk(before, w) + [u]
                   else BumpedOk(before, w))
  {
    FilterPrefix(stillOk, i, w.bumpOk);
    if w.bumpOk(stillOk[i]) {
      FilterNext(Filter(stillOk[..i], w.bumpOk), stillOk[i], Stale(w, 2));
      FilterNext(Filter(stillOk[..i], w.bumpOk), stillOk[i], Fresh(w, 2));
    }
  }

  lemma LooksNext(stillOk: seq<UserId>, i: nat, w: World)
    requires i < |stillOk|
    ensures LastLooks(stillOk[..i + 1], w) ==
            if w.bumpOk(stillOk[i]) && w.active(2) != Some(false)
              then LastLooks(stillOk[..i], w) + [Peek(stillOk[i], w.peek(stillOk[i], 2))]
            else LastLooks(stillOk[..i], w)
  {
    FilterPrefix(stillOk, i, w.bumpOk);
  }

  /** The three lists after the first i users. */
  ghost predicate Classified(stillOk: seq<UserId>, w: World, i: nat, postMismatch: seq<UserId>, bumpedOk: seq<UserId>,
                             log: seq<Effect>)
    requires i <= |stillOk|
  {
    && postMismatch == Filter(stillOk, Failing(w.bumpOk)) + LandedMismatch(stillOk[..i], w)
    && bumpedOk == BumpedOk(stillOk[..i], w) && log == LastLooks(stillOk[..i], w)
  }

  lemma ClassifiedNext(stillOk: seq<UserId>, w: World, i: nat, postMismatch: seq<UserId>, bumpedOk: seq<UserId>,
                       log: seq<Effect>)
    requires i < |stillOk| && Distinct(stillOk) && Classified(stillOk, w, i, postMismatch, bumpedOk, log)
    ensures stillOk[i] in postMismatch <==> !w.bumpOk(stillOk[i])
    ensures var u := stillOk[i]; var gone := w.active(2) == Some(false);
            Classified(stillOk, w, i + 1,
              if w.bumpOk(u) && (gone || Stale(w, 2)(u)) then postMismatch + [u] else postMismatch,
              if w.bumpOk(u) && !gone && Fresh(w, 2)(u) then bumpedOk + [u] else bumpedOk,
              if w.bumpOk(u) && !gone then log + [Peek(u, w.peek(u, 2))] else log)
  {
    ListedMeansFailed(stillOk, i, w);
    ClassifyNext(stillOk, i, w);
    LooksNext(stillOk, i, w);
    Regroup(Filter(stillOk, Failing(w.bumpOk)), LandedMismatch(stillOk[..i], w), [stillOk[i]]);
  }

  /** Failed bumps are skipped; the rest are looked at unless the message is known to be gone. */
  method Classify(stillOk: seq<UserId>, failed: seq<UserId>, w: World)
      returns (postMismatch: seq<UserId>, bumpedOk: seq<UserId>, log: seq<Effect>)
    requires Distinct(stillOk) && failed == Filter(stillOk, Failing(w.bumpOk))
    ensures postMismatch == PostMismatch(stillOk, w) && bumpedOk == BumpedOk(stillOk, w) && log == LastLooks(stillOk, w)
  {
    postMismatch, bumpedOk, log := failed, [], [];
    for i := 0 to |stillOk|
      invariant Classified(stillOk, w, i, postMismatch, bumpedOk, log)
    {
      var u := stillOk[i];
      ClassifiedNext(stillOk, w, i, postMismatch, bumpedOk, log);
      if u !in postMismatch {
        if w.active(2) == Some(false) {
          postMismatch := postMismatch + [u];
        } else {
          var generation := w.peek(u, 2);
          log := log + [Peek(u, generation)];
          if generation != Captured(w, u) { postMismatch := postMismatch + [u]; } else { bumpedOk := bumpedOk + [u]; }
        }
      }
    }
    assert stillOk[..|stillOk|] == stillOk;
  }

  /** After the bump: failed bumps and changed generations are recounted, the rest get their delta. */
  method AfterBump(stillOk: seq<UserId>, failed: seq<UserId>, w: World)
        returns (stillNone: seq<UserId>, log: seq<Effect>)
    requires Distinct(stillOk) && failed == Filter(stillOk, Failing(w.bumpOk))
    ensures log == PostLog(stillOk, w)
    ensures stillNone == Filter(PostMismatch(stillOk, w), Silent(w))
  {
    var postMismatch, bumpedOk, looks := Classify(stillOk, failed, w);
    var sent := SendDeltas(bumpedOk, w);
    var recounted;
    stillNone, recounted := RecountAll(postMismatch, w);
    log := looks + (sent + recounted);
  }

  method SendDeltas(users: seq<UserId>, w: World) returns (log: seq<Effect>)
    ensures log == Deltas(users, w)
  {
    log := [];
    for i := 0 to |users|
      invariant log == Deltas(users[..i], w)
    {
      log := log + [Delta(users[i], Captured(w, users[i]))];
    }
    assert users[..|users|] == users;
  }

  /** From the second look on. */
  method LatePhase(store: ReadStates, bumpOids: seq<UserId>, w: World, messageTs: int, now: UserId -> int)
      returns (log: seq<Effect>, stillNone: seq<UserId>)
    requires Distinct(bumpOids) && w.active(0) != Some(false)
    modifies store
    ensures log == LateLog(bumpOids, w)
    ensures store.docs == if w.active(1) == Some(false) then old(store.docs)
                          else BumpEach(old(store.docs), Filter(bumpOids, Fresh(w, 1)), messageTs, now, w.bumpOk)
    ensures stillNone ==
            if w.active(1) == Some(false) then [] else Filter(PostMismatch(Filter(bumpOids, Fresh(w, 1)), w), Silent(w))
  {
    stillNone := [];
    var stillOk, lateMismatch, looks := Look(bumpOids, w, 1);
    var silent, recounted := RecountAll(lateMismatch, w);
    FilterKeepsDistinct(bumpOids, Fresh(w, 1));
    log := [];
    if stillOk != [] {
      if w.active(1) == Some(false) {
        silent, log := RecountAll(stillOk, w);
        log := [Active(w.active(1))] + log;
      } else {
        var failed := store.BumpUnreadMany(stillOk, messageTs, now, w.bumpOk);
        stillNone, log := AfterBump(stillOk, failed, w);
        log := [Active(w.active(1))] + (Bumps(stillOk, w) + ([Active(w.active(2))] + log));
      }
    }
    log := looks + recounted + log;
  }

  /** The whole task. It writes nothing but the bumps of the users that reach that point. */
  method FanOut(store: ReadStates, targets: seq<UserId>, w: World, messageTs: int, now: UserId -> int)
      returns (log: seq<Effect>, stillNone: seq<UserId>)
    requires Distinct(targets)
    modifies store
    ensures log == FanOutLog(targets, w)
    ensures store.docs == BumpEach(old(store.docs), StillOk(targets, w), messageTs, now, w.bumpOk)
    ensures stillNone == Filter(PostMismatch(StillOk(targets, w), w), Silent(w))
    ensures forall u :: if u in targets && Reaches(w, u) && w.bumpOk(u)
                        then BumpedOnce(old(store.docs), store.docs, u, messageTs, now(u))
                        else Untouched(old(store.docs), store.docs, u)
  {
    stillNone := [];
    if w.active(0) == Some(false) {
      var _, part := RecountAll(targets, w);
      log := [Active(w.active(0))] + part;
    } else {
      var bumpOids, mismatch, looks := Look(targets, w, 0);
      var _, recounted := RecountAll(mismatch, w);
      FilterKeepsDistinct(targets, Fresh(w, 0));
      log, stillNone := LatePhase(store, bumpOids, w, messageTs, now);
      log := [Active(w.active(0))] + (looks + recounted + log);
    }
    forall u ensures if u in targets && Reaches(w, u) && w.bumpOk(u)
                     then BumpedOnce(old(store.docs), store.docs, u, messageTs, now(u))
                     else Untouched(old(store.docs), store.docs, u)
    {
      FanOutOnStore(old(store.docs), targets, w, messageTs, now, u);
    }
  }

  /** Who is also sent a mention notice: those mentioned, unless muted or the mute list is unknown. */
  datatype Mentions = Mentions(everyone: bool, users: set<UserId>, muted: Option<set<UserId>>)

  predicate IsNotified(m: Mentions, u: UserId) { m.muted.Some? && u !in m.muted.value && (u in m.users || m.everyone) }
  function Notified(m: Mentions): UserId -> bool { u => IsNotified(m, u) }

  /** The notices are sent along with the first look, whatever that look finds. */
  method Notify(targets: seq<UserId>, m: Mentions) returns (notices: seq<UserId>)
    ensures notices == Filter(targets, Notified(m))
    ensures forall u :: u in notices <==>
              u in targets && (u in m.users || m.everyone) && m.muted.Some? && u !in m.muted.value
  {
    notices := [];
    for i := 0 to |targets|
      invariant notices == Filter(targets[..i], Notified(m))
    {
      FilterPrefix(targets, i, Notified(m));
      if m.muted.Some? && targets[i] !in m.muted.value && (targets[i] in m.users || m.everyone) {
        notices := notices + [targets[i]];
      }
    }
    assert targets[..|targets|] == targets;
  }

  /** Both tasks a stored message may start: a replay only recounts everybody; a new message is fanned
      out, with notices unless it is known to be gone at once. */
  method Broadcast(store: ReadStates, memberIds: seq<UserId>, sender: UserId, isReplay: bool, m: Mentions, w: World,
                   messageTs: int, now: UserId -> int)
      returns (targets: seq<UserId>, log: seq<Effect>, notices: seq<UserId>, stillNone: seq<UserId>)
    modifies store
    ensures Distinct(targets) && (forall u :: u in targets <==> u in memberIds && u != sender)
    ensures isReplay ==> log == Recounts(targets, w) && notices == [] && store.docs == old(store.docs)
    ensures !isReplay ==> log == FanOutLog(targets, w)
    ensures !isReplay ==> store.docs == BumpEach(old(store.docs), StillOk(targets, w), messageTs, now, w.bumpOk)
    ensures !isReplay ==> notices == if w.active(0) == Some(false) then [] else Filter(targets, Notified(m))
  {
    var _, unreadTargets := Targets(memberIds, sender);
    targets, notices, stillNone := unreadTargets, [], [];
    if isReplay {
      var _, part := RecountAll(targets, w);
      log := part;
    } else {
      if w.active(0) != Some(false) { notices := Notify(targets, m); }
      log, stillNone := FanOut(store, targets, w, messageTs, now);
    }
  }

  const RETRIES: nat := 3

  /** The first answer from attempt k on. */
  function FirstAnswer(u: UserId, answer: (UserId, nat) -> Option<nat>, k: nat): (r: Option<nat>)
    ensures r.Some? <==> exists i :: k <= i < RETRIES && answer(u, i).Some?
    ensures r.Some? ==>
              exists i :: k <= i < RETRIES && answer(u, i) == r && forall j :: k <= j < i ==> answer(u, j).None?
    decreases RETRIES - k
  {
    if k >= RETRIES then None
    else if answer(u, k).Some? then answer(u, k)
    else FirstAnswer(u, answer, k + 1)
  }

  function Answers(users: seq<UserId>, answer: (UserId, nat) -> Option<nat>): seq<(UserId, nat)>
  {
    if users == [] then []
    else
      var front, u := Answers(users[..|users| - 1], answer), users[|users| - 1];
      if FirstAnswer(u, answer, 0).Some? then front + [(u, FirstAnswer(u, answer, 0).value)] else front
  }

  /** n is the first answer among three attempts. */
  predicate IsFirst(answer: (UserId, nat) -> Option<nat>, u: UserId, n: nat)
  {
    || answer(u, 0) == Some(n)
    || (answer(u, 0) == None && answer(u, 1) == Some(n))
    || (answer(u, 0) == None && answer(u, 1) == None && answer(u, 2) == Some(n))
  }

  /** Who is sent what: the first answer among three attempts, if there is one. */
  lemma {:induction false} AnswersInWords(users: seq<UserId>, answer: (UserId, nat) -> Option<nat>, u: UserId, n: nat)
    ensures (u, n) in Answers(users, answer) <==>
            u in users && IsFirst(answer, u, n)
  {
    if users != [] {
      var front, v := users[..|users| - 1], users[|users| - 1];
      AnswersInWords(front, answer, u, n);
      assert u in users <==> u in front || u == v;
      assert FirstAnswer(v, answer, 3) == None;
      assert FirstAnswer(v, answer, 2) == answer(v, 2);
      assert FirstAnswer(v, answer, 1) == if answer(v, 1).Some? then answer(v, 1) else answer(v, 2);
    }
  }

  /** The follow-up task: up to three more recounts per silent user; the first answer is sent. */
  method RetrySilent(stillNone: seq<UserId>, answer: (UserId, nat) -> Option<nat>) returns (sent: seq<(UserId, nat)>)
    ensures sent == Answers(stillNone, answer)
    ensures forall u: UserId, n: nat :: (u, n) in sent <==>
              u in stillNone && IsFirst(answer, u, n)
  {
    forall u: UserId, n: nat ensures (u, n) in Answers(stillNone, answer) <==> u in stillNone && IsFirst(answer, u, n) {
      AnswersInWords(stillNone, answer, u, n);
    }
    sent := [];
    for i := 0 to |stillNone|
      invariant sent == Answers(stillNone[..i], answer)
    {
      var u, n := stillNone[i], None;
      for k := 0 to RETRIES
        invariant n == None && FirstAnswer(u, answer, 0) == FirstAnswer(u, answer, k)
      {
        n := answer(u, k);
        if n.Some? { break; }
      }
      assert stillNone[..i + 1][..i] == stillNone[..i];
      if n.Some? { sent := sent + [(u, n.value)]; }
    }
    assert stillNone[..|stillNone|] == stillNone;
  }
}
