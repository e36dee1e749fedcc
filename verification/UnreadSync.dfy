/** Writing the unread count of one viewer's side of a conversation while sends, deletes and
    mark-reads go on: count, write, read back, count again, for a bounded number of rounds. */
module UnreadSync {
  import opened Runs

  /** `tip` is None when the document is missing, Some(None) when the field is; `truth` is what
      counting the unread live messages returns at this moment. */
  datatype World = World(tip: Option<Option<nat>>, truth: nat)

  /** The environment: what others have made of the world just before the database operation number
      t, and whether that operation fails. */
  datatype Environment = Environment(moves: nat -> Option<World>, fails: nat -> bool)

  function Disturbed(env: Environment, w: World, t: nat): World
  {
    if env.moves(t).Some? then env.moves(t).value else w
  }

  /** Operations that took effect, with what they wrote or returned. */
  datatype Op = Counted(n: nat) | Wrote(n: nat) | ReadBack(n: nat)

  method Count(env: Environment, w: World, t: nat) returns (n: Option<nat>, w': World)
    ensures w' == Disturbed(env, w, t)
    ensures n == if env.fails(t) then None else Some(w'.truth)
  {
    w' := Disturbed(env, w, t);
    n := if env.fails(t) then None else Some(w'.truth);
  }

  method Write(env: Environment, w: World, t: nat, n: nat) returns (ok: bool, w': World)
    ensures ok <==> !env.fails(t) && Disturbed(env, w, t).tip.Some?
    ensures w' == if ok then Disturbed(env, w, t).(tip := Some(Some(n))) else Disturbed(env, w, t)
  {
    w' := Disturbed(env, w, t);
    ok := !env.fails(t) && w'.tip.Some?;
    if ok { w' := w'.(tip := Some(Some(n))); }
  }

  /** None stands for a missing document, a missing field and a failed read alike. */
  method ReadField(env: Environment, w: World, t: nat) returns (n: Option<nat>, w': World)
    ensures w' == Disturbed(env, w, t)
    ensures n == if env.fails(t) || w'.tip.None? then None else w'.tip.value
  {
    w' := Disturbed(env, w, t);
    n := if env.fails(t) || w'.tip.None? then None else w'.tip.value;
  }

  // ---- what the procedure computes ----

  datatype Result = Result(answer: Option<nat>, world: World, log: seq<Op>)

  /** The rounds from operation t on, writing n first. In the last round (left == 1) any mismatch
      ends the attempt; in earlier ones the fresh count is tried next. */
  function Rounds(env: Environment, w: World, n: nat, t: nat, left: nat, log: seq<Op>): Result
    requires left > 0
    decreases left
  {
    var w1 := Disturbed(env, w, t);
    if env.fails(t) || w1.tip.None? then Result(None, w1, log)
    else
      var w2 := Disturbed(env, w1.(tip := Some(Some(n))), t + 1);
      if env.fails(t + 1) || w2.tip.None? || w2.tip.value.None? then Result(None, w2, log + [Wrote(n)])
      else
        var v := w2.tip.value.value;
        var w3 := Disturbed(env, w2, t + 2);
        if left == 1 && v != n then Result(None, w2, log + [Wrote(n), ReadBack(v)])
        else if env.fails(t + 2) then Result(None, w3, log + [Wrote(n), ReadBack(v)])
        else
          var log' := log + [Wrote(n), ReadBack(v), Counted(w3.truth)];
          if w3.truth == n && v == n then Result(Some(n), w3, log')
          else if left == 1 then Result(None, w3, log')
          else Rounds(env, w3, w3.truth, t + 3, left - 1, log')
  }

  function Sync(env: Environment, w: World): Result
  {
    var w0 := Disturbed(env, w, 0);
    if env.fails(0) then Result(None, w0, []) else Rounds(env, w0, w0.truth, 1, 4, [Counted(w0.truth)])
  }

  method TrySync(env: Environment, w: World) returns (r: Result)
    ensures r == Sync(env, w)
  {
    var c, w' := Count(env, w, 0);
    if c.None? { return Result(None, w', []); }
    var n, t, log := c.value, 1, [Counted(c.value)];
    for i := 0 to 3
      invariant t == 1 + 3 * i
      invariant Sync(env, w) == Rounds(env, w', n, t, 4 - i, log)
    {
      var ok, tipN;
      ok, w' := Write(env, w', t, n);
      if !ok { return Result(None, w', log); }
      tipN, w' := ReadField(env, w', t + 1);
      if tipN.None? { return Result(None, w', log + [Wrote(n)]); }
      c, w' := Count(env, w', t + 2);
      if c.None? { return Result(None, w', log + [Wrote(n), ReadBack(tipN.value)]); }
      log := log + [Wrote(n), ReadBack(tipN.value), Counted(c.value)];
      if c.value == n && tipN.value == n {
        return Result(Some(n), w', log);
      }
      n, t := c.value, t + 3;
    }
    var ok, tipN;
    ok, w' := Write(env, w', t, n);
    if !ok { return Result(None, w', log); }
    tipN, w' := ReadField(env, w', t + 1);
    if tipN.None? { return Result(None, w', log + [Wrote(n)]); }
    if tipN.value != n { return Result(None, w', log + [Wrote(n), ReadBack(tipN.value)]); }
    c, w' := Count(env, w', t + 2);
    if c.None? { return Result(None, w', log + [Wrote(n), ReadBack(n)]); }
    log := log + [Wrote(n), ReadBack(n), Counted(c.value)];
    r := Result(if c.value == n then Some(n) else None, w', log);
  }

  // ---- what an answer certifies ----

  /** Counts, writes and read-backs alternate, and each write writes the count before it. */
  predicate InRounds(log: seq<Op>) { forall i :: 0 <= i < |log| ==> Fits(log, i) }

  predicate Fits(log: seq<Op>, i: nat)
    requires i < |log|
  {
    if i % 3 == 0 then log[i].Counted? else if i % 3 == 2 then log[i].ReadBack?
    else log[i].Wrote? && log[i - 1] == Counted(log[i].n)
  }

  /** The last three operations wrote n, read n back and counted n. */
  predicate Certifies(log: seq<Op>, n: nat)
  {
    |log| >= 4 && log[|log| - 3] == Wrote(n) && log[|log| - 2] == ReadBack(n) && log[|log| - 1] == Counted(n)
  }

  lemma RoundGrows(log: seq<Op>, n: nat, v: nat, c: nat)
    requires InRounds(log) && |log| % 3 == 1 && log[|log| - 1] == Counted(n)
    ensures InRounds(log + [Wrote(n)]) && InRounds(log + [Wrote(n), ReadBack(v)])
    ensures InRounds(log + [Wrote(n), ReadBack(v), Counted(c)])
  {
    FitsNext(log, Wrote(n));
    FitsNext(log + [Wrote(n)], ReadBack(v));
    assert log + [Wrote(n)] + [ReadBack(v)] == log + [Wrote(n), ReadBack(v)];
    FitsNext(log + [Wrote(n), ReadBack(v)], Counted(c));
    assert log + [Wrote(n), ReadBack(v)] + [Counted(c)] == log + [Wrote(n), ReadBack(v), Counted(c)];
  }

  lemma FitsNext(log: seq<Op>, op: Op)
    requires InRounds(log) && log != []
    requires if |log| % 3 == 0 then op.Counted? else if |log| % 3 == 2 then op.ReadBack?
             else op.Wrote? && log[|log| - 1] == Counted(op.n)
    ensures InRounds(log + [op])
  {
    forall i | 0 <= i < |log| + 1 ensures Fits(log + [op], i) {
      if i < |log| { assert Fits(log, i); }
    }
  }

  ghost predicate Sound(env: Environment, r: Result)
  {
    && |r.log| <= 1 + 3 * 4 && InRounds(r.log)
    && (r.answer.Some? ==> Certifies(r.log, r.answer.value) && r.world.truth == r.answer.value)
    && (r.answer.Some? ==> r.world == Disturbed(env, World(Some(r.answer), r.world.truth), |r.log| - 1))
  }

  lemma ReturnIsSound(env: Environment, w: World, n: nat, t: nat, log: seq<Op>)
    requires |log| == t && t % 3 == 1 && t <= 10 && InRounds(log) && log[t - 1] == Counted(n)
    requires w.tip == Some(Some(n)) && Disturbed(env, w, t + 2).truth == n
    ensures Sound(env, Result(Some(n), Disturbed(env, w, t + 2), log + [Wrote(n), ReadBack(n), Counted(n)]))
  {
    RoundGrows(log, n, n, n);
  }

  lemma {:induction false} RoundsCertify(env: Environment, w: World, n: nat, t: nat, left: nat, log: seq<Op>)
    requires 0 < left <= 4 && t == 1 + 3 * (4 - left) == |log| && InRounds(log) && log[t - 1] == Counted(n)
    ensures Sound(env, Rounds(env, w, n, t, left, log))
    decreases left
  {
    var w1 := Disturbed(env, w, t);
    RoundGrows(log, n, 0, 0);
    if !env.fails(t) && w1.tip.Some? {
      var w2 := Disturbed(env, w1.(tip := Some(Some(n))), t + 1);
      if !env.fails(t + 1) && w2.tip.Some? && w2.tip.value.Some? {
        var v := w2.tip.value.value;
        var w3 := Disturbed(env, w2, t + 2);
        RoundGrows(log, n, v, w3.truth);
        if w3.truth == n && v == n {
          ReturnIsSound(env, w2, n, t, log);
        } else if !env.fails(t + 2) && left > 1 {
          RoundsCertify(env, w3, w3.truth, t + 3, left - 1, log + [Wrote(n), ReadBack(v), Counted(w3.truth)]);
        }
      }
    }
  }

  /** At most four rounds. An answer n was written, then read back, then counted, and is the true
      count at the moment of return; the tip still shows it unless something wrote the tip between
      that read and that count. */
  lemma AnswerIsCertified(env: Environment, w: World)
    ensures var r := Sync(env, w);
            && |r.log| <= 1 + 3 * 4 && InRounds(r.log)
            && (r.answer.Some? ==>
                  && Certifies(r.log, r.answer.value)
                  && r.world.truth == r.answer.value
                  && (r.world.tip == Some(r.answer) <==>
                        env.moves(|r.log| - 1).None? || env.moves(|r.log| - 1).value.tip == Some(r.answer)))
  {
    var w0 := Disturbed(env, w, 0);
    if !env.fails(0) { RoundsCertify(env, w0, w0.truth, 1, 4, [Counted(w0.truth)]); }
  }

  lemma {:induction false} RoundsStopAtFailure(env: Environment, w: World, n: nat, t: nat, left: nat, log: seq<Op>)
    requires left > 0 && |log| == t && forall i :: 0 <= i < t ==> !env.fails(i)
    ensures var r := Rounds(env, w, n, t, left, log);
            r.answer.Some? ==> forall i :: 0 <= i < |r.log| ==> !env.fails(i)
    decreases left
  {
    var w1 := Disturbed(env, w, t);
    if !env.fails(t) && w1.tip.Some? {
      var w2 := Disturbed(env, w1.(tip := Some(Some(n))), t + 1);
      if !env.fails(t + 1) && w2.tip.Some? && w2.tip.value.Some? && !env.fails(t + 2) && left > 1 {
        var v := w2.tip.value.value;
        var w3 := Disturbed(env, w2, t + 2);
        if !(w3.truth == n && v == n) {
          RoundsStopAtFailure(env, w3, w3.truth, t + 3, left - 1, log + [Wrote(n), ReadBack(v), Counted(w3.truth)]);
        }
      }
    }
  }

  /** There is no answer after a failed operation: every one that was made succeeded. */
  lemma FailureMeansNoAnswer(env: Environment, w: World)
    ensures var r := Sync(env, w); r.answer.Some? ==> forall i :: 0 <= i < |r.log| ==> !env.fails(i)
  {
    var w0 := Disturbed(env, w, 0);
    if !env.fails(0) { RoundsStopAtFailure(env, w0, w0.truth, 1, 4, [Counted(w0.truth)]); }
  }

  // ---- when it answers ----

  /** Nothing moves the world after the operation before `from`. */
  ghost predicate Quiet(env: Environment, from: nat) { forall t: nat :: t >= from ==> env.moves(t) == None }
  ghost predicate NothingFails(env: Environment) { forall t: nat :: !env.fails(t) }
  /** Others may write the field, but do not remove it or its document. */
  ghost predicate TipStays(env: Environment)
  {
    forall t: nat :: env.moves(t).Some? ==> env.moves(t).value.tip.Some? && env.moves(t).value.tip.value.Some?
  }

  /** The first count is operation 0 and the recounts are 3, 6, 9 and 12. */
  const THIRD_RECOUNT: nat := 9

  lemma {:induction false} RoundsAnswer(env: Environment, w: World, n: nat, t: nat, left: nat, log: seq<Op>)
    requires 0 < left <= 4 && t == 1 + 3 * (4 - left)
    requires NothingFails(env) && TipStays(env) && w.tip.Some? && Quiet(env, THIRD_RECOUNT + 1)
    requires left == 1 ==> w.truth == n
    ensures Rounds(env, w, n, t, left, log).answer.Some?
    decreases left
  {
    var w1 := Disturbed(env, w, t);
    var w2 := Disturbed(env, w1.(tip := Some(Some(n))), t + 1);
    var v := w2.tip.value.value;
    var w3 := Disturbed(env, w2, t + 2);
    if left > 1 && !(w3.truth == n && v == n) {
      RoundsAnswer(env, w3, w3.truth, t + 3, left - 1, log + [Wrote(n), ReadBack(v), Counted(w3.truth)]);
    }
  }

  /** If the tip exists, nothing fails and interference stops before the third recount, the answer is
      the true count; and the tip shows it, unless an earlier round returned in the very moment
      between its read and its recount in which something wrote the tip. */
  lemma AnswersOnceQuiet(env: Environment, w: World)
    requires NothingFails(env) && TipStays(env) && w.tip.Some? && Quiet(env, THIRD_RECOUNT + 1)
    ensures var r := Sync(env, w); r.answer == Some(r.world.truth)
    ensures var r := Sync(env, w); r.world.tip == Some(Some(r.world.truth)) <==>
                                   env.moves(|r.log| - 1).None? ||
                                     env.moves(|r.log| - 1).value.tip == Some(Some(r.world.truth))
    ensures Quiet(env, 3) ==> Sync(env, w).world.tip == Some(Some(Sync(env, w).world.truth))
  {
    var w0 := Disturbed(env, w, 0);
    RoundsAnswer(env, w0, w0.truth, 1, 4, [Counted(w0.truth)]);
    AnswerIsCertified(env, w);
  }

  /** Such a moment exists, for any count n and any other value v: a bump whose message is already
      counted, landing late between the read and the recount of the first round, or any other write
      of the field there. */
  lemma AnswerCanMissTheTip(n: nat, v: nat)
    requires n != v
    ensures exists env: Environment, w: World ::
              NothingFails(env) && TipStays(env) && w.tip.Some? && Quiet(env, 4) &&
              Sync(env, w).answer == Some(n) && Sync(env, w).world == World(Some(Some(v)), n)
  {
    var env := Environment((t: nat) => if t == 3 then Some(World(Some(Some(v)), n)) else None, (t: nat) => false);
    var w := World(Some(Some(0)), n);
    assert Rounds(env, w, n, 1, 4, [Counted(n)]).answer == Some(n);
    assert Sync(env, w).answer == Some(n) && Sync(env, w).world == World(Some(Some(v)), n);
  }

  // ---- from which moments of interference on the tip is safe ----

  /** Others act only just before the operations in `may`. */
  ghost predicate OnlyAt(env: Environment, may: nat -> bool) { forall t: nat :: env.moves(t).Some? ==> may(t) }

  /** With interference at these moments only, every answer is on display when it is given. */
  ghost predicate TipAlwaysMatches(may: nat -> bool)
  {
    forall env: Environment, w: World ::
      NothingFails(env) && TipStays(env) && w.tip.Some? && OnlyAt(env, may) && Sync(env, w).answer.Some? ==>
        Sync(env, w).world.tip == Some(Sync(env, w).answer)
  }

  /** Others may act somewhere in round j, which is operations 3j-2 to 3j. */
  predicate Touches(may: nat -> bool, j: nat)
    requires j > 0
  {
    may(3 * j - 2) || may(3 * j - 1) || may(3 * j)
  }

  /** Others may act just before the recount of a round that the procedure can be made to reach. */
  predicate ExposedIn(may: nat -> bool, r: nat)
  {
    1 <= r <= 4 && may(3 * r) && forall j :: 1 <= j < r ==> Touches(may, j)
  }
  predicate Exposed(may: nat -> bool) { exists r :: 1 <= r <= 4 && ExposedIn(may, r) }

  /** A round nobody touches is the last: the count that was written is read back and counted again. */
  lemma UntouchedRoundAnswers(env: Environment, w: World, n: nat, t: nat, left: nat, log: seq<Op>)
    requires left > 0 && w.tip.Some? && w.truth == n && NothingFails(env)
    requires env.moves(t).None? && env.moves(t + 1).None? && env.moves(t + 2).None?
    ensures Rounds(env, w, n, t, left, log).answer == Some(n)
    ensures Rounds(env, w, n, t, left, log).world == World(Some(Some(n)), n)
  {
  }

  lemma {:induction false} UnexposedMatches(env: Environment, w: World, n: nat, j: nat, log: seq<Op>, may: nat -> bool)
    requires 1 <= j <= 4 && NothingFails(env) && TipStays(env) && w.tip.Some? && w.truth == n && OnlyAt(env, may)
    requires !Exposed(may) && forall i :: 1 <= i < j ==> Touches(may, i)
    ensures var r := Rounds(env, w, n, 3 * j - 2, 5 - j, log); r.answer.Some? ==> r.world.tip == Some(r.answer)
    decreases 5 - j
  {
    if !Touches(may, j) {
      UntouchedRoundAnswers(env, w, n, 3 * j - 2, 5 - j, log);
    } else {
      assert !may(3 * j) by { if may(3 * j) { assert ExposedIn(may, j); } }
      assert env.moves(3 * j).None?;
      var t := 3 * j - 2;
      var w1 := Disturbed(env, w, t);
      var w2 := Disturbed(env, w1.(tip := Some(Some(n))), t + 1);
      var v := w2.tip.value.value;
      if !(w2.truth == n && v == n) && j < 4 {
        UnexposedMatches(env, w2, w2.truth, j + 1, log + [Wrote(n), ReadBack(v), Counted(w2.truth)], may);
      }
    }
  }

  // The interference that shows an answer off the tip: in every round before r something changes the
  // count, so that round fails; just before the recount of round r the field alone is written.

  function Disturber(may: nat -> bool, r: nat): Environment
  {
    Environment((t: nat) => if !may(t) || t == 0 then None
                            else if t == 3 * r then Some(World(Some(Some(r)), r - 1))
                            else if t < 3 * r - 2 then Some(World(Some(Some(0)), (t + 2) / 3))
                            else None,
                (t: nat) => false)
  }

  lemma {:induction false} DisturbedRounds(may: nat -> bool, r: nat, w: World, j: nat, log: seq<Op>)
    requires ExposedIn(may, r) && 1 <= j <= r && w.tip.Some? && w.truth == j - 1
    ensures var x := Rounds(Disturber(may, r), w, j - 1, 3 * j - 2, 5 - j, log);
            x.answer == Some(r - 1) && x.world == World(Some(Some(r)), r - 1)
    decreases r - j
  {
    var env, t, n := Disturber(may, r), 3 * j - 2, j - 1;
    if j < r {
      assert Touches(may, j);
      var w1 := Disturbed(env, w, t);
      var w2 := Disturbed(env, w1.(tip := Some(Some(n))), t + 1);
      var w3 := Disturbed(env, w2, t + 2);
      assert (t + 2) / 3 == j && (t + 1 + 2) / 3 == j && (t + 2 + 2) / 3 == j;
      DisturbedRounds(may, r, w3, j + 1, log + [Wrote(n), ReadBack(w2.tip.value.value), Counted(w3.truth)]);
    }
  }

  lemma DisturberIsTame(may: nat -> bool, r: nat)
    requires r >= 1
    ensures var env := Disturber(may, r); NothingFails(env) && TipStays(env) && OnlyAt(env, may)
  {
  }

  /** A condition on the moments alone: with interference restricted to `may`, an answer is always on
      display if and only if no recount in reach is among those moments. Reaching the recount of
      round r takes interference in every round before it. */
  lemma TipMatchesExactlyWhenUnexposed(may: nat -> bool)
    ensures TipAlwaysMatches(may) <==> !Exposed(may)
  {
    if !Exposed(may) {
      forall env: Environment, w: World |
          NothingFails(env) && TipStays(env) && w.tip.Some? && OnlyAt(env, may) && Sync(env, w).answer.Some?
        ensures Sync(env, w).world.tip == Some(Sync(env, w).answer)
      {
        var w0 := Disturbed(env, w, 0);
        UnexposedMatches(env, w0, w0.truth, 1, [Counted(w0.truth)], may);
      }
    } else {
      var r :| 1 <= r <= 4 && ExposedIn(may, r);
      var env, w := Disturber(may, r), World(Some(Some(0)), 0);
      DisturberIsTame(may, r);
      DisturbedRounds(may, r, w, 1, [Counted(0)]);
      assert Sync(env, w).answer == Some(r - 1) && Sync(env, w).world.tip == Some(Some(r));
    }
  }

  /** In particular, interference has to end before the first recount, operation 3: ending any later
      is not enough. */
  lemma TipMatchesExactlyWhenQuietInTime(from: nat)
    ensures (forall env: Environment, w: World ::
               NothingFails(env) && TipStays(env) && w.tip.Some? && Quiet(env, from) && Sync(env, w).answer.Some? ==>
                 Sync(env, w).world.tip == Some(Sync(env, w).answer)) <==>
            from <= 3
  {
    var may := (t: nat) => t < from;
    TipMatchesExactlyWhenUnexposed(may);
    assert from > 3 ==> ExposedIn(may, 1);
    forall env: Environment ensures OnlyAt(env, may) <==> Quiet(env, from) {
    }
  }
}
