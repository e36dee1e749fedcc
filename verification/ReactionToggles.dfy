/** Toggling reactions on one message: pull, and if that removed something clean up an empty list,
    otherwise add. The updates are separate, so the toggles of different users interleave. */
module ReactionToggles {
  import opened Runs

  type UserId = string
  type Emoji = string
  /** `reactions.<emoji>.users`; a missing key is a missing entry, not an empty list. */
  type Reactions = map<Emoji, set<UserId>>

  predicate Reacted(m: Reactions, u: UserId, e: Emoji) { e in m && u in m[e] }

  // ---- the three filtered updates ----

  function Pulled(m: Reactions, u: UserId, e: Emoji): Reactions { if Reacted(m, u, e) then m[e := m[e] - {u}] else m }
  function CleanedUp(m: Reactions, e: Emoji): Reactions { if e in m && m[e] == {} then m - {e} else m }
  function Added(m: Reactions, u: UserId, e: Emoji): Reactions
  {
    if Reacted(m, u, e) then m else m[e := (if e in m then m[e] else {}) + {u}]
  }

  class MessageReactions {
    var reactions: Reactions

    constructor ()
      ensures reactions == map[]
    {
      reactions := map[];
    }

    method Pull(u: UserId, e: Emoji) returns (modified: bool)
      modifies this
      ensures reactions == Pulled(old(reactions), u, e) && modified == Reacted(old(reactions), u, e)
      ensures reactions.Keys == old(reactions).Keys
      ensures forall v, f :: Reacted(reactions, v, f) <==> Reacted(old(reactions), v, f) && !(v == u && f == e)
    {
      modified := e in reactions && u in reactions[e];
      if modified {
        reactions := reactions[e := reactions[e] - {u}];
      }
    }

    method UnsetIfEmpty(e: Emoji)
      modifies this
      ensures reactions == CleanedUp(old(reactions), e)
      ensures forall v, f :: Reacted(reactions, v, f) <==> Reacted(old(reactions), v, f)
      ensures forall f :: f in reactions <==> f in old(reactions) && !(f == e && old(reactions)[e] == {})
    {
      if e in reactions && reactions[e] == {} {
        reactions := reactions - {e};
      }
    }

    method AddToSet(u: UserId, e: Emoji)
      modifies this
      ensures reactions == Added(old(reactions), u, e)
      ensures reactions.Keys == old(reactions).Keys + {e}
      ensures forall v, f :: Reacted(reactions, v, f) <==> Reacted(old(reactions), v, f) || (v == u && f == e)
    {
      var users := if e in reactions then reactions[e] else {};
      if u !in users {
        reactions := reactions[e := users + {u}];
      }
    }

    /** The handler, with nobody else in between. */
    method Toggle(u: UserId, e: Emoji)
      modifies this
      ensures reactions == Toggled(old(reactions), u, e)
    {
      var pulled := Pull(u, e);
      if pulled {
        UnsetIfEmpty(e);
      } else {
        AddToSet(u, e);
      }
    }
  }

  function Toggled(m: Reactions, u: UserId, e: Emoji): Reactions
  {
    if Reacted(m, u, e) then CleanedUp(Pulled(m, u, e), e) else Added(m, u, e)
  }

  /** Alone, a toggle flips one membership, leaves no empty list behind, and undoes itself. */
  lemma ToggleFlipsAndUndoes(m: Reactions, u: UserId, e: Emoji, v: UserId, f: Emoji)
    requires forall g :: g in m ==> m[g] != {}
    ensures Reacted(Toggled(m, u, e), v, f) == (Reacted(m, v, f) != (v == u && f == e))
    ensures f in Toggled(m, u, e) ==> Toggled(m, u, e)[f] != {}
    ensures Toggled(Toggled(m, u, e), u, e) == m
  {
    var t := Toggled(m, u, e);
    if Reacted(m, u, e) {
      assert (m[e] - {u}) + {u} == m[e];
    } else if e in m {
      assert (m[e] + {u}) - {u} == m[e];
    } else {
      assert t[e] - {u} == {};
    }
    assert Toggled(t, u, e) == m;
  }

  // ---- toggles of many users ----

  datatype Phase =
    | Idle
    | Pulling(emoji: Emoji)
    | Cleaning(emoji: Emoji)   // the pull removed the user
    | Adding(emoji: Emoji)     // the pull matched nothing

  /** `completed` counts finished toggles; `stale` holds the emojis whose empty list a failed clean-up left. */
  datatype State = State(reactions: Reactions, phases: map<UserId, Phase>,
                         completed: map<(UserId, Emoji), nat>, stale: set<Emoji>)

  /** One toggle at a time per user; `ok` is false when the database refuses the update. */
  datatype Event = Begin(user: UserId, emoji: Emoji) | Act(user: UserId, ok: bool)

  function PhaseOf(s: State, u: UserId): Phase { if u in s.phases then s.phases[u] else Idle }
  function Completed(s: State, u: UserId, e: Emoji): nat { if (u, e) in s.completed then s.completed[(u, e)] else 0 }

  function Finish(s: State, u: UserId, e: Emoji): State
  {
    s.(phases := s.phases[u := Idle], completed := s.completed[(u, e) := Completed(s, u, e) + 1])
  }

  function Step(s: State, ev: Event): Option<State>
  {
    match ev
    case Begin(u, e) => if PhaseOf(s, u).Idle? then Some(s.(phases := s.phases[u := Pulling(e)])) else None
    case Act(u, ok) =>
      match PhaseOf(s, u)
      case Idle => None
      case Pulling(e) =>
        if !ok then Some(s.(phases := s.phases[u := Idle]))
        else Some(s.(reactions := Pulled(s.reactions, u, e),
                     phases := s.phases[u := if Reacted(s.reactions, u, e) then Cleaning(e) else Adding(e)]))
      case Cleaning(e) =>
        if ok then Some(Finish(s.(reactions := CleanedUp(s.reactions, e)), u, e))
        else Some(Finish(s.(stale := s.stale + {e}), u, e))
      case Adding(e) =>
        if ok then Some(Finish(s.(reactions := Added(s.reactions, u, e)), u, e))
        else Some(s.(phases := s.phases[u := Idle]))
  }

  /** A toggle that runs alone is the sequential one. */
  lemma AloneItIsOneToggle(s: State, u: UserId, e: Emoji)
    requires PhaseOf(s, u).Idle?
    ensures var end := Run(Step, s, [Begin(u, e), Act(u, true), Act(u, true)]);
            && end.Some? && end.value.reactions == Toggled(s.reactions, u, e) && PhaseOf(end.value, u).Idle?
            && Completed(end.value, u, e) == Completed(s, u, e) + 1
  {
    var s1 := Step(s, Begin(u, e)).value;
    var s2 := Step(s1, Act(u, true)).value;
    var s3 := Step(s2, Act(u, true)).value;
    RunOfTwo(Step, s, Begin(u, e), s1, Act(u, true), s2);
    RunOfOne(Step, s2, Act(u, true), s3);
    RunsJoin(Step, s, [Begin(u, e), Act(u, true)], s2, [Act(u, true)], s3);
    assert [Begin(u, e), Act(u, true)] + [Act(u, true)] == [Begin(u, e), Act(u, true), Act(u, true)];
  }

  predicate Flipped(s: State, u: UserId, e: Emoji)
  {
    (Completed(s, u, e) % 2 == 1) != (PhaseOf(s, u) == Cleaning(e))
  }

  /** Membership is the initial one flipped once per completed toggle, and once more between the
      pull and the end of a removing toggle; a toggle that is about to add has not reacted. */
  ghost predicate ToggleOk(init: Reactions, s: State, u: UserId, e: Emoji)
  {
    && Reacted(s.reactions, u, e) == (Reacted(init, u, e) != Flipped(s, u, e))
    && (PhaseOf(s, u) == Adding(e) ==> !Reacted(s.reactions, u, e))
  }

  /** An empty list is about to be cleaned up, or its clean-up failed. */
  ghost predicate EmptyListOwed(s: State, e: Emoji)
  {
    e in s.reactions && s.reactions[e] == {} ==> e in s.stale || exists u :: u in s.phases && s.phases[u] == Cleaning(e)
  }

  /** No step of one user touches another user's reaction, or the same user's other emojis. */
  lemma StepIsLocal(s: State, ev: Event, v: UserId, f: Emoji)
    requires Step(s, ev).Some?
    requires v != ev.user || (ev.Act? && PhaseOf(s, v) != Pulling(f) && PhaseOf(s, v) != Adding(f)) || ev.Begin?
    ensures Reacted(Step(s, ev).value.reactions, v, f) == Reacted(s.reactions, v, f)
  {
  }

  lemma StepKeepsToggle(init: Reactions, s: State, ev: Event, u: UserId, e: Emoji)
    requires ToggleOk(init, s, u, e) && Step(s, ev).Some?
    ensures ToggleOk(init, Step(s, ev).value, u, e)
  {
    if ev.user != u { StepIsLocal(s, ev, u, e); }
  }

  lemma StepKeepsOwed(s: State, ev: Event, e: Emoji)
    requires EmptyListOwed(s, e) && Step(s, ev).Some?
    ensures EmptyListOwed(Step(s, ev).value, e)
  {
    var s' := Step(s, ev).value;
    if e in s'.reactions && s'.reactions[e] == {} && e !in s'.stale {
      if e in s.reactions && s.reactions[e] == {} {
        var u :| u in s.phases && s.phases[u] == Cleaning(e);
        assert u != ev.user && s'.phases[u] == Cleaning(e);
      } else {
        assert s'.phases[ev.user] == Cleaning(e);
      }
    }
  }

  function Start(init: Reactions): State { State(init, map[], map[], {}) }

  ghost predicate TogglesOk(init: Reactions, s: State) { forall u, e :: ToggleOk(init, s, u, e) }
  ghost predicate EmptyListsOwed(s: State) { forall e :: EmptyListOwed(s, e) }

  lemma EveryRunKeepsToggles(init: Reactions, evs: seq<Event>)
    requires Run(Step, Start(init), evs).Some?
    ensures TogglesOk(init, Run(Step, Start(init), evs).value)
  {
    var inv := (s: State) => TogglesOk(init, s);
    forall s, ev | inv(s) && Step(s, ev).Some? ensures inv(Step(s, ev).value) {
      forall u, e ensures ToggleOk(init, Step(s, ev).value, u, e) {
        assert ToggleOk(init, s, u, e);
        StepKeepsToggle(init, s, ev, u, e);
      }
    }
    forall u, e ensures ToggleOk(init, Start(init), u, e) {}
    RunKeeps(Step, inv, Start(init), evs);
  }

  lemma EveryRunKeepsOwed(init: Reactions, evs: seq<Event>)
    requires (forall e :: e in init ==> init[e] != {}) && Run(Step, Start(init), evs).Some?
    ensures EmptyListsOwed(Run(Step, Start(init), evs).value)
  {
    forall s, ev | EmptyListsOwed(s) && Step(s, ev).Some? ensures EmptyListsOwed(Step(s, ev).value) {
      forall e ensures EmptyListOwed(Step(s, ev).value, e) {
        assert EmptyListOwed(s, e);
        StepKeepsOwed(s, ev, e);
      }
    }
    RunKeeps(Step, EmptyListsOwed, Start(init), evs);
  }

  /** Whenever a user has no toggle under way on an emoji, their reaction is the initial one flipped
      once per completed toggle, whatever the others did meanwhile. */
  lemma ReactionFollowsOwnToggles(init: Reactions, evs: seq<Event>, u: UserId, e: Emoji)
    requires Run(Step, Start(init), evs).Some?
    requires PhaseOf(Run(Step, Start(init), evs).value, u) != Cleaning(e)
    ensures var s := Run(Step, Start(init), evs).value;
            Reacted(s.reactions, u, e) == (Reacted(init, u, e) != (Completed(s, u, e) % 2 == 1))
  {
    EveryRunKeepsToggles(init, evs);
    assert ToggleOk(init, Run(Step, Start(init), evs).value, u, e);
  }

  /** Every completed toggle flipped the user's own reaction: the adding update always matches. */
  lemma AddAlwaysMatches(init: Reactions, evs: seq<Event>, u: UserId, e: Emoji)
    requires Run(Step, Start(init), evs).Some?
    requires PhaseOf(Run(Step, Start(init), evs).value, u) == Adding(e)
    ensures var s := Run(Step, Start(init), evs).value;
            !Reacted(s.reactions, u, e) && Reacted(Step(s, Act(u, true)).value.reactions, u, e)
  {
    EveryRunKeepsToggles(init, evs);
    assert ToggleOk(init, Run(Step, Start(init), evs).value, u, e);
  }

  /** The clean-up removes an entry only when nobody is in it. */
  lemma CleanUpDropsNobody(s: State, u: UserId, v: UserId, e: Emoji, f: Emoji)
    requires PhaseOf(s, u) == Cleaning(e)
    ensures Reacted(Step(s, Act(u, true)).value.reactions, v, f) == Reacted(s.reactions, v, f)
  {
  }

  /** At rest an empty list can only be one whose clean-up the database refused. */
  lemma NoEmptyListAtRest(init: Reactions, evs: seq<Event>, e: Emoji)
    requires (forall f :: f in init ==> init[f] != {}) && Run(Step, Start(init), evs).Some?
    requires forall u :: PhaseOf(Run(Step, Start(init), evs).value, u).Idle?
    requires e in Run(Step, Start(init), evs).value.reactions && e !in Run(Step, Start(init), evs).value.stale
    ensures Run(Step, Start(init), evs).value.reactions[e] != {}
  {
    EveryRunKeepsOwed(init, evs);
    var s := Run(Step, Start(init), evs).value;
    assert EmptyListOwed(s, e);
    assert forall u :: u in s.phases ==> PhaseOf(s, u) == s.phases[u];
  }

  ghost predicate NothingRefused(evs: seq<Event>) { forall i :: 0 <= i < |evs| && evs[i].Act? ==> evs[i].ok }

  lemma {:induction false} NothingStaleWithoutRefusal(s: State, evs: seq<Event>)
    requires NothingRefused(evs) && Run(Step, s, evs).Some?
    ensures Run(Step, s, evs).value.stale == s.stale
    decreases evs
  {
    if evs != [] {
      assert NothingRefused(evs[1..]);
      NothingStaleWithoutRefusal(Step(s, evs[0]).value, evs[1..]);
    }
  }

  /** Without database failures every list is non-empty again once all toggles have ended. */
  lemma CleanAtRestWithoutFailures(init: Reactions, evs: seq<Event>, e: Emoji)
    requires (forall f :: f in init ==> init[f] != {}) && Run(Step, Start(init), evs).Some? && NothingRefused(evs)
    requires forall u :: PhaseOf(Run(Step, Start(init), evs).value, u).Idle?
    requires e in Run(Step, Start(init), evs).value.reactions
    ensures Run(Step, Start(init), evs).value.reactions[e] != {}
  {
    NothingStaleWithoutRefusal(Start(init), evs);
    NoEmptyListAtRest(init, evs, e);
  }
}
