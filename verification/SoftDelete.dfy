/** Soft delete against mark-read on one message. Whether the deleted message was unread is decided
    by two separate updates, yet the answer is that of a single instant. */
module SoftDelete {
  import opened Runs

  datatype Flags = Flags(read: bool, deleted: bool)

  datatype Outcome = AlreadyDeleted | Deleted(wasUnread: bool)

  // ---- the filtered updates: new flags, and whether the document was modified ----

  function DeleteIfUnread(m: Flags): (Flags, bool)
  {
    if !m.deleted && !m.read then (m.(deleted := true), true) else (m, false)
  }
  function DeleteIfActive(m: Flags): (Flags, bool) { if !m.deleted then (m.(deleted := true), true) else (m, false) }
  /** mark-read does not look at `deleted`. */
  function MarkRead(m: Flags): (Flags, bool) { if !m.read then (m.(read := true), true) else (m, false) }

  class MessageDoc {
    var flags: Flags

    constructor (read: bool)
      ensures flags == Flags(read, false)
    {
      flags := Flags(read, false);
    }

    method MarkAsRead() returns (flipped: bool)
      modifies this
      ensures (flags, flipped) == MarkRead(old(flags))
      ensures flags.read && flags.deleted == old(flags).deleted && flipped == !old(flags).read
    {
      flipped := !flags.read;
      if flipped { flags := flags.(read := true); }
    }

    /** `readMeanwhile` and `deletedMeanwhile`: what others did between the two updates. */
    method SoftDeleteActive(readMeanwhile: bool, deletedMeanwhile: bool) returns (r: Outcome)
      modifies this
      ensures flags.deleted
      ensures flags.read == (old(flags).read || (old(flags).deleted && readMeanwhile))
      ensures r == if old(flags).deleted then AlreadyDeleted
                   else if !old(flags).read then Deleted(true)
                   else if deletedMeanwhile then AlreadyDeleted
                   else Deleted(false)
      ensures r.Deleted? ==> r.wasUnread == !flags.read
    {
      if !flags.deleted && !flags.read {
        flags := flags.(deleted := true);
        return Deleted(true);
      }
      flags := Flags(flags.read || readMeanwhile, flags.deleted || deletedMeanwhile);
      if !flags.deleted {
        flags := flags.(deleted := true);
        return Deleted(false);
      }
      r := AlreadyDeleted;
    }
  }

  // ---- any number of deleters and readers ----

  datatype Task =
    | First                      // deleter before its first update
    | Second                     // deleter whose first update matched nothing
    | Ended(outcome: Outcome)
    | Failed                     // database error
    | Reading                    // reader before its update
    | Read

  /** `deletion` records the deleting update: which task made it and what `read` was at that instant.
      `wiped` says that a wipe of the conversation or channel deleted the message instead. */
  datatype State = State(flags: Flags, tasks: seq<Task>, deletion: Option<(nat, bool)>, wiped: bool)

  /** Marking a whole conversation updates by the ids collected before, or by a filter that skips
      deleted messages. A wipe deletes many messages in one update and reports none of them. */
  datatype Event = StartDelete | StartRead | Act(t: nat, ok: bool) | MarkConversation(byIds: bool) | Wipe

  function Step(s: State, e: Event): Option<State>
  {
    match e
    case StartDelete => Some(s.(tasks := s.tasks + [First]))
    case StartRead => Some(s.(tasks := s.tasks + [Reading]))
    case MarkConversation(byIds) =>
      Some(s.(flags := if s.flags.deleted && !byIds then s.flags else s.flags.(read := true)))
    case Wipe => Some(s.(flags := s.flags.(deleted := true), wiped := s.wiped || !s.flags.deleted))
    case Act(t, ok) => if t < |s.tasks| then Acted(s, t, ok) else None
  }

  /** The next update of task t. */
  function Acted(s: State, t: nat, ok: bool): Option<State>
    requires t < |s.tasks|
  {
    match s.tasks[t]
    case First =>
      if !ok then Some(s.(tasks := s.tasks[t := Failed]))
      else
        var (flags, modified) := DeleteIfUnread(s.flags);
        Some(s.(flags := flags, tasks := s.tasks[t := if modified then Ended(Deleted(true)) else Second],
                deletion := if modified then Some((t, s.flags.read)) else s.deletion))
    case Second =>
      if !ok then Some(s.(tasks := s.tasks[t := Failed]))
      else
        var (flags, modified) := DeleteIfActive(s.flags);
        Some(s.(flags := flags, tasks := s.tasks[t := Ended(if modified then Deleted(false) else AlreadyDeleted)],
                deletion := if modified then Some((t, s.flags.read)) else s.deletion))
    case Reading => Some(s.(flags := if ok then MarkRead(s.flags).0 else s.flags, tasks := s.tasks[t := Read]))
    case _ => None
  }

  const Start: Flags -> State := (flags: Flags) => State(flags, [], None, false)

  predicate Reports(k: Task) { k.Ended? && k.outcome.Deleted? }

  /** The deletion on record is the only one, is the one its task reported, and the two flags never
      go back: a deleter in its second update has seen the message read or deleted. */
  ghost predicate Inv(s: State)
  {
    && (s.flags.deleted <==> s.deletion.Some? || s.wiped) && !(s.deletion.Some? && s.wiped)
    && (s.deletion.Some? ==>
          s.deletion.value.0 < |s.tasks| && s.tasks[s.deletion.value.0] == Ended(Deleted(!s.deletion.value.1)))
    && (forall t :: 0 <= t < |s.tasks| && Reports(s.tasks[t]) ==> s.deletion.Some? && s.deletion.value.0 == t)
    && (forall t :: 0 <= t < |s.tasks| && s.tasks[t].Second? ==> s.flags.read || s.flags.deleted)
    && (forall t :: 0 <= t < |s.tasks| && s.tasks[t] == Ended(AlreadyDeleted) ==> s.flags.deleted)
  }

  lemma ActedKeepsInv(s: State, t: nat, ok: bool)
    requires Inv(s) && t < |s.tasks| && Acted(s, t, ok).Some?
    ensures Inv(Acted(s, t, ok).value)
  {
    var s' := Acted(s, t, ok).value;
    assert forall u :: 0 <= u < |s.tasks| && u != t ==> s'.tasks[u] == s.tasks[u];
  }

  lemma StepKeepsInv(s: State, e: Event)
    requires Inv(s) && Step(s, e).Some?
    ensures Inv(Step(s, e).value)
  {
    if e.Act? { ActedKeepsInv(s, e.t, e.ok); }
  }

  /** A read that succeeds leaves the message read, deleted or not; so does marking the conversation,
      except that its filter form skips a deleted message. Nothing else marks it read. */
  lemma ReadExactlyWhenMarked(s: State, e: Event)
    requires Step(s, e).Some?
    ensures Step(s, e).value.flags.read <==>
            || s.flags.read
            || (e.Act? && e.ok && s.tasks[e.t].Reading?)
            || (e.MarkConversation? && (e.byIds || !s.flags.deleted))
  {
  }

  /** The message becomes deleted in exactly these steps: a wipe, the first update of a delete on an unread
      message, and the second update. */
  lemma DeletedExactlyWhen(s: State, e: Event)
    requires Step(s, e).Some?
    ensures Step(s, e).value.flags.deleted <==>
            || s.flags.deleted || e.Wipe?
            || (e.Act? && e.ok && (s.tasks[e.t].Second? || (s.tasks[e.t].First? && !s.flags.read)))
  {
  }

  /** The rest of one delete that nobody interferes with and no database error stops: it deletes the
      message and reports whether it was unread, or finds it deleted already. */
  lemma AloneItDeletes(s: State) returns (es: seq<Event>)
    ensures Run(Step, s, es).Some?
    ensures var t, end := |s.tasks|, Run(Step, s, es).value;
            && |end.tasks| == t + 1 && end.tasks[..t] == s.tasks
            && end.flags.deleted && end.flags.read == s.flags.read
            && end.tasks[t] == Ended(if s.flags.deleted then AlreadyDeleted else Deleted(!s.flags.read))
  {
    var t := |s.tasks|;
    var s1 := Step(s, StartDelete).value;
    var s2 := Step(s1, Act(t, true)).value;
    RunOfTwo(Step, s, StartDelete, s1, Act(t, true), s2);
    es := [StartDelete, Act(t, true)];
    if s2.tasks[t].Second? {
      var s3 := Step(s2, Act(t, true)).value;
      RunOfOne(Step, s2, Act(t, true), s3);
      RunsJoin(Step, s, es, s2, [Act(t, true)], s3);
      es := es + [Act(t, true)];
    }
  }

  lemma FlagsOnlyRise(s: State, e: Event)
    requires Step(s, e).Some?
    ensures s.flags.read ==> Step(s, e).value.flags.read
    ensures s.flags.deleted ==> Step(s, e).value.flags.deleted
    ensures s.deletion.Some? && Inv(s) ==> Step(s, e).value.deletion == s.deletion
    ensures s.flags.deleted && Inv(s) ==> Step(s, e).value.wiped == s.wiped
  {
  }

  lemma EveryRunKeepsInv(read: bool, es: seq<Event>)
    requires Run(Step, Start(Flags(read, false)), es).Some?
    ensures Inv(Run(Step, Start(Flags(read, false)), es).value)
  {
    forall s, e | Inv(s) && Step(s, e).Some? ensures Inv(Step(s, e).value) { StepKeepsInv(s, e); }
    RunKeeps(Step, Inv, Start(Flags(read, false)), es);
  }

  /** Once the message is deleted, exactly one delete reports `Deleted`, with `wasUnread` as "not read"
      at the instant of the deleting update, unless it was a wipe that deleted it: then none does. Before,
      no delete has ended. */
  lemma ExactlyOneDeleteWins(read: bool, es: seq<Event>)
    requires Run(Step, Start(Flags(read, false)), es).Some?
    ensures var s := Run(Step, Start(Flags(read, false)), es).value;
            if !s.flags.deleted then
              forall t :: 0 <= t < |s.tasks| ==> !s.tasks[t].Ended?
            else if s.wiped then
              forall t :: 0 <= t < |s.tasks| ==> !Reports(s.tasks[t])
            else
              s.deletion.Some? && s.deletion.value.0 < |s.tasks| &&
              s.tasks[s.deletion.value.0] == Ended(Deleted(!s.deletion.value.1)) &&
              forall t :: 0 <= t < |s.tasks| && Reports(s.tasks[t]) ==> t == s.deletion.value.0
  {
    EveryRunKeepsInv(read, es);
  }

  /** If some delete ended without a database error, the message is deleted, and one delete reported it
      if and only if no wipe came first. */
  lemma SomeDeleteWins(read: bool, es: seq<Event>, t: nat)
    requires Run(Step, Start(Flags(read, false)), es).Some?
    requires var s := Run(Step, Start(Flags(read, false)), es).value; t < |s.tasks| && s.tasks[t].Ended?
    ensures var s := Run(Step, Start(Flags(read, false)), es).value;
            s.flags.deleted && ((exists u :: 0 <= u < |s.tasks| && Reports(s.tasks[u])) <==> !s.wiped)
  {
    EveryRunKeepsInv(read, es);
    var s := Run(Step, Start(Flags(read, false)), es).value;
    if s.deletion.Some? { assert Reports(s.tasks[s.deletion.value.0]); }
  }

  /** The record is the instant itself: the message becomes deleted either in the update of the task on
      record, which keeps `read` as it was, or in a wipe. */
  lemma RecordIsTheDeletingInstant(s: State, e: Event)
    requires Inv(s) && Step(s, e).Some? && !s.flags.deleted && Step(s, e).value.flags.deleted
    ensures if e.Act? then Step(s, e).value.deletion == Some((e.t, s.flags.read)) && !Step(s, e).value.wiped
            else e.Wipe? && Step(s, e).value.wiped && Step(s, e).value.deletion == None
    ensures Step(s, e).value.flags.read == s.flags.read
  {
  }
}
