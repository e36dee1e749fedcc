/** Accepting an invite: reserve a use, try to join, refund the use if the join does not happen.
    Any number of requests run the protocol at once on one invite document. */
module InviteUses {
  import opened Runs
  import opened Counting

  type UserId = string

  datatype Invite = Invite(useCount: nat, maxUses: Option<nat>, revoked: bool, used: bool, expiresAt: Option<int>)

  // ---- the two atomic updates ----

  /** The filter of `try_register_use`. */
  predicate Usable(i: Invite, now: int)
  {
    && !i.used && !i.revoked
    && (i.expiresAt.None? || i.expiresAt.value > now)
    && (i.maxUses.None? || i.useCount < i.maxUses.value)
  }

  function Registered(i: Invite): Invite { i.(useCount := i.useCount + 1) }

  /** `release_use` only matches a positive count. */
  function Released(i: Invite): Invite { if i.useCount > 0 then i.(useCount := i.useCount - 1) else i }

  /** The later document differs in one more use, and in nothing else. */
  predicate OneUseMore(less: Invite, more: Invite)
  {
    && more.useCount == less.useCount + 1 && more.maxUses == less.maxUses && more.revoked == less.revoked
    && more.used == less.used && more.expiresAt == less.expiresAt
  }

  class InviteDoc {
    var invite: Invite

    constructor (maxUses: Option<nat>, expiresAt: Option<int>)
      ensures invite == Invite(0, maxUses, false, false, expiresAt)
    {
      invite := Invite(0, maxUses, false, false, expiresAt);
    }

    /** findOneAndUpdate: the document after the update, or None when the filter does not match. */
    method TryRegisterUse(now: int) returns (consumed: Option<Invite>)
      modifies this
      ensures Usable(old(invite), now) ==> invite == Registered(old(invite)) && consumed == Some(invite)
      ensures !Usable(old(invite), now) ==> invite == old(invite) && consumed == None
      ensures consumed.Some? <==>
                && !old(invite).used && !old(invite).revoked
                && (old(invite).expiresAt.Some? ==> now < old(invite).expiresAt.value)
                && (old(invite).maxUses.Some? ==> old(invite).useCount < old(invite).maxUses.value)
      ensures consumed.Some? ==> consumed.value == invite && OneUseMore(old(invite), invite)
    {
      if invite.used || invite.revoked { return None; }
      if invite.expiresAt.Some? && invite.expiresAt.value <= now { return None; }
      if invite.maxUses.Some? && invite.useCount >= invite.maxUses.value { return None; }
      invite := invite.(useCount := invite.useCount + 1);
      consumed := Some(invite);
    }

    method ReleaseUse()
      modifies this
      ensures invite == Released(old(invite))
      ensures if old(invite).useCount > 0 then OneUseMore(invite, old(invite)) else invite == old(invite)
    {
      if invite.useCount > 0 {
        invite := invite.(useCount := invite.useCount - 1);
      }
    }
  }

  // ---- the protocol ----

  /** Where a request stands; `Refunding` and everything before `Written` has not touched members. */
  datatype Phase =
    | Arrived                  // about to look the invite up
    | Prechecked(seen: Invite) // passed the checks on its own copy
    | Reserved                 // try_register_use matched
    | Vetted                   // channel, ban, user and read-state checks passed
    | Refunding                // some exit after the reservation
    | Joined                   // the member write changed the channel
    | Refunded                 // use given back
    | Lost                     // the refund itself failed in the database
    | Rejected                 // ended before reserving

  /** The channel as far as the member write is concerned. */
  datatype Channel = Channel(exists_: bool, members: set<UserId>, updatedAt: int)

  datatype Request = Request(user: UserId, phase: Phase)

  datatype State = State(invite: Invite, channel: Channel, now: int, requests: seq<Request>)

  /** `Act` runs the next action of request r; `ok` is false when that action takes its failing exit
      for a reason outside the invite: a database error, a ban, a missing channel or user. */
  datatype Event =
    | Arrive(user: UserId)
    | Act(r: nat, ok: bool)
    | Tick(now: int)
    | Revoke
    | ChannelChanges(channel: Channel)

  /** `$addToSet` with `$set updatedAt`: nothing is modified when the channel is gone, or when the
      user is already a member and the clock shows the same millisecond as the last update. */
  predicate WriteModifies(c: Channel, user: UserId, now: int)
  {
    c.exists_ && (user !in c.members || c.updatedAt != now)
  }

  function WithMember(c: Channel, user: UserId, now: int): Channel
  {
    c.(members := c.members + {user}, updatedAt := now)
  }

  function Step(s: State, e: Event): Option<State>
  {
    match e
    case Arrive(user) => Some(s.(requests := s.requests + [Request(user, Arrived)]))
    case Tick(now) => if s.now <= now then Some(s.(now := now)) else None
    case Revoke => Some(s.(invite := s.invite.(revoked := true)))
    case ChannelChanges(c) => Some(s.(channel := c))
    case Act(r, ok) =>
      if r >= |s.requests| || Ended(s.requests[r].phase) then None
      else
        var (invite, channel, phase) := Action(s.invite, s.channel, s.now, s.requests[r], ok);
        Some(State(invite, channel, s.now, s.requests[r := s.requests[r].(phase := phase)]))
  }

  predicate Ended(p: Phase) { p.Joined? || p.Refunded? || p.Lost? || p.Rejected? }

  /** The next atomic action of `accept_invite`. */
  function Action(i: Invite, c: Channel, now: int, q: Request, ok: bool): (Invite, Channel, Phase)
  {
    match q.phase
    case Arrived => (i, c, if ok && Precheck(i, now) then Prechecked(i) else Rejected)
    case Prechecked(_) => if ok && Usable(i, now) then (Registered(i), c, Reserved) else (i, c, Rejected)
    case Reserved => (i, c, if ok then Vetted else Refunding)
    case Vetted =>
      if ok && WriteModifies(c, q.user, now) then (i, WithMember(c, q.user, now), Joined)
      else (i, c, Refunding)
    case Refunding => if ok then (Released(i), c, Refunded) else (i, c, Lost)
    case _ => (i, c, q.phase)
  }

  /** The checks made on the request's own copy of the invite. */
  predicate Precheck(i: Invite, now: int)
  {
    && !i.revoked && !i.used
    && (i.expiresAt.Some? ==> i.expiresAt.value >= now)
    && (i.maxUses.Some? ==> i.useCount < i.maxUses.value)
  }

  // ---- one request, alone, with every exit of the handler ----

  datatype Lookup = Found | Missing | DbError

  /** What the request meets besides the two documents. */
  datatype Circumstances = Circumstances(
    invite: Lookup, channel: Lookup, banned: bool, reserveFails: bool,
    reload: Lookup, bannedNow: bool, userIdValid: bool, user: Lookup, channelHasId: bool, seedFails: bool,
    writeFails: bool, lastLoad: Lookup, refundFails: bool)

  datatype Reply = Success | AlreadyMember | NotFound | BadRequest | Forbidden | ServerError

  class ChannelDoc {
    var channel: Channel

    /** None when the update fails; otherwise whether it modified the document. */
    method AddMember(user: UserId, now: int, fails: bool) returns (modified: Option<bool>)
      modifies this
      ensures modified == if fails then None else Some(WriteModifies(old(channel), user, now))
      ensures channel == if modified == Some(true) then WithMember(old(channel), user, now) else old(channel)
      ensures modified == Some(true) <==>
                !fails && old(channel).exists_ && (user !in old(channel).members || old(channel).updatedAt != now)
      ensures modified == None <==> fails
      ensures modified == Some(true) ==> channel == Channel(old(channel).exists_, old(channel).members + {user}, now)
    {
      if fails { return None; }
      if !channel.exists_ || (user in channel.members && channel.updatedAt == now) { return Some(false); }
      channel := channel.(members := channel.members + {user}, updatedAt := now);
      modified := Some(true);
    }
  }

  /** The request gets as far as holding a use. */
  predicate Reserves(i: Invite, ch: Channel, user: UserId, now: int, c: Circumstances)
  {
    && c.invite.Found? && Precheck(i, now) && c.channel.Found? && !c.banned && user !in ch.members
    && !c.reserveFails && Usable(i, now)
  }

  /** And keeps it. */
  predicate KeepsUse(ch: Channel, user: UserId, now: int, c: Circumstances)
  {
    && c.reload.Found? && !c.bannedNow && c.userIdValid && c.user.Found? && c.channelHasId && !c.seedFails
    && !c.writeFails && WriteModifies(ch, user, now)
  }

  /** No lookup misses, no ban, no refused update. */
  predicate GoesThrough(c: Circumstances)
  {
    && c.invite == Found && c.channel == Found && !c.banned && !c.reserveFails && c.reload == Found && !c.bannedNow
    && c.userIdValid && c.user == Found && c.channelHasId && !c.seedFails && !c.writeFails
  }

  /** What the first look lets pass: an invite in its very last millisecond still does. */
  predicate Visible(i: Invite, now: int)
  {
    && !i.used && !i.revoked && (i.expiresAt.Some? ==> now <= i.expiresAt.value)
    && (i.maxUses.Some? ==> i.useCount < i.maxUses.value)
  }

  /** The invite can still be used: neither switched off, nor expired, nor used up. */
  predicate Open(i: Invite, now: int)
  {
    && !i.used && !i.revoked && (i.expiresAt.Some? ==> now < i.expiresAt.value)
    && (i.maxUses.Some? ==> i.useCount < i.maxUses.value)
  }

  method Refund(doc: InviteDoc, fails: bool)
    modifies doc
    ensures doc.invite == if fails then old(doc.invite) else Released(old(doc.invite))
  {
    if !fails { doc.ReleaseUse(); }
  }

  /** A use is consumed exactly with the member write; every other exit leaves the channel alone and
      the count where it was, unless the refund itself failed. A failed load after the member write
      is reported as an error but gives nothing back. */
  method AcceptInvite(doc: InviteDoc, chan: ChannelDoc, user: UserId, now: int, c: Circumstances) returns (reply: Reply)
    modifies doc, chan
    ensures Reserves(old(doc.invite), old(chan.channel), user, now, c) && KeepsUse(old(chan.channel), user, now, c) ==>
              doc.invite == Registered(old(doc.invite)) && chan.channel == WithMember(old(chan.channel), user, now) &&
              reply == if c.lastLoad.Found? then Success else ServerError
    ensures !(Reserves(old(doc.invite), old(chan.channel), user, now, c) &&
            KeepsUse(old(chan.channel), user, now, c)) ==>
              chan.channel == old(chan.channel) && reply != Success
    ensures !Reserves(old(doc.invite), old(chan.channel), user, now, c) ==> doc.invite == old(doc.invite)
    ensures Reserves(old(doc.invite), old(chan.channel), user, now, c) && !KeepsUse(old(chan.channel), user, now, c) ==>
              doc.invite == if c.refundFails then Registered(old(doc.invite)) else old(doc.invite)
      // the same, in so many words
      ensures (user in chan.channel.members && user !in old(chan.channel).members) <==>
                && GoesThrough(c) && old(chan.channel).exists_ && user !in old(chan.channel).members
                && Open(old(doc.invite), now)
      ensures user in chan.channel.members && user !in old(chan.channel).members ==>
              OneUseMore(old(doc.invite), doc.invite)
      ensures !c.refundFails && !(user in chan.channel.members && user !in old(chan.channel).members) ==>
                doc.invite == old(doc.invite) && chan.channel == old(chan.channel)
    ensures reply == Success ==> user in chan.channel.members && c.lastLoad == Found
    ensures c.invite == Missing ==> reply == NotFound
    ensures c.invite == DbError ==> reply == ServerError
    ensures c.invite == Found && !Visible(old(doc.invite), now) ==> reply == BadRequest
    ensures c.invite == Found && Visible(old(doc.invite), now) && c.channel == Found && c.banned ==> reply == Forbidden
    ensures (c.invite == Found && Visible(old(doc.invite), now) && c.channel == Found && !c.banned) ==>
              user in old(chan.channel).members ==> reply == AlreadyMember && doc.invite == old(doc.invite)
    ensures reply == Forbidden ==> c.banned || c.bannedNow
  {
    if !c.invite.Found? { return if c.invite.Missing? then NotFound else ServerError; }
    var seen := doc.invite;
    if seen.revoked || seen.used { return BadRequest; }
    if seen.expiresAt.Some? && seen.expiresAt.value < now { return BadRequest; }
    if seen.maxUses.Some? && seen.useCount >= seen.maxUses.value { return BadRequest; }
    if !c.channel.Found? { return if c.channel.Missing? then NotFound else ServerError; }
    if c.banned { return Forbidden; }
    if user in chan.channel.members { return AlreadyMember; }
    if c.reserveFails { return ServerError; }
    var consumed := doc.TryRegisterUse(now);
    if consumed.None? { return BadRequest; }
    if !c.reload.Found? {
      Refund(doc, c.refundFails);
      return if c.reload.Missing? then NotFound else ServerError;
    }
    if c.bannedNow {
      Refund(doc, c.refundFails);
      return Forbidden;
    }
    if !c.userIdValid {
      Refund(doc, c.refundFails);
      return BadRequest;
    }
    if !c.user.Found? {
      Refund(doc, c.refundFails);
      return if c.user.Missing? then BadRequest else ServerError;
    }
    if !c.channelHasId || c.seedFails {
      Refund(doc, c.refundFails);
      return ServerError;
    }
    var modified := chan.AddMember(user, now, c.writeFails);
    if modified != Some(true) {
      Refund(doc, c.refundFails);
      return if modified.None? then ServerError else AlreadyMember;
    }
    reply := if c.lastLoad.Found? then Success else ServerError;
  }

  predicate InFlight(p: Phase) { p.Reserved? || p.Vetted? || p.Refunding? }
  predicate Consumes(p: Phase) { InFlight(p) || p.Joined? || p.Lost? }

  function Consumers(): Request -> bool { (q: Request) => Consumes(q.phase) }
  function Flying(): Request -> bool { (q: Request) => InFlight(q.phase) }
  function Joins(): Request -> bool { (q: Request) => q.phase.Joined? }
  function LostRefunds(): Request -> bool { (q: Request) => q.phase.Lost? }

  /** Every use counted on the invite belongs to a request that joined, is on its way, or lost its
      refund to a database error. */
  ghost predicate Inv(s: State)
  {
    && s.invite.useCount == Count(s.requests, Consumers())
    && (s.invite.maxUses.Some? ==> s.invite.useCount <= s.invite.maxUses.value)
  }

  /** One action moves the count exactly when the request starts or stops consuming. */
  lemma ActionEffect(i: Invite, c: Channel, now: int, q: Request, ok: bool)
    requires !Ended(q.phase) && (Consumes(q.phase) ==> i.useCount > 0)
    ensures var (i', _, p) := Action(i, c, now, q, ok);
            && i'.maxUses == i.maxUses
            && i'.useCount + Bit(Consumes(q.phase)) == i.useCount + Bit(Consumes(p))
            && (i'.useCount > i.useCount ==> Usable(i, now))
  {
  }

  lemma StepKeepsInv(s: State, e: Event)
    requires Inv(s) && Step(s, e).Some?
    ensures Inv(Step(s, e).value) && Step(s, e).value.invite.maxUses == s.invite.maxUses
  {
    match e
    case Arrive(user) => CountAppend(s.requests, Request(user, Arrived), Consumers());
    case Act(r, ok) =>
      var q := s.requests[r];
      CountPositive(s.requests, Consumers());
      ActionEffect(s.invite, s.channel, s.now, q, ok);
      CountUpdate(s.requests, r, Step(s, e).value.requests[r], Consumers());
    case _ =>
  }

  ghost predicate Fresh(s: State) { s.requests == [] && s.invite.useCount == 0 }

  lemma EveryRunKeepsInv(s: State, es: seq<Event>)
    requires Fresh(s) && Run(Step, s, es).Some?
    ensures Inv(Run(Step, s, es).value) && Run(Step, s, es).value.invite.maxUses == s.invite.maxUses
  {
    var inv := (t: State) => Inv(t) && t.invite.maxUses == s.invite.maxUses;
    forall t, e | inv(t) && Step(t, e).Some? ensures inv(Step(t, e).value) { StepKeepsInv(t, e); }
    RunKeeps(Step, inv, s, es);
  }

  /** Conservation: the count is the joins plus the reservations in flight plus the lost refunds,
      and never exceeds the limit; so neither do the joins. */
  lemma UsesAreConserved(s: State, es: seq<Event>)
    requires Fresh(s) && Run(Step, s, es).Some?
    ensures var end := Run(Step, s, es).value;
            && end.invite.useCount == Count(end.requests, Joins()) + Count(end.requests, Flying()) +
                 Count(end.requests, LostRefunds())
            && (s.invite.maxUses.Some? ==> end.invite.useCount <= s.invite.maxUses.value)
            && (s.invite.maxUses.Some? ==> Count(end.requests, Joins()) <= s.invite.maxUses.value)
  {
    EveryRunKeepsInv(s, es);
    var end := Run(Step, s, es).value;
    var settled := (q: Request) => q.phase.Joined? || q.phase.Lost?;
    CountSum(end.requests, Consumers(), Flying(), settled);
    CountSum(end.requests, settled, Joins(), LostRefunds());
  }

  /** The `useCount > 0` guard never holds a refund back: a refund always gives one use back. */
  lemma RefundAlwaysLands(s: State, es: seq<Event>, r: nat)
    requires Fresh(s) && Run(Step, s, es).Some?
    requires r < |Run(Step, s, es).value.requests| && Run(Step, s, es).value.requests[r].phase.Refunding?
    ensures var end := Run(Step, s, es).value;
            end.invite.useCount > 0 && Step(end, Act(r, true)).value.invite.useCount == end.invite.useCount - 1
  {
    EveryRunKeepsInv(s, es);
    CountPositive(Run(Step, s, es).value.requests, Consumers());
  }

  /** At rest, and without lost refunds, exactly the joins are counted. */
  lemma AtRestOnlyJoinsCount(s: State, es: seq<Event>)
    requires Fresh(s) && Run(Step, s, es).Some?
    requires forall q :: q in Run(Step, s, es).value.requests ==> !InFlight(q.phase) && !q.phase.Lost?
    ensures Run(Step, s, es).value.invite.useCount == Count(Run(Step, s, es).value.requests, Joins())
  {
    UsesAreConserved(s, es);
    var end := Run(Step, s, es).value;
    CountPositive(end.requests, Flying());
    CountPositive(end.requests, LostRefunds());
    assert forall i :: 0 <= i < |end.requests| ==> end.requests[i] in end.requests;
  }

  // ---- one request through the protocol ----

  /** How far a request has come; no event takes it back. */
  function Rank(p: Phase): nat
  {
    match p
    case Arrived => 0 case Prechecked(_) => 1 case Reserved => 2 case Vetted => 3 case Refunding => 4
    case Joined => 5 case Refunded => 5 case Lost => 5 case Rejected => 5
  }

  /** A request reserves at most once, refunds at most once, and after its member write landed it
      never refunds: the count falls only in a refund of a request that has not joined. */
  lemma RefundsOnlyWithoutJoin(s: State, e: Event, r: nat)
    requires Step(s, e).Some? && r < |s.requests|
    ensures var s' := Step(s, e).value;
            && r < |s'.requests| && s'.requests[r].user == s.requests[r].user
            && (s'.requests[r] == s.requests[r] || Rank(s'.requests[r].phase) > Rank(s.requests[r].phase))
            && (s.requests[r].phase.Joined? ==> s'.requests[r].phase.Joined?)
            && (s'.requests[r].phase.Refunded? && !s.requests[r].phase.Refunded? ==>
                  s.requests[r].phase.Refunding? && s'.channel == s.channel && s'.invite == Released(s.invite))
            && (s'.requests[r].phase.Joined? && !s.requests[r].phase.Joined? ==>
                  s.requests[r].phase.Vetted? && s.requests[r].user in s'.channel.members && s'.invite == s.invite)
            && (s'.invite.useCount < s.invite.useCount ==> e.Act? && s.requests[e.r].phase.Refunding?)
  {
  }

  // ---- one request of the machine, alone ----

  /** A request that nobody interferes with and nothing stops joins, with one use more, if and only if
      the invite is open and the member write changes something; otherwise the invite and the channel
      are as before. */
  lemma AloneItJoinsExactlyWhenOpen(s: State, user: UserId) returns (es: seq<Event>)
    ensures Run(Step, s, es).Some?
    ensures var r, end := |s.requests|, Run(Step, s, es).value;
            && |end.requests| == r + 1 && end.requests[..r] == s.requests && end.requests[r].user == user
            && (if Open(s.invite, s.now) && s.channel.exists_ &&
                 (user !in s.channel.members || s.channel.updatedAt != s.now)
                then end.requests[r].phase == Joined && OneUseMore(s.invite, end.invite) &&
                     end.channel == Channel(true, s.channel.members + {user}, s.now)
                else (end.requests[r].phase == Rejected || end.requests[r].phase == Refunded) &&
                     end.invite == s.invite && end.channel == s.channel)
  {
    var r, act := |s.requests|, Act(|s.requests|, true);
    var s1 := Step(s, Arrive(user)).value;
    var s2 := Step(s1, act).value;
    RunOfTwo(Step, s, Arrive(user), s1, act, s2);
    es := [Arrive(user), act];
    if !s2.requests[r].phase.Rejected? {
      var s3 := Step(s2, act).value;
      RunOfOne(Step, s2, act, s3);
      RunsJoin(Step, s, es, s2, [act], s3);
      es := es + [act];
      if s3.requests[r].phase.Reserved? {
        var rest, end := ReservedEnds(s3, r);
        RunsJoin(Step, s, es, s3, rest, end);
        es := es + rest;
      }
    }
  }

  lemma ReservedEnds(s: State, r: nat) returns (es: seq<Event>, end: State)
    requires r < |s.requests| && s.requests[r].phase.Reserved?
    ensures Run(Step, s, es) == Some(end) && |end.requests| == |s.requests| && end.requests[..r] == s.requests[..r]
    ensures end.requests[r].user == s.requests[r].user
    ensures var user := s.requests[r].user;
            if s.channel.exists_ && (user !in s.channel.members || s.channel.updatedAt != s.now) then
              end.requests[r].phase == Joined && end.invite == s.invite &&
              end.channel == Channel(true, s.channel.members + {user}, s.now)
            else
              end.requests[r].phase == Refunded && end.channel == s.channel &&
              (s.invite.useCount > 0 ==> OneUseMore(end.invite, s.invite))
  {
    var act := Act(r, true);
    var s1 := Step(s, act).value;
    var s2 := Step(s1, act).value;
    RunOfTwo(Step, s, act, s1, act, s2);
    es, end := [act, act], s2;
    if s2.requests[r].phase.Refunding? {
      end := Step(s2, act).value;
      RunOfOne(Step, s2, act, end);
      RunsJoin(Step, s, es, s2, [act], end);
      es := es + [act];
    }
  }

  // ---- reservations and refunds over a whole run ----

  predicate IsAt(s: State, r: nat, p: Phase -> bool) { r < |s.requests| && p(s.requests[r].phase) }

  function Held(): Phase -> bool { (p: Phase) => Consumes(p) || p.Refunded? }
  function GivenBack(): Phase -> bool { (p: Phase) => p.Refunded? }

  /** Event e makes request r enter the phases p. */
  predicate Enters(s: State, e: Event, r: nat, p: Phase -> bool)
    requires Step(s, e).Some?
  {
    !IsAt(s, r, p) && IsAt(Step(s, e).value, r, p)
  }

  /** Event e takes a use, or gives one back, for some request. */
  predicate Takes(s: State, e: Event) requires Step(s, e).Some? { e.Act? && Enters(s, e, e.r, Held()) }
  predicate Returns(s: State, e: Event) requires Step(s, e).Some? { e.Act? && Enters(s, e, e.r, GivenBack()) }

  /** How often request r entered p during the run. */
  function Entries(s: State, es: seq<Event>, r: nat, p: Phase -> bool): nat
    requires Run(Step, s, es).Some?
    decreases es
  {
    if es == [] then 0 else Bit(Enters(s, es[0], r, p)) + Entries(Step(s, es[0]).value, es[1..], r, p)
  }

  /** How many uses were reserved, and how many given back, during the run. */
  function Reservations(s: State, es: seq<Event>): nat
    requires Run(Step, s, es).Some?
    decreases es
  {
    if es == [] then 0 else Bit(Takes(s, es[0])) + Reservations(Step(s, es[0]).value, es[1..])
  }

  function Refunds(s: State, es: seq<Event>): nat
    requires Run(Step, s, es).Some?
    decreases es
  {
    if es == [] then 0 else Bit(Returns(s, es[0])) + Refunds(Step(s, es[0]).value, es[1..])
  }

  lemma PhasesAreKept(s: State, e: Event, r: nat)
    requires Step(s, e).Some?
    ensures IsAt(s, r, Held()) ==> IsAt(Step(s, e).value, r, Held())
    ensures IsAt(s, r, GivenBack()) ==> IsAt(Step(s, e).value, r, GivenBack())
  {
  }

  lemma {:induction false} EntriesCount(s: State, es: seq<Event>, r: nat)
    requires Run(Step, s, es).Some?
    ensures Entries(s, es, r, Held()) + Bit(IsAt(s, r, Held())) == Bit(IsAt(Run(Step, s, es).value, r, Held()))
    ensures Entries(s, es, r, GivenBack()) + Bit(IsAt(s, r, GivenBack())) ==
            Bit(IsAt(Run(Step, s, es).value, r, GivenBack()))
    decreases es
  {
    if es != [] {
      PhasesAreKept(s, es[0], r);
      EntriesCount(Step(s, es[0]).value, es[1..], r);
    }
  }

  /** Each request reserves at most once and is refunded at most once over its whole life: exactly
      once if it ended refunded, never if it joined or lost its refund. */
  lemma EachRequestRefundsOnce(s: State, es: seq<Event>, r: nat)
    requires Fresh(s) && Run(Step, s, es).Some? && r < |Run(Step, s, es).value.requests|
    ensures var p := Run(Step, s, es).value.requests[r].phase;
            && Entries(s, es, r, GivenBack()) == Bit(p.Refunded?)
            && Entries(s, es, r, Held()) == Bit(InFlight(p) || p.Joined? || p.Lost? || p.Refunded?)
            && (Ended(p) ==> Entries(s, es, r, Held()) - Entries(s, es, r, GivenBack()) == Bit(p.Joined? || p.Lost?))
  {
    EntriesCount(s, es, r);
  }

  lemma StepMovesCount(s: State, e: Event)
    requires Inv(s) && Step(s, e).Some?
    ensures Step(s, e).value.invite.useCount + Bit(Returns(s, e)) == s.invite.useCount + Bit(Takes(s, e))
  {
    CountPositive(s.requests, Consumers());
    if e.Act? { ActionEffect(s.invite, s.channel, s.now, s.requests[e.r], e.ok); }
  }

  lemma {:induction false} CountFollows(s: State, es: seq<Event>)
    requires Inv(s) && Run(Step, s, es).Some?
    ensures Run(Step, s, es).value.invite.useCount + Refunds(s, es) == s.invite.useCount + Reservations(s, es)
    decreases es
  {
    if es != [] {
      StepKeepsInv(s, es[0]);
      StepMovesCount(s, es[0]);
      CountFollows(Step(s, es[0]).value, es[1..]);
    }
  }

  /** Over any run the count is exactly the reservations made less the refunds made. */
  lemma ReservationsLessRefunds(s: State, es: seq<Event>)
    requires Fresh(s) && Run(Step, s, es).Some?
    ensures Run(Step, s, es).value.invite.useCount + Refunds(s, es) == Reservations(s, es)
  {
    CountFollows(s, es);
  }
}
