/** The read states of one channel: how bumps, mark-reads and seeds write them, alone, in batches and
    among other writers. */
module ChannelReadStates {
  import opened Runs

  type UserId = string

  // ---- the stored read states of one channel ----

  datatype ReadState = ReadState(unread: nat, lastReadAt: int, createdAt: int, updatedAt: int)

  type Docs = map<UserId, ReadState>

  /** $inc with upsert: a missing document starts just before the message. */
  function Bump(docs: Docs, u: UserId, messageTs: int, now: int): Docs
  {
    if u in docs then docs[u := docs[u].(unread := docs[u].unread + 1, updatedAt := now)]
    else docs[u := ReadState(1, messageTs - 1, now, now)]
  }

  /** Field by field: one more unread and a new update time, watermark and creation time kept; or a new
      document with one unread, whose watermark lies just before the message. */
  predicate BumpedOnce(before: Docs, after: Docs, u: UserId, messageTs: int, now: int)
  {
    && u in after
    && (u in before ==> after[u] == ReadState(before[u].unread + 1, before[u].lastReadAt, before[u].createdAt, now))
    && (u !in before ==> after[u] == ReadState(1, messageTs - 1, now, now))
  }

  predicate Untouched(before: Docs, after: Docs, u: UserId)
  {
    (u in after <==> u in before) && (u in before ==> after[u] == before[u])
  }

  /** The bumps that succeed, in list order; each has its own clock reading. */
  function BumpEach(docs: Docs, users: seq<UserId>, messageTs: int, now: UserId -> int, ok: UserId -> bool): Docs
  {
    if users == [] then docs
    else
      var u := users[|users| - 1];
      var before := BumpEach(docs, users[..|users| - 1], messageTs, now, ok);
      if ok(u) then Bump(before, u, messageTs, now(u)) else before
  }

  function Filter(s: seq<UserId>, p: UserId -> bool): (r: seq<UserId>)
    ensures forall u :: u in r <==> u in s && p(u)
  {
    if s == [] then []
    else
      var rest := Filter(s[..|s| - 1], p);
      if p(s[|s| - 1]) then rest + [s[|s| - 1]] else rest
  }

  function Failing(ok: UserId -> bool): UserId -> bool { u => !ok(u) }

  /** The store after the bumps of the first j users, and those of them that failed. */
  function BumpFirst(start: Docs, users: seq<UserId>, j: nat, messageTs: int, now: UserId -> int, ok: UserId -> bool)
    : (Docs, seq<UserId>)
    requires j <= |users|
  {
    if j == 0 then (start, [])
    else
      var (docs, failed) := BumpFirst(start, users, j - 1, messageTs, now, ok);
      var u := users[j - 1];
      if ok(u) then (Bump(docs, u, messageTs, now(u)), failed) else (docs, failed + [u])
  }

  lemma {:induction false} BumpFirstIsBumpEach(start: Docs, users: seq<UserId>, j: nat, messageTs: int,
                                               now: UserId -> int,
                                               ok: UserId -> bool)
    requires j <= |users|
    ensures BumpFirst(start, users, j, messageTs, now, ok)
            == (BumpEach(start, users[..j], messageTs, now, ok), Filter(users[..j], Failing(ok)))
  {
    if j > 0 {
      BumpFirstIsBumpEach(start, users, j - 1, messageTs, now, ok);
      assert users[..j][..j - 1] == users[..j - 1];
    }
  }

  const CHUNK: nat := 32

  class ReadStates {
    var docs: Docs

    method BumpUnread(u: UserId, messageTs: int, now: int, ok: bool)
      modifies this
      ensures docs == if ok then Bump(old(docs), u, messageTs, now) else old(docs)
      ensures if ok then BumpedOnce(old(docs), docs, u, messageTs, now) else Untouched(old(docs), docs, u)
      ensures forall v :: v != u ==> Untouched(old(docs), docs, v)
    {
      if ok {
        if u in docs {
          docs := docs[u := docs[u].(unread := docs[u].unread + 1, updatedAt := now)];
        } else {
          docs := docs[u := ReadState(1, messageTs - 1, now, now)];
        }
      }
    }

    /** One batch, from i to `end`, after `before` have failed. */
    method BumpBatch(users: seq<UserId>, i: nat, end: nat, messageTs: int, now: UserId -> int, ok: UserId -> bool,
                     before: seq<UserId>, ghost start: Docs) returns (failed: seq<UserId>)
      requires i <= end <= |users| && (docs, before) == BumpFirst(start, users, i, messageTs, now, ok)
      modifies this
      ensures (docs, failed) == BumpFirst(start, users, end, messageTs, now, ok)
    {
      failed := before;
      for j := i to end
        invariant (docs, failed) == BumpFirst(start, users, j, messageTs, now, ok)
      {
        BumpUnread(users[j], messageTs, now(users[j]), ok(users[j]));
        if !ok(users[j]) { failed := failed + [users[j]]; }
      }
    }

    /** Batches of 32; the caller learns exactly which bumps failed. */
    method BumpUnreadMany(users: seq<UserId>, messageTs: int, now: UserId -> int, ok: UserId -> bool)
          returns (failed: seq<UserId>)
      modifies this
      ensures docs == BumpEach(old(docs), users, messageTs, now, ok)
      ensures failed == Filter(users, Failing(ok)) && forall u :: u in failed <==> u in users && !ok(u)
      ensures Distinct(users) ==>
              forall u :: if u in users && ok(u) then BumpedOnce(old(docs), docs, u, messageTs, now(u))
                                             else Untouched(old(docs), docs, u)
    {
      failed := [];
      var i := 0;
      while i < |users|
        invariant 0 <= i <= |users| && (docs, failed) == BumpFirst(old(docs), users, i, messageTs, now, ok)
      {
        var end := if i + CHUNK < |users| then i + CHUNK else |users|;
        failed := BumpBatch(users, i, end, messageTs, now, ok, failed, old(docs));
        i := end;
      }
      BumpFirstIsBumpEach(old(docs), users, |users|, messageTs, now, ok);
      assert users[..i] == users;
      forall u | Distinct(users)
        ensures if u in users && ok(u) then BumpedOnce(old(docs), docs, u, messageTs, now(u))
                else Untouched(old(docs), docs, u)
      {
        BumpsRaiseByOne(old(docs), users, messageTs, now, ok, u);
      }
    }

    /** Mark the channel read: nothing is unread, and the watermark is just before now. */
    method Upsert(u: UserId, now: int)
      modifies this
      ensures u in docs && docs[u].unread == 0 && docs[u].lastReadAt == now - 1 && docs[u].updatedAt == now
      ensures docs[u].createdAt == if u in old(docs) then old(docs)[u].createdAt else now
      ensures docs - {u} == old(docs) - {u} && forall v :: v != u ==> Untouched(old(docs), docs, v)
    {
      docs := docs[u := ReadState(0, now - 1, if u in docs then docs[u].createdAt else now, now)];
    }

    /** Only a missing document is written. */
    method SeedIfMissing(u: UserId, now: int)
      modifies this
      ensures docs == if u in old(docs) then old(docs) else old(docs)[u := ReadState(0, now - 1, now, now)]
    {
      if u !in docs { docs := docs[u := ReadState(0, now - 1, now, now)]; }
    }
  }

  predicate Distinct(s: seq<UserId>) { forall i, j :: 0 <= i < j < |s| ==> s[i] != s[j] }

  function Unread(docs: Docs, u: UserId): nat { if u in docs then docs[u].unread else 0 }

  /** One batch of bumps raises exactly the successful users' counters, each by one, and moves no
      read watermark that already existed. */
  lemma {:induction false} BumpsRaiseByOne(docs: Docs, users: seq<UserId>, messageTs: int, now: UserId -> int,
                                           ok: UserId -> bool, u: UserId)
    requires Distinct(users)
    ensures var after := BumpEach(docs, users, messageTs, now, ok);
            if u in users && ok(u) then BumpedOnce(docs, after, u, messageTs, now(u)) else Untouched(docs, after, u)
  {
    if users != [] {
      var init := users[..|users| - 1];
      BumpsRaiseByOne(docs, init, messageTs, now, ok, u);
      assert u in users <==> u in init || u == users[|users| - 1];
      if u == users[|users| - 1] { assert u !in init; }
    }
  }

  /** The bumps of a batch run concurrently: their order does not matter. */
  lemma BatchOrderIsIrrelevant(docs: Docs, users: seq<UserId>, others: seq<UserId>, messageTs: int, now: UserId -> int,
                               ok: UserId -> bool)
    requires Distinct(users) && Distinct(others) && (forall u :: u in users <==> u in others)
    ensures BumpEach(docs, users, messageTs, now, ok) == BumpEach(docs, others, messageTs, now, ok)
  {
    var a, b := BumpEach(docs, users, messageTs, now, ok), BumpEach(docs, others, messageTs, now, ok);
    forall u ensures (u in a <==> u in b) && (u in a ==> a[u] == b[u]) {
      BumpsRaiseByOne(docs, users, messageTs, now, ok, u);
      BumpsRaiseByOne(docs, others, messageTs, now, ok, u);
    }
    assert a.Keys == b.Keys;
  }

  lemma {:induction false} FilterKeepsDistinct(s: seq<UserId>, p: UserId -> bool)
    requires Distinct(s)
    ensures Distinct(Filter(s, p))
  {
    if s != [] {
      var init := s[..|s| - 1];
      FilterKeepsDistinct(init, p);
      assert s[|s| - 1] !in init;
    }
  }

  lemma FilterNext(s: seq<UserId>, u: UserId, p: UserId -> bool)
    ensures Filter(s + [u], p) == if p(u) then Filter(s, p) + [u] else Filter(s, p)
  {
    assert (s + [u])[..|s|] == s;
  }

  lemma FilterPrefix(s: seq<UserId>, i: nat, p: UserId -> bool)
    requires i < |s|
    ensures Filter(s[..i + 1], p) == if p(s[i]) then Filter(s[..i], p) + [s[i]] else Filter(s[..i], p)
  {
    assert s[..i + 1] == s[..i] + [s[i]];
    FilterNext(s[..i], s[i], p);
  }

  // ---- the bumps among other writers ----

  /** What anybody does to the read states: count one more message, overwrite a counter (a mark-read,
      or a recount that writes its result), or seed a missing document. */
  datatype Write =
    | Increment(user: UserId, messageTs: int, now: int)
    | Overwrite(user: UserId, count: nat, now: int)
    | Seed(user: UserId, now: int)

  function Written(docs: Docs, x: Write): Docs
  {
    match x
    case Increment(u, messageTs, now) => Bump(docs, u, messageTs, now)
    case Overwrite(u, count, now) =>
      docs[u := if u in docs then docs[u].(unread := count, updatedAt := now) else ReadState(count, now - 1, now, now)]
    case Seed(u, now) => if u in docs then docs else docs[u := ReadState(0, now - 1, now, now)]
  }

  function WrittenAll(docs: Docs, xs: seq<Write>): Docs
    decreases xs
  {
    if xs == [] then docs else WrittenAll(Written(docs, xs[0]), xs[1..])
  }

  predicate Overwrites(x: Write, u: UserId) { x.Overwrite? && x.user == u }

  /** The writes of everybody in the order they happened, marked with whether the task made them. */
  datatype Marked = Marked(ours: bool, write: Write)

  function Everything(xs: seq<Marked>): seq<Write> { seq(|xs|, i requires 0 <= i < |xs| => xs[i].write) }

  function WithoutOurs(xs: seq<Marked>): seq<Write>
  {
    if xs == [] then [] else if xs[0].ours then WithoutOurs(xs[1..]) else [xs[0].write] + WithoutOurs(xs[1..])
  }

  /** The task's part is one increment for each of these users, anywhere among the others' writes. */
  ghost predicate OursAre(xs: seq<Marked>, users: seq<UserId>)
  {
    && (forall k :: 0 <= k < |xs| && xs[k].ours ==> xs[k].write.Increment? && xs[k].write.user in users)
    && (forall j, k :: 0 <= j < k < |xs| && xs[j].ours && xs[k].ours ==> xs[j].write.user != xs[k].write.user)
    && (forall u :: u in users ==> exists k :: 0 <= k < |xs| && xs[k].ours && xs[k].write.user == u)
  }

  predicate NotOursOn(x: Marked, u: UserId) { x.ours ==> x.write.Increment? && x.write.user != u }

  ghost predicate OverwrittenIn(xs: seq<Marked>, from: nat, u: UserId)
  {
    exists i :: from <= i < |xs| && Overwrites(xs[i].write, u)
  }

  lemma EverythingUnfolds(docs: Docs, other: Docs, xs: seq<Marked>)
    requires xs != []
    ensures WrittenAll(docs, Everything(xs)) == WrittenAll(Written(docs, xs[0].write), Everything(xs[1..]))
    ensures WrittenAll(other, WithoutOurs(xs)) ==
            WrittenAll(if xs[0].ours then other else Written(other, xs[0].write), WithoutOurs(xs[1..]))
  {
    assert Everything(xs)[1..] == Everything(xs[1..]);
  }

  /** Without a bump of ours for u, the task makes no difference to u, or keeps a difference of one
      until the counter is overwritten. */
  lemma {:induction false} DifferenceIsCarried(a: Docs, b: Docs, xs: seq<Marked>, u: UserId, d: nat)
    requires Unread(a, u) == Unread(b, u) + d && forall k :: 0 <= k < |xs| ==> NotOursOn(xs[k], u)
    ensures Unread(WrittenAll(a, Everything(xs)), u) ==
            Unread(WrittenAll(b, WithoutOurs(xs)), u) + if OverwrittenIn(xs, 0, u) then 0 else d
    decreases xs
  {
    if xs != [] {
      var x, a', b' := xs[0].write, Written(a, xs[0].write), if xs[0].ours then b else Written(b, xs[0].write);
      EverythingUnfolds(a, b, xs);
      assert NotOursOn(xs[0], u);
      assert forall i :: 0 <= i < |xs[1..]| ==> xs[1..][i] == xs[i + 1];
      DifferenceIsCarried(a', b', xs[1..], u, if Overwrites(x, u) then 0 else d);
      OverwrittenUnfolds(xs, 0, u);
    }
  }

  lemma OverwrittenUnfolds(xs: seq<Marked>, from: nat, u: UserId)
    requires xs != []
    ensures OverwrittenIn(xs, 0, u) <==> Overwrites(xs[0].write, u) || OverwrittenIn(xs[1..], 0, u)
    ensures OverwrittenIn(xs, from + 1, u) <==> OverwrittenIn(xs[1..], from, u)
  {
    if i :| 0 < i < |xs| && Overwrites(xs[i].write, u) { assert xs[1..][i - 1] == xs[i]; }
    if i :| from + 1 <= i < |xs| && Overwrites(xs[i].write, u) { assert xs[1..][i - 1] == xs[i]; }
    if i :| 0 <= i < |xs| - 1 && Overwrites(xs[1..][i].write, u) { assert xs[1..][i] == xs[i + 1]; }
    if i :| from <= i < |xs| - 1 && Overwrites(xs[1..][i].write, u) { assert xs[1..][i] == xs[i + 1]; }
  }

  lemma {:induction false} OneBumpAmongOthers(a: Docs, b: Docs, xs: seq<Marked>, u: UserId, k: nat)
    requires Unread(a, u) == Unread(b, u) && k < |xs| && xs[k].ours && xs[k].write.Increment? && xs[k].write.user == u
    requires forall j :: 0 <= j < |xs| && j != k ==> NotOursOn(xs[j], u)
    ensures Unread(WrittenAll(a, Everything(xs)), u) ==
            Unread(WrittenAll(b, WithoutOurs(xs)), u) + if OverwrittenIn(xs, k + 1, u) then 0 else 1
    decreases k
  {
    EverythingUnfolds(a, b, xs);
    OverwrittenUnfolds(xs, k, u);
    var rest := xs[1..];
    assert forall i :: 0 <= i < |rest| ==> rest[i] == xs[i + 1];
    if k == 0 {
      DifferenceIsCarried(Written(a, xs[0].write), b, rest, u, 1);
    } else {
      SameWriteSameCount(a, b, xs[0], u);
      OneBumpAmongOthers(Written(a, xs[0].write), if xs[0].ours then b else Written(b, xs[0].write), rest, u, k - 1);
    }
  }

  lemma SameWriteSameCount(a: Docs, b: Docs, x: Marked, u: UserId)
    requires Unread(a, u) == Unread(b, u) && NotOursOn(x, u)
    ensures Unread(Written(a, x.write), u) == Unread(if x.ours then b else Written(b, x.write), u)
  {
  }

  /** Write k is ours for u, and is worth one until the counter is overwritten. */
  ghost predicate WorthOne(docs: Docs, xs: seq<Marked>, u: UserId, k: nat)
  {
    && k < |xs| && xs[k].ours && xs[k].write.Increment? && xs[k].write.user == u
    && Unread(WrittenAll(docs, Everything(xs)), u) ==
         Unread(WrittenAll(docs, WithoutOurs(xs)), u) + if OverwrittenIn(xs, k + 1, u) then 0 else 1
  }

  lemma BumpIsWorthOne(docs: Docs, xs: seq<Marked>, users: seq<UserId>, u: UserId) returns (k: nat)
    requires OursAre(xs, users) && u in users
    ensures WorthOne(docs, xs, u, k)
  {
    k :| 0 <= k < |xs| && xs[k].ours && xs[k].write.user == u;
    OneBumpAmongOthers(docs, docs, xs, u, k);
  }
}
