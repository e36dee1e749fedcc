/** Two caches of access decisions with short lifetimes, keyed by two ids glued together with a
    colon. They behave like caches keyed by the pair. */
module AccessCaches {
  import opened Runs

  // ---- glued keys ----

  predicate ColonFree(s: string) { ':' !in s }
  predicate StartsWith(s: string, p: string) { |p| <= |s| && s[..|p|] == p }
  predicate EndsWith(s: string, p: string) { |p| <= |s| && s[|s| - |p|..] == p }

  function Key(a: string, b: string): string { a + ":" + b }

  /** Where the first id of a glued key ends. */
  function FirstColon(s: string): (r: nat)
    ensures r <= |s| && (forall i :: 0 <= i < r ==> s[i] != ':') && (r < |s| ==> s[r] == ':')
  {
    if s == "" || s[0] == ':' then 0 else 1 + FirstColon(s[1..])
  }

  lemma KeySplitsAtTheColon(a: string, b: string)
    requires ColonFree(a)
    ensures FirstColon(Key(a, b)) == |a| && Key(a, b)[..|a|] == a && Key(a, b)[|a| + 1..] == b
  {
    var k := Key(a, b);
    assert k[|a|] == ':';
    forall i | 0 <= i < |a| ensures k[i] != ':' { assert k[i] == a[i]; }
  }

  /** Only the first id has to be free of colons. */
  lemma KeyInjective(a: string, b: string, c: string, d: string)
    requires ColonFree(a) && ColonFree(c) && Key(a, b) == Key(c, d)
    ensures a == c && b == d
  {
    KeySplitsAtTheColon(a, b);
    KeySplitsAtTheColon(c, d);
  }

  /** One pair splits the glued key at a colon that lies further right than the other's. */
  ghost predicate Shifted(a: string, b: string, c: string, d: string)
  {
    exists m: string :: c == a + ":" + m && b == m + ":" + d
  }

  lemma ShiftedKeys(a: string, b: string, c: string, d: string)
    requires Key(a, b) == Key(c, d) && |a| < |c|
    ensures Shifted(a, b, c, d)
  {
    var k := Key(a, b);
    assert k[|a|] == ':' && k[|a| + 1..] == b && k[..|a|] == a;
    assert k[|c|] == ':' && k[|c| + 1..] == d && k[..|c|] == c;
    var m := c[|a| + 1..];
    assert c[..|a|] == k[..|c|][..|a|] == k[..|a|] && c[|a|] == k[|a|];
    assert c == a + ":" + m;
    assert b == k[|a| + 1..|c|] + [k[|c|]] + k[|c| + 1..] && m == k[..|c|][|a| + 1..];
  }

  lemma ShiftedKeysCollide(a: string, b: string, c: string, d: string, m: string)
    requires c == a + ":" + m && b == m + ":" + d
    ensures Key(a, b) == Key(c, d) && a != c
  {
    assert Key(a, b) == a + ":" + (m + ":" + d) && Key(c, d) == (a + ":" + m) + ":" + d;
    assert |c| > |a|;
  }

  /** In general two pairs share a key exactly when one first id continues the other across a colon,
      and the second ids make up for it. */
  lemma KeysCollideExactlyWhen(a: string, b: string, c: string, d: string)
    ensures Key(a, b) == Key(c, d) && (a != c || b != d) <==> Shifted(a, b, c, d) || Shifted(c, d, a, b)
  {
    if Key(a, b) == Key(c, d) {
      if |a| < |c| {
        ShiftedKeys(a, b, c, d);
      } else if |c| < |a| {
        ShiftedKeys(c, d, a, b);
      } else {
        assert a == Key(a, b)[..|a|] && c == Key(c, d)[..|a|] && b == Key(a, b)[|a| + 1..] && d == Key(c, d)[|a| + 1..];
      }
    }
    if m: string :| c == a + ":" + m && b == m + ":" + d { ShiftedKeysCollide(a, b, c, d, m); }
    if m: string :| a == c + ":" + m && d == m + ":" + b { ShiftedKeysCollide(c, d, a, b, m); }
  }

  /** The shortest kind of collision. */
  lemma KeysCollideWithoutThat()
    ensures Key("a:b", "c") == Key("a", "b:c")
  {
    assert "a:b" == "a" + ":" + "b" && "b:c" == "b" + ":" + "c";
    ShiftedKeysCollide("a", "b:c", "a:b", "c", "b");
  }

  lemma PrefixIsExact(x: string, a: string, b: string)
    requires ColonFree(x) && ColonFree(a)
    ensures StartsWith(Key(a, b), x + ":") <==> a == x
  {
    var k := Key(a, b);
    if StartsWith(k, x + ":") {
      assert k == Key(x, k[|x| + 1..]);
      KeyInjective(a, b, x, k[|x| + 1..]);
    }
  }

  lemma SuffixStartsAtAColon(s: string, x: string)
    requires EndsWith(s, ":" + x)
    ensures s[|s| - |x| - 1] == ':' && s[|s| - |x|..] == x
  {
    assert s[|s| - |x| - 1] == s[|s| - |x| - 1..][0];
    assert s[|s| - |x|..] == s[|s| - |x| - 1..][1..];
  }

  /** The suffix may reach into the second id but never into the first. */
  lemma SuffixIsExact(x: string, a: string, b: string)
    requires ColonFree(a)
    ensures EndsWith(Key(a, b), ":" + x) <==> b == x || EndsWith(b, ":" + x)
  {
    var k := Key(a, b);
    KeySplitsAtTheColon(a, b);
    if EndsWith(k, ":" + x) {
      SuffixStartsAtAColon(k, x);
      assert |x| <= |b|;
      if |x| < |b| { assert b[|b| - |x| - 1..] == k[|k| - |x| - 1..]; }
    }
  }

  // ---- a cache of entries E ----

  const CACHE_MAX: nat := 8000

  type Cache<E> = map<string, E>

  /** What an invalidation names; keys are compared as strings. */
  datatype Wipe =
    | ByFirst(x: string)
    | BySecond(x: string)
    | ByEither(x: string)
    | Both(a: string, b: string)     // the pair in either order
    | Exactly(a: string, b: string)

  predicate KeyMatches(w: Wipe, k: string)
  {
    match w
    case ByFirst(x) => StartsWith(k, x + ":")
    case BySecond(x) => EndsWith(k, ":" + x)
    case ByEither(x) => StartsWith(k, x + ":") || EndsWith(k, ":" + x)
    case Both(a, b) => k == Key(a, b) || k == Key(b, a)
    case Exactly(a, b) => k == Key(a, b)
  }

  /** The pairs it is meant for. */
  predicate PairMatches(w: Wipe, a: string, b: string)
  {
    match w
    case ByFirst(x) => a == x
    case BySecond(x) => b == x || EndsWith(b, ":" + x)
    case ByEither(x) => a == x || b == x || EndsWith(b, ":" + x)
    case Both(c, d) => (a == c && b == d) || (a == d && b == c)
    case Exactly(c, d) => a == c && b == d
  }

  /** Ids are colon-free wherever they can come first in a key. */
  predicate WellFormed(w: Wipe)
  {
    match w
    case ByFirst(x) => ColonFree(x)
    case BySecond(_) => true
    case ByEither(x) => ColonFree(x)
    case Both(a, b) => ColonFree(a) && ColonFree(b)
    case Exactly(a, _) => ColonFree(a)
  }

  lemma WipeIsExact(w: Wipe, a: string, b: string)
    requires WellFormed(w) && ColonFree(a)
    ensures KeyMatches(w, Key(a, b)) <==> PairMatches(w, a, b)
  {
    match w
    case ByFirst(x) => PrefixIsExact(x, a, b);
    case BySecond(x) => SuffixIsExact(x, a, b);
    case ByEither(x) => PrefixIsExact(x, a, b); SuffixIsExact(x, a, b);
    case Both(c, d) =>
      if Key(a, b) == Key(c, d) { KeyInjective(a, b, c, d); }
      if Key(a, b) == Key(d, c) { KeyInjective(a, b, d, c); }
    case Exactly(c, d) =>
      if Key(a, b) == Key(c, d) { KeyInjective(a, b, c, d); }
  }

  /** With colon-free ids on both sides nothing but the named ids is hit. */
  lemma ColonFreeIdsAreHitExactly(x: string, b: string)
    requires ColonFree(b)
    ensures !EndsWith(b, ":" + x)
  {
    if EndsWith(b, ":" + x) { SuffixStartsAtAColon(b, x); }
  }

  function Retain<E>(m: Cache<E>, w: Wipe): (r: Cache<E>) { map k | k in m && !KeyMatches(w, k) :: m[k] }

  /** `evicted` is the part of the map that the overflow loop happened to meet first. */
  predicate CanPut<E>(m: Cache<E>, a: string, b: string, evicted: set<string>)
  {
    var full := m.Keys + {Key(a, b)};
    evicted <= full && |evicted| == if |full| > CACHE_MAX then |full| - CACHE_MAX else 0
  }

  function Put<E>(m: Cache<E>, a: string, b: string, entry: E, evicted: set<string>): Cache<E>
  {
    m[Key(a, b) := entry] - evicted
  }

  /** Pair by pair: the entries of pairs that `gone` names are dropped, all others stay as they were. */
  ghost predicate Drops<E(!new)>(before: Cache<E>, after: Cache<E>, gone: (string, string) -> bool)
  {
    forall a, b :: ColonFree(a) ==>
      (Key(a, b) in after <==> Key(a, b) in before && !gone(a, b)) &&
      (Key(a, b) in after ==> after[Key(a, b)] == before[Key(a, b)])
  }

  lemma RetainDrops<E(!new)>(m: Cache<E>, w: Wipe, gone: (string, string) -> bool)
    requires WellFormed(w) && forall a, b :: gone(a, b) <==> PairMatches(w, a, b)
    ensures Drops(m, Retain(m, w), gone)
  {
    forall a, b | ColonFree(a)
      ensures (Key(a, b) in Retain(m, w) <==> Key(a, b) in m && !gone(a, b)) &&
              (Key(a, b) in Retain(m, w) ==> Retain(m, w)[Key(a, b)] == m[Key(a, b)])
    {
      WipeIsExact(w, a, b);
    }
  }

  // ---- runs ----

  datatype Event<E> =
    | Store(a: string, b: string, entry: E, evicted: set<string>)
    | Invalidate(w: Wipe)

  function Step<E>(m: Cache<E>, e: Event<E>): Option<Cache<E>>
  {
    match e
    case Store(a, b, entry, evicted) => if ColonFree(a) && CanPut(m, a, b, evicted)
         then Some(Put(m, a, b, entry, evicted)) else None
    case Invalidate(w) => if WellFormed(w) then Some(Retain(m, w)) else None
  }

  predicate Forgets<E>(e: Event<E>, a: string, b: string)
  {
    match e
    case Store(_, _, _, evicted) => Key(a, b) in evicted
    case Invalidate(w) => PairMatches(w, a, b)
  }

  /** What a cache keyed by pairs would hold for one pair. */
  function Remembered<E>(es: seq<Event<E>>, a: string, b: string): Option<E>
  {
    if es == [] then None
    else
      var e := es[|es| - 1];
      if Forgets(e, a, b) then None
      else if e.Store? && e.a == a && e.b == b then Some(e.entry)
      else Remembered(es[..|es| - 1], a, b)
  }

  function Lookup<E>(m: Cache<E>, a: string, b: string): Option<E>
  {
    if Key(a, b) in m then Some(m[Key(a, b)]) else None
  }

  lemma StepIsPerPair<E>(m: Cache<E>, e: Event<E>, a: string, b: string)
    requires ColonFree(a) && Step(m, e).Some?
    ensures Lookup(Step(m, e).value, a, b) ==
            if Forgets(e, a, b) then None
            else if e.Store? && e.a == a && e.b == b then Some(e.entry)
            else Lookup(m, a, b)
  {
    match e
    case Store(c, d, _, _) => if Key(a, b) == Key(c, d) { KeyInjective(a, b, c, d); }
    case Invalidate(w) => WipeIsExact(w, a, b);
  }

  /** For every pair the string-keyed cache holds exactly what a pair-keyed one would. */
  lemma {:induction false} CacheRefinesPairs<E>(es: seq<Event<E>>, a: string, b: string)
    requires ColonFree(a) && Run(Step<E>, map[], es).Some?
    ensures Lookup(Run(Step<E>, map[], es).value, a, b) == Remembered(es, a, b)
  {
    if es != [] {
      var init, e := es[..|es| - 1], es[|es| - 1];
      assert es == init + [e];
      RunSplits(Step<E>, map[], init, [e]);
      CacheRefinesPairs(init, a, b);
      var m := Run(Step<E>, map[], init).value;
      assert [e][1..] == [];
      assert Run(Step<E>, m, [e]) == Step(m, e);
      StepIsPerPair(m, e, a, b);
    }
  }

  /** A remembered entry is the latest one stored for its pair, and nothing forgot it since. */
  lemma {:induction false} RememberedIsTheLatest<E>(es: seq<Event<E>>, a: string, b: string) returns (i: nat)
    requires Remembered(es, a, b).Some?
    ensures i < |es| && es[i].Store? && es[i].a == a && es[i].b == b && es[i].entry == Remembered(es, a, b).value
    ensures forall j :: i <= j < |es| ==> !Forgets(es[j], a, b)
    ensures forall j :: i < j < |es| && es[j].Store? ==> es[j].a != a || es[j].b != b
  {
    var e := es[|es| - 1];
    i := |es| - 1;
    if !(e.Store? && e.a == a && e.b == b) { i := RememberedIsTheLatest(es[..|es| - 1], a, b); }
  }

  ghost predicate Small<E>(m: Cache<E>) { |m| <= CACHE_MAX }

  lemma StepKeepsSmall<E>(m: Cache<E>, e: Event<E>)
    requires Small(m) && Step(m, e).Some?
    ensures Small(Step(m, e).value)
  {
    var r := Step(m, e).value;
    match e
    case Store(a, b, entry, evicted) =>
      assert r.Keys == (m.Keys + {Key(a, b)}) - evicted;
    case Invalidate(w) =>
      SubsetIsNoLarger(r.Keys, m.Keys);
  }

  lemma {:induction false} SubsetIsNoLarger(a: set<string>, b: set<string>)
    requires a <= b
    ensures |a| <= |b|
  {
    assert b == a + (b - a);
  }

  lemma CacheStaysSmall<E(!new)>(es: seq<Event<E>>)
    requires Run(Step<E>, map[], es).Some?
    ensures |Run(Step<E>, map[], es).value| <= CACHE_MAX
  {
    forall m, e | Small(m) && Step<E>(m, e).Some? ensures Small(Step<E>(m, e).value) { StepKeepsSmall(m, e); }
    RunKeeps(Step<E>, Small<E>, map[], es);
  }

  /** Right after an invalidation no pair it names is cached. */
  lemma InvalidationLeavesNoMatch<E>(m: Cache<E>, w: Wipe, a: string, b: string)
    requires WellFormed(w) && ColonFree(a)
    ensures Lookup(Retain(m, w), a, b) == if PairMatches(w, a, b) then None else Lookup(m, a, b)
  {
    WipeIsExact(w, a, b);
  }

  // ---- keeping the map small ----

  lemma SomeKeyIsLeft<E>(m: Cache<E>, removed: set<string>)
    requires removed <= m.Keys && |removed| < |m|
    ensures (m - removed).Keys != {}
  {
    assert (m - removed).Keys == m.Keys - removed;
    assert m.Keys == removed + (m.Keys - removed);
  }

  /** Whatever keys come first go, until the map fits. */
  method DropOverflow<E>(m: Cache<E>) returns (kept: Cache<E>, removed: set<string>)
    ensures removed <= m.Keys && kept == m - removed
    ensures |removed| == if |m| > CACHE_MAX then |m| - CACHE_MAX else 0
  {
    kept, removed := m, {};
    if |m| > CACHE_MAX {
      while |removed| < |m| - CACHE_MAX
        invariant removed <= m.Keys && kept == m - removed && |removed| <= |m| - CACHE_MAX
      {
        SomeKeyIsLeft(m, removed);
        var k :| k in kept;
        kept := kept - {k};
        removed := removed + {k};
      }
    }
  }

  // ---- membership of channels: key is channel:user ----

  type UserId = string
  type ChannelId = string
  type ChannelDoc = nat
  type Reason = nat

  datatype Cached = Allow(atMs: int, channel: ChannelDoc) | Deny(atMs: int, reason: Reason)

  datatype Decision = Allowed(channel: ChannelDoc) | Refused(reason: Reason)

  const ALLOW_TTL_MS: int := 30000
  const DENY_TTL_MS: int := 3000

  function AccessAnswer(e: Option<Cached>, now: int): Option<Decision>
  {
    match e
    case None => None
    case Some(Allow(at, channel)) => if now - at > ALLOW_TTL_MS then None else Some(Allowed(channel))
    case Some(Deny(at, reason)) => if now - at > DENY_TTL_MS then None else Some(Refused(reason))
  }

  /** The decision an entry stands for at this time, case by case. */
  ghost predicate AnswersFor(r: Option<Decision>, entries: Cache<Cached>, channelId: ChannelId, userId: UserId,
                             now: int)
  {
    && (Key(channelId, userId) !in entries ==> r == None)
    && (forall at, ch :: Key(channelId, userId) in entries && entries[Key(channelId, userId)] == Allow(at, ch) ==>
          r == if now - at <= 30_000 then Some(Allowed(ch)) else None)
    && (forall at, why :: Key(channelId, userId) in entries && entries[Key(channelId, userId)] == Deny(at, why) ==>
          r == if now - at <= 3_000 then Some(Refused(why)) else None)
  }

  /** What one put leaves: the new entry unless it was evicted, every other entry as it was unless it
      was evicted, and no more than 8000 of them; nothing is evicted without need. */
  ghost predicate StoredIn<E>(before: Cache<E>, after: Cache<E>, a: string, b: string, entry: E, removed: set<string>)
  {
    && (Key(a, b) !in removed ==> Key(a, b) in after && after[Key(a, b)] == entry)
    && (forall k :: k in removed ==> k !in after)
    && (forall k :: k != Key(a, b) && k !in removed ==>
         (k in after <==> k in before) && (k in before ==> after[k] == before[k]))
    && (|before.Keys + {Key(a, b)}| <= 8_000 ==> removed == {})
    && (|before.Keys + {Key(a, b)}| > 8_000 ==> |after| == 8_000)
  }

  lemma PutIsStoredIn<E>(m: Cache<E>, a: string, b: string, entry: E, removed: set<string>)
    requires CanPut(m, a, b, removed)
    ensures StoredIn(m, Put(m, a, b, entry, removed), a, b, entry, removed)
  {
    var full, after := m.Keys + {Key(a, b)}, Put(m, a, b, entry, removed);
    assert after.Keys == full - removed;
    assert |after| == |after.Keys|;
  }

  class AccessCache {
    var entries: Cache<Cached>

    constructor ()
      ensures entries == map[]
    {
      entries := map[];
    }

    method Get(channelId: ChannelId, userId: UserId, now: int) returns (r: Option<Decision>)
      ensures r == AccessAnswer(Lookup(entries, channelId, userId), now)
      ensures AnswersFor(r, entries, channelId, userId, now)
    {
      var key := Key(channelId, userId);
      if key !in entries { return None; }
      match entries[key]
      case Allow(at, channel) =>
        if now - at > ALLOW_TTL_MS { return None; }
        return Some(Allowed(channel));
      case Deny(at, reason) =>
        if now - at > DENY_TTL_MS { return None; }
        return Some(Refused(reason));
    }

    /** Throw out whatever comes first until the cache fits. */
    method Trim() returns (removed: set<string>)
      modifies this
      ensures removed <= old(entries).Keys && entries == old(entries) - removed
      ensures |removed| == if |old(entries)| > CACHE_MAX then |old(entries)| - CACHE_MAX else 0
    {
      entries, removed := DropOverflow(entries);
    }

    method PutOk(channelId: ChannelId, userId: UserId, channel: ChannelDoc, now: int) returns (removed: set<string>)
      modifies this
      ensures CanPut(old(entries), channelId, userId, removed)
      ensures entries == Put(old(entries), channelId, userId, Allow(now, channel), removed)
      ensures StoredIn(old(entries), entries, channelId, userId, Allow(now, channel), removed)
    {
      entries := entries[Key(channelId, userId) := Allow(now, channel)];
      assert entries.Keys == old(entries).Keys + {Key(channelId, userId)};
      removed := Trim();
      PutIsStoredIn(old(entries), channelId, userId, Allow(now, channel), removed);
    }

    method PutErr(channelId: ChannelId, userId: UserId, reason: Reason, now: int) returns (removed: set<string>)
      modifies this
      ensures CanPut(old(entries), channelId, userId, removed)
      ensures entries == Put(old(entries), channelId, userId, Deny(now, reason), removed)
      ensures StoredIn(old(entries), entries, channelId, userId, Deny(now, reason), removed)
    {
      entries := entries[Key(channelId, userId) := Deny(now, reason)];
      assert entries.Keys == old(entries).Keys + {Key(channelId, userId)};
      removed := Trim();
      PutIsStoredIn(old(entries), channelId, userId, Deny(now, reason), removed);
    }

    method InvalidateChannel(channelId: ChannelId)
      modifies this
      ensures entries == Retain(old(entries), ByFirst(channelId))
      ensures ColonFree(channelId) ==> Drops(old(entries), entries, (a, b) => a == channelId)
    {
      if ColonFree(channelId) { RetainDrops(entries, ByFirst(channelId), (a, b) => a == channelId); }
      var prefix := channelId + ":";
      entries := map k | k in entries && !StartsWith(k, prefix) :: entries[k];
    }

    method InvalidateUser(userId: UserId)
      modifies this
      ensures entries == Retain(old(entries), BySecond(userId))
      ensures Drops(old(entries), entries, (a, b) => b == userId || EndsWith(b, ":" + userId))
    {
      RetainDrops(entries, BySecond(userId), (a, b) => b == userId || EndsWith(b, ":" + userId));
      var suffix := ":" + userId;
      entries := map k | k in entries && !EndsWith(k, suffix) :: entries[k];
    }
  }

  /** An allowance is answered with its channel, a denial with its reason. */
  predicate AnswersAs(r: Option<Decision>, entry: Cached)
  {
    match entry
    case Allow(_, channel) => r == Some(Allowed(channel))
    case Deny(_, reason) => r == Some(Refused(reason))
  }

  predicate Current(entry: Cached, now: int) { now - entry.atMs <= if entry.Allow? then 30_000 else 3_000 }

  /** Put number i is the latest for its pair, and nothing has forgotten it since. */
  ghost predicate LatestStore<E>(es: seq<Event<E>>, i: nat, a: string, b: string)
  {
    && i < |es| && es[i].Store? && es[i].a == a && es[i].b == b
    && (forall j :: i <= j < |es| ==> !Forgets(es[j], a, b))
    && (forall j :: i < j < |es| && es[j].Store? ==> es[j].a != a || es[j].b != b)
  }

  lemma {:induction false} LatestIsRemembered<E>(es: seq<Event<E>>, i: nat, a: string, b: string)
    requires LatestStore(es, i, a, b)
    ensures Remembered(es, a, b) == Some(es[i].entry)
  {
    if i < |es| - 1 {
      var init := es[..|es| - 1];
      assert forall j :: 0 <= j < |init| ==> init[j] == es[j];
      LatestIsRemembered(init, i, a, b);
    }
  }

  /** The converse: the latest decision stored for a channel and user, if nothing has forgotten it and
      it is within its lifetime, is served, an allowance as such and a denial as such. */
  lemma CurrentDecisionIsServed(es: seq<Event<Cached>>, channelId: ChannelId, userId: UserId, now: int, i: nat)
    requires ColonFree(channelId) && Run(Step<Cached>, map[], es).Some? && LatestStore(es, i, channelId, userId)
    ensures var r := AccessAnswer(Lookup(Run(Step<Cached>, map[], es).value, channelId, userId), now);
            if Current(es[i].entry, now) then AnswersAs(r, es[i].entry) else r == None
  {
    CacheRefinesPairs(es, channelId, userId);
    LatestIsRemembered(es, i, channelId, userId);
  }

  /** A membership decision that is served is the latest one stored for that channel and user, no
      invalidation has named the channel or the user since, and it is not past its lifetime. */
  lemma ServedDecisionIsCurrent(es: seq<Event<Cached>>, channelId: ChannelId, userId: UserId, now: int) returns (i: nat)
    requires ColonFree(channelId) && Run(Step<Cached>, map[], es).Some?
    requires AccessAnswer(Lookup(Run(Step<Cached>, map[], es).value, channelId, userId), now).Some?
    ensures i < |es| && es[i].Store? && es[i].a == channelId && es[i].b == userId
    ensures AnswersAs(AccessAnswer(Lookup(Run(Step<Cached>, map[], es).value, channelId, userId), now), es[i].entry)
    ensures now - es[i].entry.atMs <= if es[i].entry.Allow? then ALLOW_TTL_MS else DENY_TTL_MS
    ensures forall j :: i < j < |es| ==>
            es[j] != Invalidate(ByFirst(channelId)) && es[j] != Invalidate(BySecond(userId))
    ensures forall j :: i < j < |es| && es[j].Store? ==> es[j].a != channelId || es[j].b != userId
  {
    CacheRefinesPairs(es, channelId, userId);
    i := RememberedIsTheLatest(es, channelId, userId);
  }

  // ---- permission to show typing: key is user:chat ----

  datatype TypingAccess =
    | Denied(checkedAtMs: int)
    | Dm(checkedAtMs: int)
    | Channel(checkedAtMs: int, recipients: seq<UserId>)

  const TYPING_ALLOW_TTL_MS: int := 45000
  const TYPING_DENY_TTL_MS: int := 3000

  function TypingTtl(e: TypingAccess): int { if e.Denied? then TYPING_DENY_TTL_MS else TYPING_ALLOW_TTL_MS }

  function TypingAnswer(e: Option<TypingAccess>, now: int): Option<TypingAccess>
  {
    if e.Some? && now - e.value.checkedAtMs > TypingTtl(e.value) then None else e
  }

  predicate CurrentTyping(e: TypingAccess, now: int)
  {
    match e
    case Denied(at) => now - at <= 3_000
    case Dm(at) => now - at <= 45_000
    case Channel(at, _) => now - at <= 45_000
  }

  const CHANNEL_PREFIX: string := "channel_"

  /** Channel chats are named with a prefix, added at most once. */
  function ChannelChatId(channelId: ChannelId): (r: string)
    ensures if StartsWith(channelId, "channel_") then r == channelId else r == "channel_" + channelId
    ensures StartsWith(r, CHANNEL_PREFIX)
  {
    if StartsWith(channelId, CHANNEL_PREFIX) then channelId else CHANNEL_PREFIX + channelId
  }

  class TypingCache {
    var entries: Cache<TypingAccess>
    const access: AccessCache

    constructor (access: AccessCache)
      ensures entries == map[] && this.access == access
    {
      this.access := access;
      entries := map[];
    }

    method Get(userId: UserId, chatId: string, now: int) returns (r: Option<TypingAccess>)
      ensures r == TypingAnswer(Lookup(entries, userId, chatId), now)
      ensures Key(userId, chatId) !in entries ==> r == None
      ensures Key(userId, chatId) in entries ==>
                r == if CurrentTyping(entries[Key(userId, chatId)], now) then Some(entries[Key(userId, chatId)])
                  else None
    {
      var key := Key(userId, chatId);
      if key !in entries { return None; }
      var entry := entries[key];
      if now - entry.checkedAtMs > TypingTtl(entry) { return None; }
      return Some(entry);
    }

    method PutEntry(userId: UserId, chatId: string, entry: TypingAccess) returns (removed: set<string>)
      modifies this
      ensures CanPut(old(entries), userId, chatId, removed)
      ensures entries == Put(old(entries), userId, chatId, entry, removed)
      ensures StoredIn(old(entries), entries, userId, chatId, entry, removed)
    {
      entries := entries[Key(userId, chatId) := entry];
      assert entries.Keys == old(entries).Keys + {Key(userId, chatId)};
      entries, removed := DropOverflow(entries);
      PutIsStoredIn(old(entries), userId, chatId, entry, removed);
    }

    method InvalidateUser(userId: UserId)
      modifies this
      ensures entries == Retain(old(entries), ByEither(userId))
      ensures ColonFree(userId) ==>
                Drops(old(entries), entries, (a, b) => a == userId || b == userId || EndsWith(b, ":" + userId))
    {
      if ColonFree(userId) {
        RetainDrops(entries, ByEither(userId), (a, b) => a == userId || b == userId || EndsWith(b, ":" + userId));
      }
      var prefix, dmSuffix := userId + ":", ":" + userId;
      entries := map k | k in entries && !StartsWith(k, prefix) && !EndsWith(k, dmSuffix) :: entries[k];
    }

    method InvalidatePair(userA: UserId, userB: UserId)
      modifies this
      ensures entries == Retain(old(entries), Both(userA, userB))
      ensures ColonFree(userA) && ColonFree(userB) ==>
                Drops(old(entries), entries, (a, b) => (a == userA && b == userB) || (a == userB && b == userA))
    {
      if ColonFree(userA) && ColonFree(userB) {
        RetainDrops(entries, Both(userA, userB), (a, b) => (a == userA && b == userB) || (a == userB && b == userA));
      }
      entries := entries - {Key(userA, userB)};
      entries := entries - {Key(userB, userA)};
    }

    /** The membership cache forgets the channel as well. */
    method InvalidateChannel(channelId: ChannelId)
      modifies this, access
      ensures entries == Retain(old(entries), BySecond(ChannelChatId(channelId)))
      ensures access.entries == Retain(old(access.entries), ByFirst(channelId))
      ensures var chat := ChannelChatId(channelId);
              Drops(old(entries), entries, (a, b) => b == chat || EndsWith(b, ":" + chat))
      ensures ColonFree(channelId) ==> Drops(old(access.entries), access.entries, (a, b) => a == channelId)
    {
      var chat := ChannelChatId(channelId);
      RetainDrops(entries, BySecond(chat), (a, b) => b == chat || EndsWith(b, ":" + chat));
      var suffix := ":" + ChannelChatId(channelId);
      entries := map k | k in entries && !EndsWith(k, suffix) :: entries[k];
      access.InvalidateChannel(channelId);
    }

    method InvalidateUserChannel(userId: UserId, channelId: ChannelId)
      modifies this, access
      ensures entries == Retain(old(entries), Exactly(userId, ChannelChatId(channelId)))
      ensures access.entries == Retain(old(access.entries), ByFirst(channelId))
      ensures var chat := ChannelChatId(channelId);
              ColonFree(userId) ==> Drops(old(entries), entries, (a, b) => a == userId && b == chat)
      ensures ColonFree(channelId) ==> Drops(old(access.entries), access.entries, (a, b) => a == channelId)
    {
      var chat := ChannelChatId(channelId);
      if ColonFree(userId) { RetainDrops(entries, Exactly(userId, chat), (a, b) => a == userId && b == chat); }
      entries := entries - {Key(userId, ChannelChatId(channelId))};
      access.InvalidateChannel(channelId);
    }
  }

  /** A typing permission that is served is the latest one stored for that user and chat, nothing
      that names the user, the pair or the chat came since, and it is not past its lifetime. */
  lemma ServedPermissionIsCurrent(es: seq<Event<TypingAccess>>, userId: UserId, chatId: string, now: int)
        returns (i: nat)
    requires ColonFree(userId) && Run(Step<TypingAccess>, map[], es).Some?
    requires TypingAnswer(Lookup(Run(Step<TypingAccess>, map[], es).value, userId, chatId), now).Some?
    ensures i < |es| && es[i].Store? && es[i].a == userId && es[i].b == chatId
    ensures TypingAnswer(Lookup(Run(Step<TypingAccess>, map[], es).value, userId, chatId), now) == Some(es[i].entry)
    ensures CurrentTyping(es[i].entry, now)
    ensures forall j, w :: i < j < |es| && es[j] == Invalidate(w) ==> !PairMatches(w, userId, chatId)
    ensures forall j :: i < j < |es| && es[j].Store? ==> es[j].a != userId || es[j].b != chatId
  {
    CacheRefinesPairs(es, userId, chatId);
    i := RememberedIsTheLatest(es, userId, chatId);
  }

  /** The converse: the latest permission stored for a user and chat, if nothing has forgotten it and it
      is within its lifetime, is served as it was stored. */
  lemma CurrentPermissionIsServed(es: seq<Event<TypingAccess>>, userId: UserId, chatId: string, now: int, i: nat)
    requires ColonFree(userId) && Run(Step<TypingAccess>, map[], es).Some? && LatestStore(es, i, userId, chatId)
    ensures TypingAnswer(Lookup(Run(Step<TypingAccess>, map[], es).value, userId, chatId), now) ==
            if CurrentTyping(es[i].entry, now) then Some(es[i].entry) else None
  {
    CacheRefinesPairs(es, userId, chatId);
    LatestIsRemembered(es, i, userId, chatId);
  }

  /** A kicked user's permission for the channel is gone, however the channel id was written. */
  lemma KickedUserIsForgotten(m: Cache<TypingAccess>, userId: UserId, channelId: ChannelId)
    requires ColonFree(userId)
    ensures ChannelChatId(CHANNEL_PREFIX + channelId) == CHANNEL_PREFIX + channelId
    ensures Lookup(Retain(m, BySecond(ChannelChatId(channelId))), userId, ChannelChatId(channelId)) == None
    ensures Lookup(Retain(m, Exactly(userId, ChannelChatId(channelId))), userId, ChannelChatId(channelId)) == None
  {
    InvalidationLeavesNoMatch(m, BySecond(ChannelChatId(channelId)), userId, ChannelChatId(channelId));
    InvalidationLeavesNoMatch(m, Exactly(userId, ChannelChatId(channelId)), userId, ChannelChatId(channelId));
    assert (CHANNEL_PREFIX + channelId)[..8] == CHANNEL_PREFIX;
  }
}
