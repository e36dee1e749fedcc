/** Reading a channel backwards, page by page, with the smallest id of one page as the cursor of the
    next, while messages are posted and deleted between the requests. */
module ChannelPaging {
  import opened Runs

  type Id = nat   // object ids, as the numbers their order compares

  const DEFAULT_LIMIT: int := 30
  const MAX_LIMIT: int := 50

  /** The `before` parameter of a request. */
  datatype Cursor = Blank | Invalid | Before(id: Id)

  /** `limit` is None when the parameter is absent or not a number. */
  datatype Request = Request(cursor: Cursor, limit: Option<int>)

  datatype Response = BadRequest | Page(messages: seq<Id>, hasMore: bool)

  function Limit(limit: Option<int>): (r: nat)
    ensures 1 <= r <= MAX_LIMIT
    ensures limit.None? ==> r == DEFAULT_LIMIT
    ensures forall n :: limit == Some(n) ==>
            (1 <= n <= MAX_LIMIT ==> r == n) && (n < 1 ==> r == 1) && (n > MAX_LIMIT ==> r == MAX_LIMIT)
  {
    var wanted := if limit.None? then DEFAULT_LIMIT else limit.value;
    if wanted < 1 then 1 else if wanted > MAX_LIMIT then MAX_LIMIT else wanted
  }

  // ---- the query ----

  /** Live messages the cursor lets through. */
  function Below(live: set<Id>, cursor: Cursor): set<Id> { set id | id in live && (cursor.Before? ==> id < cursor.id) }

  predicate AtLeastAll(m: Id, s: set<Id>) { forall x :: x in s ==> x <= m }

  lemma {:induction false} SomeIdIsGreatest(s: set<Id>)
    requires s != {}
    ensures exists m :: m in s && AtLeastAll(m, s)
  {
    var m :| m in s;
    if s != {m} {
      var rest := s - {m};
      assert s == rest + {m};
      SomeIdIsGreatest(rest);
      var other :| other in rest && AtLeastAll(other, rest);
      var top := if other > m then other else m;
      assert top in s && AtLeastAll(top, s);
    }
  }

  function Greatest(s: set<Id>): (m: Id)
    requires s != {}
    ensures m in s && AtLeastAll(m, s)
  {
    SomeIdIsGreatest(s);
    var m :| m in s && AtLeastAll(m, s);
    m
  }

  /** find, sorted by descending id, at most n results. */
  function Newest(live: set<Id>, cursor: Cursor, n: nat): seq<Id>
    decreases n
  {
    var candidates := Below(live, cursor);
    if n == 0 || candidates == {} then []
    else [Greatest(candidates)] + Newest(live, Before(Greatest(candidates)), n - 1)
  }

  function Reverse(s: seq<Id>): seq<Id> { seq(|s|, i requires 0 <= i < |s| => s[|s| - 1 - i]) }

  lemma ReverseHasTheSame(s: seq<Id>)
    ensures forall id :: id in Reverse(s) <==> id in s
  {
    forall id | id in s ensures id in Reverse(s) {
      var i :| 0 <= i < |s| && s[i] == id;
      assert Reverse(s)[|s| - 1 - i] == id;
    }
  }

  predicate Ascending(s: seq<Id>) { forall i, j :: 0 <= i < j < |s| ==> s[i] < s[j] }
  predicate Descending(s: seq<Id>) { forall i, j :: 0 <= i < j < |s| ==> s[i] > s[j] }

  /** The n greatest candidates, or all of them, in descending order. */
  ghost predicate IsTop(live: set<Id>, cursor: Cursor, n: nat, r: seq<Id>)
  {
    && Descending(r) && |r| <= n
    && (forall i :: 0 <= i < |r| ==> r[i] in Below(live, cursor))
    && (forall id :: id in Below(live, cursor) && id !in r ==> |r| == n && (n > 0 ==> id < r[n - 1]))
  }

  lemma {:induction false} NewestIsTheTop(live: set<Id>, cursor: Cursor, n: nat)
    ensures IsTop(live, cursor, n, Newest(live, cursor, n))
    decreases n
  {
    var candidates := Below(live, cursor);
    if n != 0 && candidates != {} {
      var m := Greatest(candidates);
      NewestIsTheTop(live, Before(m), n - 1);
      TopGrows(live, cursor, n, m, Newest(live, Before(m), n - 1));
    }
  }

  lemma TopGrows(live: set<Id>, cursor: Cursor, n: nat, m: Id, tail: seq<Id>)
    requires n > 0 && m in Below(live, cursor) && AtLeastAll(m, Below(live, cursor))
    requires IsTop(live, Before(m), n - 1, tail)
    ensures IsTop(live, cursor, n, [m] + tail)
  {
    var r := [m] + tail;
    forall id | id in Below(live, cursor) && id !in r ensures |r| == n && id < r[n - 1] {
      assert id != m && id !in tail;
      assert id in Below(live, Before(m));
    }
  }

  lemma TopCut(live: set<Id>, cursor: Cursor, n: nat, all: seq<Id>)
    requires 0 < n < |all| && IsTop(live, cursor, n + 1, all)
    ensures IsTop(live, cursor, n, all[..n]) && all[n] in Below(live, cursor) && all[n] !in all[..n]
  {
    forall id | id in Below(live, cursor) && id !in all[..n] ensures id < all[n - 1] {
      if id in all { assert id == all[n]; }
    }
  }

  // ---- one request ----

  /** The newest messages below the cursor, oldest first, and whether something older is left. */
  ghost predicate IsPage(live: set<Id>, cursor: Cursor, limit: nat, messages: seq<Id>, hasMore: bool)
  {
    var candidates := Below(live, cursor);
    && Ascending(messages)
    && (forall id :: id in messages ==> id in candidates)
    && (forall id :: id in candidates && id !in messages ==> 0 < |messages| == limit && id < messages[0])
    && |messages| <= limit
    && (hasMore <==> exists id :: id in candidates && id !in messages)
  }

  function Answer(live: set<Id>, request: Request): (a: Response)
    ensures a.BadRequest? <==> request.cursor.Invalid?
  {
    if request.cursor.Invalid? then BadRequest
    else
      var all := Newest(live, request.cursor, Limit(request.limit) + 1);
      if |all| > Limit(request.limit) then Page(Reverse(all[..Limit(request.limit)]), true)
        else Page(Reverse(all), false)
  }

  /** One extra message is asked for, only to learn whether there is one. */
  method GetChannelMessages(live: set<Id>, request: Request) returns (response: Response)
    ensures response == Answer(live, request)
    ensures response.Page? ==> IsPage(live, request.cursor, Limit(request.limit), response.messages, response.hasMore)
  {
    if request.cursor.Invalid? { return BadRequest; }
    var limit := Limit(request.limit);
    var messages := Newest(live, request.cursor, limit + 1);
    var hasMore := |messages| > limit;
    if hasMore { messages := messages[..limit]; }
    messages := Reverse(messages);
    response := Page(messages, hasMore);
    AnswerIsPage(live, request);
  }

  lemma ReversedTop(live: set<Id>, cursor: Cursor, limit: nat, kept: seq<Id>, hasMore: bool)
    requires limit > 0 && IsTop(live, cursor, limit, kept)
    requires hasMore <==> exists id :: id in Below(live, cursor) && id !in kept
    ensures IsPage(live, cursor, limit, Reverse(kept), hasMore)
  {
    ReverseHasTheSame(kept);
  }

  lemma AnswerIsPage(live: set<Id>, request: Request)
    requires !request.cursor.Invalid?
    ensures var a := Answer(live, request); IsPage(live, request.cursor, Limit(request.limit), a.messages, a.hasMore)
  {
    var cursor, limit := request.cursor, Limit(request.limit);
    var all := Newest(live, cursor, limit + 1);
    NewestIsTheTop(live, cursor, limit + 1);
    if |all| > limit {
      TopCut(live, cursor, limit, all);
      ReversedTop(live, cursor, limit, all[..limit], true);
    } else {
      ReversedTop(live, cursor, limit, all, false);
    }
  }

  // ---- walking back ----

  /** What the requests of a walk see: messages come and go freely in between, and every request may
      name another limit. */
  datatype World = World(live: nat -> set<Id>, limit: nat -> Option<int>)

  lemma OldestPasses(live: set<Id>, cursor: Cursor, limit: nat, page: Response)
    requires page.Page? && IsPage(live, cursor, limit, page.messages, page.hasMore)
    ensures page.hasMore ==> page.messages != [] && Passes(page.messages[0], cursor)
  {
    if page.hasMore { assert page.messages[0] in page.messages; }
  }

  function PageAt(w: World, k: nat, cursor: Cursor): (page: Response)
    requires !cursor.Invalid?
    ensures page.Page? && IsPage(w.live(k), cursor, Limit(w.limit(k)), page.messages, page.hasMore)
    ensures page.hasMore ==> page.messages != [] && Passes(page.messages[0], cursor)
  {
    AnswerIsPage(w.live(k), Request(cursor, w.limit(k)));
    OldestPasses(w.live(k), cursor, Limit(w.limit(k)), Answer(w.live(k), Request(cursor, w.limit(k))));
    Answer(w.live(k), Request(cursor, w.limit(k)))
  }

  /** The pages of a walk, newest first. Each cursor is the smallest id of the page before, so the
      walk ends whatever happens to the channel meanwhile. */
  function Pages(w: World, k: nat, cursor: Cursor): (pages: seq<seq<Id>>)
    requires !cursor.Invalid?
    ensures pages != []
    decreases cursor.Blank?, if cursor.Before? then cursor.id else 0
  {
    var page := PageAt(w, k, cursor);
    if page.hasMore then [page.messages] + Pages(w, k + 1, Before(page.messages[0])) else [page.messages]
  }

  /** All pages as one history, oldest first. */
  function Joined(pages: seq<seq<Id>>): seq<Id>
  {
    if pages == [] then [] else Joined(pages[1..]) + pages[0]
  }

  predicate Passes(id: Id, cursor: Cursor) { cursor.Before? ==> id < cursor.id }

  /** A walk is its first page and the walk from there. */
  lemma PagesUnfold(w: World, k: nat, cursor: Cursor)
    requires !cursor.Invalid?
    ensures var page, pages := PageAt(w, k, cursor), Pages(w, k, cursor);
            if page.hasMore then
              var rest := Pages(w, k + 1, Before(page.messages[0]));
              |pages| == |rest| + 1 && pages[0] == page.messages && pages[1..] == rest &&
                Joined(pages) == Joined(rest) + page.messages
            else pages == [page.messages] && Joined(pages) == page.messages
  {
    var page := PageAt(w, k, cursor);
    if page.hasMore {
      assert Pages(w, k, cursor)[1..] == Pages(w, k + 1, Before(page.messages[0]));
    } else {
      assert Joined([page.messages]) == [] + page.messages;
    }
  }

  /** The history has no repeats and no disorder, and stays below the start. */
  lemma {:induction false} WalkAscends(w: World, k: nat, cursor: Cursor)
    requires !cursor.Invalid?
    ensures var all := Joined(Pages(w, k, cursor));
            Ascending(all) && forall i :: 0 <= i < |all| ==> Passes(all[i], cursor)
    decreases cursor.Blank?, if cursor.Before? then cursor.id else 0
  {
    var page := PageAt(w, k, cursor);
    PagesUnfold(w, k, cursor);
    PageStaysBelow(w.live(k), cursor, Limit(w.limit(k)), page);
    if page.hasMore { WalkAscends(w, k + 1, Before(page.messages[0])); }
  }

  lemma PageStaysBelow(live: set<Id>, cursor: Cursor, limit: nat, page: Response)
    requires page.Page? && IsPage(live, cursor, limit, page.messages, page.hasMore)
    ensures forall i :: 0 <= i < |page.messages| ==>
            Passes(page.messages[i], cursor) && page.messages[0] <= page.messages[i]
  {
    assert forall i :: 0 <= i < |page.messages| ==> page.messages[i] in page.messages;
  }

  /** A message that stays live throughout the walk and lies below its start is in the history
      (exactly once, since the history is strictly ascending). */
  lemma {:induction false} WalkMissesNothing(w: World, k: nat, cursor: Cursor, id: Id)
    requires !cursor.Invalid? && Passes(id, cursor)
    requires forall j: nat :: k <= j < k + |Pages(w, k, cursor)| ==> id in w.live(j)
    ensures id in Joined(Pages(w, k, cursor))
    decreases cursor.Blank?, if cursor.Before? then cursor.id else 0
  {
    var page := PageAt(w, k, cursor);
    assert id in w.live(k) && id in Below(w.live(k), cursor);
    PagesUnfold(w, k, cursor);
    if page.hasMore && id !in page.messages { WalkMissesNothing(w, k + 1, Before(page.messages[0]), id); }
  }

  /** Everything in the history was live when its page was read. */
  lemma {:induction false} WalkInventsNothing(w: World, k: nat, cursor: Cursor, id: Id) returns (j: nat)
    requires !cursor.Invalid? && id in Joined(Pages(w, k, cursor))
    ensures k <= j < k + |Pages(w, k, cursor)| && id in w.live(j) && id in Pages(w, k, cursor)[j - k]
    decreases cursor.Blank?, if cursor.Before? then cursor.id else 0
  {
    var page := PageAt(w, k, cursor);
    PagesUnfold(w, k, cursor);
    if id in page.messages {
      j := k;
    } else {
      j := WalkInventsNothing(w, k + 1, Before(page.messages[0]), id);
    }
  }

  ghost predicate Fixed(w: World, live: set<Id>) { forall k :: w.live(k) == live }

  /** `hasMore` means that something older is left to read. */
  lemma MoreIsOlder(live: set<Id>, cursor: Cursor, limit: nat, page: Response)
    requires page.Page? && page.messages != [] && IsPage(live, cursor, limit, page.messages, page.hasMore)
    ensures page.hasMore ==> |page.messages| == limit && Below(live, Before(page.messages[0])) != {}
  {
    if page.hasMore {
      var left :| left in Below(live, cursor) && left !in page.messages;
      assert left in Below(live, Before(page.messages[0]));
    }
  }

  lemma EmptyPageMeansNothingLeft(live: set<Id>, cursor: Cursor, limit: nat, page: Response)
    requires page.Page? && page.messages == [] && IsPage(live, cursor, limit, page.messages, page.hasMore)
    ensures Below(live, cursor) == {}
  {
  }

  /** On a fixed log every page but the last is full, and the last one has something in it unless
      there was nothing to read: hasMore never sends the caller to an empty page. */
  lemma {:induction false} FixedLogHasNoEmptyTail(w: World, live: set<Id>, k: nat, cursor: Cursor, i: nat)
    requires !cursor.Invalid? && Fixed(w, live) && i < |Pages(w, k, cursor)|
    ensures i < |Pages(w, k, cursor)| - 1 ==> |Pages(w, k, cursor)[i]| == Limit(w.limit(k + i))
    ensures Pages(w, k, cursor)[i] == [] ==> |Pages(w, k, cursor)| == 1 && Below(live, cursor) == {}
    decreases cursor.Blank?, if cursor.Before? then cursor.id else 0
  {
    var page := PageAt(w, k, cursor);
    PagesUnfold(w, k, cursor);
    if page.messages == [] {
      EmptyPageMeansNothingLeft(live, cursor, Limit(w.limit(k)), page);
    } else {
      MoreIsOlder(live, cursor, Limit(w.limit(k)), page);
      if page.hasMore && i > 0 {
        FixedLogHasNoEmptyTail(w, live, k + 1, Before(page.messages[0]), i - 1);
        assert Pages(w, k, cursor)[i] == Pages(w, k, cursor)[1..][i - 1];
      }
    }
  }

  /** On a fixed log the history is exactly the live messages below the start, each once, in order. */
  lemma FixedLogIsEnumerated(w: World, live: set<Id>, k: nat, cursor: Cursor)
    requires !cursor.Invalid? && Fixed(w, live)
    ensures var all := Joined(Pages(w, k, cursor));
            Ascending(all) && (forall id :: id in all <==> id in Below(live, cursor))
  {
    WalkAscends(w, k, cursor);
    var all := Joined(Pages(w, k, cursor));
    forall id | id in Below(live, cursor) ensures id in all { WalkMissesNothing(w, k, cursor, id); }
    forall id | id in all ensures id in Below(live, cursor) {
      var j := WalkInventsNothing(w, k, cursor, id);
      var i :| 0 <= i < |all| && all[i] == id;
      assert Passes(all[i], cursor);
    }
  }
}
