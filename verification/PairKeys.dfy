/** One tip document per unordered pair of users, with one unread counter for each side. The store
    behaves like a plain table from (viewer, peer) to a counter. */
module PairKeys {
  import opened Runs

  newtype byte = n: int | 0 <= n < 256
  type ObjectId = b: seq<byte> | |b| == 12 witness seq(12, _ => 0)

  function Digit(n: nat): char
    requires n < 16
  {
    "0123456789abcdef"[n]
  }

  function ToHex(b: seq<byte>): (h: string)
    ensures |h| == 2 * |b|
  {
    if b == [] then [] else [Digit(b[0] as nat / 16), Digit(b[0] as nat % 16)] + ToHex(b[1..])
  }

  /** String comparison, character by character. */
  predicate LexAtMost(a: string, b: string)
  {
    a == [] || (b != [] && (a[0] < b[0] || (a[0] == b[0] && LexAtMost(a[1..], b[1..]))))
  }

  function PairKey(a: ObjectId, b: ObjectId): (string, ObjectId, ObjectId)
  {
    var (ha, hb) := (ToHex(a), ToHex(b));
    if LexAtMost(ha, hb) then (ha + ":" + hb, a, b) else (hb + ":" + ha, b, a)
  }

  lemma DigitInjective(m: nat, n: nat)
    requires m < 16 && n < 16 && Digit(m) == Digit(n)
    ensures m == n
  {
  }

  lemma {:induction false} ToHexInjective(a: seq<byte>, b: seq<byte>)
    requires ToHex(a) == ToHex(b)
    ensures a == b
  {
    assert |a| == |b|;
    if a != [] {
      assert ToHex(a)[0] == ToHex(b)[0] && ToHex(a)[1] == ToHex(b)[1];
      DigitInjective(a[0] as nat / 16, b[0] as nat / 16);
      DigitInjective(a[0] as nat % 16, b[0] as nat % 16);
      assert ToHex(a)[2..] == ToHex(a[1..]) && ToHex(b)[2..] == ToHex(b[1..]);
      ToHexInjective(a[1..], b[1..]);
      assert a == [a[0]] + a[1..] && b == [b[0]] + b[1..];
    }
  }

  lemma {:induction false} LexIsTotalOrder(a: string, b: string)
    ensures LexAtMost(a, b) || LexAtMost(b, a)
    ensures LexAtMost(a, b) && LexAtMost(b, a) ==> a == b
  {
    if a != [] && b != [] && a[0] == b[0] {
      LexIsTotalOrder(a[1..], b[1..]);
      assert a == [a[0]] + a[1..] && b == [b[0]] + b[1..];
    }
  }

  /** Both sides of a conversation compute the same key and the same roles. */
  lemma PairKeySymmetric(a: ObjectId, b: ObjectId)
    ensures PairKey(a, b) == PairKey(b, a)
  {
    LexIsTotalOrder(ToHex(a), ToHex(b));
    if LexAtMost(ToHex(a), ToHex(b)) && LexAtMost(ToHex(b), ToHex(a)) { ToHexInjective(a, b); }
  }

  lemma KeyShape(a: ObjectId, b: ObjectId)
    ensures var (key, x, y) := PairKey(a, b);
            key == ToHex(x) + ":" + ToHex(y) && ((x == a && y == b) || (x == b && y == a))
  {
  }

  /** The key is the smaller hex string, a colon and the greater one, and the roles follow it. */
  lemma KeyInOrder(a: ObjectId, b: ObjectId)
    ensures var (key, x, y) := PairKey(a, b);
            key == ToHex(x) + ":" + ToHex(y) && LexAtMost(ToHex(x), ToHex(y)) && multiset{x, y} == multiset{a, b}
  {
    LexIsTotalOrder(ToHex(a), ToHex(b));
  }

  lemma {:induction false} HexDigits(b: seq<byte>, i: nat)
    requires i < |b|
    ensures ToHex(b)[2 * i] == "0123456789abcdef"[b[i] as nat / 16]
    ensures ToHex(b)[2 * i + 1] == "0123456789abcdef"[b[i] as nat % 16]
  {
    if i > 0 {
      HexDigits(b[1..], i - 1);
      assert ToHex(b)[2 * i] == ToHex(b[1..])[2 * (i - 1)] && ToHex(b)[2 * i + 1] == ToHex(b[1..])[2 * (i - 1) + 1];
    }
  }

  /** Different unordered pairs have different keys. */
  lemma PairKeyInjective(a: ObjectId, b: ObjectId, c: ObjectId, d: ObjectId)
    requires PairKey(a, b).0 == PairKey(c, d).0
    ensures PairKey(a, b) == PairKey(c, d)
    ensures (a == c && b == d) || (a == d && b == c)
  {
    var (k, x, y) := PairKey(a, b);
    var (_, u, v) := PairKey(c, d);
    KeyShape(a, b);
    KeyShape(c, d);
    assert k[..24] == ToHex(x) && k[..24] == ToHex(u) && k[25..] == ToHex(y) && k[25..] == ToHex(v);
    ToHexInjective(x, u);
    ToHexInjective(y, v);
  }

  // ---- the store ----

  datatype Doc = Doc(userA: ObjectId, userB: ObjectId, unreadA: Option<nat>, unreadB: Option<nat>)
  type Docs = map<string, Doc>

  /** Documents carry the roles their key stands for. */
  ghost predicate WellKeyed(docs: Docs)
  {
    forall k :: k in docs ==> PairKey(docs[k].userA, docs[k].userB) == (k, docs[k].userA, docs[k].userB)
  }

  function Field(d: Doc, viewer: ObjectId): Option<nat> { if viewer == d.userA then d.unreadA else d.unreadB }

  function WithField(d: Doc, first: bool, n: nat): Doc
  {
    if first then d.(unreadA := Some(n)) else d.(unreadB := Some(n))
  }

  /** None without a document; the inner option is the field. */
  function Cell(docs: Docs, viewer: ObjectId, peer: ObjectId): Option<Option<nat>>
  {
    var key := PairKey(viewer, peer).0;
    if key in docs then Some(Field(docs[key], viewer)) else None
  }

  /** The document of (uid, f) names f as the peer of uid, and holds uid's counter in uid's field. */
  lemma DocNamesPeer(docs: Docs, uid: ObjectId, f: ObjectId)
    requires WellKeyed(docs) && PairKey(uid, f).0 in docs
    ensures var tip := docs[PairKey(uid, f).0];
            && f == (if tip.userA == uid then tip.userB else tip.userA)
            && Cell(docs, uid, f) == Some(if tip.userA == uid then tip.unreadA else tip.unreadB)
  {
    var tip := docs[PairKey(uid, f).0];
    PairKeyInjective(uid, f, tip.userA, tip.userB);
  }

  ghost predicate Wanted(uid: ObjectId, friends: seq<ObjectId>, k: string)
  {
    exists f :: f in friends && PairKey(uid, f).0 == k
  }

  lemma KeyNamesOneFriend(docs: Docs, uid: ObjectId, friends: seq<ObjectId>, k: string)
    requires WellKeyed(docs) && k in docs && Wanted(uid, friends, k)
    ensures var peer := if docs[k].userA == uid then docs[k].userB else docs[k].userA;
            && peer in friends && (forall g :: g in friends && PairKey(uid, g).0 == k ==> g == peer)
            && Cell(docs, uid, peer) == Some(if docs[k].userA == uid then docs[k].unreadA else docs[k].unreadB)
  {
    forall g | g in friends && PairKey(uid, g).0 == k
      ensures g == (if docs[k].userA == uid then docs[k].userB else docs[k].userA)
      ensures Cell(docs, uid, g) == Some(if docs[k].userA == uid then docs[k].unreadA else docs[k].unreadB)
    {
      DocNamesPeer(docs, uid, g);
    }
  }

  datatype Op =
    | Open(a: ObjectId, b: ObjectId)                        // the first tip upsert creates the document
    | Close(a: ObjectId, b: ObjectId)                       // the guarded clear removes it
    | Bump(sender: ObjectId, recipient: ObjectId)
    | Set(viewer: ObjectId, peer: ObjectId, n: nat)

  predicate BetweenTwo(op: Op)
  {
    match op
    case Open(a, b) => a != b
    case Close(a, b) => a != b
    case Bump(s, r) => s != r
    case Set(v, p, _) => v != p
  }

  /** `$inc` on a missing field starts from zero. */
  function Incremented(n: Option<nat>): nat { if n.Some? then n.value + 1 else 1 }

  function Applied(docs: Docs, op: Op): Docs
  {
    match op
    case Open(a, b) =>
      var (key, x, y) := PairKey(a, b);
      docs[key := if key in docs then docs[key].(userA := x, userB := y) else Doc(x, y, Some(0), Some(0))]
    case Close(a, b) => docs - {PairKey(a, b).0}
    case Bump(s, r) =>
      var (key, x, _) := PairKey(s, r);
      if key !in docs then docs
      else docs[key := WithField(docs[key], r == x,
        Incremented(if r == x then docs[key].unreadA else docs[key].unreadB))]
    case Set(v, p, n) =>
      var (key, x, _) := PairKey(v, p);
      if key !in docs then docs else docs[key := WithField(docs[key], v == x, n)]
  }

  /** Every cell but (v, p) reads as before. */
  ghost predicate OnlyCell(before: Docs, after: Docs, v: ObjectId, p: ObjectId)
  {
    forall x, y :: x != y && !(x == v && y == p) ==> Cell(after, x, y) == Cell(before, x, y)
  }

  /** Every cell but (v, p) and (p, v) reads as before. */
  ghost predicate OnlyPair(before: Docs, after: Docs, v: ObjectId, p: ObjectId)
  {
    forall x, y :: x != y && !(x == v && y == p) && !(x == p && y == v) ==> Cell(after, x, y) == Cell(before, x, y)
  }

  /** A bump makes the recipient's counter one greater, or one if there was none, when the pair has a
      document, and touches no other cell, not even the sender's. */
  ghost predicate BumpedCell(before: Docs, after: Docs, sender: ObjectId, recipient: ObjectId)
  {
    && OnlyCell(before, after, recipient, sender)
    && (Cell(before, recipient, sender) == None ==> Cell(after, recipient, sender) == None)
    && (Cell(before, recipient, sender) == Some(None) ==> Cell(after, recipient, sender) == Some(Some(1)))
    && (forall k :: Cell(before, recipient, sender) == Some(Some(k)) ==>
         Cell(after, recipient, sender) == Some(Some(k + 1)))
  }

  lemma RolesByKey(docs: Docs, x: ObjectId, y: ObjectId)
    requires WellKeyed(docs) && PairKey(x, y).0 in docs
    ensures var d := docs[PairKey(x, y).0]; (d.userA == x && d.userB == y) || (d.userA == y && d.userB == x)
    ensures docs[PairKey(x, y).0].userA == PairKey(x, y).1
  {
    var d := docs[PairKey(x, y).0];
    PairKeyInjective(d.userA, d.userB, x, y);
  }

  lemma BumpInWords(docs: Docs, sender: ObjectId, recipient: ObjectId)
    requires WellKeyed(docs) && sender != recipient
    ensures BumpedCell(docs, Applied(docs, Bump(sender, recipient)), sender, recipient)
  {
    var after := Applied(docs, Bump(sender, recipient));
    PairKeySymmetric(sender, recipient);
    KeyShape(sender, recipient);
    forall x, y | x != y && !(x == recipient && y == sender) ensures Cell(after, x, y) == Cell(docs, x, y) {
      if PairKey(x, y).0 == PairKey(sender, recipient).0 {
        PairKeyInjective(x, y, sender, recipient);
        if PairKey(x, y).0 in docs { RolesByKey(docs, sender, recipient); }
      }
    }
    if PairKey(sender, recipient).0 in docs { RolesByKey(docs, sender, recipient); }
  }

  lemma SetInWords(docs: Docs, viewer: ObjectId, peer: ObjectId, n: nat)
    requires WellKeyed(docs) && viewer != peer
    ensures var after := Applied(docs, Set(viewer, peer, n));
            && OnlyCell(docs, after, viewer, peer)
            && Cell(after, viewer, peer) == if Cell(docs, viewer, peer) == None then None else Some(Some(n))
  {
    var after := Applied(docs, Set(viewer, peer, n));
    KeyShape(viewer, peer);
    forall x, y | x != y && !(x == viewer && y == peer) ensures Cell(after, x, y) == Cell(docs, x, y) {
      if PairKey(x, y).0 == PairKey(viewer, peer).0 {
        PairKeyInjective(x, y, viewer, peer);
        if PairKey(x, y).0 in docs { RolesByKey(docs, viewer, peer); }
      }
    }
    if PairKey(viewer, peer).0 in docs { RolesByKey(docs, viewer, peer); }
  }

  lemma OpenInWords(docs: Docs, a: ObjectId, b: ObjectId)
    requires WellKeyed(docs) && a != b
    ensures var after := Applied(docs, Open(a, b));
            && OnlyPair(docs, after, a, b)
            && Cell(after, a, b) == (if Cell(docs, a, b) == None then Some(Some(0)) else Cell(docs, a, b))
            && Cell(after, b, a) == (if Cell(docs, b, a) == None then Some(Some(0)) else Cell(docs, b, a))
  {
    var after := Applied(docs, Open(a, b));
    PairKeySymmetric(a, b);
    KeyShape(a, b);
    if PairKey(a, b).0 in docs { RolesByKey(docs, a, b); }
    forall x, y | x != y && !(x == a && y == b) && !(x == b && y == a) ensures Cell(after, x, y) == Cell(docs, x, y) {
      if PairKey(x, y).0 == PairKey(a, b).0 { PairKeyInjective(x, y, a, b); }
    }
  }

  class TipCollection {
    var docs: Docs

    constructor ()
      ensures docs == map[]
    {
      docs := map[];
    }

    method OpenTip(a: ObjectId, b: ObjectId)
      modifies this
      ensures docs == Applied(old(docs), Open(a, b))
      ensures WellKeyed(old(docs)) && a != b ==>
                OnlyPair(old(docs), docs, a, b) &&
                Cell(docs, a, b) == (if Cell(old(docs), a, b) == None then Some(Some(0)) else Cell(old(docs), a, b)) &&
                Cell(docs, b, a) == (if Cell(old(docs), b, a) == None then Some(Some(0)) else Cell(old(docs), b, a))
    {
      if WellKeyed(docs) && a != b { OpenInWords(docs, a, b); }
      var (key, x, y) := PairKey(a, b);
      if key in docs {
        docs := docs[key := docs[key].(userA := x, userB := y)];
      } else {
        docs := docs[key := Doc(x, y, Some(0), Some(0))];
      }
    }

    /** Whether a document was there to bump. */
    method BumpDmUnread(sender: ObjectId, recipient: ObjectId) returns (matched: bool)
      modifies this
      ensures docs == Applied(old(docs), Bump(sender, recipient))
      ensures matched <==> Cell(old(docs), recipient, sender).Some?
      ensures WellKeyed(old(docs)) && sender != recipient ==> BumpedCell(old(docs), docs, sender, recipient)
    {
      if WellKeyed(docs) && sender != recipient { BumpInWords(docs, sender, recipient); }
      var (key, x, _) := PairKey(sender, recipient);
      PairKeySymmetric(sender, recipient);
      matched := key in docs;
      if matched {
        var d := docs[key];
        if recipient == x {
          docs := docs[key := d.(unreadA := Some(Incremented(d.unreadA)))];
        } else {
          docs := docs[key := d.(unreadB := Some(Incremented(d.unreadB)))];
        }
      }
    }

    method SetDmUnread(viewer: ObjectId, peer: ObjectId, n: nat) returns (matched: bool)
      modifies this
      ensures docs == Applied(old(docs), Set(viewer, peer, n))
      ensures matched <==> Cell(old(docs), viewer, peer).Some?
      ensures WellKeyed(old(docs)) && viewer != peer ==>
                OnlyCell(old(docs), docs, viewer, peer) &&
                Cell(docs, viewer, peer) == if Cell(old(docs), viewer, peer) == None then None else Some(Some(n))
    {
      if WellKeyed(docs) && viewer != peer { SetInWords(docs, viewer, peer, n); }
      var (key, x, _) := PairKey(viewer, peer);
      matched := key in docs;
      if matched {
        if viewer == x {
          docs := docs[key := docs[key].(unreadA := Some(n))];
        } else {
          docs := docs[key := docs[key].(unreadB := Some(n))];
        }
      }
    }

    /** The query: documents whose key is the key with one of the friends. */
    method FindTips(uid: ObjectId, friends: seq<ObjectId>) returns (found: set<string>)
      ensures forall k :: k in found <==> k in docs && Wanted(uid, friends, k)
    {
      var keys := set f | f in friends :: PairKey(uid, f).0;
      found := set k | k in docs && k in keys;
    }

    /** One query for all friends; the documents come back in any order and name their own peer. */
    method LoadTips(uid: ObjectId, friends: seq<ObjectId>) returns (out: map<ObjectId, Option<nat>>)
      requires WellKeyed(docs)
      ensures forall f :: f in out <==> f in friends && Cell(docs, uid, f).Some?
      ensures forall f :: f in out ==> Some(out[f]) == Cell(docs, uid, f)
    {
      var found := FindTips(uid, friends);
      out := ByPeer(docs, uid, friends, found);
    }
  }

  /** The loop over the documents found. */
  method ByPeer(docs: Docs, uid: ObjectId, friends: seq<ObjectId>, found: set<string>)
        returns (out: map<ObjectId, Option<nat>>)
    requires WellKeyed(docs) && forall k :: k in found <==> k in docs && Wanted(uid, friends, k)
    ensures forall f :: f in out <==> f in friends && Cell(docs, uid, f).Some?
    ensures forall f :: f in out ==> Some(out[f]) == Cell(docs, uid, f)
  {
    var todo := found;
    out := map[];
    while todo != {}
      invariant todo <= found
      invariant forall f :: f in out ==> f in friends && Some(out[f]) == Cell(docs, uid, f)
      invariant forall f :: f in friends && Cell(docs, uid, f).Some? ==> f in out || PairKey(uid, f).0 in todo
      decreases |todo|
    {
      var k :| k in todo;
      todo := todo - {k};
      var tip := docs[k];
      var peer := if tip.userA == uid then tip.userB else tip.userA;
      var unread := if tip.userA == uid then tip.unreadA else tip.unreadB;
      out := out[peer := unread];
      KeyNamesOneFriend(docs, uid, friends, k);
    }
  }

  // ---- refinement of a plain table ----

  /** Counters by (viewer, peer); both directions of a pair are present or absent together. */
  type Table = map<(ObjectId, ObjectId), Option<nat>>

  function Entered(t: Table, op: Op): Table
  {
    match op
    case Open(a, b) => if (a, b) in t then t else t[(a, b) := Some(0)][(b, a) := Some(0)]
    case Close(a, b) => t - {(a, b), (b, a)}
    case Bump(s, r) =>
      if (r, s) !in t then t
      else if t[(r, s)].None? then t[(r, s) := Some(1)]
      else t[(r, s) := Some(t[(r, s)].value + 1)]
    case Set(v, p, n) => if (v, p) in t then t[(v, p) := Some(n)] else t
  }

  predicate Agrees(docs: Docs, t: Table, v: ObjectId, p: ObjectId)
  {
    Cell(docs, v, p) == if (v, p) in t then Some(t[(v, p)]) else None
  }

  ghost predicate Refines(docs: Docs, t: Table) { WellKeyed(docs) && forall v, p :: v != p ==> Agrees(docs, t, v, p) }

  lemma AppliedKeepsKeys(docs: Docs, op: Op)
    requires WellKeyed(docs)
    ensures WellKeyed(Applied(docs, op))
  {
    if op.Open? {
      var (key, x, y) := PairKey(op.a, op.b);
      KeyShape(op.a, op.b);
      PairKeySymmetric(op.a, op.b);
    }
  }

  /** The pair an operation is about. */
  function PairOf(op: Op): (ObjectId, ObjectId)
  {
    match op
    case Open(a, b) => (a, b)
    case Close(a, b) => (a, b)
    case Bump(s, r) => (r, s)
    case Set(v, p, _) => (v, p)
  }

  lemma OtherPairsUntouched(docs: Docs, op: Op, v: ObjectId, p: ObjectId)
    requires PairKey(v, p).0 != PairKey(PairOf(op).0, PairOf(op).1).0
    ensures Cell(Applied(docs, op), v, p) == Cell(docs, v, p)
  {
    if op.Bump? { PairKeySymmetric(op.sender, op.recipient); }
  }

  lemma SamePairAgrees(docs: Docs, t: Table, op: Op, v: ObjectId, p: ObjectId)
    requires Refines(docs, t) && BetweenTwo(op) && v != p
    requires PairKey(v, p).0 == PairKey(PairOf(op).0, PairOf(op).1).0
    ensures Agrees(Applied(docs, op), Entered(t, op), v, p)
  {
    var (x, y) := PairOf(op);
    PairKeyInjective(v, p, x, y);
    PairKeySymmetric(x, y);
    var key := PairKey(x, y).0;
    assert Agrees(docs, t, x, y) && Agrees(docs, t, y, x);
    KeyShape(x, y);
    if key in docs {
      assert PairKey(docs[key].userA, docs[key].userB) == (key, docs[key].userA, docs[key].userB);
      PairKeyInjective(docs[key].userA, docs[key].userB, x, y);
    }
  }

  /** One operation: a bump or a set changes exactly one viewer's cell, and every read of that cell,
      from either side's key, sees it. */
  lemma StepRefines(docs: Docs, t: Table, op: Op)
    requires Refines(docs, t) && BetweenTwo(op)
    ensures Refines(Applied(docs, op), Entered(t, op))
  {
    AppliedKeepsKeys(docs, op);
    forall v, p | v != p ensures Agrees(Applied(docs, op), Entered(t, op), v, p) {
      assert Agrees(docs, t, v, p);
      if PairKey(v, p).0 == PairKey(PairOf(op).0, PairOf(op).1).0 {
        SamePairAgrees(docs, t, op, v, p);
      } else {
        OtherPairsUntouched(docs, op, v, p);
        PairKeySymmetric(PairOf(op).0, PairOf(op).1);
      }
    }
  }

  function AppliedAll(docs: Docs, ops: seq<Op>): Docs
    decreases ops
  {
    if ops == [] then docs else AppliedAll(Applied(docs, ops[0]), ops[1..])
  }

  function EnteredAll(t: Table, ops: seq<Op>): Table
    decreases ops
  {
    if ops == [] then t else EnteredAll(Entered(t, ops[0]), ops[1..])
  }

  /** Any run of operations on the paired documents is the same run on the table. */
  lemma {:induction false} RunRefines(docs: Docs, t: Table, ops: seq<Op>)
    requires Refines(docs, t) && forall i :: 0 <= i < |ops| ==> BetweenTwo(ops[i])
    ensures Refines(AppliedAll(docs, ops), EnteredAll(t, ops))
    decreases ops
  {
    if ops != [] {
      StepRefines(docs, t, ops[0]);
      RunRefines(Applied(docs, ops[0]), Entered(t, ops[0]), ops[1..]);
    }
  }

  /** From the empty collection, every read is the table's entry. */
  lemma ReadsAreTableReads(ops: seq<Op>, viewer: ObjectId, peer: ObjectId)
    requires (forall i :: 0 <= i < |ops| ==> BetweenTwo(ops[i])) && viewer != peer
    ensures var t := EnteredAll(map[], ops);
            Cell(AppliedAll(map[], ops), viewer, peer) == if (viewer, peer) in t then Some(t[(viewer, peer)]) else None
  {
    assert Refines(map[], map[]) by { assert forall v, p :: Agrees(map[], map[], v, p); }
    RunRefines(map[], map[], ops);
    assert Agrees(AppliedAll(map[], ops), EnteredAll(map[], ops), viewer, peer);
  }
}
