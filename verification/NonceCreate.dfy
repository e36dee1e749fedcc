/** Creating a message at most once per sender and client nonce: look up, insert under a unique
    index, and look up again when the insert is refused. */
module NonceCreate {
  import opened Runs

  type Id = nat
  type UserId = string

  /** Where the message goes. */
  datatype Scope = Scope(recipient: Option<UserId>, channel: Option<string>)

  datatype Doc = Doc(sender: UserId, nonce: Option<string>, scope: Scope, deleted: bool)

  datatype Input = Input(sender: UserId, rawNonce: Option<string>, scope: Scope)

  datatype Outcome =
    | Created(id: Id)
    | Replay(id: Id)
    | NonceConflict
    | OtherError

  // ---- the nonce ----

  const MAX_NONCE: nat := 64   // bytes

  /** The Unicode property White_Space, which `str::trim` goes by. */
  predicate IsSpace(c: char)
  {
    var n := c as int;
    || 0x9 <= n <= 0xD || n == 0x20 || n == 0x85 || n == 0xA0 || n == 0x1680 || 0x2000 <= n <= 0x200A
    || n == 0x2028 || n == 0x2029 || n == 0x202F || n == 0x205F || n == 0x3000
  }

  /** Length in UTF-8, which `str::len` gives. */
  function ByteLen(s: string): (n: nat)
    ensures |s| <= n <= 4 * |s|
  {
    if s == [] then 0
    else
      var c := s[0] as int;
      (if c < 0x80 then 1 else if c < 0x800 then 2 else if c < 0x1_0000 then 3 else 4) + ByteLen(s[1..])
  }

  lemma {:induction false} ByteLenAdds(a: string, b: string)
    ensures ByteLen(a + b) == ByteLen(a) + ByteLen(b)
    ensures forall c: char :: ByteLen([c]) ==
              if c as int <= 0x7F then 1 else if c as int <= 0x7FF then 2 else if c as int <= 0xFFFF then 3 else 4
  {
    if a == [] {
      assert a + b == b;
    } else {
      assert (a + b)[1..] == a[1..] + b;
      ByteLenAdds(a[1..], b);
    }
  }

  function TrimStart(s: string): (r: string)
    ensures |r| <= |s|
    ensures r == [] || !IsSpace(r[0])
  {
    if s != [] && IsSpace(s[0]) then TrimStart(s[1..]) else s
  }

  function TrimEnd(s: string): (r: string)
    ensures |r| <= |s| && r == s[..|r|]
    ensures r == [] || !IsSpace(r[|r| - 1])
  {
    if s != [] && IsSpace(s[|s| - 1]) then TrimEnd(s[..|s| - 1]) else s
  }

  function Trim(s: string): string { TrimEnd(TrimStart(s)) }

  predicate AllSpace(s: string) { forall i :: 0 <= i < |s| ==> IsSpace(s[i]) }

  lemma {:induction false} TrimStartDropsSpaces(s: string)
    ensures var i := |s| - |TrimStart(s)|; s[i..] == TrimStart(s) && AllSpace(s[..i])
  {
    if s != [] && IsSpace(s[0]) {
      TrimStartDropsSpaces(s[1..]);
      var i := |s| - |TrimStart(s)|;
      assert s[i..] == s[1..][i - 1..] && s[..i] == [s[0]] + s[1..][..i - 1];
    }
  }

  lemma {:induction false} TrimEndDropsSpaces(s: string)
    ensures AllSpace(s[|TrimEnd(s)|..])
  {
    if s != [] && IsSpace(s[|s| - 1]) {
      var front := s[..|s| - 1];
      TrimEndDropsSpaces(front);
      assert s[|TrimEnd(s)|..] == front[|TrimEnd(s)|..] + [s[|s| - 1]];
    }
  }

  /** Trimming takes spaces off both ends and nothing else, so the white space around a nonce does
      not make it another nonce. */
  lemma NonceIsTheMiddle(s: string)
    ensures exists before, after :: AllSpace(before) && AllSpace(after) && s == before + Trim(s) + after
    ensures Trim(s) == [] || (!IsSpace(Trim(s)[0]) && !IsSpace(Trim(s)[|Trim(s)| - 1]))
    ensures Nonce(Some(s)) == if Trim(s) != [] && ByteLen(Trim(s)) <= MAX_NONCE then Some(Trim(s)) else None
  {
    var rest := TrimStart(s);
    TrimStartDropsSpaces(s);
    TrimEndDropsSpaces(rest);
    var before, after := s[..|s| - |rest|], rest[|Trim(s)|..];
    assert s == before + Trim(s) + after;
  }

  /** A nonce that is blank or too long counts as none. */
  function Nonce(raw: Option<string>): (r: Option<string>)
    ensures r.Some? ==> r.value != [] && ByteLen(r.value) <= MAX_NONCE
    ensures r.Some? ==> !IsSpace(r.value[0]) && !IsSpace(r.value[|r.value| - 1])
  {
    if raw.None? then None
    else
      var t := Trim(raw.value);
      if t == [] || ByteLen(t) > MAX_NONCE then None else Some(t)
  }

  // ---- the collection ----

  type Docs = map<Id, Doc>

  predicate Holds(docs: Docs, id: Id, sender: UserId, nonce: string)
  {
    id in docs && docs[id].sender == sender && docs[id].nonce == Some(nonce)
  }

  /** What find_one by sender and nonce may return. */
  ghost predicate Finds(docs: Docs, sender: UserId, nonce: string, found: Option<Id>)
  {
    match found
    case None => forall id :: !Holds(docs, id, sender, nonce)
    case Some(id) => Holds(docs, id, sender, nonce)
  }

  predicate SameNonce(c: Doc, d: Doc) { c.nonce.Some? && c.nonce == d.nonce && c.sender == d.sender }

  /** The unique partial index: string nonces only. */
  ghost predicate UniqueNonces(docs: Docs)
  {
    forall i, j :: i in docs && j in docs && SameNonce(docs[i], docs[j]) ==> i == j
  }

  /** `fresh` is the id the database assigns. */
  ghost predicate InsertAllowed(docs: Docs, d: Doc)
  {
    d.nonce.None? || forall id :: !Holds(docs, id, d.sender, d.nonce.value)
  }

  /** A found document is replayed only if it is live and was sent to the same place. */
  function Judged(docs: Docs, id: Id, input: Input): Outcome
    requires id in docs
  {
    if docs[id].deleted || docs[id].scope != input.scope then NonceConflict else Replay(id)
  }

  /** Others only add documents and mark documents deleted. */
  ghost predicate Grew(before: Docs, after: Docs)
  {
    forall id :: id in before ==> id in after && (after[id] == before[id] || after[id] == before[id].(deleted := true))
  }

  /** What a call would store. */
  function NewDoc(input: Input): Doc { Doc(input.sender, Nonce(input.rawNonce), input.scope, false) }

  /** Document i has this sender and this usable nonce. */
  predicate Matches(docs: Docs, i: Id, input: Input)
  {
    Nonce(input.rawNonce).Some? && i in docs && docs[i].sender == input.sender && docs[i].nonce == Nonce(input.rawNonce)
  }

  ghost predicate NoMatch(docs: Docs, input: Input) { forall i :: !Matches(docs, i, input) }

  /** A live original sent to the same place is replayed, any other is a conflict. */
  predicate Replayed(docs: Docs, i: Id, input: Input, o: Outcome)
    requires i in docs
  {
    if !docs[i].deleted && docs[i].scope == input.scope then o == Replay(i) else o == NonceConflict
  }

  /** What every input is answered, and what is stored. `before` is the collection at the first lookup,
      `meanwhile` the one at the insert and the second lookup. */
  ghost predicate Answered(input: Input, before: Docs, meanwhile: Docs, readOk: bool, writeOk: bool, rereadOk: bool,
                           id: Id,
                           o: Outcome, after: Docs)
  {
    && (forall i :: readOk && Matches(before, i, input) ==> Replayed(before, i, input, o) && after == before)
    && (!readOk || NoMatch(before, input) ==>
          if writeOk && NoMatch(meanwhile, input) then
            o == Created(id) && after == meanwhile[id := Doc(input.sender, Nonce(input.rawNonce), input.scope, false)]
          else
            && after == meanwhile
            && (forall i :: rereadOk && Matches(meanwhile, i, input) ==> Replayed(meanwhile, i, input, o))
            && (!rereadOk || NoMatch(meanwhile, input) ==> o == OtherError))
  }

  class Messages {
    var docs: Docs

    method FindByNonce(sender: UserId, nonce: string) returns (found: Option<Id>)
      ensures Finds(docs, sender, nonce, found)
    {
      var todo := docs.Keys;
      while todo != {}
        invariant todo <= docs.Keys
        invariant forall id :: Holds(docs, id, sender, nonce) ==> id in todo
        decreases |todo|
      {
        var id :| id in todo;
        if Holds(docs, id, sender, nonce) { return Some(id); }
        todo := todo - {id};
      }
      found := None;
    }

    /** The index refuses a second document of one sender and nonce. */
    method InsertOne(d: Doc, id: Id) returns (ok: bool)
      requires id !in docs
      modifies this
      ensures ok <==> InsertAllowed(old(docs), d)
      ensures docs == if ok then old(docs)[id := d] else old(docs)
    {
      if d.nonce.Some? {
        var taken := FindByNonce(d.sender, d.nonce.value);
        if taken.Some? { return false; }
      }
      docs := docs[id := d];
      ok := true;
    }

    /** `meanwhile` is the collection others leave between the lookup and the insert; `readOk`,
        `writeOk` and `rereadOk` say which database operations succeed. */
    method Create(input: Input, meanwhile: Docs, readOk: bool, writeOk: bool, rereadOk: bool, id: Id)
          returns (o: Outcome)
      requires UniqueNonces(docs) && UniqueNonces(meanwhile) && Grew(docs, meanwhile) && id !in meanwhile
      modifies this
      ensures UniqueNonces(docs) && Grew(old(docs), docs)
      ensures o.Created? ==> o.id == id && InsertAllowed(meanwhile, NewDoc(input))
      ensures o.Created? ==> docs == meanwhile[id := NewDoc(input)]
      ensures !o.Created? ==> docs == old(docs) || docs == meanwhile
      ensures o.Replay? ==> o.id in docs && docs[o.id] == NewDoc(input) && docs[o.id].nonce.Some?
      ensures forall taken ::
                Nonce(input.rawNonce).Some? && Holds(meanwhile, taken, input.sender, Nonce(input.rawNonce).value) ==>
                  o in {Replay(taken), NonceConflict, OtherError}
      ensures Answered(input, old(docs), meanwhile, readOk, writeOk, rereadOk, id, o, docs)
    {
      var nonce := Nonce(input.rawNonce);
      if nonce.Some? && readOk {
        var existing := FindByNonce(input.sender, nonce.value);
        if existing.Some? {
          OneMatch(docs, existing.value, input);
          return Judged(docs, existing.value, input);
        }
        NothingMatches(docs, input);
      }
      docs := meanwhile;
      if writeOk {
        var ok := InsertOne(NewDoc(input), id);
        AllowedWithoutMatch(meanwhile, input);
        if ok {
          InsertKeepsUnique(meanwhile, NewDoc(input), id);
          return Created(id);
        }
      }
      if nonce.Some? && rereadOk {
        var existing := FindByNonce(input.sender, nonce.value);
        if existing.Some? {
          OneMatch(docs, existing.value, input);
          return Judged(docs, existing.value, input);
        }
        NothingMatches(docs, input);
      }
      o := OtherError;
    }
  }

  lemma OneMatch(docs: Docs, id: Id, input: Input)
    requires UniqueNonces(docs) && Nonce(input.rawNonce).Some? &&
             Holds(docs, id, input.sender, Nonce(input.rawNonce).value)
    ensures Matches(docs, id, input) && !NoMatch(docs, input)
    ensures forall i :: Matches(docs, i, input) <==> i == id
  {
    assert Matches(docs, id, input);
  }

  lemma NothingMatches(docs: Docs, input: Input)
    requires Nonce(input.rawNonce).Some? && forall i :: !Holds(docs, i, input.sender, Nonce(input.rawNonce).value)
    ensures NoMatch(docs, input)
  {
    forall i ensures !Matches(docs, i, input) { assert !Holds(docs, i, input.sender, Nonce(input.rawNonce).value); }
  }

  lemma AllowedWithoutMatch(docs: Docs, input: Input)
    ensures InsertAllowed(docs, NewDoc(input)) <==> NoMatch(docs, input)
  {
    if Nonce(input.rawNonce).Some? {
      assert forall i :: Matches(docs, i, input) <==> Holds(docs, i, input.sender, Nonce(input.rawNonce).value);
    }
  }

  lemma InsertKeepsUnique(docs: Docs, d: Doc, id: Id)
    requires UniqueNonces(docs) && InsertAllowed(docs, d) && id !in docs
    ensures UniqueNonces(docs[id := d])
  {
    forall i | i in docs && d.nonce.Some? && docs[i].sender == d.sender ensures docs[i].nonce != d.nonce {
      assert !Holds(docs, i, d.sender, d.nonce.value);
    }
  }

  // ---- any number of calls ----

  datatype Phase =
    | Looking
    | Inserting
    | Refused            // insert returned an error
    | Ended(outcome: Outcome)

  datatype Call = Call(input: Input, phase: Phase)

  datatype State = State(docs: Docs, calls: seq<Call>)

  /** `found` is what a lookup returns, `dbOk` whether the operation succeeds at all, `id` the id
      an insert would get. */
  datatype Event =
    | Begin(input: Input)
    | Act(c: nat, dbOk: bool, found: Option<Id>, id: Id)
    | SoftDelete(id: Id)

  ghost function Step(s: State, e: Event): Option<State>
  {
    match e
    case Begin(input) =>
      Some(s.(calls := s.calls + [Call(input, if Nonce(input.rawNonce).Some? then Looking else Inserting)]))
    case SoftDelete(id) => if id in s.docs then Some(s.(docs := s.docs[id := s.docs[id].(deleted := true)])) else None
    case Act(c, dbOk, found, id) =>
      if c >= |s.calls| || s.calls[c].phase.Ended? then None
      else match Action(s.docs, s.calls[c], dbOk, found, id)
        case None => None
        case Some((docs, phase)) => Some(State(docs, s.calls[c := s.calls[c].(phase := phase)]))
  }

  /** The next database operation of `Message::create`. */
  ghost function Action(docs: Docs, k: Call, dbOk: bool, found: Option<Id>, id: Id): Option<(Docs, Phase)>
    requires !k.phase.Ended?
  {
    var nonce := Nonce(k.input.rawNonce);
    match k.phase
    case Looking =>
      if !dbOk then Some((docs, Inserting))
      else if nonce.None? || !Finds(docs, k.input.sender, nonce.value, found) then None
      else Some((docs, if found.Some? then Ended(Judged(docs, found.value, k.input)) else Inserting))
    case Inserting =>
      var d := NewDoc(k.input);
      if id in docs then None
      else if dbOk && InsertAllowed(docs, d) then Some((docs[id := d], Ended(Created(id))))
      else Some((docs, Refused))
    case Refused =>
      if nonce.None? || !dbOk then Some((docs, Ended(OtherError)))
      else if !Finds(docs, k.input.sender, nonce.value, found) then None
      else Some((docs, Ended(if found.Some? then Judged(docs, found.value, k.input) else OtherError)))
  }

  predicate Succeeded(k: Call) { k.phase.Ended? && (k.phase.outcome.Created? || k.phase.outcome.Replay?) }

  function Result(k: Call): Id
    requires Succeeded(k)
  {
    k.phase.outcome.id
  }

  /** A successful call points at the document of its own sender, nonce and scope. */
  ghost predicate PointsAtOwn(docs: Docs, k: Call)
  {
    Succeeded(k) ==>
      && Result(k) in docs
      && docs[Result(k)].sender == k.input.sender
      && docs[Result(k)].nonce == Nonce(k.input.rawNonce)
      && docs[Result(k)].scope == k.input.scope
  }

  ghost predicate Inv(s: State)
  {
    && UniqueNonces(s.docs)
    && (forall c :: 0 <= c < |s.calls| ==> PointsAtOwn(s.docs, s.calls[c]))
    && (forall c :: 0 <= c < |s.calls| && s.calls[c].phase.Looking? ==> Nonce(s.calls[c].input.rawNonce).Some?)
    && (forall c, d :: 0 <= c < d < |s.calls| && CreatedOne(s.calls[c]) && CreatedOne(s.calls[d]) ==>
         Result(s.calls[c]) != Result(s.calls[d]))
  }

  predicate CreatedOne(k: Call) { k.phase.Ended? && k.phase.outcome.Created? }

  /** What one operation of a call does to the collection. */
  lemma ActionEffect(docs: Docs, k: Call, dbOk: bool, found: Option<Id>, id: Id)
    requires !k.phase.Ended? && UniqueNonces(docs) && Action(docs, k, dbOk, found, id).Some?
    requires k.phase.Looking? ==> Nonce(k.input.rawNonce).Some?
    ensures var (docs', p) := Action(docs, k, dbOk, found, id).value;
            && UniqueNonces(docs') && PointsAtOwn(docs', k.(phase := p)) && !p.Looking?
            && (forall i :: i in docs ==> i in docs' && docs'[i] == docs[i])
            && (CreatedOne(k.(phase := p)) ==> Result(k.(phase := p)) !in docs)
  {
    var docs' := Action(docs, k, dbOk, found, id).value.0;
    if docs' != docs { InsertKeepsUnique(docs, NewDoc(k.input), id); }
  }

  lemma StepKeepsInv(s: State, e: Event)
    requires Inv(s) && Step(s, e).Some?
    ensures Inv(Step(s, e).value)
  {
    var s' := Step(s, e).value;
    if e.Act? { ActionEffect(s.docs, s.calls[e.c], e.dbOk, e.found, e.id); }
    forall c | 0 <= c < |s'.calls| ensures PointsAtOwn(s'.docs, s'.calls[c]) {
      if c < |s.calls| { assert PointsAtOwn(s.docs, s.calls[c]); }
    }
    if e.Act? {
      forall c, d | 0 <= c < d < |s'.calls| && CreatedOne(s'.calls[c]) && CreatedOne(s'.calls[d])
        ensures Result(s'.calls[c]) != Result(s'.calls[d])
      {
        assert PointsAtOwn(s.docs, s.calls[c]) && PointsAtOwn(s.docs, s.calls[d]);
      }
    }
  }

  lemma EveryRunKeepsInv(docs: Docs, es: seq<Event>)
    requires UniqueNonces(docs) && Run(Step, State(docs, []), es).Some?
    ensures Inv(Run(Step, State(docs, []), es).value)
  {
    forall s, e | Inv(s) && Step(s, e).Some? ensures Inv(Step(s, e).value) { StepKeepsInv(s, e); }
    RunKeeps(Step, Inv, State(docs, []), es);
  }

  /** Two successful calls of one sender with the same trimmed nonce got the same document, were
      sent to the same place, and at most one of them created it. */
  lemma SameNonceSameMessage(docs: Docs, es: seq<Event>, c: nat, d: nat)
    requires UniqueNonces(docs) && Run(Step, State(docs, []), es).Some?
    requires c < d < |Run(Step, State(docs, []), es).value.calls|
    requires var s := Run(Step, State(docs, []), es).value;
             && Succeeded(s.calls[c]) && Succeeded(s.calls[d])
             && s.calls[c].input.sender == s.calls[d].input.sender
             && Nonce(s.calls[c].input.rawNonce) == Nonce(s.calls[d].input.rawNonce) &&
                  Nonce(s.calls[c].input.rawNonce).Some?
    ensures var s := Run(Step, State(docs, []), es).value;
            && Result(s.calls[c]) == Result(s.calls[d])
            && s.calls[c].input.scope == s.calls[d].input.scope
            && !(CreatedOne(s.calls[c]) && CreatedOne(s.calls[d]))
            && Result(s.calls[c]) in s.docs && s.docs[Result(s.calls[c])].scope == s.calls[c].input.scope
  {
    EveryRunKeepsInv(docs, es);
    var s := Run(Step, State(docs, []), es).value;
    assert PointsAtOwn(s.docs, s.calls[c]) && PointsAtOwn(s.docs, s.calls[d]);
  }

  // ---- one call, alone ----

  /** Only call c acts. */
  ghost predicate OnlyCall(es: seq<Event>, c: nat) { forall k :: 0 <= k < |es| ==> es[k].Act? && es[k].c == c }

  /** A matching document, if there is one; lookups return it. */
  ghost function TheMatch(docs: Docs, input: Input): (found: Option<Id>)
    ensures found.Some? ==> Matches(docs, found.value, input)
    ensures found.None? ==> NoMatch(docs, input)
  {
    if i :| Matches(docs, i, input) then Some(i) else None
  }

  lemma FindsTheMatch(docs: Docs, input: Input)
    requires Nonce(input.rawNonce).Some?
    ensures Finds(docs, input.sender, Nonce(input.rawNonce).value, TheMatch(docs, input))
  {
    if TheMatch(docs, input).None? {
      forall i ensures !Holds(docs, i, input.sender, Nonce(input.rawNonce).value) { assert !Matches(docs, i, input); }
    } else {
      assert Holds(docs, TheMatch(docs, input).value, input.sender, Nonce(input.rawNonce).value);
    }
  }

  lemma RefusedAnswers(s: State, c: nat, rereadOk: bool, id: Id) returns (e: Event, end: State)
    requires Inv(s) && c < |s.calls| && s.calls[c].phase.Refused?
    ensures e.Act? && e.c == c && Step(s, e) == Some(end) && end.docs == s.docs
    ensures |end.calls| == |s.calls| && end.calls[c].phase.Ended?
    ensures var input, o := s.calls[c].input, end.calls[c].phase.outcome;
            && (forall i :: rereadOk && Matches(s.docs, i, input) ==> Replayed(s.docs, i, input, o))
            && (!rereadOk || NoMatch(s.docs, input) ==> o == OtherError)
  {
    var input := s.calls[c].input;
    e := Act(c, rereadOk, TheMatch(s.docs, input), id);
    if Nonce(input.rawNonce).Some? {
      FindsTheMatch(s.docs, input);
      if TheMatch(s.docs, input).Some? { OneMatch(s.docs, TheMatch(s.docs, input).value, input); }
    }
    end := Step(s, e).value;
  }

  lemma InsertingAnswers(s: State, c: nat, writeOk: bool, rereadOk: bool, id: Id) returns (es: seq<Event>, end: State)
    requires Inv(s) && c < |s.calls| && s.calls[c].phase.Inserting? && id !in s.docs
    ensures OnlyCall(es, c) && Run(Step, s, es) == Some(end) && |end.calls| == |s.calls| && end.calls[c].phase.Ended?
    ensures var input, o := s.calls[c].input, end.calls[c].phase.outcome;
            Answered(input, s.docs, s.docs, false, writeOk, rereadOk, id, o, end.docs)
  {
    var input := s.calls[c].input;
    AllowedWithoutMatch(s.docs, input);
    var e := Act(c, writeOk, None, id);
    var s1 := Step(s, e).value;
    RunOfOne(Step, s, e, s1);
    es, end := [e], s1;
    if s1.calls[c].phase.Refused? {
      StepKeepsInv(s, e);
      var f, s2 := RefusedAnswers(s1, c, rereadOk, id);
      RunOfTwo(Step, s, e, s1, f, s2);
      es, end := [e, f], s2;
    }
  }

  /** A call that nobody interferes with ends, and its input decides the answer and what is stored. */
  lemma AloneItIsAnswered(s: State, c: nat, readOk: bool, writeOk: bool, rereadOk: bool, id: Id)
        returns (es: seq<Event>)
    requires Inv(s) && c < |s.calls| && id !in s.docs
    requires s.calls[c].phase == if Nonce(s.calls[c].input.rawNonce).Some? then Looking else Inserting
    ensures OnlyCall(es, c) && Run(Step, s, es).Some?
    ensures var end, input := Run(Step, s, es).value, s.calls[c].input;
            c < |end.calls| && end.calls[c].phase.Ended? &&
            Answered(input, s.docs, s.docs, readOk, writeOk, rereadOk, id, end.calls[c].phase.outcome, end.docs)
  {
    var input, end := s.calls[c].input, s;
    if s.calls[c].phase.Inserting? {
      assert NoMatch(s.docs, input);
      es, end := InsertingAnswers(s, c, writeOk, rereadOk, id);
    } else {
      FindsTheMatch(s.docs, input);
      var e := Act(c, readOk, TheMatch(s.docs, input), id);
      var s1 := Step(s, e).value;
      StepKeepsInv(s, e);
      RunOfOne(Step, s, e, s1);
      es, end := [e], s1;
      if s1.calls[c].phase.Ended? {
        OneMatch(s.docs, TheMatch(s.docs, input).value, input);
      } else {
        var rest;
        rest, end := InsertingAnswers(s1, c, writeOk, rereadOk, id);
        RunsJoin(Step, s, es, s1, rest, end);
        es := es + rest;
      }
    }
  }

  /** The same from the beginning of the call. */
  lemma AloneFromTheStart(s: State, input: Input, readOk: bool, writeOk: bool, rereadOk: bool, id: Id)
        returns (es: seq<Event>)
    requires Inv(s) && id !in s.docs
    ensures OnlyCall(es, |s.calls|) && Run(Step, s, [Begin(input)] + es).Some?
    ensures var c, end := |s.calls|, Run(Step, s, [Begin(input)] + es).value;
            c < |end.calls| && end.calls[c].phase.Ended? &&
            Answered(input, s.docs, s.docs, readOk, writeOk, rereadOk, id, end.calls[c].phase.outcome, end.docs)
  {
    var s1 := Step(s, Begin(input)).value;
    StepKeepsInv(s, Begin(input));
    RunOfOne(Step, s, Begin(input), s1);
    es := AloneItIsAnswered(s1, |s.calls|, readOk, writeOk, rereadOk, id);
    RunsJoin(Step, s, [Begin(input)], s1, es, Run(Step, s1, es).value);
  }

  // ---- once a message is deleted, and once a nonce is taken ----

  /** Call c had not been decided in the earlier state s: it was under way, or had not begun. */
  predicate Undecided(s: State, c: nat) { c >= |s.calls| || !s.calls[c].phase.Ended? }

  ghost predicate Reached(docs: Docs, es: seq<Event>, s: State)
  {
    UniqueNonces(docs) && Run(Step, State(docs, []), es) == Some(s)
  }

  ghost predicate DeletedSince(s: State, id: Id, t: State)
  {
    && id in t.docs && t.docs[id].deleted && |s.calls| <= |t.calls|
    && forall c :: 0 <= c < |t.calls| && Undecided(s, c) ==> t.calls[c].phase != Ended(Replay(id))
  }

  lemma StepKeepsDeleted(s: State, id: Id, t: State, e: Event)
    requires DeletedSince(s, id, t) && Step(t, e).Some?
    ensures DeletedSince(s, id, Step(t, e).value)
  {
  }

  /** A deleted original is never replayed: in any run, no call that was still undecided when the
      message was deleted, or began later, ends in its replay. */
  lemma DeletedIsNeverReplayed(docs: Docs, es: seq<Event>, s: State, fs: seq<Event>, id: Id, c: nat)
    requires Reached(docs, es, s) && id in s.docs && s.docs[id].deleted && Run(Step, s, fs).Some?
    requires c < |Run(Step, s, fs).value.calls| && Undecided(s, c)
    ensures Run(Step, s, fs).value.calls[c].phase != Ended(Replay(id))
  {
    var inv := (t: State) => DeletedSince(s, id, t);
    forall t, e | inv(t) && Step(t, e).Some? ensures inv(Step(t, e).value) { StepKeepsDeleted(s, id, t, e); }
    RunKeeps(Step, inv, s, fs);
  }

  predicate Asks(k: Call, sender: UserId, nonce: string)
  {
    k.input.sender == sender && Nonce(k.input.rawNonce) == Some(nonce)
  }

  /** If the call has ended, it replayed that document, met a conflict or failed in the database. */
  predicate EndsAs(k: Call, id: Id) { k.phase.Ended? ==> k.phase.outcome in {Replay(id), NonceConflict, OtherError} }

  ghost predicate TakenSince(s: State, id: Id, sender: UserId, nonce: string, t: State)
  {
    && Inv(t) && Holds(t.docs, id, sender, nonce) && |s.calls| <= |t.calls|
    && forall c :: 0 <= c < |t.calls| && Undecided(s, c) && Asks(t.calls[c], sender, nonce) ==> EndsAs(t.calls[c], id)
  }

  /** One action of a call whose nonce is taken writes nothing and decides for that document. */
  lemma TakenNonceAct(s: State, e: Event, id: Id)
    requires Inv(s) && e.Act? && Step(s, e).Some?
    requires var k := s.calls[e.c];
             Nonce(k.input.rawNonce).Some? && Holds(s.docs, id, k.input.sender, Nonce(k.input.rawNonce).value)
    ensures var p := Step(s, e).value.calls[e.c].phase;
            p.Ended? ==> p.outcome in {Replay(id), NonceConflict, OtherError}
    ensures Step(s, e).value.docs == s.docs
  {
  }

  lemma StepKeepsTaken(s: State, id: Id, sender: UserId, nonce: string, t: State, e: Event)
    requires TakenSince(s, id, sender, nonce, t) && Step(t, e).Some?
    ensures TakenSince(s, id, sender, nonce, Step(t, e).value)
  {
    StepKeepsInv(t, e);
    if e.Act? {
      if Asks(t.calls[e.c], sender, nonce) {
        TakenNonceAct(t, e, id);
      } else {
        ActionEffect(t.docs, t.calls[e.c], e.dbOk, e.found, e.id);
      }
    }
  }

  /** Once a nonce is taken, in any run: every call of its sender that was still undecided, or begins
      later, ends in the replay of that document, a conflict or a database error, and no other
      document ever gets the nonce. */
  lemma TakenNonceNeverCreates(docs: Docs, es: seq<Event>, s: State, fs: seq<Event>, id: Id, sender: UserId,
                               nonce: string)
    requires Reached(docs, es, s) && Holds(s.docs, id, sender, nonce) && Run(Step, s, fs).Some?
    ensures var end := Run(Step, s, fs).value;
            && (forall c :: 0 <= c < |end.calls| && Undecided(s, c) && Asks(end.calls[c], sender, nonce) ==>
                  EndsAs(end.calls[c], id))
            && (forall i :: Holds(end.docs, i, sender, nonce) <==> i == id)
  {
    EveryRunKeepsInv(docs, es);
    var inv := (t: State) => TakenSince(s, id, sender, nonce, t);
    forall t, e | inv(t) && Step(t, e).Some? ensures inv(Step(t, e).value) {
      StepKeepsTaken(s, id, sender, nonce, t, e);
    }
    RunKeeps(Step, inv, s, fs);
  }

  /** So a call that meets a deleted original of its own nonce is answered with a conflict, or with
      a database error if its lookups fail. */
  lemma DeletedOriginalConflicts(docs: Docs, es: seq<Event>, s: State, fs: seq<Event>, id: Id, c: nat)
    requires Reached(docs, es, s) && id in s.docs && s.docs[id].deleted && s.docs[id].nonce.Some? &&
             Run(Step, s, fs).Some?
    requires var end := Run(Step, s, fs).value;
             c < |end.calls| && Undecided(s, c) && end.calls[c].phase.Ended? &&
               Asks(end.calls[c], s.docs[id].sender, s.docs[id].nonce.value)
    ensures Run(Step, s, fs).value.calls[c].phase.outcome in {NonceConflict, OtherError}
  {
    DeletedIsNeverReplayed(docs, es, s, fs, id, c);
    TakenNonceNeverCreates(docs, es, s, fs, id, s.docs[id].sender, s.docs[id].nonce.value);
  }
}
