/** Which live sockets a user has, for fan-out and for session revocation. */
module ConnectionRegistry {
  import opened Runs

  type UserId = string

  datatype Connection = Connection(id: nat, family: Option<string>)

  predicate DistinctIds(conns: seq<Connection>)
  {
    forall i, j :: 0 <= i < j < |conns| ==> conns[i].id != conns[j].id
  }

  /** The entries that `retain` keeps, in order. */
  function Keep(conns: seq<Connection>, keep: Connection -> bool): (r: seq<Connection>)
    ensures forall c :: c in r <==> c in conns && keep(c)
    ensures DistinctIds(conns) ==> DistinctIds(r)
    ensures |r| <= |conns|
  {
    if conns == [] then []
    else
      var rest := Keep(conns[1..], keep);
      assert DistinctIds(conns) ==> DistinctIds(conns[1..]) && forall c :: c in rest ==> c.id != conns[0].id;
      if keep(conns[0]) then [conns[0]] + rest else rest
  }

  function Without(id: nat): Connection -> bool { (c: Connection) => c.id != id }
  function InFamily(fam: string): Connection -> bool { (c: Connection) => c.family == Some(fam) }
  function OutsideFamily(fam: string): Connection -> bool { (c: Connection) => c.family != Some(fam) }

  /** A user without entries is not in the map. */
  function Put(m: map<UserId, seq<Connection>>, user: UserId, conns: seq<Connection>): map<UserId, seq<Connection>>
  {
    if conns == [] then m - {user} else m[user := conns]
  }

  function Listed(m: map<UserId, seq<Connection>>, user: UserId): seq<Connection>
  {
    if user in m then m[user] else []
  }

  function Registered(m: map<UserId, seq<Connection>>, user: UserId, c: Connection): map<UserId, seq<Connection>>
  {
    m[user := Listed(m, user) + [c]]
  }

  function Unregistered(m: map<UserId, seq<Connection>>, user: UserId, id: nat): map<UserId, seq<Connection>>
  {
    if user !in m then m else Put(m, user, Keep(m[user], Without(id)))
  }

  function DisconnectFamilyFrom(m: map<UserId, seq<Connection>>, user: UserId,
                                fam: string): map<UserId, seq<Connection>>
  {
    if user !in m then m else Put(m, user, Keep(m[user], OutsideFamily(fam)))
  }

  /** Entries stay in their order: what is kept of two parts is kept of each, and one entry is kept or not. */
  lemma {:induction false} KeepInOrder(a: seq<Connection>, b: seq<Connection>, keep: Connection -> bool)
    ensures Keep(a + b, keep) == Keep(a, keep) + Keep(b, keep)
    ensures forall c :: Keep([c], keep) == if keep(c) then [c] else []
  {
    if a == [] {
      assert a + b == b;
    } else {
      assert (a + b)[1..] == a[1..] + b;
      KeepInOrder(a[1..], b, keep);
    }
  }

  /** The other users are listed as before. */
  ghost predicate OnlyUser(before: map<UserId, seq<Connection>>, after: map<UserId, seq<Connection>>, user: UserId)
  {
    && (forall u :: u != user ==> (u in after <==> u in before))
    && (forall u :: u != user && u in before ==> after[u] == before[u])
  }

  lemma KeptWithoutOne(a: seq<Connection>, c: Connection, b: seq<Connection>)
    requires DistinctIds(a + [c] + b)
    ensures Keep(a + [c] + b, Without(c.id)) == a + b
  {
    var all := a + [c] + b;
    assert all[|a|] == c;
    forall k | 0 <= k < |a| ensures Without(c.id)(a[k]) { assert all[k] == a[k]; }
    forall k | 0 <= k < |b| ensures Without(c.id)(b[k]) { assert all[|a| + 1 + k] == b[k]; }
    AllKept(a, Without(c.id));
    AllKept(b, Without(c.id));
    KeepInOrder(a + [c], b, Without(c.id));
    KeepInOrder(a, [c], Without(c.id));
    Regroup(a, [], b);
  }

  /** Unregistering takes out that one socket, wherever it stands, and keeps the order of the others; a
      user without sockets is not listed. */
  lemma UnregisterTakesOne(m: map<UserId, seq<Connection>>, user: UserId, a: seq<Connection>, c: Connection,
                           b: seq<Connection>)
    requires user in m && m[user] == a + [c] + b && DistinctIds(a + [c] + b)
    ensures var after := Unregistered(m, user, c.id);
            && OnlyUser(m, after, user)
            && (if a + b == [] then user !in after else user in after && after[user] == a + b)
  {
    KeptWithoutOne(a, c, b);
  }

  lemma {:induction false} AllKept(conns: seq<Connection>, keep: Connection -> bool)
    requires forall k :: 0 <= k < |conns| ==> keep(conns[k])
    ensures Keep(conns, keep) == conns
  {
    if conns != [] { AllKept(conns[1..], keep); }
  }

  /** The partition: every entry goes to one side. */
  lemma {:induction false} FamilyIsPartitioned(conns: seq<Connection>, fam: string)
    ensures multiset(Keep(conns, InFamily(fam))) + multiset(Keep(conns, OutsideFamily(fam))) == multiset(conns)
  {
    if conns != [] {
      assert conns == [conns[0]] + conns[1..];
      FamilyIsPartitioned(conns[1..], fam);
    }
  }

  /** Ids are handed out in order, and nobody is listed without a connection. */
  ghost predicate Fits(m: map<UserId, seq<Connection>>, nextId: nat)
  {
    forall u :: u in m ==> m[u] != [] && forall c :: c in m[u] ==> c.id < nextId
  }

  lemma {:induction false} NewIdIsDropped(conns: seq<Connection>, c: Connection)
    requires forall d :: d in conns ==> d.id != c.id
    ensures Keep(conns + [c], Without(c.id)) == conns
  {
    if conns == [] {
      assert conns + [c] == [c];
    } else {
      assert (conns + [c])[1..] == conns[1..] + [c];
      NewIdIsDropped(conns[1..], c);
    }
  }

  /** Unregistering undoes registering. */
  lemma UnregisterUndoesRegister(m: map<UserId, seq<Connection>>, user: UserId, c: Connection)
    requires Fits(m, c.id)
    ensures Unregistered(Registered(m, user, c), user, c.id) == m
  {
    NewIdIsDropped(Listed(m, user), c);
    if user !in m { assert m[user := [c]] - {user} == m; }
  }

  class Registry {
    var connections: map<UserId, seq<Connection>>
    var nextId: nat

    constructor ()
      ensures connections == map[] && nextId == 1
    {
      connections, nextId := map[], 1;
    }

    method Register(user: UserId, family: Option<string>) returns (id: nat)
      modifies this
      ensures id == old(nextId) && nextId == id + 1
      ensures connections == Registered(old(connections), user, Connection(id, family))
      ensures OnlyUser(old(connections), connections, user) && user in connections
      ensures connections[user] == Listed(old(connections), user) + [Connection(id, family)]
    {
      id := nextId;
      nextId := nextId + 1;
      if user !in connections {
        connections := connections[user := []];
      }
      connections := connections[user := connections[user] + [Connection(id, family)]];
    }

    method Unregister(user: UserId, id: nat)
      modifies this`connections
      ensures connections == Unregistered(old(connections), user, id)
      ensures OnlyUser(old(connections), connections, user)
      ensures forall c :: c in Listed(connections, user) <==> c in Listed(old(connections), user) && c.id != id
      ensures user in old(connections) ==> (user in connections <==> Listed(connections, user) != [])
    {
      if user in connections {
        var kept := Keep(connections[user], Without(id));
        connections := connections[user := kept];
        if kept == [] {
          connections := connections - {user};
          assert connections == old(connections) - {user};
        }
      }
    }

    /** Drops the sockets of one session family; the dropped ones are told to close. */
    method DisconnectFamily(user: UserId, fam: string) returns (revoked: seq<Connection>)
      modifies this`connections
      ensures connections == DisconnectFamilyFrom(old(connections), user, fam)
      ensures revoked == Keep(Listed(old(connections), user), InFamily(fam))
      ensures OnlyUser(old(connections), connections, user)
      ensures forall c :: c in revoked <==> c in Listed(old(connections), user) && c.family == Some(fam)
      ensures forall c :: c in Listed(connections, user) <==>
              c in Listed(old(connections), user) && c.family != Some(fam)
      ensures multiset(revoked) + multiset(Listed(connections, user)) == multiset(Listed(old(connections), user))
      ensures user in old(connections) ==> (user in connections <==> Listed(connections, user) != [])
    {
      revoked := [];
      if user !in connections { return; }
      FamilyIsPartitioned(connections[user], fam);
      revoked := Keep(connections[user], InFamily(fam));
      var remaining := Keep(connections[user], OutsideFamily(fam));
      connections := connections[user := remaining];
      if remaining == [] {
        connections := connections - {user};
        assert connections == old(connections) - {user};
      }
    }

    method DisconnectUser(user: UserId) returns (revoked: seq<Connection>)
      modifies this`connections
      ensures connections == old(connections) - {user}
      ensures revoked == Listed(old(connections), user)
    {
      revoked := if user in connections then connections[user] else [];
      connections := connections - {user};
    }
  }
}
