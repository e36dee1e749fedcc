/** Admission counters of the WebSocket runtime: the global total behind a CAS, the per-IP and
    per-user maps behind their mutexes, and the life of one socket task from registration to
    teardown, interleaved with every other socket task. */
module SocketAccounting {
  import opened Runs
  import opened Counting
  import opened ConnectionRegistry

  type Ip = string

  const MAX_CONNECTIONS_PER_USER: nat := 6
  const MAX_CONNECTIONS_PER_IP: nat := 24
  const MAX_GLOBAL_WS_CONNECTIONS: nat := 2048

  /** AtomicU32::fetch_sub(1) wraps at zero. */
  function FetchSub(n: nat): nat { if n == 0 then 0xFFFF_FFFF else n - 1 }

  // ---- the shared counters, as the source's object ----

  class SocketCounters {
    var connections: map<UserId, nat>
    var ipConnections: map<Ip, nat>
    var wsTotal: nat

    constructor ()
      ensures connections == map[] && ipConnections == map[] && wsTotal == 0
    {
      connections, ipConnections, wsTotal := map[], map[], 0;
    }

    /** None when the user is at the cap, otherwise whether this is the user's first socket. */
    method RegisterConnection(user: UserId) returns (first: Option<bool>)
      modifies this`connections
      ensures old(Get(connections, user)) >= MAX_CONNECTIONS_PER_USER ==>
                first == None && connections == old(connections)
      ensures old(Get(connections, user)) < MAX_CONNECTIONS_PER_USER ==>
                first == Some(old(user !in connections || connections[user] == 0)) &&
                connections == Inc(old(connections), user)
    {
      if user !in connections {
        connections := connections[user := 0];
      }
      var count := connections[user];
      if count >= MAX_CONNECTIONS_PER_USER {
        return None;
      }
      connections := connections[user := count + 1];
      first := Some(count == 0);
    }

    method UnregisterConnection(user: UserId)
      modifies this`connections
      ensures connections == Dec(old(connections), user)
    {
      if user in connections {
        if connections[user] <= 1 {
          connections := connections - {user};
        } else {
          connections := connections[user := connections[user] - 1];
        }
      }
    }

    /** The weak CAS may fail spuriously; `spurious` says how many times it does. */
    method RegisterIpConnection(ip: Ip, spurious: nat) returns (ok: bool)
      modifies this`ipConnections, this`wsTotal
      ensures ok <==> old(wsTotal) < MAX_GLOBAL_WS_CONNECTIONS && old(Get(ipConnections, ip)) < MAX_CONNECTIONS_PER_IP
      ensures ok ==> wsTotal == old(wsTotal) + 1 && ipConnections == Inc(old(ipConnections), ip)
      ensures !ok ==> wsTotal == old(wsTotal) && ipConnections == old(ipConnections)
    {
      var left := spurious;
      while true
        invariant wsTotal == old(wsTotal) && ipConnections == old(ipConnections)
        decreases left
      {
        var current := wsTotal;
        if current >= MAX_GLOBAL_WS_CONNECTIONS {
          return false;
        }
        if left == 0 {
          wsTotal := current + 1;
          break;
        }
        left := left - 1;
      }
      if ip !in ipConnections {
        ipConnections := ipConnections[ip := 0];
      }
      if ipConnections[ip] >= MAX_CONNECTIONS_PER_IP {
        wsTotal := FetchSub(wsTotal);
        return false;
      }
      ipConnections := ipConnections[ip := ipConnections[ip] + 1];
      ok := true;
    }

    method UnregisterIpConnection(ip: Ip)
      modifies this`ipConnections, this`wsTotal
      ensures ipConnections == Dec(old(ipConnections), ip)
      ensures wsTotal == if ip in old(ipConnections) then FetchSub(old(wsTotal)) else old(wsTotal)
    {
      var removed := false;
      if ip in ipConnections {
        if ipConnections[ip] <= 1 {
          ipConnections := ipConnections - {ip};
        } else {
          ipConnections := ipConnections[ip := ipConnections[ip] - 1];
        }
        removed := true;
      }
      if removed {
        wsTotal := FetchSub(wsTotal);
      }
    }
  }

  // ---- one socket, alone ----

  ghost predicate NoZeros<K>(m: map<K, nat>) { forall k :: k in m ==> m[k] > 0 }

  lemma DecUndoesInc<K>(m: map<K, nat>, k: K)
    requires NoZeros(m)
    ensures Dec(Inc(m, k), k) == m
  {
    if k !in m { assert m[k := 1] - {k} == m; }
  }

  /** `handle_socket` without anybody else: every exit gives back exactly what was taken. Frames
      served in between touch none of it. */
  method HandleSocket(counters: SocketCounters, registry: Registry, user: UserId, ip: Ip, family: Option<string>,
                      spurious: nat, cipherOk: bool) returns (served: bool)
    requires NoZeros(counters.connections) && NoZeros(counters.ipConnections) &&
             Fits(registry.connections, registry.nextId)
    modifies counters, registry
    ensures served <==>
            && old(counters.wsTotal) < MAX_GLOBAL_WS_CONNECTIONS
            && old(Get(counters.ipConnections, ip)) < MAX_CONNECTIONS_PER_IP
            && old(Get(counters.connections, user)) < MAX_CONNECTIONS_PER_USER && cipherOk
    ensures counters.connections == old(counters.connections) && counters.ipConnections == old(counters.ipConnections)
    ensures counters.wsTotal == old(counters.wsTotal) && registry.connections == old(registry.connections)
  {
    DecUndoesInc(counters.ipConnections, ip);
    DecUndoesInc(counters.connections, user);
    var ok := counters.RegisterIpConnection(ip, spurious);
    if !ok { return false; }
    var first := counters.RegisterConnection(user);
    if first.None? {
      counters.UnregisterIpConnection(ip);
      return false;
    }
    UnregisterUndoesRegister(registry.connections, user, Connection(registry.nextId, family));
    var id := registry.Register(user, family);
    if !cipherOk {
      registry.Unregister(user, id);
      counters.UnregisterConnection(user);
      counters.UnregisterIpConnection(ip);
      return false;
    }
    registry.Unregister(user, id);
    counters.UnregisterConnection(user);
    counters.UnregisterIpConnection(ip);
    served := true;
  }

  // ---- many socket tasks at once ----

  /** What a socket task has done so far. */
  datatype Phase =
    | Fresh                  // upgraded, nothing taken
    | Loaded(seen: nat)      // read ws_total in the CAS loop
    | Reserved               // CAS succeeded
    | GiveBack               // IP cap hit, ws_total still to be returned
    | IpHeld                 // IP slot taken
    | UserHeld               // user slot taken
    | Numbered(id: nat)      // connection id drawn
    | Live(id: nat)          // listed in the registry
    | Unlisted               // registry.unregister done
    | UserReleased           // user slot returned, or refused
    | IpReleased             // IP slot returned, ws_total still to be returned
    | Closed

  datatype Socket = Socket(user: UserId, ip: Ip, family: Option<string>, phase: Phase)

  datatype Shared = Shared(wsTotal: nat, ips: map<Ip, nat>, users: map<UserId, nat>,
                           registry: map<UserId, seq<Connection>>, nextId: nat)

  datatype State = State(shared: Shared, sockets: seq<Socket>)

  /** `Advance` runs one atomic action of task t; leaving `Live` is the end of the select loop or
      the failed cipher set-up, which tear down in the same order. */
  datatype Event =
    | Open(user: UserId, ip: Ip, family: Option<string>)
    | Advance(t: nat, spurious: bool)
    | RevokeFamily(user: UserId, fam: string)
    | RevokeUser(user: UserId)

  const Initial: State := State(Shared(0, map[], map[], map[], 1), [])

  function Step(s: State, e: Event): Option<State>
  {
    match e
    case Open(user, ip, family) => Some(s.(sockets := s.sockets + [Socket(user, ip, family, Fresh)]))
    case RevokeFamily(user, fam) =>
      Some(s.(shared := s.shared.(registry := DisconnectFamilyFrom(s.shared.registry, user, fam))))
    case RevokeUser(user) => Some(s.(shared := s.shared.(registry := s.shared.registry - {user})))
    case Advance(t, spurious) =>
      if t >= |s.sockets| || s.sockets[t].phase.Closed? then None
      else
        var (shared, phase) := Action(s.shared, s.sockets[t], spurious);
        Some(State(shared, s.sockets[t := s.sockets[t].(phase := phase)]))
  }

  /** The next atomic action of `handle_socket`. */
  function Action(c: Shared, k: Socket, spurious: bool): (Shared, Phase)
  {
    match k.phase
    case Fresh => (c, if c.wsTotal >= MAX_GLOBAL_WS_CONNECTIONS then Closed else Loaded(c.wsTotal))
    case Loaded(seen) =>
      if c.wsTotal == seen && !spurious then (c.(wsTotal := seen + 1), Reserved) else (c, Fresh)
    case Reserved =>
      if Get(c.ips, k.ip) >= MAX_CONNECTIONS_PER_IP then (c, GiveBack) else (c.(ips := Inc(c.ips, k.ip)), IpHeld)
    case GiveBack => (c.(wsTotal := FetchSub(c.wsTotal)), Closed)
    case IpHeld =>
      if Get(c.users, k.user) >= MAX_CONNECTIONS_PER_USER then (c, UserReleased)
      else (c.(users := Inc(c.users, k.user)), UserHeld)
    case UserHeld => (c.(nextId := c.nextId + 1), Numbered(c.nextId))
    case Numbered(id) => (c.(registry := Registered(c.registry, k.user, Connection(id, k.family))), Live(id))
    case Live(id) => (c.(registry := Unregistered(c.registry, k.user, id)), Unlisted)
    case Unlisted => (c.(users := Dec(c.users, k.user)), UserReleased)
    case UserReleased => (c.(ips := Dec(c.ips, k.ip)), if k.ip in c.ips then IpReleased else Closed)
    case IpReleased => (c.(wsTotal := FetchSub(c.wsTotal)), Closed)
    case Closed => (c, Closed)
  }

  // ---- who holds what ----

  predicate HasUser(p: Phase) { p.UserHeld? || p.Numbered? || p.Live? || p.Unlisted? }
  predicate HasIp(p: Phase) { p.IpHeld? || p.UserReleased? || HasUser(p) }
  /** Counted in ws_total while the IP map does not count it: the register and unregister windows. */
  predicate InWindow(p: Phase) { p.Reserved? || p.GiveBack? || p.IpReleased? }

  function Windows(): Socket -> bool { (k: Socket) => InWindow(k.phase) }
  function IpHolders(ip: Ip): Socket -> bool { (k: Socket) => HasIp(k.phase) && k.ip == ip }
  function UserHolders(user: UserId): Socket -> bool { (k: Socket) => HasUser(k.phase) && k.user == user }

  /** Every number the runtime keeps is the number of tasks entitled to it. */
  ghost predicate Accounted(s: State)
  {
    && TotalAccounted(s)
    && (forall ip :: IpAccounted(s, ip))
    && (forall user :: UserAccounted(s, user))
    && (forall t :: 0 <= t < |s.sockets| && s.sockets[t].phase.Loaded? ==>
          s.sockets[t].phase.seen < MAX_GLOBAL_WS_CONNECTIONS)
  }

  ghost predicate TotalAccounted(s: State)
  {
    s.shared.wsTotal == Sum(s.shared.ips) + Count(s.sockets, Windows()) <= MAX_GLOBAL_WS_CONNECTIONS
  }

  ghost predicate IpAccounted(s: State, ip: Ip)
  {
    && Get(s.shared.ips, ip) == Count(s.sockets, IpHolders(ip)) <= MAX_CONNECTIONS_PER_IP
    && (ip in s.shared.ips ==> s.shared.ips[ip] > 0)
  }

  ghost predicate UserAccounted(s: State, user: UserId)
  {
    && Get(s.shared.users, user) == Count(s.sockets, UserHolders(user)) <= MAX_CONNECTIONS_PER_USER
    && (user in s.shared.users ==> s.shared.users[user] > 0)
  }

  /** A task that holds a slot is counted, so the counter it will decrement is not zero. */
  lemma HolderIsCounted(s: State, t: nat)
    requires t < |s.sockets|
    ensures IpAccounted(s, s.sockets[t].ip) && HasIp(s.sockets[t].phase) ==> s.sockets[t].ip in s.shared.ips
    ensures UserAccounted(s, s.sockets[t].user) && HasUser(s.sockets[t].phase) ==> s.sockets[t].user in s.shared.users
    ensures TotalAccounted(s) && InWindow(s.sockets[t].phase) ==> s.shared.wsTotal > 0
  {
    CountPositive(s.sockets, IpHolders(s.sockets[t].ip));
    CountPositive(s.sockets, UserHolders(s.sockets[t].user));
    CountPositive(s.sockets, Windows());
  }

  /** One action moves the IP map exactly when the task takes or returns its IP slot. */
  lemma ActionOnIps(c: Shared, k: Socket, spurious: bool)
    requires !k.phase.Closed? && (HasIp(k.phase) ==> k.ip in c.ips && c.ips[k.ip] > 0)
    ensures var (c', p) := Action(c, k, spurious);
            && (HasIp(p) == HasIp(k.phase) ==> c'.ips == c.ips)
            && (HasIp(p) && !HasIp(k.phase) ==> c'.ips == Inc(c.ips, k.ip) && Get(c.ips, k.ip) < MAX_CONNECTIONS_PER_IP)
            && (!HasIp(p) && HasIp(k.phase) ==> c'.ips == Dec(c.ips, k.ip) && p.IpReleased?)
  {
  }

  lemma ActionOnUsers(c: Shared, k: Socket, spurious: bool)
    requires !k.phase.Closed?
    ensures var (c', p) := Action(c, k, spurious);
            && (HasUser(p) == HasUser(k.phase) ==> c'.users == c.users)
            && (HasUser(p) && !HasUser(k.phase) ==>
                  c'.users == Inc(c.users, k.user) && Get(c.users, k.user) < MAX_CONNECTIONS_PER_USER)
            && (!HasUser(p) && HasUser(k.phase) ==> c'.users == Dec(c.users, k.user))
  {
  }

  /** ws_total follows the holders and the windows together. */
  lemma ActionOnTotal(c: Shared, k: Socket, spurious: bool)
    requires !k.phase.Closed? && (HasIp(k.phase) ==> k.ip in c.ips) && (InWindow(k.phase) ==> c.wsTotal > 0)
    requires k.phase.Loaded? ==> k.phase.seen < MAX_GLOBAL_WS_CONNECTIONS
    ensures var (c', p) := Action(c, k, spurious);
            && c'.wsTotal + Bit(HasIp(k.phase)) + Bit(InWindow(k.phase)) == c.wsTotal + Bit(HasIp(p)) + Bit(InWindow(p))
            && (c'.wsTotal > c.wsTotal ==> c'.wsTotal <= MAX_GLOBAL_WS_CONNECTIONS)
            && (p.Loaded? ==> p.seen < MAX_GLOBAL_WS_CONNECTIONS)
  {
  }

  lemma AdvanceKeepsIp(s: State, t: nat, spurious: bool, ip: Ip)
    requires Step(s, Advance(t, spurious)).Some? && IpAccounted(s, s.sockets[t].ip) && IpAccounted(s, ip)
    ensures IpAccounted(Step(s, Advance(t, spurious)).value, ip)
  {
    HolderIsCounted(s, t);
    ActionOnIps(s.shared, s.sockets[t], spurious);
    var (_, p) := Action(s.shared, s.sockets[t], spurious);
    CountUpdate(s.sockets, t, s.sockets[t].(phase := p), IpHolders(ip));
  }

  lemma AdvanceKeepsUser(s: State, t: nat, spurious: bool, user: UserId)
    requires Step(s, Advance(t, spurious)).Some? && UserAccounted(s, s.sockets[t].user) && UserAccounted(s, user)
    ensures UserAccounted(Step(s, Advance(t, spurious)).value, user)
  {
    HolderIsCounted(s, t);
    ActionOnUsers(s.shared, s.sockets[t], spurious);
    var (_, p) := Action(s.shared, s.sockets[t], spurious);
    CountUpdate(s.sockets, t, s.sockets[t].(phase := p), UserHolders(user));
  }

  lemma AdvanceKeepsTotal(s: State, t: nat, spurious: bool)
    requires Step(s, Advance(t, spurious)).Some? && Accounted(s)
    ensures TotalAccounted(Step(s, Advance(t, spurious)).value)
  {
    var k := s.sockets[t];
    assert IpAccounted(s, k.ip);
    HolderIsCounted(s, t);
    ActionOnIps(s.shared, k, spurious);
    ActionOnTotal(s.shared, k, spurious);
    var (_, p) := Action(s.shared, k, spurious);
    CountUpdate(s.sockets, t, k.(phase := p), Windows());
    SumInc(s.shared.ips, k.ip);
    if HasIp(k.phase) { SumDec(s.shared.ips, k.ip); }
  }

  lemma StepKeepsIp(s: State, e: Event, ip: Ip)
    requires (forall i :: IpAccounted(s, i)) && Step(s, e).Some?
    ensures IpAccounted(Step(s, e).value, ip)
  {
    assert IpAccounted(s, ip);
    match e
    case Open(u, i, f) => CountAppend(s.sockets, Socket(u, i, f, Fresh), IpHolders(ip));
    case Advance(t, spurious) =>
      assert IpAccounted(s, s.sockets[t].ip);
      AdvanceKeepsIp(s, t, spurious, ip);
    case _ =>
  }

  lemma StepKeepsUser(s: State, e: Event, user: UserId)
    requires (forall u :: UserAccounted(s, u)) && Step(s, e).Some?
    ensures UserAccounted(Step(s, e).value, user)
  {
    assert UserAccounted(s, user);
    match e
    case Open(u, i, f) => CountAppend(s.sockets, Socket(u, i, f, Fresh), UserHolders(user));
    case Advance(t, spurious) =>
      assert UserAccounted(s, s.sockets[t].user);
      AdvanceKeepsUser(s, t, spurious, user);
    case _ =>
  }

  lemma StepKeepsTotal(s: State, e: Event)
    requires Accounted(s) && Step(s, e).Some?
    ensures TotalAccounted(Step(s, e).value)
  {
    match e
    case Open(u, i, f) => CountAppend(s.sockets, Socket(u, i, f, Fresh), Windows());
    case Advance(t, spurious) => AdvanceKeepsTotal(s, t, spurious);
    case _ =>
  }

  lemma StepKeepsLoads(s: State, e: Event, t: nat)
    requires Accounted(s) && Step(s, e).Some? && t < |Step(s, e).value.sockets|
    requires Step(s, e).value.sockets[t].phase.Loaded?
    ensures Step(s, e).value.sockets[t].phase.seen < MAX_GLOBAL_WS_CONNECTIONS
  {
  }

  lemma StepKeepsAccounts(s: State, e: Event)
    requires Accounted(s) && Step(s, e).Some?
    ensures Accounted(Step(s, e).value)
  {
    var s' := Step(s, e).value;
    forall ip ensures IpAccounted(s', ip) { StepKeepsIp(s, e, ip); }
    forall user ensures UserAccounted(s', user) { StepKeepsUser(s, e, user); }
    StepKeepsTotal(s, e);
    forall t | 0 <= t < |s'.sockets| && s'.sockets[t].phase.Loaded?
      ensures s'.sockets[t].phase.seen < MAX_GLOBAL_WS_CONNECTIONS
    {
      StepKeepsLoads(s, e, t);
    }
  }

  // ---- the registry lists live tasks only ----

  predicate HasId(p: Phase) { p.Numbered? || p.Live? }

  ghost predicate IsLive(sockets: seq<Socket>, user: UserId, c: Connection)
  {
    exists t :: 0 <= t < |sockets| && sockets[t].user == user && sockets[t].phase == Live(c.id) &&
      sockets[t].family == c.family
  }

  /** Ids are never shared, and every registry entry is the listing of one live task of that user. */
  ghost predicate ListsLiveTasks(s: State)
  {
    IdsFresh(s) && forall user :: user in s.shared.registry ==> EntriesLive(s, user)
  }

  ghost predicate IdsFresh(s: State)
  {
    && (forall t, u :: 0 <= t < u < |s.sockets| && HasId(s.sockets[t].phase) && HasId(s.sockets[u].phase) ==>
          s.sockets[t].phase.id != s.sockets[u].phase.id)
    && (forall t :: 0 <= t < |s.sockets| && HasId(s.sockets[t].phase) ==> s.sockets[t].phase.id < s.shared.nextId)
  }

  ghost predicate EntriesLive(s: State, user: UserId)
    requires user in s.shared.registry
  {
    var conns := s.shared.registry[user];
    conns != [] && DistinctIds(conns) && forall c :: c in conns ==> IsLive(s.sockets, user, c)
  }

  lemma OthersStayLive(s: State, t: nat, p: Phase, user: UserId, c: Connection)
    requires t < |s.sockets| && IsLive(s.sockets, user, c)
    requires s.sockets[t].user == user && s.sockets[t].phase == Live(c.id) ==> p == Live(c.id)
    ensures IsLive(s.sockets[t := s.sockets[t].(phase := p)], user, c)
  {
    var u :| 0 <= u < |s.sockets| && s.sockets[u].user == user && s.sockets[u].phase == Live(c.id) &&
      s.sockets[u].family == c.family;
    assert s.sockets[t := s.sockets[t].(phase := p)][u].family == c.family;
  }

  /** The registry changes only by listing or unlisting the task that moves, under its own id. */
  lemma ActionOnRegistry(c: Shared, k: Socket, spurious: bool)
    ensures var (c', p) := Action(c, k, spurious);
            && (k.phase.Numbered? ==> p == Live(k.phase.id))
            && (k.phase.Numbered? ==>
                  c'.registry == Registered(c.registry, k.user, Connection(k.phase.id, k.family)))
            && (k.phase.Live? ==> !HasId(p) && c'.registry == Unregistered(c.registry, k.user, k.phase.id))
            && (!HasId(k.phase) ==> c'.registry == c.registry && !p.Live?)
            && (HasId(p) && !HasId(k.phase) ==> p.id == c.nextId && c'.nextId == c.nextId + 1)
            && c'.nextId >= c.nextId
  {
  }

  lemma AdvanceKeepsEntries(s: State, t: nat, spurious: bool, user: UserId)
    requires IdsFresh(s) && Step(s, Advance(t, spurious)).Some?
    requires user in s.shared.registry ==> EntriesLive(s, user)
    requires user in Step(s, Advance(t, spurious)).value.shared.registry
    ensures EntriesLive(Step(s, Advance(t, spurious)).value, user)
  {
    var s' := Step(s, Advance(t, spurious)).value;
    var k := s.sockets[t];
    var p := s'.sockets[t].phase;
    ActionOnRegistry(s.shared, k, spurious);
    forall c | c in s'.shared.registry[user] ensures IsLive(s'.sockets, user, c) {
      if user in s.shared.registry && c in s.shared.registry[user] {
        OthersStayLive(s, t, p, user, c);
      } else {
        assert s'.sockets[t].phase == Live(c.id) && s'.sockets[t].family == c.family;
      }
    }
    if k.phase.Numbered? && user == k.user && user in s.shared.registry {
      NewIdIsNew(s, t);
    }
  }

  lemma NewIdIsNew(s: State, t: nat)
    requires IdsFresh(s) && t < |s.sockets| && s.sockets[t].phase.Numbered?
    requires s.sockets[t].user in s.shared.registry && EntriesLive(s, s.sockets[t].user)
    ensures forall c :: c in s.shared.registry[s.sockets[t].user] ==> c.id != s.sockets[t].phase.id
  {
    forall c | c in s.shared.registry[s.sockets[t].user] ensures c.id != s.sockets[t].phase.id {
      assert IsLive(s.sockets, s.sockets[t].user, c);
      var u :| 0 <= u < |s.sockets| && s.sockets[u].phase == Live(c.id);
    }
  }

  lemma StepKeepsIds(s: State, e: Event)
    requires IdsFresh(s) && Step(s, e).Some?
    ensures IdsFresh(Step(s, e).value)
  {
    if e.Advance? { ActionOnRegistry(s.shared, s.sockets[e.t], e.spurious); }
  }

  lemma OtherStepsKeepEntries(s: State, e: Event, user: UserId)
    requires !e.Advance? && user in s.shared.registry && EntriesLive(s, user)
    requires user in Step(s, e).value.shared.registry
    ensures EntriesLive(Step(s, e).value, user)
  {
    var s' := Step(s, e).value;
    forall c | c in s'.shared.registry[user] ensures IsLive(s'.sockets, user, c) {
      var u :| 0 <= u < |s.sockets| && s.sockets[u].user == user && s.sockets[u].phase == Live(c.id) &&
        s.sockets[u].family == c.family;
      assert s'.sockets[u] == s.sockets[u];
    }
  }

  lemma StepKeepsListing(s: State, e: Event)
    requires ListsLiveTasks(s) && Step(s, e).Some?
    ensures ListsLiveTasks(Step(s, e).value)
  {
    var s' := Step(s, e).value;
    StepKeepsIds(s, e);
    forall user | user in s'.shared.registry ensures EntriesLive(s', user) {
      if e.Advance? {
        AdvanceKeepsEntries(s, e.t, e.spurious, user);
      } else {
        assert EntriesLive(s, user);
        OtherStepsKeepEntries(s, e, user);
      }
    }
  }

  lemma ListedUserHasSocket(s: State, user: UserId)
    requires ListsLiveTasks(s) && user in s.shared.registry
    ensures exists k :: k in s.sockets && k.phase.Live?
  {
    assert EntriesLive(s, user);
    var c := s.shared.registry[user][0];
    assert IsLive(s.sockets, user, c);
    var t :| 0 <= t < |s.sockets| && s.sockets[t].phase == Live(c.id);
    assert s.sockets[t] in s.sockets;
  }

  // ---- the theorems ----

  ghost predicate Inv(s: State) { Accounted(s) && ListsLiveTasks(s) }

  lemma EveryRunKeepsInv(es: seq<Event>)
    requires Run(Step, Initial, es).Some?
    ensures Inv(Run(Step, Initial, es).value)
  {
    forall s, e | Inv(s) && Step(s, e).Some? ensures Inv(Step(s, e).value) {
      StepKeepsAccounts(s, e);
      StepKeepsListing(s, e);
    }
    RunKeeps(Step, Inv, Initial, es);
  }

  lemma {:induction false} EntriesAreHolders(sockets: seq<Socket>, user: UserId, ids: set<nat>)
    requires forall id :: id in ids ==>
             exists t :: 0 <= t < |sockets| && sockets[t].user == user && sockets[t].phase == Live(id)
    ensures |ids| <= Count(sockets, UserHolders(user))
  {
    if sockets == [] {
      assert ids == {};
    } else {
      var k := sockets[0];
      var rest := if k.phase.Live? && k.user == user then ids - {k.phase.id} else ids;
      forall id | id in rest
        ensures exists t :: 0 <= t < |sockets[1..]| && sockets[1..][t].user == user && sockets[1..][t].phase == Live(id)
      {
        var t :| 0 <= t < |sockets| && sockets[t].user == user && sockets[t].phase == Live(id);
        assert sockets[1..][t - 1] == sockets[t];
      }
      EntriesAreHolders(sockets[1..], user, rest);
      assert k.phase.Live? && k.user == user ==> ids <= rest + {k.phase.id};
      if k.phase.Live? && k.user == user && k.phase.id in ids { assert ids == rest + {k.phase.id}; }
    }
  }

  ghost function Ids(conns: seq<Connection>): set<nat> { set c | c in conns :: c.id }

  lemma {:induction false} DistinctIdsCount(conns: seq<Connection>)
    requires DistinctIds(conns)
    ensures |Ids(conns)| == |conns|
  {
    if conns == [] {
      assert Ids(conns) == {};
    } else {
      DistinctIdsCount(conns[1..]);
      assert conns == [conns[0]] + conns[1..];
      assert Ids(conns) == {conns[0].id} + Ids(conns[1..]);
      assert forall c :: c in conns[1..] ==> c.id != conns[0].id;
    }
  }

  /** Caps and conservation, in every interleaving of any number of socket tasks. */
  lemma SocketsAreAccounted(es: seq<Event>, ip: Ip, user: UserId)
    requires Run(Step, Initial, es).Some?
    ensures var s := Run(Step, Initial, es).value;
            && s.shared.wsTotal == Sum(s.shared.ips) + Count(s.sockets, Windows())
            && s.shared.wsTotal <= MAX_GLOBAL_WS_CONNECTIONS
            && Get(s.shared.ips, ip) == Count(s.sockets, IpHolders(ip)) <= MAX_CONNECTIONS_PER_IP
            && Get(s.shared.users, user) == Count(s.sockets, UserHolders(user)) <= MAX_CONNECTIONS_PER_USER
            && (ip in s.shared.ips ==> s.shared.ips[ip] > 0)
            && (user in s.shared.users ==> s.shared.users[user] > 0)
            && |Listed(s.shared.registry, user)| <= Get(s.shared.users, user)
  {
    EveryRunKeepsInv(es);
    var s := Run(Step, Initial, es).value;
    assert IpAccounted(s, ip) && UserAccounted(s, user);
    if user in s.shared.registry {
      assert EntriesLive(s, user);
      var conns := s.shared.registry[user];
      DistinctIdsCount(conns);
      forall id | id in Ids(conns)
        ensures exists t :: 0 <= t < |s.sockets| && s.sockets[t].user == user && s.sockets[t].phase == Live(id)
      {
        var c :| c in conns && c.id == id;
        assert IsLive(s.sockets, user, c);
      }
      EntriesAreHolders(s.sockets, user, Ids(conns));
    }
  }

  /** No release ever misses: the entry a task gives back is there, and ws_total never wraps. */
  lemma ReleasesAlwaysLand(es: seq<Event>, t: nat)
    requires Run(Step, Initial, es).Some? && t < |Run(Step, Initial, es).value.sockets|
    ensures var s := Run(Step, Initial, es).value; var k := s.sockets[t];
            && (HasIp(k.phase) ==> k.ip in s.shared.ips)
            && (HasUser(k.phase) ==> k.user in s.shared.users)
            && (InWindow(k.phase) ==> s.shared.wsTotal > 0)
  {
    EveryRunKeepsInv(es);
    var s := Run(Step, Initial, es).value;
    assert IpAccounted(s, s.sockets[t].ip) && UserAccounted(s, s.sockets[t].user);
    HolderIsCounted(s, t);
  }

  /** When every socket task has ended, nothing is held: no exit leaks and none releases twice. */
  lemma AllClosedReleasesEverything(es: seq<Event>)
    requires Run(Step, Initial, es).Some?
    requires forall k :: k in Run(Step, Initial, es).value.sockets ==> k.phase.Closed?
    ensures Run(Step, Initial, es).value.shared.wsTotal == 0
    ensures Run(Step, Initial, es).value.shared.ips == map[]
    ensures Run(Step, Initial, es).value.shared.users == map[]
    ensures Run(Step, Initial, es).value.shared.registry == map[]
  {
    EveryRunKeepsInv(es);
    var s := Run(Step, Initial, es).value;
    CountPositive(s.sockets, Windows());
    forall ip ensures ip !in s.shared.ips {
      assert IpAccounted(s, ip);
      CountPositive(s.sockets, IpHolders(ip));
    }
    forall user ensures user !in s.shared.users && user !in s.shared.registry {
      assert UserAccounted(s, user);
      CountPositive(s.sockets, UserHolders(user));
      if user in s.shared.registry { ListedUserHasSocket(s, user); }
    }
  }

  // ---- revocation ----

  /** Revoking a user or a session family takes exactly those entries out of the registry and touches no
      counter and no task; the tasks then leave by themselves. */
  lemma RevocationIsExact(s: State, user: UserId, fam: string)
    ensures var all := Step(s, RevokeUser(user)).value;
            && user !in all.shared.registry && OnlyUser(s.shared.registry, all.shared.registry, user)
            && all == s.(shared := s.shared.(registry := all.shared.registry))
    ensures var some := Step(s, RevokeFamily(user, fam)).value;
            && OnlyUser(s.shared.registry, some.shared.registry, user)
            && some == s.(shared := s.shared.(registry := some.shared.registry))
            && forall c :: c in Listed(some.shared.registry, user) <==>
                 c in Listed(s.shared.registry, user) && c.family != Some(fam)
  {
  }

  // ---- one socket task, alone ----

  /** k counts one more, and nothing else differs. */
  ghost predicate OneMore<K(!new)>(less: map<K, nat>, more: map<K, nat>, k: K)
  {
    && k in more && more[k] == (if k in less then less[k] else 0) + 1
    && forall j :: j != k ==> (j in more <==> j in less) && (j in less ==> more[j] == less[j])
  }

  /** Only task t acts. */
  ghost predicate Alone(s: State, t: nat, es: seq<Event>, end: State)
  {
    (forall i :: 0 <= i < |es| ==> es[i] == Advance(t, false)) && Run(Step, s, es) == Some(end)
  }

  lemma OneAction(s: State, t: nat) returns (end: State)
    requires t < |s.sockets| && !s.sockets[t].phase.Closed?
    ensures var (c, p) := Action(s.shared, s.sockets[t], false);
            end == State(c, s.sockets[t := s.sockets[t].(phase := p)])
    ensures Alone(s, t, [Advance(t, false)], end)
  {
    end := Step(s, Advance(t, false)).value;
    RunOfOne(Step, s, Advance(t, false), end);
  }

  lemma AloneJoin(a: State, t: nat, es: seq<Event>, b: State, fs: seq<Event>, c: State)
    requires Alone(a, t, es, b) && Alone(b, t, fs, c)
    ensures Alone(a, t, es + fs, c)
  {
    RunsJoin(Step, a, es, b, fs, c);
  }

  lemma TwoActions(s: State, t: nat) returns (es: seq<Event>, mid: State, end: State)
    requires t < |s.sockets| && !s.sockets[t].phase.Closed? && !Action(s.shared, s.sockets[t], false).1.Closed?
    ensures var (c, p) := Action(s.shared, s.sockets[t], false);
            && mid == State(c, s.sockets[t := s.sockets[t].(phase := p)])
            && (var (c', p') := Action(c, s.sockets[t].(phase := p), false);
                end == State(c', s.sockets[t := s.sockets[t].(phase := p')]))
    ensures Alone(s, t, es, end)
  {
    mid := OneAction(s, t);
    end := OneAction(mid, t);
    AloneJoin(s, t, [Advance(t, false)], mid, [Advance(t, false)], end);
    es := [Advance(t, false)] + [Advance(t, false)];
  }

  /** What the counters say about a new socket. */
  predicate Welcome(c: Shared, k: Socket)
  {
    && c.wsTotal < 2048 && (if k.ip in c.ips then c.ips[k.ip] else 0) < 24
    && (if k.user in c.users then c.users[k.user] else 0) < 6
  }

  lemma Closes(s: State, t: nat) returns (es: seq<Event>, end: State)
    requires t < |s.sockets| && s.sockets[t].phase.UserReleased? && s.sockets[t].ip in s.shared.ips
    ensures Alone(s, t, es, end) && end.sockets == s.sockets[t := s.sockets[t].(phase := Closed)]
    ensures end.shared == s.shared.(wsTotal := FetchSub(s.shared.wsTotal), ips := Dec(s.shared.ips, s.sockets[t].ip))
  {
    var mid;
    es, mid, end := TwoActions(s, t);
  }

  /** From the first look at the total to the IP slot, or to the refusal. */
  lemma TakesIp(s: State, t: nat) returns (es: seq<Event>, end: State)
    requires t < |s.sockets| && s.sockets[t].phase.Fresh? && NoZeros(s.shared.ips)
    ensures Alone(s, t, es, end)
    ensures var k := s.sockets[t];
            if s.shared.wsTotal < 2048 && Get(s.shared.ips, k.ip) < 24 then
              end == State(s.shared.(wsTotal := s.shared.wsTotal + 1, ips := Inc(s.shared.ips, k.ip)),
                           s.sockets[t := k.(phase := IpHeld)])
            else end == s.(sockets := s.sockets[t := k.(phase := Closed)])
  {
    if s.shared.wsTotal >= 2048 {
      end := OneAction(s, t);
      es := [Advance(t, false)];
    } else {
      var first, m1, s1 := TwoActions(s, t);
      es, end := first, s1;
      if Get(s.shared.ips, s.sockets[t].ip) < 24 {
        end := OneAction(s1, t);
        AloneJoin(s, t, first, s1, [Advance(t, false)], end);
        es := first + [Advance(t, false)];
      } else {
        var second, m2;
        second, m2, end := TwoActions(s1, t);
        AloneJoin(s, t, first, s1, second, end);
        es := first + second;
      }
    }
  }

  /** From the IP slot to the registry, or to the refusal. */
  lemma TakesUser(s: State, t: nat) returns (es: seq<Event>, end: State)
    requires t < |s.sockets| && s.sockets[t].phase.IpHeld? && s.sockets[t].ip in s.shared.ips
    ensures Alone(s, t, es, end)
    ensures var k := s.sockets[t]; var id := s.shared.nextId;
            if Get(s.shared.users, k.user) < 6 then
              end == State(s.shared.(users := Inc(s.shared.users, k.user), nextId := id + 1,
                                     registry := Registered(s.shared.registry, k.user, Connection(id, k.family))),
                           s.sockets[t := k.(phase := Live(id))])
            else
              end == State(s.shared.(wsTotal := FetchSub(s.shared.wsTotal), ips := Dec(s.shared.ips, k.ip)),
                           s.sockets[t := k.(phase := Closed)])
  {
    var s1 := OneAction(s, t);
    var rest;
    if Get(s.shared.users, s.sockets[t].user) < 6 {
      var m;
      rest, m, end := TwoActions(s1, t);
    } else {
      rest, end := Closes(s1, t);
    }
    AloneJoin(s, t, [Advance(t, false)], s1, rest, end);
    es := [Advance(t, false)] + rest;
  }

  /** A socket task that nobody interferes with is served, under a fresh id and listed last for its user,
      if and only if the total, its IP and its user are below their caps; otherwise it closes and leaves
      every counter as it was. */
  lemma AloneItIsServedExactlyWhenWelcome(s: State, t: nat) returns (es: seq<Event>, end: State)
    requires Accounted(s) && t < |s.sockets| && s.sockets[t].phase.Fresh?
    ensures Alone(s, t, es, end) && |end.sockets| == |s.sockets|
    ensures var k, id := s.sockets[t], s.shared.nextId;
            if Welcome(s.shared, k) then
              && end.sockets[t].phase == Live(id) && end.shared.nextId == id + 1
              && end.shared.wsTotal == s.shared.wsTotal + 1
              && OneMore(s.shared.ips, end.shared.ips, k.ip) && OneMore(s.shared.users, end.shared.users, k.user)
              && OnlyUser(s.shared.registry, end.shared.registry, k.user) && k.user in end.shared.registry
              && end.shared.registry[k.user] == Listed(s.shared.registry, k.user) + [Connection(id, k.family)]
            else
              end.sockets[t].phase.Closed? && end.shared == s.shared
  {
    var k := s.sockets[t];
    forall ip | ip in s.shared.ips ensures s.shared.ips[ip] > 0 { assert IpAccounted(s, ip); }
    var first, s1 := TakesIp(s, t);
    es, end := first, s1;
    if !s1.sockets[t].phase.Closed? {
      var rest;
      rest, end := TakesUser(s1, t);
      AloneJoin(s, t, first, s1, rest, end);
      es := first + rest;
      DecUndoesInc(s.shared.ips, k.ip);
    }
  }

  /** A live task that nobody interferes with closes and gives back one of each counter and its own
      entry, and nothing else. */
  lemma AloneItLeavesNothing(s: State, t: nat, id: nat) returns (es: seq<Event>, end: State)
    requires Accounted(s) && t < |s.sockets| && s.sockets[t].phase == Live(id)
    ensures Alone(s, t, es, end) && |end.sockets| == |s.sockets| && end.sockets[t].phase.Closed?
    ensures var k := s.sockets[t];
            && end.shared.wsTotal == s.shared.wsTotal - 1
            && Get(end.shared.ips, k.ip) == Get(s.shared.ips, k.ip) - 1
            && Get(end.shared.users, k.user) == Get(s.shared.users, k.user) - 1
            && OnlyUser(s.shared.registry, end.shared.registry, k.user)
            && (forall c :: c in Listed(end.shared.registry, k.user) <==>
                 c in Listed(s.shared.registry, k.user) && c.id != id)
  {
    var k := s.sockets[t];
    assert IpAccounted(s, k.ip) && UserAccounted(s, k.user);
    HolderIsCounted(s, t);
    TotalCoversHolders(s, t);
    var first, m, s1 := TwoActions(s, t);
    var rest;
    rest, end := Closes(s1, t);
    AloneJoin(s, t, first, s1, rest, end);
    es := first + rest;
  }

  lemma TotalCoversHolders(s: State, t: nat)
    requires TotalAccounted(s) && t < |s.sockets| && s.sockets[t].ip in s.shared.ips &&
             s.shared.ips[s.sockets[t].ip] > 0
    ensures s.shared.wsTotal > 0
  {
    SumTake(s.shared.ips, s.sockets[t].ip);
  }
}
