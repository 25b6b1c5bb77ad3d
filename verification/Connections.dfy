/**
 Agent connections and their diagnostic requests: panel/internal/agentcontrol/connection.go and
 diagnostics.go. Every method is one critical section of the source; sends on response channels,
 which happen outside diagnosticsMu, are steps of their own.
 */
module Connections {
  import opened Wrappers

  type Server = int
  type Conn = int
  type Request = int
  type Channel = int

  datatype Refusal = AgentOffline | DiagnosticsUnsupported | DiagnosticsInProgress

  predicate Current(connections: map<Server, Conn>, c: Conn) {
    exists s :: s in connections && connections[s] == c
  }

  function Channels(m: map<Request, Channel>): (xs: set<Channel>) {
    set q | q in m :: m[q]
  }

  type Pending = map<Conn, map<Request, Channel>>

  /** A channel is in one place only: waiting, taken for its send, or sent to once. */
  ghost predicate Distinct(pending: Pending, taken: set<Channel>, sends: map<Channel, nat>, nextID: int) {
    && (forall c, d, q, r :: c in pending && d in pending && q in pending[c] && r in pending[d] && pending[c][q] == pending[d][r] ==>
          c == d && q == r)
    && (forall c, q :: c in pending && q in pending[c] ==> pending[c][q] !in taken && pending[c][q] !in sends && pending[c][q] < nextID)
    && (forall x :: x in taken ==> x !in sends && x < nextID)
    && (forall x :: x in sends ==> sends[x] <= 1 && x < nextID)
  }

  /** A connection serves one server, has at most one request, and has one only while it is current or
      being closed. */
  ghost predicate Placed(connections: map<Server, Conn>, pending: Pending, closing: set<Conn>) {
    && (forall s :: s in connections ==> connections[s] in pending && connections[s] !in closing)
    && (forall s, t :: s in connections && t in connections && connections[s] == connections[t] ==> s == t)
    && closing <= pending.Keys
    && (forall c :: c in pending ==> |pending[c]| <= 1)
    && (forall c :: c in pending && pending[c] != map[] ==> c in closing || Current(connections, c))
  }

  lemma TakeAllKeeps(pending: Pending, taken: set<Channel>, sends: map<Channel, nat>, nextID: int, c: Conn)
    requires Distinct(pending, taken, sends, nextID) && c in pending
    ensures Distinct(pending[c := map[]], taken + Channels(pending[c]), sends, nextID)
  {
  }

  lemma NewConnKeeps(pending: Pending, taken: set<Channel>, sends: map<Channel, nat>, nextID: int, c: Conn)
    requires Distinct(pending, taken, sends, nextID) && c !in pending
    ensures Distinct(pending[c := map[]], taken, sends, nextID)
  {
  }

  lemma NewRequestKeeps(pending: Pending, taken: set<Channel>, sends: map<Channel, nat>, nextID: int, c: Conn)
    requires Distinct(pending, taken, sends, nextID) && c in pending && pending[c] == map[]
    ensures Distinct(pending[c := map[nextID := nextID]], taken, sends, nextID + 1)
    ensures nextID !in taken && nextID !in sends
  {
  }

  lemma RemoveOneKeeps(pending: Pending, taken: set<Channel>, sends: map<Channel, nat>, nextID: int, c: Conn, q: Request)
    requires Distinct(pending, taken, sends, nextID) && c in pending
    ensures Distinct(pending[c := pending[c] - {q}], taken, sends, nextID)
    ensures q in pending[c] ==> Distinct(pending[c := pending[c] - {q}], taken + {pending[c][q]}, sends, nextID)
  {
  }

  /** A request may always go away. */
  lemma FewerPlaced(connections: map<Server, Conn>, pending: Pending, closing: set<Conn>, c: Conn, fewer: map<Request, Channel>)
    requires Placed(connections, pending, closing) && c in pending && fewer.Keys <= pending[c].Keys
    ensures Placed(connections, pending[c := fewer], closing)
  {
    assert |fewer.Keys| <= |pending[c].Keys| by {
      assert pending[c].Keys == fewer.Keys + (pending[c].Keys - fewer.Keys);
    }
    assert |fewer| == |fewer.Keys| && |pending[c]| == |pending[c].Keys|;
    assert pending[c] == map[] ==> fewer == map[];
  }

  /** A new connection takes a server over once the previous one's requests are gone. */
  lemma ReplacePlaced(connections: map<Server, Conn>, pending: Pending, closing: set<Conn>, server: Server, c: Conn)
    requires Placed(connections, pending, closing) && c !in pending
    ensures var cleared := pending[c := map[]];
            Placed(connections[server := c], if server in connections then cleared[connections[server] := map[]] else cleared, closing)
  {
    var after := connections[server := c];
    forall d | d in pending && pending[d] != map[] && (server in connections ==> d != connections[server])
      ensures d in closing || Current(after, d)
    {
      if Current(connections, d) {
        var s :| s in connections && connections[s] == d;
        assert after[s] == d;
      }
    }
  }

  /** Once its requests are gone, or when it is being closed, a connection may leave its server. */
  lemma LeavePlaced(connections: map<Server, Conn>, pending: Pending, closing: set<Conn>, server: Server)
    requires Placed(connections, pending, closing)
    ensures server in connections ==> Placed(connections - {server}, pending[connections[server] := map[]], closing)
    ensures server in connections ==> Placed(connections - {server}, pending, closing + {connections[server]})
    ensures server !in connections ==> connections - {server} == connections
  {
    var after := connections - {server};
    forall d | d in pending && pending[d] != map[] && (server in connections ==> d != connections[server])
      ensures d in closing || Current(after, d)
    {
      if Current(connections, d) {
        var s :| s in connections && connections[s] == d;
        assert s != server ==> after[s] == d;
      }
    }
  }

  lemma OneRequestPlaced(connections: map<Server, Conn>, pending: Pending, closing: set<Conn>, server: Server, q: Request, x: Channel)
    requires Placed(connections, pending, closing) && server in connections
    ensures Placed(connections, pending[connections[server] := map[q := x]], closing)
  {
  }

  lemma ClosedPlaced(connections: map<Server, Conn>, pending: Pending, closing: set<Conn>, c: Conn)
    requires Placed(connections, pending, closing) && c in pending && pending[c] == map[]
    ensures Placed(connections, pending, closing - {c})
  {
  }

  /** All there is at one moment; see the fields of `Service`. */
  datatype View = View(connections: map<Server, Conn>, pending: Pending, taken: set<Channel>, sends: map<Channel, nat>,
                       closing: set<Conn>, nextID: int)

  datatype Operation =
    | Tracks(server: Server, c: Conn)
    | Untracks(server: Server, c: Conn)
    | BeginsClose(server: Server)
    | EndsClose(c: Conn)
    | Registers(server: Server, capable: bool)
    | Removes(c: Conn, q: Request)
    | Resolves(c: Conn, q: Request)
    | Sends(x: Channel)

  /** A connection is tracked once, closed once it was removed for that, and a channel sent to once taken. */
  predicate Enabled(v: View, o: Operation) {
    match o
    case Tracks(_, c) => c !in v.pending
    case EndsClose(c) => c in v.closing && c in v.pending
    case Removes(c, _) => c in v.pending
    case Resolves(c, _) => c in v.pending
    case Sends(x) => x in v.taken
    case _ => true
  }

  /** All requests of a connection are taken for their sends. */
  function Failing(v: View, c: Conn): (w: View) {
    if c in v.pending then v.(pending := v.pending[c := map[]], taken := v.taken + Channels(v.pending[c])) else v
  }

  function SentTo(sends: map<Channel, nat>, x: Channel): (n: nat) {
    if x in sends then sends[x] else 0
  }

  function After(v: View, o: Operation): (w: View)
    requires Enabled(v, o)
  {
    match o
    case Tracks(server, c) =>
      var placed := v.(connections := v.connections[server := c], pending := v.pending[c := map[]]);
      if server in v.connections then Failing(placed, v.connections[server]) else placed
    case Untracks(server, c) =>
      if server in v.connections && v.connections[server] == c then Failing(v.(connections := v.connections - {server}), c) else v
    case BeginsClose(server) =>
      if server in v.connections
      then v.(connections := v.connections - {server}, closing := v.closing + {v.connections[server]}) else v
    case EndsClose(c) => Failing(v, c).(closing := v.closing - {c})
    case Registers(server, capable) =>
      if server in v.connections && capable && v.connections[server] in v.pending && v.pending[v.connections[server]] == map[]
      then v.(pending := v.pending[v.connections[server] := map[v.nextID := v.nextID]], nextID := v.nextID + 1) else v
    case Removes(c, q) => v.(pending := v.pending[c := v.pending[c] - {q}])
    case Resolves(c, q) =>
      if q in v.pending[c] then v.(taken := v.taken + {v.pending[c][q]}, pending := v.pending[c := v.pending[c] - {q}]) else v
    case Sends(x) => v.(taken := v.taken - {x}, sends := v.sends[x := if x in v.sends then v.sends[x] + 1 else 1])
  }

  class Service {
    var connections: map<Server, Conn>
    /** pendingDiagnostics of every connection ever tracked. */
    var pending: map<Conn, map<Request, Channel>>
    /** Channels taken out of a pending map whose send has not happened yet. */
    var taken: set<Channel>
    /** How often each channel has been sent to. */
    var sends: map<Channel, nat>
    /** Connections CloseConnections has removed but not failed yet. */
    var closing: set<Conn>
    /** The next unused request and channel. */
    var nextID: int

    ghost predicate Valid()
      reads this
    {
      Distinct(pending, taken, sends, nextID) && Placed(connections, pending, closing)
    }

    function Now(): (v: View)
      reads this
    {
      View(connections, pending, taken, sends, closing, nextID)
    }

    /** Neither current for any server nor being closed: its replacement, disconnect or close is over. */
    ghost predicate Gone(c: Conn)
      reads this
    {
      c in pending && c !in closing && !Current(connections, c)
    }

    constructor ()
      ensures Valid() && connections == map[]
    {
      connections, pending, taken, sends, closing, nextID := map[], map[], {}, map[], {}, 0;
    }

    /** `failPendingDiagnostics`: the whole map is taken in one step, the sends follow. */
    method FailPending(c: Conn)
      requires Distinct(pending, taken, sends, nextID) && c in pending
      modifies `pending, `taken
      ensures Distinct(pending, taken, sends, nextID)
      ensures pending == old(pending)[c := map[]] && taken == old(taken) + Channels(old(pending)[c])
    {
      TakeAllKeeps(pending, taken, sends, nextID, c);
      hide Distinct;
      taken := taken + Channels(pending[c]);
      pending := pending[c := map[]];
    }

    /** `TrackConnection` with a new connection. */
    method Track(server: Server, c: Conn) returns (previous: Option<Conn>)
      requires Valid() && c !in pending
      modifies this
      ensures Valid() && connections == old(connections)[server := c] && closing == old(closing)
      ensures previous == if server in old(connections) then Some(old(connections)[server]) else None
      ensures previous.Some? ==> Gone(previous.value)
      ensures Now() == After(old(Now()), Tracks(server, c))
    {
      previous := if server in connections then Some(connections[server]) else None;
      NewConnKeeps(pending, taken, sends, nextID, c);
      ReplacePlaced(connections, pending, closing, server, c);
      hide Distinct;
      connections := connections[server := c];
      pending := pending[c := map[]];
      if previous.Some? {
        FailPending(previous.value);
      }
      assert connections[server] == c && Current(connections, c);
    }

    /** `UntrackConnection` and the map part of `DisconnectCurrent`: only the current connection may,
        so one that has been replaced can no longer report its server offline. */
    method Untrack(server: Server, c: Conn) returns (wasCurrent: bool)
      requires Valid()
      modifies this
      ensures Valid() && closing == old(closing)
      ensures wasCurrent <==> server in old(connections) && old(connections)[server] == c
      ensures wasCurrent ==> connections == old(connections) - {server} && Gone(c)
      ensures Now() == After(old(Now()), Untracks(server, c))
      ensures !wasCurrent ==> connections == old(connections) && pending == old(pending) && taken == old(taken)
    {
      if server !in connections || connections[server] != c {
        return false;
      }
      LeavePlaced(connections, pending, closing, server);
      hide Distinct;
      connections := connections - {server};
      FailPending(c);
      return true;
    }

    /** `CloseConnections` up to the unlock. */
    method CloseBegin(server: Server) returns (c: Option<Conn>)
      requires Valid()
      modifies this
      ensures Valid() && connections == old(connections) - {server} && pending == old(pending)
      ensures c == if server in old(connections) then Some(old(connections)[server]) else None
      ensures closing == if c.Some? then old(closing) + {c.value} else old(closing)
      ensures Now() == After(old(Now()), BeginsClose(server))
    {
      c := if server in connections then Some(connections[server]) else None;
      LeavePlaced(connections, pending, closing, server);
      hide Distinct, Placed;
      if c.Some? {
        closing := closing + {c.value};
      }
      connections := connections - {server};
    }

    /** `CloseConnections` after the unlock. */
    method CloseEnd(c: Conn)
      requires Valid() && c in closing
      modifies this
      ensures Valid() && connections == old(connections) && closing == old(closing) - {c} && Gone(c)
      ensures Now() == After(old(Now()), EndsClose(c))
    {
      FewerPlaced(connections, pending, closing, c, map[]);
      ClosedPlaced(connections, pending[c := map[]], closing, c);
      hide Distinct;
      FailPending(c);
      closing := closing - {c};
    }

    /** The locked part of `RequestDiagnostics`: the lookup and `registerDiagnostic` are one critical
        section, so a request is only ever registered with a current connection. */
    method Register(server: Server, capable: bool) returns (r: Result<(Conn, Request), Refusal>)
      requires Valid()
      modifies this
      ensures Valid() && connections == old(connections) && closing == old(closing)
      ensures r.Ok? <==> server in connections && capable && old(pending)[connections[server]] == map[]
      ensures r.Ok? ==> r.value.0 == connections[server] && r.value.0 in pending && r.value.1 in pending[r.value.0]
                        && pending == old(pending)[r.value.0 := map[r.value.1 := pending[r.value.0][r.value.1]]]
      ensures r.Ok? ==> pending[r.value.0][r.value.1] !in old(sends) && pending[r.value.0][r.value.1] !in old(taken)
      ensures r.Err? ==> pending == old(pending)
      ensures forall c :: old(Gone(c)) ==> pending[c] == old(pending)[c]
      ensures Now() == After(old(Now()), Registers(server, capable))
    {
      if server !in connections {
        return Err(AgentOffline);
      }
      if !capable {
        return Err(DiagnosticsUnsupported);
      }
      var c := connections[server];
      if pending[c] != map[] {
        return Err(DiagnosticsInProgress);
      }
      var id := nextID;
      NewRequestKeeps(pending, taken, sends, nextID, c);
      OneRequestPlaced(connections, pending, closing, server, id, id);
      assert Current(connections, c);
      hide Distinct, Placed;
      nextID := nextID + 1;
      pending := pending[c := map[id := id]];
      return Ok((c, id));
    }

    /** `removeDiagnostic`, deferred by every request. */
    method Remove(c: Conn, q: Request)
      requires Valid() && c in pending
      modifies `pending
      ensures Valid() && pending == old(pending)[c := old(pending)[c] - {q}]
      ensures Now() == After(old(Now()), Removes(c, q))
    {
      RemoveOneKeeps(pending, taken, sends, nextID, c, q);
      FewerPlaced(connections, pending, closing, c, pending[c] - {q});
      hide Distinct, Placed;
      pending := pending[c := pending[c] - {q}];
    }

    /** `resolveDiagnostic` up to the unlock: the first answer takes the channel, a repeated one finds
        nothing. */
    method Resolve(c: Conn, q: Request) returns (found: bool)
      requires Valid() && c in pending
      modifies `pending, `taken
      ensures Valid() && (found <==> q in old(pending)[c])
      ensures found ==> taken == old(taken) + {old(pending)[c][q]} && pending == old(pending)[c := old(pending)[c] - {q}]
      ensures !found ==> pending == old(pending) && taken == old(taken)
      ensures Now() == After(old(Now()), Resolves(c, q))
    {
      if q !in pending[c] {
        return false;
      }
      RemoveOneKeeps(pending, taken, sends, nextID, c, q);
      FewerPlaced(connections, pending, closing, c, pending[c] - {q});
      hide Distinct, Placed;
      taken := taken + {pending[c][q]};
      pending := pending[c := pending[c] - {q}];
      return true;
    }

    /** The send on a taken channel. It is the channel's first, so its capacity of one is enough. */
    method Send(x: Channel)
      requires Valid() && x in taken
      modifies `taken, `sends
      ensures Valid() && x !in old(sends) && sends == old(sends)[x := 1] && taken == old(taken) - {x}
      ensures Now() == After(old(Now()), Sends(x))
    {
      taken := taken - {x};
      sends := sends[x := SentTo(sends, x) + 1];
    }

    /** One operation, if it can be done now. */
    method Do(o: Operation)
      requires Valid()
      modifies this
      ensures Valid() && Now() == Next(old(Now()), o)
    {
      hide Distinct, Placed, After;
      if !Enabled(Now(), o) {
        return;
      }
      match o {
        case Tracks(server, c) =>
          var _ := Track(server, c);
        case Untracks(server, c) =>
          var _ := Untrack(server, c);
        case BeginsClose(server) =>
          var _ := CloseBegin(server);
        case EndsClose(c) =>
          CloseEnd(c);
        case Registers(server, capable) =>
          var _ := Register(server, capable);
        case Removes(c, q) =>
          Remove(c, q);
        case Resolves(c, q) =>
          var _ := Resolve(c, q);
        case Sends(x) =>
          Send(x);
      }
    }

    /** Any interleaving of the operations is a run. */
    method Run(operations: seq<Operation>) returns (ghost states: seq<View>)
      requires Valid()
      modifies this
      ensures Valid() && IsRun(states, operations) && states[0] == old(Now()) && states[|operations|] == Now()
    {
      hide Next, Distinct, Placed;
      states := [Now()];
      for i := 0 to |operations|
        invariant Valid() && |states| == i + 1 && states[0] == old(Now()) && states[i] == Now()
        invariant forall j :: 0 <= j < i ==> states[j + 1] == Next(states[j], operations[j])
      {
        Do(operations[i]);
        states := states + [Now()];
      }
    }
  }

  // Whole runs --------------------------------------------------------------------------------------

  ghost predicate Sound(v: View) {
    Distinct(v.pending, v.taken, v.sends, v.nextID) && Placed(v.connections, v.pending, v.closing)
  }

  function Next(v: View, o: Operation): (w: View) {
    if Enabled(v, o) then After(v, o) else v
  }

  ghost predicate IsRun(states: seq<View>, operations: seq<Operation>) {
    |states| == |operations| + 1 && forall i :: 0 <= i < |operations| ==> states[i + 1] == Next(states[i], operations[i])
  }

  lemma FailingSound(v: View, c: Conn)
    requires Sound(v) && c in v.pending
    ensures Sound(Failing(v, c))
  {
    TakeAllKeeps(v.pending, v.taken, v.sends, v.nextID, c);
    FewerPlaced(v.connections, v.pending, v.closing, c, map[]);
  }

  lemma TrackSound(v: View, server: Server, c: Conn)
    requires Sound(v) && c !in v.pending
    ensures Sound(After(v, Tracks(server, c)))
  {
    NewConnKeeps(v.pending, v.taken, v.sends, v.nextID, c);
    ReplacePlaced(v.connections, v.pending, v.closing, server, c);
    if server in v.connections {
      TakeAllKeeps(v.pending[c := map[]], v.taken, v.sends, v.nextID, v.connections[server]);
    }
    hide Distinct;
  }

  lemma LeaveSound(v: View, server: Server)
    requires Sound(v) && server in v.connections
    ensures Sound(After(v, Untracks(server, v.connections[server]))) && Sound(After(v, BeginsClose(server)))
  {
    TakeAllKeeps(v.pending, v.taken, v.sends, v.nextID, v.connections[server]);
    LeavePlaced(v.connections, v.pending, v.closing, server);
    hide Distinct;
  }

  lemma CloseSound(v: View, c: Conn)
    requires Sound(v) && c in v.closing && c in v.pending
    ensures Sound(After(v, EndsClose(c)))
  {
    FailingSound(v, c);
    hide Distinct;
    ClosedPlaced(v.connections, v.pending[c := map[]], v.closing, c);
  }

  lemma RequestSound(v: View, o: Operation)
    requires Sound(v) && Enabled(v, o) && (o.Registers? || o.Removes? || o.Resolves? || o.Sends?)
    ensures Sound(After(v, o))
  {
    match o
    case Registers(server, _) =>
      if server in v.connections && v.pending[v.connections[server]] == map[] {
        NewRequestKeeps(v.pending, v.taken, v.sends, v.nextID, v.connections[server]);
        OneRequestPlaced(v.connections, v.pending, v.closing, server, v.nextID, v.nextID);
      }
      hide Distinct, Placed;
    case Removes(c, q) =>
      RemoveOneKeeps(v.pending, v.taken, v.sends, v.nextID, c, q);
      FewerPlaced(v.connections, v.pending, v.closing, c, v.pending[c] - {q});
      hide Distinct, Placed;
    case Resolves(c, q) =>
      RemoveOneKeeps(v.pending, v.taken, v.sends, v.nextID, c, q);
      FewerPlaced(v.connections, v.pending, v.closing, c, v.pending[c] - {q});
      hide Distinct, Placed;
    case Sends(x) =>
      hide Placed;
  }

  lemma NextSound(v: View, o: Operation)
    requires Sound(v)
    ensures Sound(Next(v, o))
  {
    hide Sound, Failing;
    if Enabled(v, o) {
      match o
      case Tracks(server, c) => TrackSound(v, server, c);
      case Untracks(server, c) =>
        if server in v.connections {
          LeaveSound(v, server);
        }
      case BeginsClose(server) =>
        if server in v.connections {
          LeaveSound(v, server);
        }
      case EndsClose(c) => CloseSound(v, c);
      case _ => RequestSound(v, o);
    }
  }

  lemma {:induction false} StaysSound(states: seq<View>, operations: seq<Operation>, i: nat)
    requires IsRun(states, operations) && Sound(states[0]) && i <= |operations|
    ensures Sound(states[i])
    decreases i
  {
    hide Sound, Next;
    if i > 0 {
      StaysSound(states, operations, i - 1);
      NextSound(states[i - 1], operations[i - 1]);
    }
  }

  /** In every state of every run no channel has been sent to twice, and a connection whose replacement,
      disconnect or close is over has no pending request. */
  lemma NeverTwiceNeverLeft(states: seq<View>, operations: seq<Operation>, i: nat)
    requires IsRun(states, operations) && Sound(states[0]) && i <= |operations|
    ensures forall x :: x in states[i].sends ==> states[i].sends[x] <= 1
    ensures forall c :: c in states[i].pending && c !in states[i].closing && !Current(states[i].connections, c) ==> states[i].pending[c] == map[]
  {
    StaysSound(states, operations, i);
  }
}

/**
 The locks behind those critical sections. Each connection has its own writeMu and diagnosticsMu, the
 service one connectionsMu. Every operation takes them in that order, and therefore no set of
 operations, on any connections, can ever stop each other for good.
 */
module ConnectionLocks {
  datatype Lock = WriteMu(conn: nat) | ConnectionsMu | DiagnosticsMu(conn: nat)

  datatype Action = Acquire(lock: Lock) | Release(lock: Lock)

  datatype Thread = Thread(rest: seq<Action>, held: set<Lock>)

  function Rank(l: Lock): (r: nat) {
    match l
    case WriteMu(_) => 0
    case ConnectionsMu => 1
    case DiagnosticsMu(_) => 2
  }

  /** Acquisitions only ever go up in rank, and everything is released in the end. */
  predicate Ordered(rest: seq<Action>, held: set<Lock>) {
    if rest == [] then held == {} else
      match rest[0]
      case Acquire(l) => (forall h :: h in held ==> Rank(h) < Rank(l)) && Ordered(rest[1..], held + {l})
      case Release(l) => l in held && Ordered(rest[1..], held - {l})
  }

  /** The lock traffic of the source's operations on connection c. */
  function Operations(c: nat): (ops: seq<seq<Action>>) {
    [// TrackConnection, UntrackConnection, DisconnectCurrent
     [Acquire(ConnectionsMu), Acquire(DiagnosticsMu(c)), Release(DiagnosticsMu(c)), Release(ConnectionsMu)],
     // CloseConnections
     [Acquire(ConnectionsMu), Release(ConnectionsMu), Acquire(DiagnosticsMu(c)), Release(DiagnosticsMu(c))],
     // NotifyConfigChanged, NotifyAgentUpgrade, NotifyProbeTasks
     [Acquire(ConnectionsMu), Release(ConnectionsMu), Acquire(WriteMu(c)), Acquire(ConnectionsMu), Release(ConnectionsMu), Release(WriteMu(c))],
     // RequestDiagnostics
     [Acquire(ConnectionsMu), Acquire(DiagnosticsMu(c)), Release(DiagnosticsMu(c)), Release(ConnectionsMu),
      Acquire(WriteMu(c)), Acquire(ConnectionsMu), Release(ConnectionsMu), Release(WriteMu(c)),
      Acquire(DiagnosticsMu(c)), Release(DiagnosticsMu(c))],
     // ResolveDiagnostics
     [Acquire(DiagnosticsMu(c)), Release(DiagnosticsMu(c))],
     // WithCurrentConnection, IsCurrentConnection
     [Acquire(ConnectionsMu), Release(ConnectionsMu)]]
  }

  lemma OperationsAreOrdered(c: nat, k: nat)
    requires k < |Operations(c)|
    ensures Ordered(Operations(c)[k], {})
  {
    assert k == 0 || k == 1 || k == 2 || k == 3 || k == 4 || k == 5;
    PairOrdered(ConnectionsMu, [], {});
    PairOrdered(DiagnosticsMu(c), [], {});
    if k == 0 {
      NestedOrdered(ConnectionsMu, DiagnosticsMu(c), [], {});
      assert Operations(c)[0] == Nested(ConnectionsMu, DiagnosticsMu(c)) + [];
    } else if k == 1 {
      PairOrdered(ConnectionsMu, Pair(DiagnosticsMu(c)) + [], {});
      assert Operations(c)[1] == Pair(ConnectionsMu) + (Pair(DiagnosticsMu(c)) + []);
    } else if k == 2 {
      NestedOrdered(WriteMu(c), ConnectionsMu, [], {});
      PairOrdered(ConnectionsMu, Nested(WriteMu(c), ConnectionsMu) + [], {});
      assert Operations(c)[2] == Pair(ConnectionsMu) + (Nested(WriteMu(c), ConnectionsMu) + []);
    } else if k == 3 {
      NestedOrdered(WriteMu(c), ConnectionsMu, Pair(DiagnosticsMu(c)) + [], {});
      NestedOrdered(ConnectionsMu, DiagnosticsMu(c), Nested(WriteMu(c), ConnectionsMu) + (Pair(DiagnosticsMu(c)) + []), {});
      assert Operations(c)[3] == Nested(ConnectionsMu, DiagnosticsMu(c)) + (Nested(WriteMu(c), ConnectionsMu) + (Pair(DiagnosticsMu(c)) + []));
    } else if k == 4 {
      assert Operations(c)[4] == Pair(DiagnosticsMu(c)) + [];
    } else {
      assert Operations(c)[5] == Pair(ConnectionsMu) + [];
    }
  }

  function Pair(l: Lock): (a: seq<Action>) {
    [Acquire(l), Release(l)]
  }

  function Nested(outer: Lock, inner: Lock): (a: seq<Action>) {
    [Acquire(outer), Acquire(inner), Release(inner), Release(outer)]
  }

  lemma PairOrdered(l: Lock, rest: seq<Action>, held: set<Lock>)
    requires held == {} && Ordered(rest, {})
    ensures Ordered(Pair(l) + rest, held)
  {
  }

  lemma NestedOrdered(outer: Lock, inner: Lock, rest: seq<Action>, held: set<Lock>)
    requires held == {} && Rank(outer) < Rank(inner) && Ordered(rest, {})
    ensures Ordered(Nested(outer, inner) + rest, held)
  {
    var all := Nested(outer, inner) + rest;
    var one, two, three := all[1..], all[2..], all[3..];
    assert one[1..] == two && two[1..] == three && three[1..] == rest;
    assert {outer} - {outer} == {} && ({outer} + {inner}) - {inner} == {outer};
    assert Ordered(three, {outer});
    assert Ordered(two, {outer} + {inner});
    assert Ordered(one, {} + {outer});
  }

  /** Each thread follows its operation and no lock is held twice. */
  ghost predicate Sound(threads: seq<Thread>) {
    && (forall t :: 0 <= t < |threads| ==> Ordered(threads[t].rest, threads[t].held))
    && forall t, u :: 0 <= t < u < |threads| ==> threads[t].held !! threads[u].held
  }

  predicate Enabled(threads: seq<Thread>, t: nat)
    requires t < |threads|
  {
    threads[t].rest != [] &&
    (threads[t].rest[0].Acquire? ==> forall u :: 0 <= u < |threads| ==> threads[t].rest[0].lock !in threads[u].held)
  }

  function Step(th: Thread): (next: Thread)
    requires th.rest != []
  {
    match th.rest[0]
    case Acquire(l) => Thread(th.rest[1..], th.held + {l})
    case Release(l) => Thread(th.rest[1..], th.held - {l})
  }

  lemma StepIsSound(threads: seq<Thread>, t: nat)
    requires Sound(threads) && t < |threads| && Enabled(threads, t)
    ensures Sound(threads[t := Step(threads[t])])
  {
  }

  /** From a thread that waits one climbs, holder by holder, to a thread that can move. */
  lemma {:induction false} SomeoneAbove(threads: seq<Thread>, t: nat) returns (u: nat)
    requires Sound(threads) && t < |threads| && threads[t].rest != []
    ensures u < |threads| && Enabled(threads, u)
    decreases if threads[t].rest[0].Acquire? then 3 - Rank(threads[t].rest[0].lock) else 0
  {
    if Enabled(threads, t) {
      return t;
    }
    var h :| 0 <= h < |threads| && threads[t].rest[0].lock in threads[h].held;
    assert threads[h].rest != [];
    if threads[h].rest[0].Release? {
      return h;
    }
    u := SomeoneAbove(threads, h);
  }

  /** Deadlock freedom in every sound state with work left; StepIsSound makes every state sound. */
  lemma NoDeadlock(threads: seq<Thread>)
    requires Sound(threads) && exists t :: 0 <= t < |threads| && threads[t].rest != []
    ensures exists u :: 0 <= u < |threads| && Enabled(threads, u)
  {
    var t :| 0 <= t < |threads| && threads[t].rest != [];
    var u := SomeoneAbove(threads, t);
  }
}
