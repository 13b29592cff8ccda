/** One coordinator process of the cluster: its role, its election flags, its peer sessions and the coroutines it
    has spawned but that have not finished. Node ids are ranks: the code only ever compares ids. */
module ServerNode {
  import opened Wrappers

  datatype Role = Primary | Backup

  /** A PeerSession in m_peers, stored under the number of its connection. */
  datatype Peer = Peer(initiator: bool, pid: Option<nat>, role: Role)

  datatype Kind = Announce | Elect | Heartbeat

  /** A spawned coroutine: the HELLO response, a broadcast not yet begun, a broadcast that has copied m_peers and
      still has to send to `todo`, an ALIVE reply, or one that has run to its end. */
  datatype Task =
    | SayHello(conn: nat, role: Role)
    | Begin(kind: Kind)
    | Continue(kind: Kind, todo: set<nat>)
    | SayAlive(target: nat)
    | Finished

  datatype Msg =
    | Hello(from: nat, role: Role, request: bool)
    | Ping(from: nat)
    | Election(from: nat)
    | Alive(from: nat)
    | Coordinator(from: nat)

  datatype Node = Node(id: nat, expected: nat, role: Role, primaryAlive: bool, graceExpired: bool,
                       electing: bool, receivedAlive: bool, peers: map<nat, Peer>, tasks: seq<Task>)

  function Spawn(n: Node, t: Task): Node { n.(tasks := n.tasks + [t]) }

  /** A process just started; `expected` is the number of configured peer addresses. */
  function FreshNode(id: nat, expected: nat): Node {
    Node(id, expected, Backup, false, false, false, false, map[], [])
  }

  // ---------- what a node knows of its peers ----------

  function Identified(peers: map<nat, Peer>): set<nat> {
    set c | c in peers && peers[c].pid.Some?
  }

  predicate KnowsPrimary(peers: map<nat, Peer>) {
    exists c :: c in peers && peers[c].pid.Some? && peers[c].role == Primary
  }

  predicate KnowsLower(peers: map<nat, Peer>, id: nat) {
    exists c :: c in peers && peers[c].pid.Some? && peers[c].pid.value < id
  }

  /** Identified sessions belong to different peers. */
  ghost predicate DistinctPids(peers: map<nat, Peer>) {
    forall c, d :: c in peers && d in peers && c != d && peers[c].pid.Some? ==> peers[c].pid != peers[d].pid
  }

  // ---------- handlers ----------

  function Promote(n: Node): Node {
    Spawn(n.(role := Primary, primaryAlive := true), Begin(Announce))
  }

  function RecomputeRole(n: Node): Node {
    if n.role == Primary then n
    else if !n.graceExpired && |Identified(n.peers)| < n.expected then n
    else if !KnowsPrimary(n.peers) && !KnowsLower(n.peers, n.id) then Promote(n)
    else n
  }

  /** Other identified sessions with the same peer as session `c`. */
  function Twins(peers: map<nat, Peer>, c: nat): set<nat>
    requires c in peers
  {
    set d | d in peers && d != c && peers[d].pid.Some? && peers[d].pid == peers[c].pid
  }

  function InitiatorId(n: Node, p: Peer): nat
    requires p.pid.Some?
  {
    if p.initiator then n.id else p.pid.value
  }

  /** Of two sessions with the same peer, the one opened by the lower id is kept, the newly identified one losing
      ties. */
  ghost function Dedup(n: Node, c: nat): Node
    requires c in n.peers && n.peers[c].pid.Some?
  {
    var twins := Twins(n.peers, c);
    if twins == {} then n
    else
      var d :| d in twins;
      if InitiatorId(n, n.peers[c]) < InitiatorId(n, n.peers[d]) then n.(peers := n.peers - {d})
      else n.(peers := n.peers - {c})
  }

  /** A Primary that hears from another Primary yields to a lower id and asserts itself against a higher one. */
  function HelloVerdict(n: Node, pid: nat, claimsPrimary: bool): Node {
    if claimsPrimary && n.role == Primary then
      if pid < n.id then n.(role := Backup, primaryAlive := true)
      else Spawn(n, Begin(Announce))
    else RecomputeRole(n)
  }

  ghost function OnPeerHello(n: Node, c: nat): Node
    requires c in n.peers && n.peers[c].pid.Some?
  {
    var kept := Dedup(n, c);
    if c !in kept.peers then kept else HelloVerdict(kept, n.peers[c].pid.value, n.peers[c].role == Primary)
  }

  /** PeerSession::handle_hello: identify the peer, answer a request, then tell the server. */
  ghost function HandleHello(n: Node, c: nat, from: nat, role: Role, request: bool): Node
    requires c in n.peers
  {
    var known := n.(peers := n.peers[c := n.peers[c].(pid := Some(from), role := role)]);
    OnPeerHello(if request then Spawn(known, SayHello(c, known.role)) else known, c)
  }

  function StartElection(n: Node): Node {
    if n.electing then n
    else Spawn(n.(electing := true, receivedAlive := false), Begin(Elect))
  }

  function OnPeerElection(n: Node, from: nat): Node {
    if from > n.id then StartElection(Spawn(n, SayAlive(from))) else n
  }

  function OnPeerAlive(n: Node): Node { if n.electing then n.(receivedAlive := true) else n }

  /** The announcing peer is recorded as Primary and any other recorded Primary as Backup. */
  function NotePrimary(peers: map<nat, Peer>, from: nat): map<nat, Peer> {
    map c | c in peers :: peers[c].(role := if peers[c].pid == Some(from) then Primary else Backup)
  }

  function OnPeerCoordinator(n: Node, from: nat): Node {
    if n.role == Primary && from > n.id then Spawn(n, Begin(Announce))
    else n.(peers := NotePrimary(n.peers, from), role := Backup, electing := false, receivedAlive := false,
        primaryAlive := true)
  }

  function OnPrimaryPing(n: Node): Node { n.(primaryAlive := true) }

  function OnPeerDisconnected(n: Node, c: nat): Node
    requires c in n.peers
  {
    var left := n.(peers := n.peers - {c});
    if n.peers[c].role == Primary && n.role == Backup && n.primaryAlive then StartElection(left.(primaryAlive := false))
    else left
  }

  // ---------- timers ----------

  function OnGraceExpired(n: Node): Node { RecomputeRole(n.(graceExpired := true)) }

  function OnHeartbeatLost(n: Node): Node {
    if n.role == Backup && n.primaryAlive then StartElection(n.(primaryAlive := false)) else n
  }

  function OnHeartbeatDue(n: Node): Node { if n.role == Primary then Spawn(n, Begin(Heartbeat)) else n }

  function OnElectionTimeout(n: Node): Node {
    if !n.electing then n
    else if n.receivedAlive then n.(electing := false)
    else Promote(n.(electing := false))
  }

  // ---------- events ----------

  /** PeerSession::handle_message. */
  ghost function Handle(n: Node, c: nat, m: Msg): Node
    requires c in n.peers
  {
    match m
    case Hello(from, role, request) => HandleHello(n, c, from, role, request)
    case Ping(_) => OnPrimaryPing(n)
    case Election(from) => OnPeerElection(n, from)
    case Alive(_) => OnPeerAlive(n)
    case Coordinator(from) => OnPeerCoordinator(n, from)
  }

  /** What can happen to a node from outside: a message, the loss of a session, or one of its timers. */
  datatype Event =
    | Received(c: nat, m: Msg)
    | Lost(c: nat)
    | GraceOver
    | HeartbeatMissed
    | HeartbeatTime
    | ElectionOver

  predicate Possible(n: Node, e: Event) {
    match e
    case Received(c, _) => c in n.peers
    case Lost(c) => c in n.peers
    case _ => true
  }

  /** How a node reacts. */
  ghost function React(n: Node, e: Event): Node
    requires Possible(n, e)
  {
    match e
    case Received(c, m) => Handle(n, c, m)
    case Lost(c) => OnPeerDisconnected(n, c)
    case GraceOver => OnGraceExpired(n)
    case HeartbeatMissed => OnHeartbeatLost(n)
    case HeartbeatTime => OnHeartbeatDue(n)
    case ElectionOver => OnElectionTimeout(n)
  }

  // ---------- the server object ----------

  class CoordinatorServer {
    const id: nat
    const expected: nat
    var role: Role
    var primaryAlive: bool
    var graceExpired: bool
    var electing: bool
    var receivedAlive: bool
    var peers: map<nat, Peer>
    var tasks: seq<Task>

    ghost function View(): Node
      reads this
    {
      Node(id, expected, role, primaryAlive, graceExpired, electing, receivedAlive, peers, tasks)
    }

    constructor (id: nat, expected: nat)
      ensures View() == FreshNode(id, expected)
    {
      this.id, this.expected := id, expected;
      role, primaryAlive, graceExpired, electing, receivedAlive := Backup, false, false, false, false;
      peers, tasks := map[], [];
    }

    method CoSpawn(t: Task)
      modifies this`tasks
      ensures View() == Spawn(old(View()), t)
    {
      tasks := tasks + [t];
    }

    /** Scans m_peers for a Primary, for an id below its own and for the number of identified peers. */
    method ScanPeers() returns (existsPrimary: bool, minAlive: nat, known: nat)
      ensures existsPrimary <==> KnowsPrimary(peers)
      ensures minAlive <= id && (minAlive < id <==> KnowsLower(peers, id))
      ensures known == |Identified(peers)|
    {
      existsPrimary, minAlive, known := false, id, 0;
      var todo := peers.Keys;
      ghost var seen: set<nat> := {};
      while todo != {}
        invariant todo <= peers.Keys && seen == set c | c in peers && c !in todo && peers[c].pid.Some?
        invariant known == |seen|
        invariant existsPrimary <==> exists c :: c in seen && peers[c].role == Primary
        invariant minAlive <= id
        invariant minAlive < id <==> exists c :: c in seen && peers[c].pid.value < id
        decreases todo
      {
        var c :| c in todo;
        todo := todo - {c};
        if peers[c].pid.Some? {
          seen := seen + {c};
          known := known + 1;
          minAlive := if peers[c].pid.value < minAlive then peers[c].pid.value else minAlive;
          if peers[c].role == Primary {
            existsPrimary := true;
          }
        }
      }
      assert seen == Identified(peers);
    }

    method Recompute()
      modifies this
      ensures View() == RecomputeRole(old(View()))
    {
      if role == Primary {
        return;
      }
      var existsPrimary, minAlive, known := ScanPeers();
      if !graceExpired && known < expected {
        return;
      }
      if !existsPrimary && id == minAlive {
        role, primaryAlive := Primary, true;
        CoSpawn(Begin(Announce));
      }
    }

    /** Looks for another identified session with the same peer and closes one of the two. */
    method CloseDuplicate(c: nat)
      requires c in peers && peers[c].pid.Some?
      requires |Twins(peers, c)| <= 1
      modifies this`peers
      ensures View() == Dedup(old(View()), c)
    {
      var todo := peers.Keys;
      ghost var twins := Twins(peers, c);
      while todo != {}
        invariant todo <= peers.Keys && twins <= todo
        invariant View() == old(View())
        decreases todo
      {
        var d :| d in todo;
        todo := todo - {d};
        if d != c && peers[d].pid.Some? && peers[d].pid == peers[c].pid {
          assert twins == {d} by { OnlyMember(twins, d); }
          var ofPeer := if peers[c].initiator then id else peers[c].pid.value;
          var ofOther := if peers[d].initiator then id else peers[d].pid.value;
          peers := peers - {if ofPeer < ofOther then d else c};
          return;
        }
      }
    }

    method PeerHello(c: nat)
      requires c in peers && peers[c].pid.Some?
      requires |Twins(peers, c)| <= 1
      modifies this
      ensures View() == OnPeerHello(old(View()), c)
    {
      var pid, claimsPrimary := peers[c].pid.value, peers[c].role == Primary;
      CloseDuplicate(c);
      if c !in peers {
        return;
      }
      if claimsPrimary && role == Primary {
        if pid < id {
          role, primaryAlive := Backup, true;
        } else {
          CoSpawn(Begin(Announce));
        }
        return;
      }
      Recompute();
    }

    method Hello(c: nat, from: nat, claimed: Role, request: bool)
      requires c in peers && DistinctPids(peers - {c})
      modifies this
      ensures View() == HandleHello(old(View()), c, from, claimed, request)
    {
      peers := peers[c := peers[c].(pid := Some(from), role := claimed)];
      assert peers - {c} == old(peers) - {c};
      TwinsAreFew(peers, c);
      if request {
        CoSpawn(SayHello(c, role));
      }
      PeerHello(c);
    }

    method BeginElection()
      modifies this
      ensures View() == StartElection(old(View()))
    {
      if electing {
        return;
      }
      electing, receivedAlive := true, false;
      CoSpawn(Begin(Elect));
    }

    method PeerElection(from: nat)
      modifies this
      ensures View() == OnPeerElection(old(View()), from)
    {
      if from > id {
        CoSpawn(SayAlive(from));
        if !electing {
          BeginElection();
        }
      }
    }

    method PeerAlive()
      modifies this
      ensures View() == OnPeerAlive(old(View()))
    {
      if electing {
        receivedAlive := true;
      }
    }

    /** Records `from` as the Primary among the peers. */
    method NotePeers(from: nat)
      modifies this`peers
      ensures peers == NotePrimary(old(peers), from)
    {
      var todo := peers.Keys;
      while todo != {}
        invariant todo <= old(peers).Keys == peers.Keys
        invariant forall c :: c in todo ==> peers[c] == old(peers)[c]
        invariant forall c :: c in peers && c !in todo ==> peers[c] == NotePrimary(old(peers), from)[c]
        decreases todo
      {
        var c :| c in todo;
        todo := todo - {c};
        if peers[c].pid == Some(from) {
          peers := peers[c := peers[c].(role := Primary)];
        } else if peers[c].role == Primary {
          peers := peers[c := peers[c].(role := Backup)];
        }
      }
    }

    method PeerCoordinator(from: nat)
      modifies this
      ensures View() == OnPeerCoordinator(old(View()), from)
    {
      if role == Primary && from > id {
        CoSpawn(Begin(Announce));
        return;
      }
      NotePeers(from);
      role := Backup;
      electing, receivedAlive, primaryAlive := false, false, true;
    }

    method PeerDisconnected(c: nat)
      requires c in peers
      modifies this
      ensures View() == OnPeerDisconnected(old(View()), c)
    {
      var claimed := peers[c].role;
      peers := peers - {c};
      if claimed == Primary && role == Backup && primaryAlive {
        primaryAlive := false;
        BeginElection();
      }
    }

    method ElectionTimer()
      modifies this
      ensures View() == OnElectionTimeout(old(View()))
    {
      if !electing {
        return;
      }
      electing := false;
      if !receivedAlive {
        role, primaryAlive := Primary, true;
        CoSpawn(Begin(Announce));
      }
    }

    /** PeerSession::handle_message. */
    method HandleMessage(c: nat, m: Msg)
      requires c in peers && DistinctPids(peers)
      modifies this
      ensures View() == Handle(old(View()), c, m)
    {
      match m
      case Hello(from, claimed, request) => Hello(c, from, claimed, request);
      case Ping(_) => primaryAlive := true;
      case Election(from) => PeerElection(from);
      case Alive(_) => PeerAlive();
      case Coordinator(from) => PeerCoordinator(from);
    }

    /** Every event that the read loops and the timers of the server bring. */
    method HandleEvent(e: Event)
      requires Possible(View(), e) && DistinctPids(peers)
      modifies this
      ensures View() == React(old(View()), e)
    {
      match e
      case Received(c, m) => HandleMessage(c, m);
      case Lost(c) => PeerDisconnected(c);
      case GraceOver =>
        graceExpired := true;
        Recompute();
      case HeartbeatMissed =>
        if role == Backup && primaryAlive {
          primaryAlive := false;
          BeginElection();
        }
      case HeartbeatTime =>
        if role == Primary {
          CoSpawn(Begin(Heartbeat));
        }
      case ElectionOver => ElectionTimer();
    }
  }

  lemma OnlyMember(s: set<nat>, d: nat)
    requires d in s && |s| <= 1
    ensures s == {d}
  {
    assert s == {d} + (s - {d});
    assert |s| == 1 + |s - {d}|;
  }

  lemma TwinsAreFew(peers: map<nat, Peer>, c: nat)
    requires c in peers && DistinctPids(peers - {c})
    ensures |Twins(peers, c)| <= 1
  {
    var twins := Twins(peers, c);
    if twins != {} {
      var d :| d in twins;
      forall e | e in twins ensures e == d {
        assert d in peers - {c} && e in peers - {c};
      }
      assert twins == {d};
    }
  }
}
