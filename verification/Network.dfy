/** A cluster of coordinators as a message-passing machine: nodes, connections with a FIFO queue each way, timers,
    link losses and restarts. A node's handler is one step; so is each slice of a spawned coroutine. */
module Network {
  import opened Wrappers
  import opened ServerNode

  /** A connection dialled by `ini`; `acc` sees it once accepted. An end is open while its node lists the session. */
  datatype Conn = Conn(ini: nat, acc: nat, accepted: bool, toAcc: seq<Msg>, toIni: seq<Msg>) {
    function Queue(toAcceptor: bool): seq<Msg> { if toAcceptor then toAcc else toIni }

    function WithQueue(toAcceptor: bool, q: seq<Msg>): Conn {
      if toAcceptor then this.(toAcc := q) else this.(toIni := q)
    }

    function Receiver(toAcceptor: bool): nat { if toAcceptor then acc else ini }

    function Sender(toAcceptor: bool): nat { if toAcceptor then ini else acc }

    function Other(k: nat): nat { if k == ini then acc else ini }
  }

  datatype Net = Net(nodes: seq<Node>, conns: seq<Conn>)

  datatype Step =
    | Dial(k: nat, j: nat)
    | Accept(c: nat)
    | Deliver(c: nat, toAcceptor: bool)
    | Run(k: nat, i: nat, pick: nat)
    | Lose(c: nat, atAcceptor: bool)
    | Restart(k: nat)
    | GraceExpired(k: nat)
    | HeartbeatLost(k: nat)
    | HeartbeatDue(k: nat)
    | ElectionTimeout(k: nat)

  // ---------- messages and tasks ----------

  function BroadcastMsg(kind: Kind, id: nat): Msg {
    match kind
    case Announce => Coordinator(id)
    case Elect => Election(id)
    case Heartbeat => Ping(id)
  }

  /** Announcements and heartbeats go to every open session, ELECTION only to identified peers with a lower id. */
  predicate Eligible(n: Node, kind: Kind, c: nat) {
    && c in n.peers
    && (kind == Elect ==> n.peers[c].pid.Some? && n.peers[c].pid.value < n.id)
  }

  /** What a slice of task `t` sends, if anything; `pick` is the session it turns to. */
  function Sent(n: Node, t: Task, pick: nat): Option<Msg> {
    match t
    case SayHello(c, role) => if pick == c then Some(Hello(n.id, role, false)) else None
    case Begin(_) => None
    case Continue(kind, todo) =>
      if pick in todo && Eligible(n, kind, pick) then Some(BroadcastMsg(kind, n.id)) else None
    case SayAlive(target) => if pick in n.peers && n.peers[pick].pid == Some(target) then Some(Alive(n.id)) else None
    case Finished => None
  }

  /** The task after that slice. */
  function Rest(n: Node, t: Task, pick: nat): Task {
    match t
    case Begin(kind) => Continue(kind, n.peers.Keys)
    case Continue(kind, todo) => if todo == {} then Finished else Continue(kind, todo - {pick})
    case _ => Finished
  }

  /** The slice must turn to a session that the task still has to serve. A response on a session that is still listed
      is sent; on one that the handler has closed meanwhile it may have left before, if the coroutine started inside
      the handler, or not at all. */
  predicate CanRun(n: Node, t: Task, pick: nat) {
    match t
    case SayHello(c, _) => pick == c || c !in n.peers
    case Begin(_) => true
    case Continue(_, todo) => todo == {} || pick in todo
    case SayAlive(target) =>
      (exists c :: c in n.peers && n.peers[c].pid == Some(target)) ==>
          pick in n.peers && n.peers[pick].pid == Some(target)
    case Finished => false
  }

  function Post(conns: seq<Conn>, k: nat, c: nat, m: Msg): seq<Conn> {
    if c >= |conns| then conns
    else
      var toAcceptor := conns[c].ini == k;
      conns[c := conns[c].WithQueue(toAcceptor, conns[c].Queue(toAcceptor) + [m])]
  }

  function RunTask(net: Net, k: nat, i: nat, pick: nat): Net
    requires k < |net.nodes| && i < |net.nodes[k].tasks|
  {
    var n := net.nodes[k];
    var t := n.tasks[i];
    Net(net.nodes[k := n.(tasks := n.tasks[i := Rest(n, t, pick)])],
        match Sent(n, t, pick) case None => net.conns case Some(m) => Post(net.conns, k, pick, m))
  }

  // ---------- steps ----------

  predicate OpenAt(net: Net, k: nat, c: nat) { k < |net.nodes| && c in net.nodes[k].peers }

  ghost predicate Enabled(net: Net, step: Step) {
    match step
    case Dial(k, j) => k < |net.nodes| && j < |net.nodes| && k != j
    case Accept(c) => c < |net.conns| && !net.conns[c].accepted && net.conns[c].acc < |net.nodes|
    case Deliver(c, toAcceptor) =>
      && c < |net.conns| && OpenAt(net, net.conns[c].Receiver(toAcceptor), c)
      && net.conns[c].Queue(toAcceptor) != []
    case Run(k, i, pick) =>
      && k < |net.nodes| && i < |net.nodes[k].tasks| && CanRun(net.nodes[k], net.nodes[k].tasks[i], pick)
    case Lose(c, atAcceptor) => c < |net.conns| && OpenAt(net, net.conns[c].Receiver(atAcceptor), c)
    case Restart(k) => k < |net.nodes|
    case GraceExpired(k) => k < |net.nodes|
    case HeartbeatLost(k) => k < |net.nodes|
    case HeartbeatDue(k) => k < |net.nodes|
    case ElectionTimeout(k) => k < |net.nodes|
  }

  /** connect_to_peer: the session is listed and the HELLO request, with the role of this moment, is its first
      message. */
  function DialStep(net: Net, k: nat, j: nat): Net
    requires k < |net.nodes|
  {
    var n := net.nodes[k];
    Net(net.nodes[k := n.(peers := n.peers[|net.conns| := Peer(true, None, Backup)])],
        net.conns + [Conn(k, j, false, [Hello(k, n.role, true)], [])])
  }

  function AcceptStep(net: Net, c: nat): Net
    requires c < |net.conns| && net.conns[c].acc < |net.nodes|
  {
    var k := net.conns[c].acc;
    var n := net.nodes[k];
    Net(net.nodes[k := n.(peers := n.peers[c := Peer(false, None, Backup)])],
        net.conns[c := net.conns[c].(accepted := true)])
  }

  ghost function DeliverStep(net: Net, c: nat, toAcceptor: bool): Net
    requires Enabled(net, Deliver(c, toAcceptor))
  {
    var conn := net.conns[c];
    var k, q := conn.Receiver(toAcceptor), conn.Queue(toAcceptor);
    Net(net.nodes[k := Handle(net.nodes[k], c, q[0])], net.conns[c := conn.WithQueue(toAcceptor, q[1..])])
  }

  ghost function WithNode(net: Net, k: nat, n: Node): Net
    requires k < |net.nodes|
  {
    net.(nodes := net.nodes[k := n])
  }

  ghost function Apply(net: Net, step: Step): Net
    requires Enabled(net, step)
  {
    match step
    case Dial(k, j) => DialStep(net, k, j)
    case Accept(c) => AcceptStep(net, c)
    case Deliver(c, toAcceptor) => DeliverStep(net, c, toAcceptor)
    case Run(k, i, pick) => RunTask(net, k, i, pick)
    case Lose(c, atAcceptor) =>
      var k := net.conns[c].Receiver(atAcceptor);
      WithNode(net, k, OnPeerDisconnected(net.nodes[k], c))
    case Restart(k) => WithNode(net, k, FreshNode(k, net.nodes[k].expected))
    case GraceExpired(k) => WithNode(net, k, OnGraceExpired(net.nodes[k]))
    case HeartbeatLost(k) => WithNode(net, k, OnHeartbeatLost(net.nodes[k]))
    case HeartbeatDue(k) => WithNode(net, k, OnHeartbeatDue(net.nodes[k]))
    case ElectionTimeout(k) => WithNode(net, k, OnElectionTimeout(net.nodes[k]))
  }

  /** A cluster of `size` processes that have just started. */
  function Start(size: nat): Net
    requires size > 0
  {
    Net(seq(size, k requires 0 <= k < size => FreshNode(k, size - 1)), [])
  }

  ghost predicate IsRun(size: nat, nets: seq<Net>, steps: seq<Step>) {
    && size > 0
    && |nets| == |steps| + 1
    && nets[0] == Start(size)
    && forall t :: 0 <= t < |steps| ==> Enabled(nets[t], steps[t]) && nets[t + 1] == Apply(nets[t], steps[t])
  }

  // ---------- well-formed networks ----------

  predicate PeerOk(conns: seq<Conn>, k: nat, c: nat, p: Peer) {
    && c < |conns|
    && (if p.initiator then conns[c].ini == k else conns[c].acc == k && conns[c].accepted)
    && (p.pid.Some? ==> p.pid.value == conns[c].Other(k))
  }

  ghost predicate NodeOk(conns: seq<Conn>, k: nat, n: Node) {
    && n.id == k
    && (forall c :: c in n.peers ==> PeerOk(conns, k, c, n.peers[c]))
    && DistinctPids(n.peers)
  }

  ghost predicate AllFrom(q: seq<Msg>, s: nat) {
    forall i :: 0 <= i < |q| ==> q[i].from == s
  }

  ghost predicate ConnOk(size: nat, conn: Conn) {
    && conn.ini < size && conn.acc < size && conn.ini != conn.acc
    && AllFrom(conn.toAcc, conn.ini) && AllFrom(conn.toIni, conn.acc)
  }

  /** Sessions and connections fit together. */
  ghost predicate Tables(net: Net) {
    && (forall k :: 0 <= k < |net.nodes| ==> NodeOk(net.conns, k, net.nodes[k]))
    && (forall c :: 0 <= c < |net.conns| ==> ConnOk(|net.nodes|, net.conns[c]))
  }

  /** Requests travel to the acceptor and responses to the initiator. */
  ghost predicate HelloKinds(conn: Conn) {
    && (forall i :: 0 <= i < |conn.toAcc| && conn.toAcc[i].Hello? ==> conn.toAcc[i].request)
    && (forall i :: 0 <= i < |conn.toIni| && conn.toIni[i].Hello? ==> !conn.toIni[i].request)
  }

  /** Only acceptors answer HELLOs. */
  ghost predicate RepliesByAcceptor(net: Net) {
    forall k, i :: 0 <= k < |net.nodes| && 0 <= i < |net.nodes[k].tasks| && net.nodes[k].tasks[i].SayHello? ==>
      net.nodes[k].tasks[i].conn < |net.conns| && net.conns[net.nodes[k].tasks[i].conn].acc == k
  }

  ghost predicate Orderly(net: Net) {
    && (forall c :: 0 <= c < |net.conns| ==> HelloKinds(net.conns[c]))
    && RepliesByAcceptor(net)
  }

  ghost predicate WellFormed(net: Net) { Tables(net) && Orderly(net) }

  /** What any handler does to the session table: sessions only go away, and only session `c` may be identified. */
  ghost predicate PeersShrink(n: Node, n': Node, c: nat, from: nat) {
    && n'.id == n.id && n'.expected == n.expected
    && n'.peers.Keys <= n.peers.Keys
    && (forall d :: d in n'.peers ==>
          && n'.peers[d].initiator == n.peers[d].initiator
          && (n'.peers[d].pid == n.peers[d].pid || (d == c && n'.peers[d].pid == Some(from))))
  }

  lemma DedupDistinct(n: Node, c: nat)
    requires c in n.peers && n.peers[c].pid.Some? && DistinctPids(n.peers - {c})
    ensures DistinctPids(Dedup(n, c).peers)
    ensures Dedup(n, c).peers.Keys <= n.peers.Keys
    ensures forall d :: d in Dedup(n, c).peers ==> Dedup(n, c).peers[d] == n.peers[d]
    ensures Dedup(n, c) == n.(peers := Dedup(n, c).peers)
  {
    var twins := Twins(n.peers, c);
    forall d, e | d in n.peers && e in n.peers && d != c && e != c && d != e && n.peers[d].pid.Some?
      ensures n.peers[d].pid != n.peers[e].pid
    {
      assert d in n.peers - {c} && e in n.peers - {c};
    }
    if twins == {} {
      forall d | d in n.peers && d != c ensures n.peers[d].pid != n.peers[c].pid {
        assert d !in twins;
      }
    } else {
      TwinsAreFew(n.peers, c);
      forall d | d in twins ensures twins == {d} {
        OnlyMember(twins, d);
      }
      forall d | d in n.peers && d != c && d !in twins ensures n.peers[d].pid != n.peers[c].pid {
      }
    }
  }

  /** After the duplicate is gone, telling the server of the HELLO changes no session. */
  lemma HelloPeers(n: Node, c: nat)
    requires c in n.peers && n.peers[c].pid.Some?
    ensures OnPeerHello(n, c).peers == Dedup(n, c).peers
    ensures OnPeerHello(n, c).id == n.id && OnPeerHello(n, c).expected == n.expected
  {
    DedupOnlyPeers(n, c);
  }

  lemma DedupOnlyPeers(n: Node, c: nat)
    requires c in n.peers && n.peers[c].pid.Some?
    ensures Dedup(n, c) == n.(peers := Dedup(n, c).peers)
  {
  }

  lemma HelloShrinks(n: Node, c: nat, from: nat, role: Role, request: bool)
    requires c in n.peers && DistinctPids(n.peers)
    ensures PeersShrink(n, HandleHello(n, c, from, role, request), c, from)
    ensures DistinctPids(HandleHello(n, c, from, role, request).peers)
  {
    var known := n.(peers := n.peers[c := n.peers[c].(pid := Some(from), role := role)]);
    var asked := if request then Spawn(known, SayHello(c, known.role)) else known;
    assert asked.peers - {c} == n.peers - {c};
    DedupDistinct(asked, c);
    HelloPeers(asked, c);
    var n' := OnPeerHello(asked, c);
    assert n' == HandleHello(n, c, from, role, request);
    assert forall d :: d in n'.peers ==> n'.peers[d] == asked.peers[d];
  }

  lemma HandleShrinks(n: Node, c: nat, m: Msg)
    requires c in n.peers && DistinctPids(n.peers)
    ensures PeersShrink(n, Handle(n, c, m), c, m.from)
    ensures DistinctPids(Handle(n, c, m).peers)
  {
    if m.Hello? {
      HelloShrinks(n, c, m.from, m.role, m.request);
    }
  }

  /** A slice posts only over a connection of its own node, and nothing else changes. */
  lemma SlicePosts(net: Net, k: nat, i: nat, pick: nat)
    requires WellFormed(net) && Enabled(net, Run(k, i, pick))
    requires Sent(net.nodes[k], net.nodes[k].tasks[i], pick).Some?
    ensures pick < |net.conns| && (net.conns[pick].ini == k || net.conns[pick].acc == k)
    ensures var m := Sent(net.nodes[k], net.nodes[k].tasks[i], pick).value;
            var conns := Post(net.conns, k, pick, m);
            && m.from == k && |conns| == |net.conns| && ConnOk(|net.nodes|, conns[pick])
            && (forall d :: 0 <= d < |net.conns| ==>
                  && conns[d].ini == net.conns[d].ini && conns[d].acc == net.conns[d].acc
                  && conns[d].accepted == net.conns[d].accepted)
            && (forall d :: 0 <= d < |net.conns| && d != pick ==> conns[d] == net.conns[d])
  {
    var n := net.nodes[k];
    assert NodeOk(net.conns, k, n);
    if pick in n.peers {
      assert PeerOk(net.conns, k, pick, n.peers[pick]);
    }
    assert ConnOk(|net.nodes|, net.conns[pick]);
  }

  lemma RunTables(net: Net, k: nat, i: nat, pick: nat)
    requires WellFormed(net) && Enabled(net, Run(k, i, pick))
    ensures Tables(RunTask(net, k, i, pick))
  {
    var n := net.nodes[k];
    var net' := RunTask(net, k, i, pick);
    var sent := Sent(n, n.tasks[i], pick);
    if sent.Some? {
      SlicePosts(net, k, i, pick);
      forall j | 0 <= j < |net.nodes| ensures NodeOk(net'.conns, j, net'.nodes[j]) {
      }
    }
  }

  lemma DeliverTables(net: Net, c: nat, toAcceptor: bool)
    requires WellFormed(net) && Enabled(net, Deliver(c, toAcceptor))
    ensures Tables(DeliverStep(net, c, toAcceptor))
  {
    var net' := DeliverStep(net, c, toAcceptor);
    var conn := net.conns[c];
    var k, m := conn.Receiver(toAcceptor), conn.Queue(toAcceptor)[0];
    assert ConnOk(|net.nodes|, conn);
    HandleShrinks(net.nodes[k], c, m);
    forall j | 0 <= j < |net.nodes| ensures NodeOk(net'.conns, j, net'.nodes[j]) {
      if j == k {
        forall d | d in net'.nodes[k].peers ensures PeerOk(net'.conns, k, d, net'.nodes[k].peers[d]) {
          assert PeerOk(net'.conns, k, d, net.nodes[k].peers[d]);
        }
      }
    }
  }

  lemma DialTables(net: Net, k: nat, j: nat)
    requires WellFormed(net) && Enabled(net, Dial(k, j))
    ensures Tables(DialStep(net, k, j))
  {
    var net' := DialStep(net, k, j);
    forall i | 0 <= i < |net.nodes| ensures NodeOk(net'.conns, i, net'.nodes[i]) {
    }
  }

  lemma AcceptTables(net: Net, c: nat)
    requires WellFormed(net) && Enabled(net, Accept(c))
    ensures Tables(AcceptStep(net, c))
  {
    var net' := AcceptStep(net, c);
    assert ConnOk(|net.nodes|, net.conns[c]);
    forall i | 0 <= i < |net.nodes| ensures NodeOk(net'.conns, i, net'.nodes[i]) {
      if i == net.conns[c].acc {
        var before, after := net.nodes[i].peers, net'.nodes[i].peers;
        assert forall d :: d in after && d != c ==> d in before && after[d] == before[d];
        assert DistinctPids(after);
      }
    }
  }

  /** A handler that only lets sessions go keeps the network well formed. */
  lemma NodeChangeTables(net: Net, k: nat, n': Node)
    requires WellFormed(net) && k < |net.nodes|
    requires n'.id == k && n'.peers.Keys <= net.nodes[k].peers.Keys
    requires forall d :: d in n'.peers ==> n'.peers[d] == net.nodes[k].peers[d]
    ensures Tables(WithNode(net, k, n'))
  {
  }

  lemma StepTables(net: Net, step: Step)
    requires WellFormed(net) && Enabled(net, step)
    ensures Tables(Apply(net, step))
    ensures |Apply(net, step).nodes| == |net.nodes|
  {
    match step
    case Dial(k, j) => DialTables(net, k, j);
    case Accept(c) => AcceptTables(net, c);
    case Deliver(c, toAcceptor) => DeliverTables(net, c, toAcceptor);
    case Run(k, i, pick) => RunTables(net, k, i, pick);
    case Lose(c, atAcceptor) =>
      var k := net.conns[c].Receiver(atAcceptor);
      NodeChangeTables(net, k, OnPeerDisconnected(net.nodes[k], c));
    case Restart(k) => NodeChangeTables(net, k, FreshNode(k, net.nodes[k].expected));
    case GraceExpired(k) => NodeChangeTables(net, k, OnGraceExpired(net.nodes[k]));
    case HeartbeatLost(k) => NodeChangeTables(net, k, OnHeartbeatLost(net.nodes[k]));
    case HeartbeatDue(k) => NodeChangeTables(net, k, OnHeartbeatDue(net.nodes[k]));
    case ElectionTimeout(k) => NodeChangeTables(net, k, OnElectionTimeout(net.nodes[k]));
  }

  // ---------- requests and responses ----------

  /** No HELLO response is spawned. */
  ghost predicate NoNewReply(n: Node, n': Node) {
    forall i :: 0 <= i < |n'.tasks| && n'.tasks[i].SayHello? ==> n'.tasks[i] in n.tasks
  }

  lemma PeerHelloReply(n: Node, c: nat)
    requires c in n.peers && n.peers[c].pid.Some?
    ensures NoNewReply(n, OnPeerHello(n, c))
  {
    DedupOnlyPeers(n, c);
  }

  lemma QuietReply(n: Node, c: nat, x: Msg)
    requires c in n.peers && !x.Hello?
    ensures NoNewReply(n, Handle(n, c, x))
  {
  }

  lemma HelloTasks(n: Node, c: nat, x: Msg)
    requires c in n.peers
    ensures var n' := Handle(n, c, x);
            forall i :: 0 <= i < |n'.tasks| && n'.tasks[i].SayHello? ==>
                n'.tasks[i] in n.tasks || (x.Hello? && x.request && n'.tasks[i].conn == c)
  {
    if x.Hello? {
      var known := n.(peers := n.peers[c := n.peers[c].(pid := Some(x.from), role := x.role)]);
      var asked := if x.request then Spawn(known, SayHello(c, known.role)) else known;
      PeerHelloReply(asked, c);
    } else {
      QuietReply(n, c, x);
    }
  }

  lemma DeliverOrderly(net: Net, c: nat, toAcceptor: bool)
    requires WellFormed(net) && Enabled(net, Deliver(c, toAcceptor))
    ensures Orderly(DeliverStep(net, c, toAcceptor))
  {
    var conn := net.conns[c];
    var k, x := conn.Receiver(toAcceptor), conn.Queue(toAcceptor)[0];
    assert HelloKinds(conn);
    HelloTasks(net.nodes[k], c, x);
    assert HelloKinds(conn.WithQueue(toAcceptor, conn.Queue(toAcceptor)[1..]));
  }

  lemma RunOrderly(net: Net, k: nat, i: nat, pick: nat)
    requires WellFormed(net) && Enabled(net, Run(k, i, pick))
    ensures Orderly(RunTask(net, k, i, pick))
  {
    var net', n := RunTask(net, k, i, pick), net.nodes[k];
    var sent := Sent(n, n.tasks[i], pick);
    if sent.Some? {
      SlicePosts(net, k, i, pick);
      assert HelloKinds(net.conns[pick]) && ConnOk(|net.nodes|, net.conns[pick]);
      assert HelloKinds(net'.conns[pick]);
    }
  }

  lemma NodeOrderly(net: Net, k: nat, n': Node)
    requires Orderly(net) && k < |net.nodes| && NoNewReply(net.nodes[k], n')
    ensures Orderly(WithNode(net, k, n'))
  {
  }

  lemma LinkOrderly(net: Net, step: Step)
    requires WellFormed(net) && Enabled(net, step) && (step.Dial? || step.Accept?)
    ensures Orderly(Apply(net, step))
  {
  }

  lemma StepOrderly(net: Net, step: Step)
    requires WellFormed(net) && Enabled(net, step)
    ensures Orderly(Apply(net, step))
  {
    match step
    case Dial(_, _) => LinkOrderly(net, step);
    case Accept(_) => LinkOrderly(net, step);
    case Deliver(c, toAcceptor) => DeliverOrderly(net, c, toAcceptor);
    case Run(k, i, pick) => RunOrderly(net, k, i, pick);
    case Lose(c, atAcceptor) =>
      var k := net.conns[c].Receiver(atAcceptor);
      NodeOrderly(net, k, OnPeerDisconnected(net.nodes[k], c));
    case Restart(k) => NodeOrderly(net, k, FreshNode(k, net.nodes[k].expected));
    case GraceExpired(k) =>
      NodeOrderly(net, k, OnGraceExpired(net.nodes[k]));
    case HeartbeatLost(k) =>
      NodeOrderly(net, k, OnHeartbeatLost(net.nodes[k]));
    case HeartbeatDue(k) =>
      NodeOrderly(net, k, OnHeartbeatDue(net.nodes[k]));
    case ElectionTimeout(k) =>
      NodeOrderly(net, k, OnElectionTimeout(net.nodes[k]));
  }

  lemma StepWellFormed(net: Net, step: Step)
    requires WellFormed(net) && Enabled(net, step)
    ensures WellFormed(Apply(net, step))
    ensures |Apply(net, step).nodes| == |net.nodes|
  {
    StepTables(net, step);
    StepOrderly(net, step);
  }

  /** In every reachable network, at every node, identified sessions belong to distinct peers, namely to the nodes at
      the other end of their connections. */
  lemma {:induction false} RunWellFormedAt(size: nat, nets: seq<Net>, steps: seq<Step>, t: nat)
    requires IsRun(size, nets, steps) && t < |nets|
    ensures WellFormed(nets[t]) && |nets[t].nodes| == size
  {
    if t == 0 {
    } else {
      RunWellFormedAt(size, nets, steps, t - 1);
      StepWellFormed(nets[t - 1], steps[t - 1]);
      assert nets[t - 1 + 1] == Apply(nets[t - 1], steps[t - 1]);
    }
  }
}
