/** Duplicate connections: when two nodes dial each other, both ends keep the connection of the lower id. */
module Handshake {
  import opened Wrappers
  import opened ServerNode
  import opened Network

  // ---------- the handshake is never lost ----------

  ghost predicate HasHello(q: seq<Msg>) { exists i :: 0 <= i < |q| && q[i].Hello? }

  ghost predicate WillSayHello(n: Node, c: nat) {
    exists i :: 0 <= i < |n.tasks| && n.tasks[i].SayHello? && n.tasks[i].conn == c
  }

  /** An unidentified open end is still going to receive a HELLO: the acceptor from the queue, the initiator also by way
      of the acceptor's pending response. */
  ghost predicate HelloUnderWay(x: Node, y: Node, conn: Conn, c: nat) {
    && (!conn.accepted ==> HasHello(conn.toAcc))
    && (c in y.peers && y.peers[c].pid.None? ==> HasHello(conn.toAcc))
    && (conn.accepted && c in y.peers && c in x.peers && x.peers[c].pid.None? ==>
          HasHello(conn.toAcc) || WillSayHello(y, c) || HasHello(conn.toIni))
  }

  ghost predicate HandshakesGoOn(net: Net) {
    forall c :: 0 <= c < |net.conns| ==>
      var conn := net.conns[c];
      && conn.ini < |net.nodes| && conn.acc < |net.nodes|
      && HelloUnderWay(net.nodes[conn.ini], net.nodes[conn.acc], conn, c)
  }

  /** Sessions only close, and coroutines are only added unless all sessions are gone. */
  ghost predicate Closing(n: Node, n': Node) {
    && n'.peers.Keys <= n.peers.Keys
    && (forall c :: c in n'.peers && n'.peers[c].pid.None? ==> n.peers[c].pid.None?)
    && (n.tasks <= n'.tasks || n'.peers == map[])
  }

  lemma NodeKeeps(net: Net, k: nat, n': Node)
    requires HandshakesGoOn(net) && k < |net.nodes| && Closing(net.nodes[k], n')
    ensures HandshakesGoOn(WithNode(net, k, n'))
  {
  }

  lemma HelloTasksGrow(n: Node, c: nat)
    requires c in n.peers && n.peers[c].pid.Some?
    ensures n.tasks <= OnPeerHello(n, c).tasks
  {
    DedupOnlyPeers(n, c);
  }

  lemma HelloCloses(n: Node, c: nat, from: nat, role: Role, request: bool)
    requires c in n.peers && DistinctPids(n.peers)
    ensures var n' := HandleHello(n, c, from, role, request);
            && Closing(n, n')
            && (c in n'.peers ==> n'.peers[c].pid.Some?)
            && (request ==> WillSayHello(n', c))
  {
    var known := n.(peers := n.peers[c := n.peers[c].(pid := Some(from), role := role)]);
    var asked := if request then Spawn(known, SayHello(c, known.role)) else known;
    var n' := OnPeerHello(asked, c);
    assert n' == HandleHello(n, c, from, role, request);
    HelloTasksGrow(asked, c);
    HelloPeers(asked, c);
    DedupDistinct(asked, c) by { assert asked.peers - {c} == n.peers - {c}; }
    assert forall d :: d in n'.peers ==> n'.peers[d] == asked.peers[d];
    if request {
      assert asked.tasks[|n.tasks|] == SayHello(c, known.role);
      assert n'.tasks[|n.tasks|] == SayHello(c, known.role);
    }
  }

  lemma HandleCloses(n: Node, c: nat, x: Msg)
    requires c in n.peers && DistinctPids(n.peers)
    ensures Closing(n, Handle(n, c, x))
    ensures x.Hello? && c in Handle(n, c, x).peers ==> Handle(n, c, x).peers[c].pid.Some?
    ensures x.Hello? && x.request && c in Handle(n, c, x).peers ==> WillSayHello(Handle(n, c, x), c)
  {
    if x.Hello? {
      HelloCloses(n, c, x.from, x.role, x.request);
    }
  }

  lemma PopHello(q: seq<Msg>)
    requires q != [] && HasHello(q)
    ensures q[0].Hello? || HasHello(q[1..])
  {
  }

  ghost predicate Inv(net: Net) { WellFormed(net) && HandshakesGoOn(net) }

  // ---------- the handshake goes on ----------

  lemma DeliverGoesOn(net: Net, c: nat, toAcceptor: bool)
    requires Inv(net) && Enabled(net, Deliver(c, toAcceptor))
    ensures HandshakesGoOn(DeliverStep(net, c, toAcceptor))
  {
    var conn := net.conns[c];
    var k, q := conn.Receiver(toAcceptor), conn.Queue(toAcceptor);
    var n := net.nodes[k];
    assert NodeOk(net.conns, k, n) && PeerOk(net.conns, k, c, n.peers[c]);
    assert ConnOk(|net.nodes|, conn) && HelloKinds(conn);
    HandleCloses(n, c, q[0]);
    NodeKeeps(net, k, Handle(n, c, q[0]));
    if HasHello(q) {
      PopHello(q);
    }
  }

  lemma SliceGoesOn(net: Net, k: nat, i: nat, pick: nat, c: nat)
    requires Inv(net) && Enabled(net, Run(k, i, pick)) && c < |net.conns|
    ensures var net' := RunTask(net, k, i, pick);
            && |net'.conns| == |net.conns|
            && net'.conns[c].ini == net.conns[c].ini && net'.conns[c].acc == net.conns[c].acc
            && HelloUnderWay(net'.nodes[net.conns[c].ini], net'.nodes[net.conns[c].acc], net'.conns[c], c)
  {
    var net', n, conn := RunTask(net, k, i, pick), net.nodes[k], net.conns[c];
    var sent := Sent(n, n.tasks[i], pick);
    if sent.Some? {
      SlicePosts(net, k, i, pick);
    }
    assert ConnOk(|net.nodes|, conn);
    HelloPrefix(conn.toAcc, net'.conns[c].toAcc);
    HelloPrefix(conn.toIni, net'.conns[c].toIni);
    var y, y' := net.nodes[conn.acc], net'.nodes[conn.acc];
    if WillSayHello(y, c) && c in y.peers {
      var j :| 0 <= j < |y.tasks| && y.tasks[j].SayHello? && y.tasks[j].conn == c;
      if k != conn.acc || j != i {
        assert y'.tasks[j] == y.tasks[j];
      } else {
        assert sent.Some? && sent.value.Hello?;
        assert net'.conns[c].toIni == conn.toIni + [sent.value];
        assert net'.conns[c].toIni[|conn.toIni|].Hello?;
      }
    }
  }

  lemma HelloPrefix(q: seq<Msg>, q': seq<Msg>)
    requires q <= q'
    ensures HasHello(q) ==> HasHello(q')
  {
  }

  lemma DialGoesOn(net: Net, k: nat, j: nat)
    requires Inv(net) && Enabled(net, Dial(k, j))
    ensures HandshakesGoOn(DialStep(net, k, j))
  {
    var net' := DialStep(net, k, j);
    forall c | 0 <= c < |net'.conns|
      ensures HelloUnderWay(net'.nodes[net'.conns[c].ini], net'.nodes[net'.conns[c].acc], net'.conns[c], c)
    {
      if c == |net.conns| {
        assert net'.conns[c].toAcc[0].Hello?;
        assert NodeOk(net.conns, j, net.nodes[j]);
        assert c !in net.nodes[j].peers;
      }
    }
  }

  lemma AcceptGoesOn(net: Net, c: nat)
    requires Inv(net) && Enabled(net, Accept(c))
    ensures HandshakesGoOn(AcceptStep(net, c))
  {
  }

  lemma TimersClose(n: Node)
    ensures Closing(n, OnGraceExpired(n)) && Closing(n, OnHeartbeatLost(n))
    ensures Closing(n, OnHeartbeatDue(n)) && Closing(n, OnElectionTimeout(n))
    ensures forall c :: c in n.peers ==> Closing(n, OnPeerDisconnected(n, c))
  {
  }

  lemma StepGoesOn(net: Net, step: Step)
    requires Inv(net) && Enabled(net, step)
    ensures HandshakesGoOn(Apply(net, step))
  {
    match step
    case Dial(k, j) => DialGoesOn(net, k, j);
    case Accept(c) => AcceptGoesOn(net, c);
    case Deliver(c, toAcceptor) => DeliverGoesOn(net, c, toAcceptor);
    case Run(k, i, pick) =>
      forall c | 0 <= c < |net.conns|
        ensures var net' := RunTask(net, k, i, pick);
                && |net'.conns| == |net.conns|
                && HelloUnderWay(net'.nodes[net'.conns[c].ini], net'.nodes[net'.conns[c].acc], net'.conns[c], c)
      {
        SliceGoesOn(net, k, i, pick, c);
      }
    case Lose(c, atAcceptor) =>
      var k := net.conns[c].Receiver(atAcceptor);
      TimersClose(net.nodes[k]);
      NodeKeeps(net, k, OnPeerDisconnected(net.nodes[k], c));
    case Restart(k) => NodeKeeps(net, k, FreshNode(k, net.nodes[k].expected));
    case GraceExpired(k) =>
      TimersClose(net.nodes[k]);
      NodeKeeps(net, k, OnGraceExpired(net.nodes[k]));
    case HeartbeatLost(k) =>
      TimersClose(net.nodes[k]);
      NodeKeeps(net, k, OnHeartbeatLost(net.nodes[k]));
    case HeartbeatDue(k) =>
      TimersClose(net.nodes[k]);
      NodeKeeps(net, k, OnHeartbeatDue(net.nodes[k]));
    case ElectionTimeout(k) =>
      TimersClose(net.nodes[k]);
      NodeKeeps(net, k, OnElectionTimeout(net.nodes[k]));
  }

  lemma StepInv(net: Net, step: Step)
    requires Inv(net) && Enabled(net, step)
    ensures Inv(Apply(net, step))
  {
    StepWellFormed(net, step);
    StepGoesOn(net, step);
  }

  lemma {:induction false} RunInv(size: nat, nets: seq<Net>, steps: seq<Step>, t: nat)
    requires IsRun(size, nets, steps) && t < |nets|
    ensures Inv(nets[t])
  {
    if t == 0 {
      RunWellFormedAt(size, nets, steps, 0);
    } else {
      RunInv(size, nets, steps, t - 1);
      StepInv(nets[t - 1], steps[t - 1]);
      assert nets[t - 1 + 1] == Apply(nets[t - 1], steps[t - 1]);
    }
  }

  // ---------- which connection is kept ----------

  /** No restart, nobody dials the same node twice, and an end loses a connection only when the other end has closed
      it. */
  ghost predicate Tidy(net: Net, step: Step) {
    match step
    case Lose(c, atAcceptor) =>
      c < |net.conns| && net.conns[c].accepted && !OpenAt(net, net.conns[c].Sender(atAcceptor), c)
    case Restart(_) => false
    case Dial(k, j) => forall c :: 0 <= c < |net.conns| ==> !(net.conns[c].ini == k && net.conns[c].acc == j)
    case _ => true
  }

  predicate SameDial(x: Conn, y: Conn) { x.ini == y.ini && x.acc == y.acc }

  ghost predicate DialledOnce(net: Net) {
    forall c, d :: 0 <= c < |net.conns| && 0 <= d < |net.conns| && SameDial(net.conns[c], net.conns[d]) ==> c == d
  }

  /** Every connection dialled by the lower of its two ids is open at its initiator and, once accepted, at its
      acceptor. */
  ghost predicate LowKept(net: Net) {
    forall c :: 0 <= c < |net.conns| && net.conns[c].ini < net.conns[c].acc ==>
      OpenAt(net, net.conns[c].ini, c) && (net.conns[c].accepted ==> OpenAt(net, net.conns[c].acc, c))
  }

  /** A HELLO handled on any session closes no connection of the lower id. */
  lemma HelloKeepsLow(net: Net, k: nat, c: nat, x: Msg, low: nat)
    requires WellFormed(net) && DialledOnce(net) && OpenAt(net, k, c) && OpenAt(net, k, low)
    requires x.Hello? && x.from == net.conns[c].Other(k)
    requires low < |net.conns| && net.conns[low].ini < net.conns[low].acc
    ensures low in Handle(net.nodes[k], c, x).peers
  {
    var n := net.nodes[k];
    var known := n.(peers := n.peers[c := n.peers[c].(pid := Some(x.from), role := x.role)]);
    var asked := if x.request then Spawn(known, SayHello(c, known.role)) else known;
    assert NodeOk(net.conns, k, n);
    assert PeerOk(net.conns, k, c, n.peers[c]) && PeerOk(net.conns, k, low, n.peers[low]);
    HelloPeers(asked, c);
    DedupKeepsLow(net, k, asked, c, low);
  }

  lemma HandlingKeepsLow(net: Net, k: nat, c: nat, x: Msg, low: nat)
    requires WellFormed(net) && DialledOnce(net) && OpenAt(net, k, c) && OpenAt(net, k, low)
    requires x.from == net.conns[c].Other(k)
    requires low < |net.conns| && net.conns[low].ini < net.conns[low].acc
    ensures low in Handle(net.nodes[k], c, x).peers
  {
    if x.Hello? {
      HelloKeepsLow(net, k, c, x, low);
    }
  }

  lemma DedupKeepsLow(net: Net, k: nat, asked: Node, c: nat, low: nat)
    requires WellFormed(net) && DialledOnce(net) && asked.id == k
    requires c in asked.peers && low in asked.peers && low < |net.conns| && net.conns[low].ini < net.conns[low].acc
    requires forall d :: d in asked.peers ==> PeerOk(net.conns, k, d, asked.peers[d])
    requires asked.peers[c].pid.Some?
    ensures low in Dedup(asked, c).peers
  {
    var twins := Twins(asked.peers, c);
    forall d | d in twins
      ensures InitiatorId(asked, asked.peers[d]) == net.conns[d].ini
      ensures net.conns[d].ini == net.conns[c].acc && net.conns[d].acc == net.conns[c].ini
    {
      assert PeerOk(net.conns, k, c, asked.peers[c]) && PeerOk(net.conns, k, d, asked.peers[d]);
    }
  }

  /** Connections keep their ends, and every session over a connection of the lower id that was open stays open. */
  ghost predicate KeepsLowOpen(net: Net, net': Net) {
    && |net'.conns| == |net.conns| && |net'.nodes| == |net.nodes|
    && (forall c :: 0 <= c < |net.conns| ==>
          && net'.conns[c].ini == net.conns[c].ini && net'.conns[c].acc == net.conns[c].acc
          && net'.conns[c].accepted == net.conns[c].accepted)
    && (forall k, c: nat :: c < |net.conns| && net.conns[c].ini < net.conns[c].acc && OpenAt(net, k, c) ==>
          OpenAt(net', k, c))
  }

  lemma LowStaysKept(net: Net, net': Net)
    requires DialledOnce(net) && LowKept(net) && KeepsLowOpen(net, net')
    ensures DialledOnce(net') && LowKept(net')
  {
  }

  lemma DeliverKeepsLow(net: Net, c: nat, toAcceptor: bool)
    requires WellFormed(net) && DialledOnce(net) && Enabled(net, Deliver(c, toAcceptor))
    ensures KeepsLowOpen(net, DeliverStep(net, c, toAcceptor))
  {
    var conn := net.conns[c];
    var k, x := conn.Receiver(toAcceptor), conn.Queue(toAcceptor)[0];
    assert ConnOk(|net.nodes|, conn);
    forall low: nat | low < |net.conns| && net.conns[low].ini < net.conns[low].acc && OpenAt(net, k, low)
      ensures low in Handle(net.nodes[k], c, x).peers
    {
      HandlingKeepsLow(net, k, c, x, low);
    }
    NodeKeepsLow(net, k, Handle(net.nodes[k], c, x), c, conn.WithQueue(toAcceptor, conn.Queue(toAcceptor)[1..]));
  }

  lemma NodeKeepsLow(net: Net, k: nat, n': Node, c: nat, conn': Conn)
    requires k < |net.nodes| && c < |net.conns|
    requires conn'.ini == net.conns[c].ini && conn'.acc == net.conns[c].acc && conn'.accepted == net.conns[c].accepted
    requires forall low: nat :: low < |net.conns| && net.conns[low].ini < net.conns[low].acc && OpenAt(net, k, low) ==>
               low in n'.peers
    ensures KeepsLowOpen(net, Net(net.nodes[k := n'], net.conns[c := conn']))
  {
  }

  lemma RunKeepsLow(net: Net, k: nat, i: nat, pick: nat)
    requires WellFormed(net) && Enabled(net, Run(k, i, pick))
    ensures KeepsLowOpen(net, RunTask(net, k, i, pick))
  {
  }

  lemma TimersKeepLow(net: Net, k: nat, n': Node)
    requires DialledOnce(net) && LowKept(net) && k < |net.nodes| && n'.peers == net.nodes[k].peers
    ensures DialledOnce(WithNode(net, k, n')) && LowKept(WithNode(net, k, n'))
  {
  }

  lemma DialKeepsLow(net: Net, k: nat, j: nat)
    requires WellFormed(net) && DialledOnce(net) && LowKept(net) && Enabled(net, Dial(k, j)) && Tidy(net, Dial(k, j))
    ensures DialledOnce(DialStep(net, k, j)) && LowKept(DialStep(net, k, j))
  {
  }

  lemma AcceptKeepsLow(net: Net, c: nat)
    requires WellFormed(net) && DialledOnce(net) && LowKept(net) && Enabled(net, Accept(c))
    ensures DialledOnce(AcceptStep(net, c)) && LowKept(AcceptStep(net, c))
  {
  }

  /** An end that reads the other end's close loses no connection of the lower id: those are open at both ends. */
  lemma LossKeepsLow(net: Net, c: nat, atAcceptor: bool)
    requires WellFormed(net) && DialledOnce(net) && LowKept(net)
    requires Enabled(net, Lose(c, atAcceptor)) && Tidy(net, Lose(c, atAcceptor))
    ensures DialledOnce(Apply(net, Lose(c, atAcceptor))) && LowKept(Apply(net, Lose(c, atAcceptor)))
  {
    var k := net.conns[c].Receiver(atAcceptor);
    assert !(net.conns[c].ini < net.conns[c].acc);
    CloseKeepsLow(net, k, c, OnPeerDisconnected(net.nodes[k], c));
    LowStaysKept(net, WithNode(net, k, OnPeerDisconnected(net.nodes[k], c)));
  }

  lemma CloseKeepsLow(net: Net, k: nat, c: nat, n': Node)
    requires k < |net.nodes| && c < |net.conns| && !(net.conns[c].ini < net.conns[c].acc)
    requires n'.peers == net.nodes[k].peers - {c}
    ensures KeepsLowOpen(net, WithNode(net, k, n'))
  {
  }

  lemma TidyKeepsLow(net: Net, step: Step)
    requires WellFormed(net) && DialledOnce(net) && LowKept(net) && Enabled(net, step) && Tidy(net, step)
    ensures DialledOnce(Apply(net, step)) && LowKept(Apply(net, step))
  {
    match step
    case Dial(k, j) => DialKeepsLow(net, k, j);
    case Accept(c) => AcceptKeepsLow(net, c);
    case Deliver(c, toAcceptor) =>
      DeliverKeepsLow(net, c, toAcceptor);
      LowStaysKept(net, DeliverStep(net, c, toAcceptor));
    case Lose(c, atAcceptor) => LossKeepsLow(net, c, atAcceptor);
    case Run(k, i, pick) =>
      RunKeepsLow(net, k, i, pick);
      LowStaysKept(net, RunTask(net, k, i, pick));
    case GraceExpired(k) => TimersKeepLow(net, k, OnGraceExpired(net.nodes[k]));
    case HeartbeatLost(k) => TimersKeepLow(net, k, OnHeartbeatLost(net.nodes[k]));
    case HeartbeatDue(k) => TimersKeepLow(net, k, OnHeartbeatDue(net.nodes[k]));
    case ElectionTimeout(k) => TimersKeepLow(net, k, OnElectionTimeout(net.nodes[k]));
  }

  lemma {:induction false} LowStaysOpen(size: nat, nets: seq<Net>, steps: seq<Step>, t: nat)
    requires IsRun(size, nets, steps) && t < |nets|
    requires forall i :: 0 <= i < t ==> Tidy(nets[i], steps[i])
    ensures DialledOnce(nets[t]) && LowKept(nets[t])
  {
    if t == 0 {
    } else {
      LowStaysOpen(size, nets, steps, t - 1);
      RunWellFormedAt(size, nets, steps, t - 1);
      assert Tidy(nets[t - 1], steps[t - 1]);
      TidyKeepsLow(nets[t - 1], steps[t - 1]);
      assert nets[t - 1 + 1] == Apply(nets[t - 1], steps[t - 1]);
    }
  }

  ghost predicate HellosDelivered(net: Net, c: nat)
    requires c < |net.conns| && net.conns[c].acc < |net.nodes|
  {
    !HasHello(net.conns[c].toAcc) && !HasHello(net.conns[c].toIni) && !WillSayHello(net.nodes[net.conns[c].acc], c)
  }

  /** One end has closed the connection and the other has not yet noticed. */
  ghost predicate HalfOpen(net: Net, c: nat)
    requires c < |net.conns|
  {
    OpenAt(net, net.conns[c].ini, c) != OpenAt(net, net.conns[c].acc, c)
  }

  /** Deduplication agrees: when `a` < `b` have dialled each other, over connections `low` and `high`, then in whatever
      order the HELLOs were handled, both ends keep `low`. Once the HELLOs of both connections have been delivered,
      `high` is closed at one end at least, and at both as soon as neither end is left alone with it. */
  lemma BothKeepTheLowerDial(size: nat, nets: seq<Net>, steps: seq<Step>, t: nat, low: nat, high: nat)
    requires IsRun(size, nets, steps) && t < |nets|
    requires forall i :: 0 <= i < t ==> Tidy(nets[i], steps[i])
    requires low < |nets[t].conns| && high < |nets[t].conns|
    requires var l, h := nets[t].conns[low], nets[t].conns[high];
             l.accepted && h.accepted && l.ini < l.acc && h.ini == l.acc && h.acc == l.ini
    ensures OpenAt(nets[t], nets[t].conns[low].ini, low) && OpenAt(nets[t], nets[t].conns[low].acc, low)
    ensures nets[t].conns[low].acc < |nets[t].nodes| && nets[t].conns[high].acc < |nets[t].nodes|
    ensures HellosDelivered(nets[t], low) && HellosDelivered(nets[t], high) ==>
              !OpenAt(nets[t], nets[t].conns[high].ini, high) || !OpenAt(nets[t], nets[t].conns[high].acc, high)
    ensures HellosDelivered(nets[t], low) && HellosDelivered(nets[t], high) && !HalfOpen(nets[t], high) ==>
              !OpenAt(nets[t], nets[t].conns[high].ini, high) && !OpenAt(nets[t], nets[t].conns[high].acc, high)
  {
    LowStaysOpen(size, nets, steps, t);
    RunInv(size, nets, steps, t);
    var net := nets[t];
    var l, h := net.conns[low], net.conns[high];
    assert HelloUnderWay(net.nodes[l.ini], net.nodes[l.acc], l, low);
    assert HelloUnderWay(net.nodes[h.ini], net.nodes[h.acc], h, high);
    var n := net.nodes[l.ini];
    assert NodeOk(net.conns, l.ini, n) && PeerOk(net.conns, l.ini, low, n.peers[low]);
    if high in n.peers {
      assert PeerOk(net.conns, l.ini, high, n.peers[high]);
    }
  }
}
