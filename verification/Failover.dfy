/** What keeps a cluster led: how a node notices that its Primary is gone, what it starts then, and that a node which
    nobody answers takes over. */
module Failover {
  import opened Wrappers
  import opened ServerNode
  import opened Network
  import opened Bully

  // ---------- what each event does ----------

  /** A round is begun unless one is in progress: the flags are set and the ELECTION broadcast is spawned. */
  ghost predicate RoundBegun(n: Node, n': Node) {
    && n'.electing && n'.role == n.role && n'.graceExpired == n.graceExpired
    && (if n.electing then n'.receivedAlive == n.receivedAlive && n'.tasks == n.tasks
        else !n'.receivedAlive && n'.tasks == n.tasks + [Begin(Elect)])
  }

  /** The node relies on a Primary other than itself. */
  predicate Follows(n: Node) { n.role == Backup && n.primaryAlive }

  /** Losing a session starts an election exactly when it is the session of the Primary that the node relies on. */
  lemma LossOfPrimary(n: Node, c: nat)
    requires c in n.peers
    ensures var n' := React(n, Lost(c));
            && n'.peers == n.peers - {c}
            && (Follows(n) && n.peers[c].role == Primary ==> !n'.primaryAlive && RoundBegun(n, n'))
            && (!(Follows(n) && n.peers[c].role == Primary) ==> n'.(peers := n.peers) == n)
  {
  }

  /** So does a missed heartbeat. */
  lemma SilenceOfPrimary(n: Node)
    ensures var n' := React(n, HeartbeatMissed);
            && n'.peers == n.peers
            && (Follows(n) ==> !n'.primaryAlive && RoundBegun(n, n'))
            && (!Follows(n) ==> n' == n)
  {
  }

  /** A PING shows that the Primary is alive, and nothing else. */
  lemma PingKeepsFollowing(n: Node, c: nat, from: nat)
    requires c in n.peers
    ensures var n' := React(n, Received(c, Ping(from))); n'.primaryAlive && n'.(primaryAlive := n.primaryAlive) == n
  {
  }

  /** The end of a round: without an ALIVE the node takes over and announces itself; with one it only stops waiting. */
  lemma RoundEnds(n: Node)
    ensures var n' := React(n, ElectionOver);
            && !n'.electing && n'.peers == n.peers
            && (Unanswered(n) ==> n'.role == Primary && n'.primaryAlive && n'.tasks == n.tasks + [Begin(Announce)])
            && (!Unanswered(n) ==> n'.(electing := n.electing) == n)
  {
  }

  /** An ELECTION of a higher id is answered and makes the node begin its own round; one of a lower id does nothing. */
  lemma ElectionIsTakenUp(n: Node, c: nat, from: nat)
    requires c in n.peers
    ensures var n' := React(n, Received(c, Election(from)));
            && (from > n.id ==> RoundBegun(n.(tasks := n.tasks + [SayAlive(from)]), n'))
            && (from <= n.id ==> n' == n)
            && n'.peers == n.peers && n'.primaryAlive == n.primaryAlive
  {
  }

  lemma AliveIsNoted(n: Node, c: nat, from: nat)
    requires c in n.peers
    ensures var n' := React(n, Received(c, Alive(from)));
            !Unanswered(n') && n'.electing == n.electing && n'.(receivedAlive := n.receivedAlive) == n
    ensures !n.electing ==> React(n, Received(c, Alive(from))) == n
  {
  }

  /** The sessions recorded as Primary are exactly those of peer `from`. */
  ghost predicate Records(n: Node, from: nat) {
    forall c :: c in n.peers ==> (n.peers[c].role == Primary <==> n.peers[c].pid == Some(from))
  }

  /** A COORDINATOR is accepted by all but a Primary with a lower id: the round ends, the node follows, and the
      announced node is recorded as the only Primary. */
  lemma CoordinatorIsAccepted(n: Node, c: nat, from: nat)
    requires c in n.peers
    ensures var n' := React(n, Received(c, Coordinator(from)));
            if n.role == Primary && from > n.id then n' == n.(tasks := n.tasks + [Begin(Announce)])
            else
              && Follows(n') && !n'.electing && !n'.receivedAlive && n'.tasks == n.tasks && Records(n', from)
              && n'.graceExpired == n.graceExpired && n'.peers.Keys == n.peers.Keys
              && forall d :: d in n.peers ==> n'.peers[d].(role := n.peers[d].role) == n.peers[d]
  {
  }

  /** So a node that has accepted an announcement begins an election when it loses the announced node, and only then. */
  lemma LosingTheAnnouncedPrimary(n: Node, c: nat, from: nat, d: nat)
    requires c in n.peers && d in n.peers && !(n.role == Primary && from > n.id)
    ensures var n' := React(n, Received(c, Coordinator(from)));
            && d in n'.peers
            && var lost := React(n', Lost(d));
               if n.peers[d].pid == Some(from) then Unanswered(lost) && lost.tasks == n.tasks + [Begin(Elect)]
               else !lost.electing && lost.tasks == n.tasks
  {
    CoordinatorIsAccepted(n, c, from);
    LossOfPrimary(React(n, Received(c, Coordinator(from))), d);
  }

  /** A Primary that yields to a HELLO follows the other from then on. */
  lemma YieldedNodeFollows(n: Node, c: nat, x: Msg)
    requires c in n.peers && n.role == Primary && x.Hello? && Handle(n, c, x).role == Backup
    ensures Follows(Handle(n, c, x))
  {
    var known := n.(peers := n.peers[c := n.peers[c].(pid := Some(x.from), role := x.role)]);
    PeerHelloYields(if x.request then Spawn(known, SayHello(c, known.role)) else known, c);
  }

  lemma PeerHelloYields(n: Node, c: nat)
    requires c in n.peers && n.peers[c].pid.Some? && n.role == Primary
    ensures OnPeerHello(n, c).role == Backup ==> OnPeerHello(n, c).primaryAlive
  {
    DedupOnlyPeers(n, c);
  }

  /** Nobody that the node has identified leads or has a lower id, and it has waited long enough or knows all its
      peers. */
  ghost predicate MayLead(n: Node) {
    && (n.graceExpired || |set c | c in n.peers && n.peers[c].pid.Some?| >= n.expected)
    && forall c :: c in n.peers && n.peers[c].pid.Some? ==> n.peers[c].role == Backup && n.peers[c].pid.value >= n.id
  }

  lemma RecomputePromotesIff(n: Node)
    ensures var n' := RecomputeRole(n);
            if n.role == Backup && MayLead(n)
            then n' == n.(role := Primary, primaryAlive := true, tasks := n.tasks + [Begin(Announce)])
            else n' == n
  {
    assert Identified(n.peers) == set c | c in n.peers && n.peers[c].pid.Some?;
  }

  /** The end of the grace period makes a Backup Primary exactly when it may lead. */
  lemma GracePromotesIff(n: Node)
    requires n.role == Backup
    ensures var n' := React(n, GraceOver);
            n'.graceExpired && n'.peers == n.peers && (n'.role == Primary <==> MayLead(n.(graceExpired := true)))
  {
    RecomputePromotesIff(n.(graceExpired := true));
  }

  /** A HELLO makes a Backup Primary exactly when the session is kept and the node may lead with the peers it then
      has. */
  lemma HelloPromotesIff(n: Node, c: nat, x: Msg)
    requires c in n.peers && x.Hello? && n.role == Backup
    ensures var n' := Handle(n, c, x);
            && n'.graceExpired == n.graceExpired && n'.expected == n.expected && n'.id == n.id
            && (n'.role == Primary <==> c in n'.peers && MayLead(n'))
  {
    var known := n.(peers := n.peers[c := n.peers[c].(pid := Some(x.from), role := x.role)]);
    var asked := if x.request then Spawn(known, SayHello(c, known.role)) else known;
    PeerHelloPromotesIff(asked, c);
  }

  lemma PeerHelloPromotesIff(n: Node, c: nat)
    requires c in n.peers && n.peers[c].pid.Some? && n.role == Backup
    ensures var n' := OnPeerHello(n, c);
            && n'.graceExpired == n.graceExpired && n'.expected == n.expected && n'.id == n.id
            && (n'.role == Primary <==> c in n'.peers && MayLead(n'))
  {
    DedupOnlyPeers(n, c);
    var kept := Dedup(n, c);
    RecomputePromotesIff(kept);
  }

  // ---------- broadcasts reach everybody ----------

  /** What a broadcast of that kind says. */
  predicate Says(kind: Kind, m: Msg, id: nat) {
    match kind
    case Announce => m == Coordinator(id)
    case Elect => m == Election(id)
    case Heartbeat => m == Ping(id)
  }

  /** A broadcast just spawned reaches every open session, an ELECTION every identified peer with a lower id: after two
      slices its message is at the end of the queue. */
  lemma BroadcastReaches(net: Net, k: nat, i: nat, c: nat, kind: Kind)
    requires WellFormed(net) && OpenAt(net, k, c) && i < |net.nodes[k].tasks| && net.nodes[k].tasks[i] == Begin(kind)
    requires kind == Elect ==> net.nodes[k].peers[c].pid.Some? && net.nodes[k].peers[c].pid.value < k
    ensures Enabled(net, Run(k, i, c)) && Enabled(Apply(net, Run(k, i, c)), Run(k, i, c))
    ensures var net' := Apply(Apply(net, Run(k, i, c)), Run(k, i, c));
            && c < |net.conns| == |net'.conns|
            && var q, q' := net.conns[c].Queue(net.conns[c].ini == k), net'.conns[c].Queue(net.conns[c].ini == k);
               |q'| == |q| + 1 && q'[..|q|] == q && Says(kind, q'[|q|], k)
  {
    assert NodeOk(net.conns, k, net.nodes[k]);
    assert PeerOk(net.conns, k, c, net.nodes[k].peers[c]);
    var net1 := Apply(net, Run(k, i, c));
    assert net1.nodes[k].tasks[i] == Continue(kind, net.nodes[k].peers.Keys) && net1.conns == net.conns;
    assert Sent(net1.nodes[k], net1.nodes[k].tasks[i], c) == Some(BroadcastMsg(kind, k));
  }

  /** A Primary, and only a Primary, sends heartbeats: the timer spawns a broadcast of PINGs. */
  lemma HeartbeatsAreSent(n: Node)
    ensures React(n, HeartbeatTime) == n.(tasks := if n.role == Primary then n.tasks + [Begin(Heartbeat)] else n.tasks)
  {
  }

  // ---------- taking over ----------

  /** A step that ends the wait of node `k`: an ALIVE or a COORDINATOR for it, its timer, or its restart. */
  ghost predicate EndsWait(net: Net, step: Step, k: nat)
    requires Enabled(net, step)
  {
    match step
    case Deliver(c, toAcceptor) =>
      && net.conns[c].Receiver(toAcceptor) == k
      && (net.conns[c].Queue(toAcceptor)[0].Alive? || net.conns[c].Queue(toAcceptor)[0].Coordinator?)
    case ElectionTimeout(j) => j == k
    case Restart(j) => j == k
    case _ => false
  }

  lemma HandlingKeepsWaiting(n: Node, c: nat, x: Msg)
    requires c in n.peers && Unanswered(n) && !x.Alive? && !x.Coordinator?
    ensures Unanswered(Handle(n, c, x))
  {
    if x.Hello? {
      var known := n.(peers := n.peers[c := n.peers[c].(pid := Some(x.from), role := x.role)]);
      HelloFlags(if x.request then Spawn(known, SayHello(c, known.role)) else known, c);
    }
  }

  lemma StepKeepsWaiting(net: Net, step: Step, k: nat)
    requires k < |net.nodes| && Enabled(net, step) && !EndsWait(net, step, k) && Unanswered(net.nodes[k])
    ensures k < |Apply(net, step).nodes| && Unanswered(Apply(net, step).nodes[k])
  {
    match step
    case Deliver(c, toAcceptor) =>
      if net.conns[c].Receiver(toAcceptor) == k {
        HandlingKeepsWaiting(net.nodes[k], c, net.conns[c].Queue(toAcceptor)[0]);
      }
    case GraceExpired(j) =>
      RecomputePromotesIff(net.nodes[j].(graceExpired := true));
    case _ =>
  }

  lemma {:induction false} WaitGoesOn(size: nat, nets: seq<Net>, steps: seq<Step>, t0: nat, t: nat, k: nat)
    requires IsRun(size, nets, steps) && t0 <= t < |nets| && k < |nets[t0].nodes| && Unanswered(nets[t0].nodes[k])
    requires forall i :: t0 <= i < t ==> !EndsWait(nets[i], steps[i], k)
    ensures k < |nets[t].nodes| && Unanswered(nets[t].nodes[k])
    decreases t
  {
    if t0 == t {
    } else {
      WaitGoesOn(size, nets, steps, t0, t - 1, k);
      assert !EndsWait(nets[t - 1], steps[t - 1], k);
      StepKeepsWaiting(nets[t - 1], steps[t - 1], k);
      assert nets[t - 1 + 1] == Apply(nets[t - 1], steps[t - 1]);
    }
  }

  /** Step `t` takes from node `k` the Primary that it follows, by a lost session or by silence. */
  ghost predicate LosesPrimary(net: Net, step: Step, k: nat)
    requires Enabled(net, step) && k < |net.nodes|
  {
    && Follows(net.nodes[k])
    && match step
       case Lose(c, atAcceptor) => net.conns[c].Receiver(atAcceptor) == k && net.nodes[k].peers[c].role == Primary
       case HeartbeatLost(j) => j == k
       case _ => false
  }

  /** Failover: in every run, a node that loses the Primary it follows begins a round, and if nobody answers it and
      nobody announces itself to it before its timer fires, it is Primary then and announces itself. */
  lemma UnansweredNodeTakesOver(size: nat, nets: seq<Net>, steps: seq<Step>, t0: nat, t: nat, k: nat)
    requires IsRun(size, nets, steps) && t0 < t < |steps| && k < |nets[t0].nodes|
    requires LosesPrimary(nets[t0], steps[t0], k) && !nets[t0].nodes[k].electing
    requires forall i :: t0 < i < t ==> !EndsWait(nets[i], steps[i], k)
    requires steps[t] == ElectionTimeout(k)
    ensures k < |nets[t0 + 1].nodes| && Begin(Elect) in nets[t0 + 1].nodes[k].tasks
    ensures k < |nets[t + 1].nodes| && nets[t + 1].nodes[k].role == Primary
    ensures Begin(Announce) in nets[t + 1].nodes[k].tasks
  {
    var n := nets[t0].nodes[k];
    assert nets[t0 + 1] == Apply(nets[t0], steps[t0]);
    if steps[t0].Lose? {
      LossOfPrimary(n, steps[t0].c);
    } else {
      SilenceOfPrimary(n);
    }
    var n' := nets[t0 + 1].nodes[k];
    assert n'.tasks[|n.tasks|] == Begin(Elect);
    WaitGoesOn(size, nets, steps, t0 + 1, t, k);
    assert nets[t + 1] == Apply(nets[t], steps[t]);
    RoundEnds(nets[t].nodes[k]);
    assert nets[t + 1].nodes[k].tasks[|nets[t].nodes[k].tasks|] == Begin(Announce);
  }
}
