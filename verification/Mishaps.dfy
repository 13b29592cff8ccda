/** Two runs of a cluster of two that show why the election theorems need their hypotheses. */
module Mishaps {
  import opened Wrappers
  import opened ServerNode
  import opened Network
  import opened Convergence
  import opened Reign
  import opened Bully

  ghost predicate RunEndsIn(nets: seq<Net>, steps: seq<Step>, net: Net) {
    IsRun(2, nets, steps) && nets[|steps|] == net
  }

  ghost predicate Reachable(net: Net) {
    exists nets, steps :: RunEndsIn(nets, steps, net)
  }

  lemma Extend(net: Net, step: Step, net': Net)
    requires Reachable(net) && Enabled(net, step) && net' == Apply(net, step)
    ensures Reachable(net')
  {
    var nets, steps :| RunEndsIn(nets, steps, net);
    assert RunEndsIn(nets + [net'], steps + [step], net');
  }

  /** A run that ends with `step`, from `net`. */
  lemma EndWith(net: Net, step: Step) returns (nets: seq<Net>, steps: seq<Step>)
    requires Reachable(net) && Enabled(net, step)
    ensures IsRun(2, nets, steps) && |steps| > 0
    ensures steps[|steps| - 1] == step && nets[|steps| - 1] == net && nets[|steps|] == Apply(net, step)
  {
    nets, steps :| RunEndsIn(nets, steps, net);
    nets, steps := nets + [Apply(net, step)], steps + [step];
  }

  // ---------- common beginning ----------

  function Two(n0: Node, n1: Node, toAcc: seq<Msg>, toIni: seq<Msg>): Net {
    Net([n0, n1], [Conn(1, 0, true, toAcc, toIni)])
  }

  const HELLO := Hello(1, Backup, true)

  /** Node 0 as Primary; its session is over the connection that node 1 has dialled. */
  function Leader(pid: Option<nat>, tasks: seq<Task>): Node {
    Node(0, 1, Primary, true, true, false, false, map[0 := Peer(false, pid, Backup)], tasks)
  }

  function Follower(alive: bool, electing: bool, peer: Peer, tasks: seq<Task>): Node {
    Node(1, 1, Backup, alive, false, electing, false, map[0 := peer], tasks)
  }

  const UNKNOWN := Peer(true, None, Backup)

  lemma Opening()
    ensures Reachable(Net([FreshNode(0, 1), FreshNode(1, 1)], []))
  {
    var start := Start(2);
    assert start == Net([FreshNode(0, 1), FreshNode(1, 1)], []);
    assert RunEndsIn([start], [], start);
  }

  /** Node 0 leads before node 1 dials it. */
  lemma Dialled()
    ensures Reachable(Two(Leader(None, [Begin(Announce)]), Follower(false, false, UNKNOWN, []), [HELLO], []))
  {
    Opening();
    var start := Net([FreshNode(0, 1), FreshNode(1, 1)], []);
    var alone := Node(0, 1, Primary, true, true, false, false, map[], [Begin(Announce)]);
    var led := Net([alone, FreshNode(1, 1)], []);
    assert [] + [Begin(Announce)] == [Begin(Announce)];
    assert start.nodes[0 := alone] == led.nodes;
    Extend(start, GraceExpired(0), led);
    var one := Follower(false, false, UNKNOWN, []);
    var dialled := Net([alone, one], [Conn(1, 0, false, [HELLO], [])]);
    assert map[][0 := UNKNOWN] == map[0 := UNKNOWN];
    assert led.nodes[1 := one] == dialled.nodes && [] + dialled.conns == dialled.conns;
    Extend(led, Dial(1, 0), dialled);
    var accepted := Two(Leader(None, [Begin(Announce)]), one, [HELLO], []);
    assert map[][0 := Peer(false, None, Backup)] == map[0 := Peer(false, None, Backup)];
    assert dialled.nodes[0 := accepted.nodes[0]] == accepted.nodes;
    assert dialled.conns[0 := accepted.conns[0]] == accepted.conns;
    Extend(dialled, Accept(0), accepted);
  }

  /** Its announcement is on the way to node 1. */
  lemma Announced()
    ensures Reachable(Two(Leader(None, [Continue(Announce, {})]), Follower(false, false, UNKNOWN, []), [HELLO],
                          [Coordinator(0)]))
  {
    Dialled();
    var one := Follower(false, false, UNKNOWN, []);
    var net0 := Two(Leader(None, [Begin(Announce)]), one, [HELLO], []);
    var net1 := Two(Leader(None, [Continue(Announce, {0})]), one, [HELLO], []);
    Slice(net0, net1, 0, 0, 0) by {
      assert map[0 := Peer(false, None, Backup)].Keys == {0};
    }
    var net2 := Two(Leader(None, [Continue(Announce, {})]), one, [HELLO], [Coordinator(0)]);
    assert {0} - {0} == {};
    assert [] + [Coordinator(0)] == [Coordinator(0)];
    Slice(net1, net2, 0, 0, 0);
  }

  /** One slice of the coroutine number `i` of node `k`, over connection 0. */
  lemma Slice(net: Net, net': Net, k: nat, i: nat, pick: nat)
    requires Reachable(net) && |net.nodes| == |net'.nodes| == 2 && |net.conns| == |net'.conns| == 1 && k < 2
    requires i < |net.nodes[k].tasks| && CanRun(net.nodes[k], net.nodes[k].tasks[i], pick) && pick == 0
    requires var n := net.nodes[k]; net'.nodes[k] == n.(tasks := n.tasks[i := Rest(n, n.tasks[i], pick)])
    requires net'.nodes[1 - k] == net.nodes[1 - k]
    requires match Sent(net.nodes[k], net.nodes[k].tasks[i], pick)
             case None => net'.conns == net.conns
             case Some(m) => net'.conns[0] == Post(net.conns, k, 0, m)[0]
    ensures Reachable(net')
  {
    var step := Run(k, i, pick);
    var end := Apply(net, step);
    assert end.nodes == net'.nodes && end.conns == net'.conns;
    Extend(net, step, net');
  }

  /** Delivery of the first message towards node `k`. */
  lemma Delivered(net: Net, net': Net, dir: bool)
    requires Reachable(net) && |net.nodes| == |net'.nodes| == 2 && |net.conns| == |net'.conns| == 1
    requires net.conns[0].ini == 1 && net.conns[0].acc == 0 && OpenAt(net, net.conns[0].Receiver(dir), 0)
    requires net.conns[0].Queue(dir) != []
    requires var k, q := net.conns[0].Receiver(dir), net.conns[0].Queue(dir);
             && net'.nodes[k] == Handle(net.nodes[k], 0, q[0]) && net'.nodes[1 - k] == net.nodes[1 - k]
             && net'.conns[0] == net.conns[0].WithQueue(dir, q[1..])
    ensures Reachable(net') && Enabled(net, Deliver(0, dir)) && Apply(net, Deliver(0, dir)) == net'
  {
    var end := Apply(net, Deliver(0, dir));
    assert end.nodes == net'.nodes && end.conns == net'.conns;
    Extend(net, Deliver(0, dir), net');
  }

  // ---------- a stale announcement ----------

  /** Node 0 restarts as Backup and node 1 becomes Primary, with the announcement still unread. */
  lemma Restarted()
    ensures Reachable(Two(FreshNode(0, 1), Promoted(), [HELLO], [Coordinator(0)]))
  {
    Announced();
    var one := Follower(false, false, UNKNOWN, []);
    var net0 := Two(Leader(None, [Continue(Announce, {})]), one, [HELLO], [Coordinator(0)]);
    var net1 := Two(FreshNode(0, 1), one, [HELLO], [Coordinator(0)]);
    assert net0.nodes[0 := FreshNode(0, 1)] == net1.nodes;
    Extend(net0, Restart(0), net1);
    var net2 := Two(FreshNode(0, 1), Promoted(), [HELLO], [Coordinator(0)]);
    assert [] + [Begin(Announce)] == [Begin(Announce)];
    assert OnGraceExpired(one) == Promoted();
    assert net1.nodes[1 := Promoted()] == net2.nodes;
    Extend(net1, GraceExpired(1), net2);
  }

  function Promoted(): Node { Node(1, 1, Primary, true, true, false, false, map[0 := UNKNOWN], [Begin(Announce)]) }

  /** "The lowest id wins" fails in a reachable network with established links: the unread announcement of node 0, which
      has been restarted and no longer leads, deposes the least and only Primary, and nobody is Primary. */
  lemma StaleAnnouncementDeposes() returns (nets: seq<Net>, steps: seq<Step>)
    ensures IsRun(2, nets, steps) && |steps| > 0 && Frozen(steps[|steps| - 1])
    ensures LeastPrimary(nets[|steps| - 1], 1) && Established(nets[|steps| - 1])
    ensures |nets[|steps|].nodes| == 2 && forall k :: 0 <= k < 2 ==> nets[|steps|].nodes[k].role == Backup
  {
    Restarted();
    var net := Two(FreshNode(0, 1), Promoted(), [HELLO], [Coordinator(0)]);
    assert !OpenAt(net, 0, 0);
    assert forall c, dir :: 0 <= c < 1 && Reign.Readable(net, c, dir) ==> net.conns[c].Queue(dir) == [Coordinator(0)];
    nets, steps := EndWith(net, Deliver(0, false));
  }

  // ---------- a late handshake ----------

  const KNOWN := Peer(true, Some(0), Primary)

  /** Node 1 hears of its Primary, then misses its heartbeats and begins an election, in which there is nobody to
      ask. */
  lemma Waiting()
    ensures Reachable(Two(Leader(None, [Continue(Announce, {})]),
                          Follower(false, true, UNKNOWN, [Continue(Elect, {})]), [HELLO], []))
  {
    Announced();
    var zero := Leader(None, [Continue(Announce, {})]);
    var net0 := Two(zero, Follower(false, false, UNKNOWN, []), [HELLO], [Coordinator(0)]);
    var net1 := Two(zero, Follower(true, false, UNKNOWN, []), [HELLO], []);
    assert NotePrimary(map[0 := UNKNOWN], 0) == map[0 := UNKNOWN];
    assert [Coordinator(0)][1..] == [];
    Delivered(net0, net1, false);
    var net2 := Two(zero, Follower(false, true, UNKNOWN, [Begin(Elect)]), [HELLO], []);
    assert [] + [Begin(Elect)] == [Begin(Elect)];
    assert net1.nodes[1 := net2.nodes[1]] == net2.nodes;
    Extend(net1, HeartbeatLost(1), net2);
    var net3 := Two(zero, Follower(false, true, UNKNOWN, [Continue(Elect, {0})]), [HELLO], []);
    assert map[0 := UNKNOWN].Keys == {0};
    Slice(net2, net3, 1, 0, 0);
    assert {0} - {0} == {};
    Slice(net3, Two(zero, Follower(false, true, UNKNOWN, [Continue(Elect, {})]), [HELLO], []), 1, 0, 0);
  }

  /** Only now do the two shake hands. */
  lemma ShakenHands()
    ensures Reachable(Two(Leader(Some(1), [Continue(Announce, {}), Finished]),
                          Follower(false, true, KNOWN, [Continue(Elect, {})]), [], []))
  {
    Waiting();
    var one := Follower(false, true, UNKNOWN, [Continue(Elect, {})]);
    var net0 := Two(Leader(None, [Continue(Announce, {})]), one, [HELLO], []);
    var net1 := Two(Leader(Some(1), [Continue(Announce, {}), SayHello(0, Primary)]), one, [], []);
    assert [HELLO][1..] == [];
    Delivered(net0, net1, true);
    var net2 := Two(Leader(Some(1), [Continue(Announce, {}), Finished]), one, [], [Hello(0, Primary, false)]);
    assert [] + [Hello(0, Primary, false)] == [Hello(0, Primary, false)];
    Slice(net1, net2, 0, 1, 0);
    assert [Hello(0, Primary, false)][1..] == [];
    Delivered(net2, Two(net2.nodes[0], Follower(false, true, KNOWN, [Continue(Elect, {})]), [], []), false);
  }

  /** A lower id that shakes hands while the node waits is not asked: the timer promotes node 1 after all traffic
      has been delivered, although node 0, lower, live and Primary, has shaken hands with it. */
  lemma LateHandshakeIsMissed() returns (nets: seq<Net>, steps: seq<Step>)
    ensures IsRun(2, nets, steps) && |steps| > 0 && steps[|steps| - 1] == ElectionTimeout(1)
    ensures var net, net' := nets[|steps| - 1], nets[|steps|];
            && |net.nodes| == |net'.nodes| == 2 && TrafficDelivered(net, 1) && Rival(net, 1, 0)
            && net.nodes[1].role == Backup && net'.nodes[1].role == Primary && net'.nodes[0].role == Primary
  {
    ShakenHands();
    var net := Two(Leader(Some(1), [Continue(Announce, {}), Finished]),
                   Follower(false, true, KNOWN, [Continue(Elect, {})]), [], []);
    assert !Electing(net.nodes[1], 0);
    nets, steps := EndWith(net, ElectionTimeout(1));
  }
}
