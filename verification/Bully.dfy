/** The election proper: a node that is promoted by its election timer, after the round's traffic has been delivered,
    has no live peer with a lower id. */
module Bully {
  import opened Wrappers
  import opened ServerNode
  import opened Network
  import Handshake

  /** `conn` joins `a` to a lower id. */
  predicate JoinsLower(conn: Conn, a: nat) {
    (conn.ini == a || conn.acc == a) && conn.Other(a) < a
  }

  /** No HELLO between `a` and a lower id is handled while `a` waits for an ALIVE. Timers, losses, restarts, new
      connections and all other messages are free. */
  ghost predicate NoLateHandshake(net: Net, step: Step, a: nat)
    requires Enabled(net, step)
  {
    match step
    case Deliver(c, toAcceptor) =>
      net.conns[c].Queue(toAcceptor)[0].Hello? && JoinsLower(net.conns[c], a) && a < |net.nodes| ==>
        !Unanswered(net.nodes[a])
    case _ => true
  }

  /** Connection `c` joins `a` to a lower id, is open at both ends and each end knows the other. */
  ghost predicate Rival(net: Net, a: nat, c: nat) {
    && c < |net.conns| && (net.conns[c].ini == a || net.conns[c].acc == a)
    && var b := net.conns[c].Other(a);
       && b < a && OpenAt(net, a, c) && OpenAt(net, b, c)
       && net.nodes[a].peers[c].pid == Some(b) && net.nodes[b].peers[c].pid == Some(a)
  }

  predicate Elects(t: Task, c: nat) {
    t == Begin(Elect) || (t.Continue? && t.kind == Elect && c in t.todo)
  }

  ghost predicate Electing(n: Node, c: nat) {
    exists i :: 0 <= i < |n.tasks| && Elects(n.tasks[i], c)
  }

  ghost predicate HasElection(q: seq<Msg>) { exists i :: 0 <= i < |q| && q[i].Election? }

  ghost predicate HasAlive(q: seq<Msg>) { exists i :: 0 <= i < |q| && q[i].Alive? }

  /** The question or the answer is still on its way between `a` and its rival on `c`. */
  ghost predicate Pursued(net: Net, a: nat, c: nat)
    requires a < |net.nodes| && c < |net.conns| && net.conns[c].Other(a) < |net.nodes|
  {
    var conn := net.conns[c];
    || Electing(net.nodes[a], c)
    || HasElection(conn.Queue(conn.ini == a))
    || SayAlive(a) in net.nodes[conn.Other(a)].tasks
    || HasAlive(conn.Queue(conn.ini != a))
  }

  ghost predicate Unanswered(n: Node) { n.electing && !n.receivedAlive }

  /** While `a` waits without an ALIVE, every rival is still being asked or answering. */
  ghost predicate Pursuit(net: Net, a: nat) {
    a < |net.nodes| && Unanswered(net.nodes[a]) ==> forall c: nat :: Rival(net, a, c) ==> Pursued(net, a, c)
  }

  // ---------- node steps ----------

  /** Sessions only go, nobody is identified anew but over the sessions `met`, coroutines are only added unless all
      sessions are gone, and a round is begun only together with its ELECTION coroutine. */
  ghost predicate Steady(n: Node, n': Node, met: set<nat>) {
    && n'.id == n.id && (n.tasks <= n'.tasks || n'.peers == map[])
    && n'.peers.Keys <= n.peers.Keys
    && (forall c :: c in n'.peers && c !in met ==> n'.peers[c].pid == n.peers[c].pid)
    && (Unanswered(n') ==> Unanswered(n) || Begin(Elect) in n'.tasks)
  }

  lemma QuietSteady(n: Node, c: nat, x: Msg)
    requires c in n.peers && !x.Hello?
    ensures Steady(n, Handle(n, c, x), {})
    ensures x.Alive? ==> !Unanswered(Handle(n, c, x))
    ensures x.Election? && x.from > n.id ==> SayAlive(x.from) in Handle(n, c, x).tasks
  {
  }

  lemma HelloFlags(n: Node, c: nat)
    requires c in n.peers && n.peers[c].pid.Some?
    ensures Unanswered(OnPeerHello(n, c)) <==> Unanswered(n)
  {
    DedupOnlyPeers(n, c);
  }

  lemma HelloSteady(n: Node, c: nat, x: Msg)
    requires c in n.peers && x.Hello? && DistinctPids(n.peers)
    ensures Steady(n, Handle(n, c, x), {c})
    ensures Unanswered(Handle(n, c, x)) <==> Unanswered(n)
  {
    Handshake.HandleCloses(n, c, x);
    HandleShrinks(n, c, x);
    var known := n.(peers := n.peers[c := n.peers[c].(pid := Some(x.from), role := x.role)]);
    HelloFlags(if x.request then Spawn(known, SayHello(c, known.role)) else known, c);
  }

  lemma TimersSteady(n: Node)
    ensures Steady(n, OnGraceExpired(n), {}) && Steady(n, OnHeartbeatLost(n), {})
    ensures Steady(n, OnHeartbeatDue(n), {}) && Steady(n, OnElectionTimeout(n), {})
  {
  }

  lemma LossSteady(n: Node, c: nat)
    requires c in n.peers
    ensures Steady(n, OnPeerDisconnected(n, c), {})
  {
  }

  lemma SteadyRival(net: Net, k: nat, n': Node, met: set<nat>, a: nat, c: nat)
    requires WellFormed(net) && k < |net.nodes| && Steady(net.nodes[k], n', met)
    requires Rival(WithNode(net, k, n'), a, c) && c !in met
    ensures Rival(net, a, c)
  {
  }

  /** A steady change of one node keeps the pursuit on connection `c`. */
  lemma SteadyPursued(net: Net, k: nat, n': Node, met: set<nat>, a: nat, c: nat)
    requires WellFormed(net) && k < |net.nodes| && Steady(net.nodes[k], n', met)
    requires Rival(net, a, c) && Rival(WithNode(net, k, n'), a, c) && Unanswered(WithNode(net, k, n').nodes[a])
    requires Pursuit(net, a)
    ensures Pursued(WithNode(net, k, n'), a, c)
  {
  }

  lemma NodeKeepsPursuit(net: Net, k: nat, n': Node, met: set<nat>, a: nat)
    requires WellFormed(net) && k < |net.nodes| && Steady(net.nodes[k], n', met) && Pursuit(net, a)
    requires a < |net.nodes| && Unanswered(WithNode(net, k, n').nodes[a]) ==>
               forall c :: c in met && c < |net.conns| ==> !JoinsLower(net.conns[c], a)
    ensures Pursuit(WithNode(net, k, n'), a)
  {
    var net' := WithNode(net, k, n');
    if a < |net.nodes| && Unanswered(net'.nodes[a]) {
      forall c: nat | Rival(net', a, c) ensures Pursued(net', a, c) {
        SteadyRival(net, k, n', met, a, c);
        SteadyPursued(net, k, n', met, a, c);
      }
    }
  }

  // ---------- deliveries ----------

  lemma PopKeepsPursuit(net: Net, d: nat, toAcceptor: bool, a: nat)
    requires d < |net.conns| && net.conns[d].Queue(toAcceptor) != [] && ConnOk(|net.nodes|, net.conns[d])
    requires Pursuit(net, a)
    requires var conn, x := net.conns[d], net.conns[d].Queue(toAcceptor)[0];
             && (x.Alive? && conn.Receiver(toAcceptor) == a ==> !Unanswered(net.nodes[a]))
             && (x.Election? && x.from > conn.Receiver(toAcceptor) ==>
                   SayAlive(x.from) in net.nodes[conn.Receiver(toAcceptor)].tasks)
    ensures var conn := net.conns[d];
            Pursuit(Net(net.nodes, net.conns[d := conn.WithQueue(toAcceptor, conn.Queue(toAcceptor)[1..])]), a)
  {
    var conn := net.conns[d];
    var net' := Net(net.nodes, net.conns[d := conn.WithQueue(toAcceptor, conn.Queue(toAcceptor)[1..])]);
    if a < |net.nodes| && Unanswered(net.nodes[a]) {
      forall c: nat | Rival(net', a, c) ensures Pursued(net', a, c) {
        assert Rival(net, a, c);
      }
    }
  }

  lemma DeliverKeepsPursuit(net: Net, d: nat, toAcceptor: bool, a: nat)
    requires WellFormed(net) && Pursuit(net, a)
    requires Enabled(net, Deliver(d, toAcceptor)) && NoLateHandshake(net, Deliver(d, toAcceptor), a)
    ensures Pursuit(DeliverStep(net, d, toAcceptor), a)
  {
    var conn := net.conns[d];
    var k, x := conn.Receiver(toAcceptor), conn.Queue(toAcceptor)[0];
    assert ConnOk(|net.nodes|, conn) && NodeOk(net.conns, k, net.nodes[k]);
    var n' := Handle(net.nodes[k], d, x);
    if x.Hello? {
      HelloSteady(net.nodes[k], d, x);
      NodeKeepsPursuit(net, k, n', {d}, a);
    } else {
      QuietSteady(net.nodes[k], d, x);
      NodeKeepsPursuit(net, k, n', {}, a);
    }
    PopKeepsPursuit(WithNode(net, k, n'), d, toAcceptor, a);
  }

  // ---------- new connections ----------

  lemma DialKeepsPursuit(net: Net, k: nat, j: nat, a: nat)
    requires WellFormed(net) && Pursuit(net, a) && Enabled(net, Dial(k, j))
    ensures Pursuit(DialStep(net, k, j), a)
  {
    var net' := DialStep(net, k, j);
    forall c: nat | Rival(net', a, c) ensures Rival(net, a, c) && Pursued(net, a, c) ==> Pursued(net', a, c) {
    }
    forall c: nat | Rival(net', a, c) ensures Rival(net, a, c) {
    }
  }

  lemma AcceptKeepsPursuit(net: Net, d: nat, a: nat)
    requires WellFormed(net) && Pursuit(net, a) && Enabled(net, Accept(d))
    ensures Pursuit(AcceptStep(net, d), a)
  {
    var net' := AcceptStep(net, d);
    assert ConnOk(|net.nodes|, net.conns[d]);
    forall c: nat | Rival(net', a, c) ensures Rival(net, a, c) {
    }
  }

  // ---------- coroutine slices ----------

  /** A slice only appends to queues. */
  lemma SliceQueues(net: Net, k: nat, i: nat, pick: nat, c: nat)
    requires WellFormed(net) && Enabled(net, Run(k, i, pick)) && c < |net.conns|
    ensures var conns := RunTask(net, k, i, pick).conns;
            && |conns| == |net.conns| && conns[c].ini == net.conns[c].ini && conns[c].acc == net.conns[c].acc
            && net.conns[c].toAcc <= conns[c].toAcc && net.conns[c].toIni <= conns[c].toIni
  {
  }

  lemma PrefixKeeps(q: seq<Msg>, q': seq<Msg>)
    requires q <= q'
    ensures HasElection(q) ==> HasElection(q')
    ensures HasAlive(q) ==> HasAlive(q')
  {
  }

  lemma SlicePursued(net: Net, k: nat, i: nat, pick: nat, a: nat, c: nat)
    requires WellFormed(net) && Enabled(net, Run(k, i, pick))
    requires Rival(net, a, c) && Pursued(net, a, c)
    ensures |RunTask(net, k, i, pick).conns| == |net.conns|
    ensures RunTask(net, k, i, pick).conns[c].ini == net.conns[c].ini
    ensures RunTask(net, k, i, pick).conns[c].acc == net.conns[c].acc
    ensures Pursued(RunTask(net, k, i, pick), a, c)
  {
    SliceQueues(net, k, i, pick, c);
    var conn, conn' := net.conns[c], RunTask(net, k, i, pick).conns[c];
    PrefixKeeps(conn.Queue(conn.ini == a), conn'.Queue(conn.ini == a));
    PrefixKeeps(conn.Queue(conn.ini != a), conn'.Queue(conn.ini != a));
    if Electing(net.nodes[a], c) {
      ElectSlice(net, k, i, pick, a, c);
    } else if SayAlive(a) in net.nodes[conn.Other(a)].tasks {
      AliveSlice(net, k, i, pick, a, c);
    }
  }

  lemma ElectSlice(net: Net, k: nat, i: nat, pick: nat, a: nat, c: nat)
    requires WellFormed(net) && Enabled(net, Run(k, i, pick))
    requires Rival(net, a, c) && Electing(net.nodes[a], c)
    ensures var net' := RunTask(net, k, i, pick);
            && |net'.conns| == |net.conns|
            && (Electing(net'.nodes[a], c) || HasElection(net'.conns[c].Queue(net.conns[c].ini == a)))
  {
    var net', n := RunTask(net, k, i, pick), net.nodes[a];
    assert NodeOk(net.conns, a, n);
    var j :| 0 <= j < |n.tasks| && Elects(n.tasks[j], c);
    if k != a || j != i || pick != c || n.tasks[j].Begin? {
      assert Elects(net'.nodes[a].tasks[j], c);
    } else {
      assert Sent(n, n.tasks[j], c) == Some(Election(a));
      var q := net.conns[c].Queue(net.conns[c].ini == a);
      assert net'.conns[c].Queue(net.conns[c].ini == a) == q + [Election(a)];
      assert (q + [Election(a)])[|q|].Election?;
    }
  }

  lemma AliveSlice(net: Net, k: nat, i: nat, pick: nat, a: nat, c: nat)
    requires WellFormed(net) && Enabled(net, Run(k, i, pick))
    requires Rival(net, a, c) && SayAlive(a) in net.nodes[net.conns[c].Other(a)].tasks
    ensures var net', b := RunTask(net, k, i, pick), net.conns[c].Other(a);
            && |net'.conns| == |net.conns|
            && (SayAlive(a) in net'.nodes[b].tasks || HasAlive(net'.conns[c].Queue(net.conns[c].ini != a)))
  {
    var net', b := RunTask(net, k, i, pick), net.conns[c].Other(a);
    var n := net.nodes[b];
    assert NodeOk(net.conns, b, n) && ConnOk(|net.nodes|, net.conns[c]);
    var j :| 0 <= j < |n.tasks| && n.tasks[j] == SayAlive(a);
    if k != b || j != i {
      assert net'.nodes[b].tasks[j] == SayAlive(a);
    } else {
      assert n.peers[c].pid == Some(a);
      assert pick == c;
      var q := net.conns[c].Queue(net.conns[c].ini != a);
      assert net'.conns[c].Queue(net.conns[c].ini != a) == q + [Alive(b)];
      assert (q + [Alive(b)])[|q|].Alive?;
    }
  }

  lemma RunKeepsPursuit(net: Net, k: nat, i: nat, pick: nat, a: nat)
    requires WellFormed(net) && Pursuit(net, a) && Enabled(net, Run(k, i, pick))
    ensures Pursuit(RunTask(net, k, i, pick), a)
  {
    var net' := RunTask(net, k, i, pick);
    if a < |net.nodes| && Unanswered(net'.nodes[a]) {
      forall c: nat | Rival(net', a, c) ensures Pursued(net', a, c) {
        var sent := Sent(net.nodes[k], net.nodes[k].tasks[i], pick);
        if sent.Some? {
          SlicePosts(net, k, i, pick);
        }
        assert Rival(net, a, c);
        SlicePursued(net, k, i, pick, a, c);
      }
    }
  }

  // ---------- whole stretches ----------

  lemma StepKeepsPursuit(net: Net, step: Step, a: nat)
    requires WellFormed(net) && Pursuit(net, a) && Enabled(net, step) && NoLateHandshake(net, step, a)
    ensures Pursuit(Apply(net, step), a)
  {
    match step
    case Dial(k, j) => DialKeepsPursuit(net, k, j, a);
    case Accept(c) => AcceptKeepsPursuit(net, c, a);
    case Deliver(c, toAcceptor) => DeliverKeepsPursuit(net, c, toAcceptor, a);
    case Run(k, i, pick) => RunKeepsPursuit(net, k, i, pick, a);
    case Lose(c, atAcceptor) =>
      var k := net.conns[c].Receiver(atAcceptor);
      LossSteady(net.nodes[k], c);
      NodeKeepsPursuit(net, k, OnPeerDisconnected(net.nodes[k], c), {}, a);
    case Restart(k) =>
      assert NodeOk(net.conns, k, net.nodes[k]);
      NodeKeepsPursuit(net, k, FreshNode(k, net.nodes[k].expected), {}, a);
    case GraceExpired(k) =>
      TimersSteady(net.nodes[k]);
      NodeKeepsPursuit(net, k, OnGraceExpired(net.nodes[k]), {}, a);
    case HeartbeatLost(k) =>
      TimersSteady(net.nodes[k]);
      NodeKeepsPursuit(net, k, OnHeartbeatLost(net.nodes[k]), {}, a);
    case HeartbeatDue(k) =>
      TimersSteady(net.nodes[k]);
      NodeKeepsPursuit(net, k, OnHeartbeatDue(net.nodes[k]), {}, a);
    case ElectionTimeout(k) =>
      TimersSteady(net.nodes[k]);
      NodeKeepsPursuit(net, k, OnElectionTimeout(net.nodes[k]), {}, a);
  }

  lemma {:induction false} PursuitLasts(size: nat, nets: seq<Net>, steps: seq<Step>, t0: nat, t: nat, a: nat)
    requires IsRun(size, nets, steps) && t0 <= t < |nets| && Pursuit(nets[t0], a)
    requires forall i :: t0 <= i < t ==> NoLateHandshake(nets[i], steps[i], a)
    ensures Pursuit(nets[t], a)
    decreases t
  {
    if t0 == t {
    } else {
      PursuitLasts(size, nets, steps, t0, t - 1, a);
      RunWellFormedAt(size, nets, steps, t - 1);
      assert NoLateHandshake(nets[t - 1], steps[t - 1], a);
      StepKeepsPursuit(nets[t - 1], steps[t - 1], a);
      assert nets[t - 1 + 1] == Apply(nets[t - 1], steps[t - 1]);
    }
  }

  /** `a` is in no round without an ALIVE, or has just begun one: the ELECTION coroutine has not started. */
  ghost predicate AtRoundStart(net: Net, a: nat) {
    a < |net.nodes| && (Unanswered(net.nodes[a]) ==> Begin(Elect) in net.nodes[a].tasks)
  }

  /** On the connections of `a` that are open at both ends no ELECTION of `a` and no ALIVE for it is queued or about to
      be sent. Messages to an end that is closed do not matter. */
  ghost predicate TrafficDelivered(net: Net, a: nat)
    requires a < |net.nodes|
  {
    forall c :: 0 <= c < |net.conns| && OpenAt(net, net.conns[c].ini, c) && OpenAt(net, net.conns[c].acc, c) ==>
      var conn := net.conns[c];
      && (conn.ini == a || conn.acc == a ==>
            !Electing(net.nodes[a], c) && SayAlive(a) !in net.nodes[conn.Other(a)].tasks)
      && (conn.ini == a ==> !HasElection(conn.toAcc) && !HasAlive(conn.toIni))
      && (conn.acc == a ==> !HasElection(conn.toIni) && !HasAlive(conn.toAcc))
  }

  /** Bully safety. Take any stretch of a run from a moment when `a` was in no unanswered round or had just begun one,
      in which `a` shakes hands with no lower id while it waits; timers, link losses, restarts, cancelled and new
      rounds and stale ALIVEs may occur. If the timer then fires after the traffic has been delivered and promotes `a`,
      no live peer that has shaken hands with `a` has a lower id. */
  lemma PromotedNodeIsLowest(size: nat, nets: seq<Net>, steps: seq<Step>, t0: nat, t: nat, a: nat)
    requires IsRun(size, nets, steps) && t0 <= t < |steps|
    requires AtRoundStart(nets[t0], a) && a < |nets[t].nodes| && a < |nets[t + 1].nodes|
    requires forall i :: t0 <= i < t ==> NoLateHandshake(nets[i], steps[i], a)
    requires steps[t] == ElectionTimeout(a) && TrafficDelivered(nets[t], a)
    requires nets[t].nodes[a].role == Backup && nets[t + 1].nodes[a].role == Primary
    ensures forall c: nat :: !Rival(nets[t], a, c)
  {
    assert Pursuit(nets[t0], a);
    PursuitLasts(size, nets, steps, t0, t, a);
    RunWellFormedAt(size, nets, steps, t);
    assert nets[t + 1] == Apply(nets[t], steps[t]);
  }

  /** Once the HELLOs of a connection have been delivered, its two open ends know each other. */
  lemma OpenEndsAreIdentified(net: Net, c: nat)
    requires Handshake.Inv(net) && c < |net.conns|
    requires OpenAt(net, net.conns[c].ini, c) && OpenAt(net, net.conns[c].acc, c)
    requires Handshake.HellosDelivered(net, c)
    ensures net.nodes[net.conns[c].ini].peers[c].pid == Some(net.conns[c].acc)
    ensures net.nodes[net.conns[c].acc].peers[c].pid == Some(net.conns[c].ini)
  {
    var conn := net.conns[c];
    var x, y := conn.ini, conn.acc;
    assert ConnOk(|net.nodes|, conn) && NodeOk(net.conns, x, net.nodes[x]) && NodeOk(net.conns, y, net.nodes[y]);
    assert PeerOk(net.conns, x, c, net.nodes[x].peers[c]) && PeerOk(net.conns, y, c, net.nodes[y].peers[c]);
    assert Handshake.HelloUnderWay(net.nodes[x], net.nodes[y], conn, c);
  }

  /** Bully safety without naming identification: the promoted node has a lower id than the other end of each of its
      connections that is open at both ends and whose HELLOs have been delivered. */
  lemma PromotedNodeHasNoLowerPeer(size: nat, nets: seq<Net>, steps: seq<Step>, t0: nat, t: nat, a: nat, c: nat)
    requires IsRun(size, nets, steps) && t0 <= t < |steps|
    requires AtRoundStart(nets[t0], a) && a < |nets[t].nodes| && a < |nets[t + 1].nodes|
    requires forall i :: t0 <= i < t ==> NoLateHandshake(nets[i], steps[i], a)
    requires steps[t] == ElectionTimeout(a) && TrafficDelivered(nets[t], a)
    requires nets[t].nodes[a].role == Backup && nets[t + 1].nodes[a].role == Primary
    requires c < |nets[t].conns| && (nets[t].conns[c].ini == a || nets[t].conns[c].acc == a)
    requires OpenAt(nets[t], nets[t].conns[c].ini, c) && OpenAt(nets[t], nets[t].conns[c].acc, c)
    requires Handshake.HellosDelivered(nets[t], c)
    ensures a < nets[t].conns[c].Other(a)
  {
    Handshake.RunInv(size, nets, steps, t);
    OpenEndsAreIdentified(nets[t], c);
    assert ConnOk(|nets[t].nodes|, nets[t].conns[c]);
    PromotedNodeIsLowest(size, nets, steps, t0, t, a);
    assert !Rival(nets[t], a, c);
  }
}
