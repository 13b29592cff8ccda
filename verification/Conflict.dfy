/** Two Primaries are possible, but never unnoticed: whenever two linked nodes are both Primary, something that will
    expose the clash is still under way between them. */
module Conflict {
  import opened Wrappers
  import opened ServerNode
  import opened Network

  predicate Announces(t: Task, c: nat) {
    t == Begin(Announce) || (t.Continue? && t.kind == Announce && c in t.todo)
  }

  /** A spawned announcement of `n` will still reach session `c`. */
  ghost predicate Announcing(n: Node, c: nat) {
    exists i :: 0 <= i < |n.tasks| && Announces(n.tasks[i], c)
  }

  /** A message that tells its receiver that the sender is (or was) Primary. */
  predicate Exposing(m: Msg) {
    m.Coordinator? || (m.Hello? && m.role == Primary)
  }

  ghost predicate Exposes(q: seq<Msg>) {
    exists i :: 0 <= i < |q| && Exposing(q[i])
  }

  /** The claim of `n` is under way on connection `c`, where `q` is its outgoing queue. */
  ghost predicate Claiming(n: Node, c: nat, q: seq<Msg>) {
    Announcing(n, c) || Exposes(q)
  }

  /** On a connection not yet accepted the dialling Primary's claim is waiting; on one open at both ends with a Primary
      at each, at least one claim is under way. */
  ghost predicate NoSilentClash(x: Node, y: Node, conn: Conn, c: nat) {
    c in x.peers && x.role == Primary ==>
      && (!conn.accepted ==> Claiming(x, c, conn.toAcc))
      && (conn.accepted && c in y.peers && y.role == Primary ==>
            Claiming(x, c, conn.toAcc) || Claiming(y, c, conn.toIni))
  }

  ghost predicate Exposed(net: Net) {
    forall c :: 0 <= c < |net.conns| ==>
      var conn := net.conns[c];
      && conn.ini < |net.nodes| && conn.acc < |net.nodes|
      && NoSilentClash(net.nodes[conn.ini], net.nodes[conn.acc], conn, c)
  }

  // ---------- what a node step may do ----------

  /** A node that ends up Primary has just spawned an announcement, or was Primary and dropped no coroutine. */
  ghost predicate Loud(n: Node, n': Node) {
    && n'.peers.Keys <= n.peers.Keys
    && (n'.role == Primary ==> Begin(Announce) in n'.tasks || (n.role == Primary && n.tasks <= n'.tasks))
  }

  lemma NodeChange(net: Net, k: nat, n': Node)
    requires Exposed(net) && k < |net.nodes| && Loud(net.nodes[k], n')
    ensures Exposed(WithNode(net, k, n'))
  {
  }

  // ---------- deliveries ----------

  lemma SpawnAppends(n: Node, t: Task)
    ensures n.tasks <= Spawn(n, t).tasks && t in Spawn(n, t).tasks
  {
  }

  lemma VerdictLoud(n: Node, pid: nat, claimsPrimary: bool)
    ensures Loud(n, HelloVerdict(n, pid, claimsPrimary)) && n.tasks <= HelloVerdict(n, pid, claimsPrimary).tasks
    ensures claimsPrimary && n.role == Primary && HelloVerdict(n, pid, claimsPrimary).role == Primary ==>
              Begin(Announce) in HelloVerdict(n, pid, claimsPrimary).tasks
  {
  }

  lemma HelloLoud(n: Node, c: nat, from: nat, role: Role, request: bool)
    requires c in n.peers && DistinctPids(n.peers)
    ensures var n' := HandleHello(n, c, from, role, request);
            && Loud(n, n')
            && (role == Primary && n.role == Primary && n'.role == Primary && c in n'.peers ==>
                  Begin(Announce) in n'.tasks)
  {
    var known := n.(peers := n.peers[c := n.peers[c].(pid := Some(from), role := role)]);
    var asked := if request then Spawn(known, SayHello(c, known.role)) else known;
    SpawnAppends(known, SayHello(c, known.role));
    DedupOnlyPeers(asked, c);
    HelloShrinks(n, c, from, role, request);
    VerdictLoud(Dedup(asked, c), from, role == Primary);
  }

  /** Any message leaves a Primary loud, and an exposing one makes a Primary that stays Primary announce itself. */
  lemma HandleLoud(n: Node, c: nat, m: Msg)
    requires c in n.peers && DistinctPids(n.peers) && m.from != n.id
    ensures Loud(n, Handle(n, c, m))
    ensures Exposing(m) && n.role == Primary && Handle(n, c, m).role == Primary && c in Handle(n, c, m).peers ==>
              Begin(Announce) in Handle(n, c, m).tasks
  {
    match m
    case Hello(from, role, request) => HelloLoud(n, c, from, role, request);
    case Ping(_) =>
    case Election(from) =>
      SpawnAppends(n, SayAlive(from));
      SpawnAppends(Spawn(n, SayAlive(from)).(electing := true, receivedAlive := false), Begin(Elect));
    case Alive(_) =>
    case Coordinator(from) => SpawnAppends(n, Begin(Announce));
  }

  /** The connection on which a message was taken: `n` is the receiver, `o` the node at the other end. */
  lemma PopKeeps(n: Node, n': Node, o: Node, conn: Conn, c: nat, toAcceptor: bool)
    requires conn.Queue(toAcceptor) != [] && Loud(n, n')
    requires toAcceptor ==> conn.accepted
    requires if toAcceptor then NoSilentClash(o, n, conn, c) else NoSilentClash(n, o, conn, c)
    requires Exposing(conn.Queue(toAcceptor)[0]) && n.role == Primary && n'.role == Primary && c in n'.peers ==>
               Begin(Announce) in n'.tasks
    ensures var conn' := conn.WithQueue(toAcceptor, conn.Queue(toAcceptor)[1..]);
            if toAcceptor then NoSilentClash(o, n', conn', c) else NoSilentClash(n', o, conn', c)
  {
  }

  lemma DeliverKeeps(net: Net, c: nat, toAcceptor: bool)
    requires WellFormed(net) && Exposed(net) && Enabled(net, Deliver(c, toAcceptor))
    ensures Exposed(DeliverStep(net, c, toAcceptor))
  {
    var conn := net.conns[c];
    var k, m := conn.Receiver(toAcceptor), conn.Queue(toAcceptor)[0];
    var n := net.nodes[k];
    var n' := Handle(n, c, m);
    assert ConnOk(|net.nodes|, conn) && NodeOk(net.conns, k, n) && PeerOk(net.conns, k, c, n.peers[c]);
    HandleLoud(n, c, m);
    NodeChange(net, k, n');
    PopKeeps(n, n', net.nodes[conn.Sender(toAcceptor)], conn, c, toAcceptor);
  }

  // ---------- coroutine slices ----------

  lemma SliceKeepsClaim(n: Node, i: nat, pick: nat, c: nat, q: seq<Msg>)
    requires i < |n.tasks| && c in n.peers && CanRun(n, n.tasks[i], pick)
    requires Claiming(n, c, q)
    ensures var n' := n.(tasks := n.tasks[i := Rest(n, n.tasks[i], pick)]);
            var sent := Sent(n, n.tasks[i], pick);
            Claiming(n', c, if sent.Some? && pick == c then q + [sent.value] else q)
  {
    var t := n.tasks[i];
    var n' := n.(tasks := n.tasks[i := Rest(n, t, pick)]);
    var sent := Sent(n, t, pick);
    if Exposes(q) {
      var j :| 0 <= j < |q| && Exposing(q[j]);
      if sent.Some? {
        assert Exposing((q + [sent.value])[j]);
      }
    } else {
      var j :| 0 <= j < |n.tasks| && Announces(n.tasks[j], c);
      if j != i || pick != c || t.Begin? {
        assert Announces(n'.tasks[j], c);
      } else {
        assert sent == Some(Coordinator(n.id));
        assert Exposing((q + [sent.value])[|q|]);
      }
    }
  }

  lemma RunKeeps(net: Net, k: nat, i: nat, pick: nat)
    requires WellFormed(net) && Exposed(net) && Enabled(net, Run(k, i, pick))
    ensures Exposed(RunTask(net, k, i, pick))
  {
    var net' := RunTask(net, k, i, pick);
    var n := net.nodes[k];
    var sent := Sent(n, n.tasks[i], pick);
    if sent.Some? {
      SlicePosts(net, k, i, pick);
    }
    forall c | 0 <= c < |net.conns|
      ensures NoSilentClash(net'.nodes[net'.conns[c].ini], net'.nodes[net'.conns[c].acc], net'.conns[c], c)
    {
      var conn := net.conns[c];
      assert ConnOk(|net.nodes|, conn);
      if c in n.peers {
        if conn.ini == k && Claiming(n, c, conn.toAcc) {
          SliceKeepsClaim(n, i, pick, c, conn.toAcc);
        }
        if conn.acc == k && Claiming(n, c, conn.toIni) {
          SliceKeepsClaim(n, i, pick, c, conn.toIni);
        }
      }
    }
  }

  // ---------- links coming up ----------

  lemma DialKeeps(net: Net, k: nat, j: nat)
    requires WellFormed(net) && Exposed(net) && Enabled(net, Dial(k, j))
    ensures Exposed(DialStep(net, k, j))
  {
    var net' := DialStep(net, k, j);
    var newest := |net.conns|;
    forall c | 0 <= c < |net'.conns|
      ensures NoSilentClash(net'.nodes[net'.conns[c].ini], net'.nodes[net'.conns[c].acc], net'.conns[c], c)
    {
      if c == newest {
        if net'.nodes[k].role == Primary {
          assert Exposing(net'.conns[c].toAcc[0]);
        }
      } else {
      }
    }
  }

  lemma AcceptKeeps(net: Net, c: nat)
    requires WellFormed(net) && Exposed(net) && Enabled(net, Accept(c))
    ensures Exposed(AcceptStep(net, c))
  {
  }

  // ---------- every run ----------

  lemma TimersLoud(n: Node)
    ensures Loud(n, OnGraceExpired(n)) && Loud(n, OnHeartbeatLost(n))
    ensures Loud(n, OnHeartbeatDue(n)) && Loud(n, OnElectionTimeout(n))
    ensures forall c :: c in n.peers ==> Loud(n, OnPeerDisconnected(n, c))
  {
  }

  lemma StepKeeps(net: Net, step: Step)
    requires WellFormed(net) && Exposed(net) && Enabled(net, step)
    ensures Exposed(Apply(net, step))
  {
    match step
    case Dial(k, j) => DialKeeps(net, k, j);
    case Accept(c) => AcceptKeeps(net, c);
    case Deliver(c, toAcceptor) => DeliverKeeps(net, c, toAcceptor);
    case Run(k, i, pick) => RunKeeps(net, k, i, pick);
    case Lose(c, atAcceptor) =>
      var k := net.conns[c].Receiver(atAcceptor);
      TimersLoud(net.nodes[k]);
      NodeChange(net, k, OnPeerDisconnected(net.nodes[k], c));
    case Restart(k) => NodeChange(net, k, FreshNode(k, net.nodes[k].expected));
    case GraceExpired(k) =>
      TimersLoud(net.nodes[k]);
      NodeChange(net, k, OnGraceExpired(net.nodes[k]));
    case HeartbeatLost(k) =>
      TimersLoud(net.nodes[k]);
      NodeChange(net, k, OnHeartbeatLost(net.nodes[k]));
    case HeartbeatDue(k) =>
      TimersLoud(net.nodes[k]);
      NodeChange(net, k, OnHeartbeatDue(net.nodes[k]));
    case ElectionTimeout(k) =>
      TimersLoud(net.nodes[k]);
      NodeChange(net, k, OnElectionTimeout(net.nodes[k]));
  }

  /** In every reachable network no clash is silent, whatever timers, losses, restarts and message orders occurred. */
  lemma {:induction false} ClashesAreExposed(size: nat, nets: seq<Net>, steps: seq<Step>, t: nat)
    requires IsRun(size, nets, steps) && t < |nets|
    ensures Exposed(nets[t])
  {
    if t == 0 {
    } else {
      ClashesAreExposed(size, nets, steps, t - 1);
      RunWellFormedAt(size, nets, steps, t - 1);
      StepKeeps(nets[t - 1], steps[t - 1]);
      assert nets[t - 1 + 1] == Apply(nets[t - 1], steps[t - 1]);
    }
  }

  // ---------- settled networks ----------

  /** No announcement is spawned or running, and no exposing message is queued towards an open end. */
  ghost predicate Settled(net: Net) {
    && (forall k, c: nat :: 0 <= k < |net.nodes| ==> !Announcing(net.nodes[k], c))
    && (forall c, toAcceptor :: 0 <= c < |net.conns| && OpenAt(net, net.conns[c].Receiver(toAcceptor), c) ==>
          !Exposes(net.conns[c].Queue(toAcceptor)))
  }

  ghost predicate Linked(net: Net, a: nat, b: nat) {
    exists c :: 0 <= c < |net.conns| && LinkedBy(net, a, b, c)
  }

  ghost predicate LinkedBy(net: Net, a: nat, b: nat, c: nat)
    requires c < |net.conns|
  {
    var conn := net.conns[c];
    && ((conn.ini == a && conn.acc == b) || (conn.ini == b && conn.acc == a))
    && conn.accepted && OpenAt(net, a, c) && OpenAt(net, b, c)
  }

  /** Once all announcements have been sent and read, no two linked nodes are both Primary; so a settled full mesh
      has at most one Primary. */
  lemma SettledMeshHasOnePrimary(size: nat, nets: seq<Net>, steps: seq<Step>, t: nat, a: nat, b: nat)
    requires IsRun(size, nets, steps) && t < |nets| && Settled(nets[t])
    requires a < size && b < size && a != b && Linked(nets[t], a, b)
    ensures |nets[t].nodes| == size
    ensures nets[t].nodes[a].role == Backup || nets[t].nodes[b].role == Backup
  {
    RunWellFormedAt(size, nets, steps, t);
    ClashesAreExposed(size, nets, steps, t);
    var net := nets[t];
    SettledLinkHasOnePrimary(net, a, b);
  }

  lemma SettledLinkHasOnePrimary(net: Net, a: nat, b: nat)
    requires Exposed(net) && Settled(net) && a < |net.nodes| && b < |net.nodes| && Linked(net, a, b)
    ensures net.nodes[a].role == Backup || net.nodes[b].role == Backup
  {
    var c :| 0 <= c < |net.conns| && LinkedBy(net, a, b, c);
    assert !Exposes(net.conns[c].Queue(true)) && !Exposes(net.conns[c].Queue(false));
    assert NoSilentClash(net.nodes[net.conns[c].ini], net.nodes[net.conns[c].acc], net.conns[c], c);
  }

  /** "Never two Primaries" itself is false: two nodes whose grace period runs out before they are linked. */
  lemma TwoPrimariesHappen() returns (nets: seq<Net>, steps: seq<Step>)
    ensures IsRun(2, nets, steps)
    ensures var nodes := nets[|steps|].nodes; |nodes| == 2 && nodes[0].role == Primary && nodes[1].role == Primary
  {
    steps := [GraceExpired(0), GraceExpired(1)];
    var first := Apply(Start(2), steps[0]);
    nets := [Start(2), first, Apply(first, steps[1])];
    assert Identified(map[]) == {};
  }
}
