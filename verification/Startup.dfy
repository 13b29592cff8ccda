/** Start-up: while nobody's grace period runs out and no link to a Primary is lost, only the lowest id ever leads. */
module Startup {
  import opened Wrappers
  import opened ServerNode
  import opened Network

  /** No grace expiry, no heartbeat timeout, no loss of a session recorded as Primary. */
  ghost predicate Smooth(net: Net, step: Step)
    requires Enabled(net, step)
  {
    match step
    case GraceExpired(_) => false
    case HeartbeatLost(_) => false
    case Lose(c, atAcceptor) => net.nodes[net.conns[c].Receiver(atAcceptor)].peers[c].role == Backup
    case _ => true
  }

  predicate ElectTask(t: Task) { (t.Begin? || t.Continue?) && t.kind == Elect }

  /** A node of a cluster of `size` that waits for all its peers, takes no part in an election and, unless it is the
      lowest, is Backup. */
  ghost predicate CalmNode(size: nat, k: nat, n: Node) {
    && n.expected == size - 1 && !n.graceExpired && !n.electing
    && (n.role == Primary ==> k == 0)
    && (forall i :: 0 <= i < |n.tasks| ==> !ElectTask(n.tasks[i]))
  }

  ghost predicate NoElection(q: seq<Msg>) {
    forall i :: 0 <= i < |q| ==> !q[i].Election?
  }

  ghost predicate Calm(net: Net) {
    && (forall k :: 0 <= k < |net.nodes| ==> CalmNode(|net.nodes|, k, net.nodes[k]))
    && (forall c :: 0 <= c < |net.conns| ==> NoElection(net.conns[c].toAcc) && NoElection(net.conns[c].toIni))
  }

  // ---------- knowing all peers means knowing the lowest ----------

  /** Sessions with distinct peers in [lo, hi) are at most hi - lo. */
  lemma {:induction false} DistinctInInterval(s: set<nat>, peers: map<nat, Peer>, lo: nat, hi: nat)
    requires lo <= hi && s <= peers.Keys && DistinctPids(peers)
    requires forall c :: c in s ==> peers[c].pid.Some? && lo <= peers[c].pid.value < hi
    ensures |s| <= hi - lo
    decreases hi
  {
    if lo == hi {
      assert s == {};
    } else if c :| c in s && peers[c].pid.value == hi - 1 {
      var rest := s - {c};
      assert |rest| == |s| - 1;
      DistinctInInterval(rest, peers, lo, hi - 1);
    } else {
      DistinctInInterval(s, peers, lo, hi - 1);
    }
  }

  lemma KnowingAllMeansKnowingLower(net: Net, k: nat)
    requires WellFormed(net) && 0 < k < |net.nodes|
    requires |Identified(net.nodes[k].peers)| >= |net.nodes| - 1
    ensures KnowsLower(net.nodes[k].peers, k)
  {
    var size, peers := |net.nodes|, net.nodes[k].peers;
    assert NodeOk(net.conns, k, net.nodes[k]);
    if !KnowsLower(peers, k) {
      forall c | c in Identified(peers) ensures k + 1 <= peers[c].pid.value < size {
        assert PeerOk(net.conns, k, c, peers[c]) && ConnOk(size, net.conns[c]);
      }
      DistinctInInterval(Identified(peers), peers, k + 1, size);
    }
  }

  // ---------- steps ----------

  /** Handling a HELLO starts no election, and promotes only a node that then knows as many peers as it was told to
      expect and none with a lower id. */
  lemma HelloCalm(n: Node, c: nat, from: nat, role: Role, request: bool)
    requires c in n.peers && !n.graceExpired
    ensures var n' := HandleHello(n, c, from, role, request);
            && n'.graceExpired == n.graceExpired && n'.electing == n.electing
            && n'.expected == n.expected && n'.id == n.id
            && (n.role == Backup && n'.role == Primary ==>
                  |Identified(n'.peers)| >= n'.expected && !KnowsLower(n'.peers, n'.id))
            && (forall i :: 0 <= i < |n'.tasks| ==>
                  n'.tasks[i] in n.tasks || n'.tasks[i].SayHello? || n'.tasks[i] == Begin(Announce))
  {
    var known := n.(peers := n.peers[c := n.peers[c].(pid := Some(from), role := role)]);
    var asked := if request then Spawn(known, SayHello(c, known.role)) else known;
    DedupOnlyPeers(asked, c);
    HelloPeers(asked, c);
    VerdictCalm(Dedup(asked, c), from, role == Primary);
  }

  lemma VerdictCalm(n: Node, pid: nat, claims: bool)
    ensures var n' := HelloVerdict(n, pid, claims);
            && n'.graceExpired == n.graceExpired && n'.electing == n.electing
            && n'.expected == n.expected && n'.id == n.id
            && (n.role == Backup && n'.role == Primary ==>
                  (n.graceExpired || |Identified(n.peers)| >= n.expected) && !KnowsLower(n.peers, n.id))
            && (forall i :: 0 <= i < |n'.tasks| ==> n'.tasks[i] in n.tasks || n'.tasks[i] == Begin(Announce))
  {
  }

  lemma HandleCalm(size: nat, k: nat, n: Node, c: nat, x: Msg)
    requires CalmNode(size, k, n) && c in n.peers && !x.Election? && k == n.id
    requires var n' := Handle(n, c, x);
             k > 0 && |Identified(n'.peers)| >= size - 1 ==> KnowsLower(n'.peers, k)
    ensures CalmNode(size, k, Handle(n, c, x))
  {
    if x.Hello? {
      HelloCalm(n, c, x.from, x.role, x.request);
    }
  }

  lemma DeliverCalm(net: Net, c: nat, toAcceptor: bool)
    requires WellFormed(net) && Calm(net) && Enabled(net, Deliver(c, toAcceptor))
    ensures Calm(DeliverStep(net, c, toAcceptor))
  {
    var net', conn := DeliverStep(net, c, toAcceptor), net.conns[c];
    var k, x := conn.Receiver(toAcceptor), conn.Queue(toAcceptor)[0];
    StepWellFormed(net, Deliver(c, toAcceptor));
    assert NodeOk(net.conns, k, net.nodes[k]);
    if k > 0 && |Identified(net'.nodes[k].peers)| >= |net.nodes| - 1 {
      KnowingAllMeansKnowingLower(net', k);
    }
    assert NoElection(conn.toAcc) && NoElection(conn.toIni);
    HandleCalm(|net.nodes|, k, net.nodes[k], c, x);
  }

  lemma RunCalm(net: Net, k: nat, i: nat, pick: nat)
    requires WellFormed(net) && Calm(net) && Enabled(net, Run(k, i, pick))
    ensures Calm(RunTask(net, k, i, pick))
  {
    var net', n := RunTask(net, k, i, pick), net.nodes[k];
    assert CalmNode(|net.nodes|, k, n) && !ElectTask(n.tasks[i]);
    var sent := Sent(n, n.tasks[i], pick);
    if sent.Some? {
      assert NodeOk(net.conns, k, n);
      SlicePosts(net, k, i, pick);
      assert !sent.value.Election?;
      assert NoElection(net.conns[pick].toAcc) && NoElection(net.conns[pick].toIni);
    }
  }

  lemma SmoothStepCalm(net: Net, step: Step)
    requires WellFormed(net) && Calm(net) && Enabled(net, step) && Smooth(net, step)
    ensures Calm(Apply(net, step))
  {
    match step
    case Deliver(c, toAcceptor) => DeliverCalm(net, c, toAcceptor);
    case Run(k, i, pick) => RunCalm(net, k, i, pick);
    case _ =>
  }

  lemma {:induction false} RunIsCalm(size: nat, nets: seq<Net>, steps: seq<Step>, t: nat)
    requires IsRun(size, nets, steps) && t < |nets|
    requires forall i :: 0 <= i < t ==> Smooth(nets[i], steps[i])
    ensures Calm(nets[t])
  {
    if t == 0 {
    } else {
      RunIsCalm(size, nets, steps, t - 1);
      RunWellFormedAt(size, nets, steps, t - 1);
      assert Smooth(nets[t - 1], steps[t - 1]);
      SmoothStepCalm(nets[t - 1], steps[t - 1]);
      assert nets[t - 1 + 1] == Apply(nets[t - 1], steps[t - 1]);
    }
  }

  /** Start-up safety: in every smooth run of a cluster whose peer lists name all other nodes, whatever the order of
      dialling, HELLOs, duplicate connections, restarts and losses of Backup links, nobody but the lowest id is ever
      Primary. */
  lemma OnlyLowestIsPrimary(size: nat, nets: seq<Net>, steps: seq<Step>, t: nat, k: nat)
    requires IsRun(size, nets, steps) && t < |nets|
    requires forall i :: 0 <= i < t ==> Smooth(nets[i], steps[i])
    requires k < |nets[t].nodes| && nets[t].nodes[k].role == Primary
    ensures k == 0
  {
    RunIsCalm(size, nets, steps, t);
    assert CalmNode(|nets[t].nodes|, k, nets[t].nodes[k]);
  }
}
