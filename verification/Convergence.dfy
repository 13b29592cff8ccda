/** With timers and links frozen, message delivery dies out. */
module Convergence {
  import opened Wrappers
  import opened ServerNode
  import opened Network
  import opened Conflict

  /** A step that needs no timer and no change of a link. */
  predicate Frozen(step: Step) { step.Deliver? || step.Run? }

  // ---------- weights ----------

  /** Weight of an ELECTION or COORDINATOR from id `s`, when no node has more than `m` sessions: more than all that
      its handling by a lower id can set off. */
  function Weight(s: nat, m: nat): (w: nat)
    ensures w >= 1
    decreases s, 0
  {
    if s == 0 then 1 else BeginWeight(s - 1, m) + 3
  }

  function BeginWeight(k: nat, m: nat): (w: nat)
    decreases k, 1
  {
    m * (Weight(k, m) + 1) + 2
  }

  lemma WeightStep(s: nat, m: nat)
    ensures Weight(s, m) <= Weight(s + 1, m)
  {
  }

  lemma {:induction false} WeightsGrow(k: nat, s: nat, m: nat)
    requires k <= s
    ensures Weight(k, m) <= Weight(s, m) && BeginWeight(k, m) <= BeginWeight(s, m)
    ensures k < s ==> BeginWeight(k, m) + 3 <= Weight(s, m)
    decreases s
  {
    if k == s {
    } else {
      WeightsGrow(k, s - 1, m);
      WeightStep(s - 1, m);
      Times(m, Weight(s - 1, m) + 1, Weight(s, m) + 1);
    }
  }

  lemma Times(m: nat, a: nat, b: nat)
    requires a <= b
    ensures m * a <= m * b
  {
  }

  function ResponseWeight(size: nat, m: nat): nat { BeginWeight(size, m) + 1 }

  function MsgWeight(x: Msg, size: nat, m: nat): (w: nat)
    ensures w >= 1
  {
    match x
    case Hello(_, _, request) =>
      if request then ResponseWeight(size, m) + BeginWeight(size, m) + 2 else ResponseWeight(size, m)
    case Ping(_) => 1
    case Alive(_) => 1
    case Election(s) => Weight(s, m)
    case Coordinator(s) => Weight(s, m)
  }

  function TaskWeight(t: Task, k: nat, size: nat, m: nat): nat {
    match t
    case SayHello(_, _) => ResponseWeight(size, m) + 1
    case Begin(_) => BeginWeight(k, m)
    case Continue(_, todo) => |todo| * (Weight(k, m) + 1) + 1
    case SayAlive(_) => 2
    case Finished => 0
  }

  function QueueWeight(q: seq<Msg>, size: nat, m: nat): nat {
    if q == [] then 0 else MsgWeight(q[0], size, m) + QueueWeight(q[1..], size, m)
  }

  function TasksWeight(ts: seq<Task>, k: nat, size: nat, m: nat): nat {
    if ts == [] then 0 else TaskWeight(ts[0], k, size, m) + TasksWeight(ts[1..], k, size, m)
  }

  function NodesWeight(nodes: seq<Node>, size: nat, m: nat): nat {
    if nodes == [] then 0 else TasksWeight(nodes[0].tasks, nodes[0].id, size, m) + NodesWeight(nodes[1..], size, m)
  }

  function ConnWeight(conn: Conn, size: nat, m: nat): nat {
    QueueWeight(conn.toAcc, size, m) + QueueWeight(conn.toIni, size, m)
  }

  function ConnsWeight(conns: seq<Conn>, size: nat, m: nat): nat {
    if conns == [] then 0 else ConnWeight(conns[0], size, m) + ConnsWeight(conns[1..], size, m)
  }

  function Measure(net: Net, m: nat): nat {
    NodesWeight(net.nodes, |net.nodes|, m) + ConnsWeight(net.conns, |net.nodes|, m)
  }

  ghost predicate FewPeers(net: Net, m: nat) {
    forall k :: 0 <= k < |net.nodes| ==> |net.nodes[k].peers| <= m
  }

  // ---------- sums under updates ----------

  lemma {:induction false} TasksUpdate(ts: seq<Task>, i: nat, t: Task, k: nat, size: nat, m: nat)
    requires i < |ts|
    ensures TasksWeight(ts[i := t], k, size, m)
         == TasksWeight(ts, k, size, m) - TaskWeight(ts[i], k, size, m) + TaskWeight(t, k, size, m)
  {
    if i > 0 {
      assert ts[i := t][1..] == ts[1..][i - 1 := t];
      TasksUpdate(ts[1..], i - 1, t, k, size, m);
    } else {
      assert ts[i := t][1..] == ts[1..];
    }
  }

  lemma {:induction false} TasksAppend(ts: seq<Task>, t: Task, k: nat, size: nat, m: nat)
    ensures TasksWeight(ts + [t], k, size, m) == TasksWeight(ts, k, size, m) + TaskWeight(t, k, size, m)
  {
    if ts == [] {
      assert [] + [t] == [t] && [t][1..] == [];
    } else {
      assert (ts + [t])[1..] == ts[1..] + [t];
      TasksAppend(ts[1..], t, k, size, m);
    }
  }

  lemma {:induction false} QueueAppend(q: seq<Msg>, x: Msg, size: nat, m: nat)
    ensures QueueWeight(q + [x], size, m) == QueueWeight(q, size, m) + MsgWeight(x, size, m)
  {
    if q == [] {
      assert [] + [x] == [x] && [x][1..] == [];
    } else {
      assert (q + [x])[1..] == q[1..] + [x];
      QueueAppend(q[1..], x, size, m);
    }
  }

  lemma {:induction false} NodesUpdate(nodes: seq<Node>, k: nat, n: Node, size: nat, m: nat)
    requires k < |nodes|
    ensures NodesWeight(nodes[k := n], size, m)
         == NodesWeight(nodes, size, m) - TasksWeight(nodes[k].tasks, nodes[k].id, size, m)
            + TasksWeight(n.tasks, n.id, size, m)
  {
    if k > 0 {
      assert nodes[k := n][1..] == nodes[1..][k - 1 := n];
      NodesUpdate(nodes[1..], k - 1, n, size, m);
    } else {
      assert nodes[k := n][1..] == nodes[1..];
    }
  }

  lemma {:induction false} ConnsUpdate(conns: seq<Conn>, c: nat, conn: Conn, size: nat, m: nat)
    requires c < |conns|
    ensures ConnsWeight(conns[c := conn], size, m)
         == ConnsWeight(conns, size, m) - ConnWeight(conns[c], size, m) + ConnWeight(conn, size, m)
  {
    if c > 0 {
      assert conns[c := conn][1..] == conns[1..][c - 1 := conn];
      ConnsUpdate(conns[1..], c - 1, conn, size, m);
    } else {
      assert conns[c := conn][1..] == conns[1..];
    }
  }

  // ---------- a delivery weighs less than the message ----------

  lemma VerdictWeight(n: Node, pid: nat, claims: bool, size: nat, m: nat)
    requires n.id < size
    ensures TasksWeight(HelloVerdict(n, pid, claims).tasks, n.id, size, m)
         <= TasksWeight(n.tasks, n.id, size, m) + BeginWeight(size, m)
  {
    TasksAppend(n.tasks, Begin(Announce), n.id, size, m);
    WeightsGrow(n.id, size, m);
  }

  lemma HelloWeight(n: Node, c: nat, from: nat, role: Role, request: bool, size: nat, m: nat)
    requires c in n.peers && n.id < size
    ensures TasksWeight(HandleHello(n, c, from, role, request).tasks, n.id, size, m)
          < TasksWeight(n.tasks, n.id, size, m) + MsgWeight(Hello(from, role, request), size, m)
  {
    var known := n.(peers := n.peers[c := n.peers[c].(pid := Some(from), role := role)]);
    var asked := if request then Spawn(known, SayHello(c, known.role)) else known;
    TasksAppend(known.tasks, SayHello(c, known.role), n.id, size, m);
    DedupOnlyPeers(asked, c);
    VerdictWeight(Dedup(asked, c), from, role == Primary, size, m);
  }

  lemma ElectionWeight(n: Node, from: nat, size: nat, m: nat)
    ensures TasksWeight(OnPeerElection(n, from).tasks, n.id, size, m)
          < TasksWeight(n.tasks, n.id, size, m) + Weight(from, m)
  {
    if from > n.id {
      TasksAppend(n.tasks, SayAlive(from), n.id, size, m);
      TasksAppend(n.tasks + [SayAlive(from)], Begin(Elect), n.id, size, m);
      WeightsGrow(n.id, from, m);
    }
  }

  lemma CoordinatorWeight(n: Node, from: nat, size: nat, m: nat)
    ensures TasksWeight(OnPeerCoordinator(n, from).tasks, n.id, size, m)
          < TasksWeight(n.tasks, n.id, size, m) + Weight(from, m)
  {
    if from > n.id {
      TasksAppend(n.tasks, Begin(Announce), n.id, size, m);
      WeightsGrow(n.id, from, m);
    }
  }

  /** A handled COORDINATOR or ELECTION from `s` sets off only announcements and elections of ids below `s`, and the
      same holds in weight for every message. */
  lemma HandleWeight(n: Node, c: nat, x: Msg, size: nat, m: nat)
    requires c in n.peers && n.id < size
    ensures TasksWeight(Handle(n, c, x).tasks, n.id, size, m)
          < TasksWeight(n.tasks, n.id, size, m) + MsgWeight(x, size, m)
  {
    match x
    case Hello(from, role, request) => HelloWeight(n, c, from, role, request, size, m);
    case Ping(_) =>
    case Alive(_) =>
    case Election(from) => ElectionWeight(n, from, size, m);
    case Coordinator(from) => CoordinatorWeight(n, from, size, m);
  }

  lemma DeliverDecreases(net: Net, c: nat, toAcceptor: bool, m: nat)
    requires WellFormed(net) && FewPeers(net, m) && Enabled(net, Deliver(c, toAcceptor))
    ensures Measure(DeliverStep(net, c, toAcceptor), m) < Measure(net, m)
    ensures FewPeers(DeliverStep(net, c, toAcceptor), m)
  {
    var size, conn := |net.nodes|, net.conns[c];
    var k, q := conn.Receiver(toAcceptor), conn.Queue(toAcceptor);
    var n := net.nodes[k];
    assert NodeOk(net.conns, k, n);
    var n' := Handle(n, c, q[0]);
    HandleShrinks(n, c, q[0]);
    FewerKeys(n.peers, n'.peers);
    HandleWeight(n, c, q[0], size, m);
    NodesUpdate(net.nodes, k, n', size, m);
    ConnsUpdate(net.conns, c, conn.WithQueue(toAcceptor, q[1..]), size, m);
  }

  lemma FewerKeys(a: map<nat, Peer>, b: map<nat, Peer>)
    requires b.Keys <= a.Keys
    ensures |b| <= |a|
  {
    assert a.Keys == b.Keys + (a.Keys - b.Keys);
    assert |a.Keys| == |b.Keys| + |a.Keys - b.Keys|;
  }

  // ---------- a slice weighs less than the task ----------

  lemma SliceWeight(n: Node, t: Task, pick: nat, size: nat, m: nat)
    requires |n.peers| <= m && CanRun(n, t, pick)
    ensures var sent := Sent(n, t, pick);
            TaskWeight(Rest(n, t, pick), n.id, size, m) + (if sent.Some? then MsgWeight(sent.value, size, m) else 0)
              < TaskWeight(t, n.id, size, m)
  {
    match t
    case Begin(_) => FirstSlice(|n.peers.Keys|, Weight(n.id, m) + 1, m);
    case Continue(kind, todo) =>
      if todo != {} {
        OneLess(todo, pick, Weight(n.id, m) + 1);
        BroadcastWeight(kind, n.id, size, m);
      }
    case _ =>
  }

  lemma FirstSlice(peers: nat, w: nat, m: nat)
    requires peers <= m
    ensures peers * w + 1 < m * w + 2
  {
    Times(w, peers, m);
    assert peers * w == w * peers && m * w == w * m;
  }

  lemma OneLess(todo: set<nat>, pick: nat, w: nat)
    requires pick in todo
    ensures |todo - {pick}| * w + w == |todo| * w
  {
    var k := |todo - {pick}|;
    assert |todo| == k + 1;
    assert (k + 1) * w == k * w + w;
  }

  lemma BroadcastWeight(kind: Kind, k: nat, size: nat, m: nat)
    ensures MsgWeight(BroadcastMsg(kind, k), size, m) <= Weight(k, m)
  {
  }

  lemma RunDecreases(net: Net, k: nat, i: nat, pick: nat, m: nat)
    requires WellFormed(net) && FewPeers(net, m) && Enabled(net, Run(k, i, pick))
    ensures Measure(RunTask(net, k, i, pick), m) < Measure(net, m)
    ensures FewPeers(RunTask(net, k, i, pick), m)
  {
    var size, n := |net.nodes|, net.nodes[k];
    assert NodeOk(net.conns, k, n);
    var t := n.tasks[i];
    SliceWeight(n, t, pick, size, m);
    TasksUpdate(n.tasks, i, Rest(n, t, pick), k, size, m);
    NodesUpdate(net.nodes, k, n.(tasks := n.tasks[i := Rest(n, t, pick)]), size, m);
    var sent := Sent(n, t, pick);
    if sent.Some? {
      SlicePosts(net, k, i, pick);
      PostWeight(net.conns, k, pick, sent.value, size, m);
    }
  }

  lemma PostWeight(conns: seq<Conn>, k: nat, c: nat, x: Msg, size: nat, m: nat)
    requires c < |conns|
    ensures ConnsWeight(Post(conns, k, c, x), size, m) == ConnsWeight(conns, size, m) + MsgWeight(x, size, m)
  {
    var toAcceptor := conns[c].ini == k;
    QueueAppend(conns[c].Queue(toAcceptor), x, size, m);
    ConnsUpdate(conns, c, conns[c].WithQueue(toAcceptor, conns[c].Queue(toAcceptor) + [x]), size, m);
  }

  /** Every delivery and every coroutine slice strictly lightens the network: frozen runs are finite. */
  lemma FrozenStepDecreases(net: Net, step: Step, m: nat)
    requires WellFormed(net) && FewPeers(net, m) && Enabled(net, step) && Frozen(step)
    ensures Measure(Apply(net, step), m) < Measure(net, m) && FewPeers(Apply(net, step), m)
  {
    match step
    case Deliver(c, toAcceptor) => DeliverDecreases(net, c, toAcceptor, m);
    case Run(k, i, pick) => RunDecreases(net, k, i, pick, m);
  }

  /** A stretch of a run without timers and link changes is no longer than the weight of its first network. */
  lemma {:induction false} FrozenRunEnds(size: nat, nets: seq<Net>, steps: seq<Step>, t0: nat, t: nat, m: nat)
    requires IsRun(size, nets, steps) && t0 <= t < |nets| && FewPeers(nets[t0], m)
    requires forall i :: t0 <= i < t ==> Frozen(steps[i])
    ensures Measure(nets[t], m) + (t - t0) <= Measure(nets[t0], m) && FewPeers(nets[t], m)
    decreases t
  {
    if t0 == t {
    } else {
      FrozenRunEnds(size, nets, steps, t0, t - 1, m);
      RunWellFormedAt(size, nets, steps, t - 1);
      assert Frozen(steps[t - 1]);
      FrozenStepDecreases(nets[t - 1], steps[t - 1], m);
      assert nets[t - 1 + 1] == Apply(nets[t - 1], steps[t - 1]);
    }
  }
}
