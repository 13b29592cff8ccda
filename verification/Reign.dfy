/** Who stays Primary: with timers and links frozen, the least Primary keeps its role exactly when no claim of a
    lower id is under way towards it, and then it is the only Primary that is left. */
module Reign {
  import opened Wrappers
  import opened ServerNode
  import opened Network
  import opened Conflict
  import opened Convergence

  // ---------- claims under way ----------

  /** The receiving end of that queue is open, so its messages can still be read. */
  predicate Readable(net: Net, c: nat, dir: bool)
    requires c < |net.conns|
  {
    OpenAt(net, net.conns[c].Receiver(dir), c)
  }

  ghost predicate NoHello(q: seq<Msg>) { forall i :: 0 <= i < |q| ==> !q[i].Hello? }

  /** The open links are established: no HELLO is about to be sent or can still be read. */
  ghost predicate Established(net: Net) {
    && (forall k, i :: 0 <= k < |net.nodes| && 0 <= i < |net.nodes[k].tasks| ==> !net.nodes[k].tasks[i].SayHello?)
    && (forall c, dir :: 0 <= c < |net.conns| && Readable(net, c, dir) ==> NoHello(net.conns[c].Queue(dir)))
  }

  /** Message `i` of that queue announces a lower id to `p`, which can still read it. */
  ghost predicate ClaimQueued(net: Net, p: nat, c: nat, dir: bool, i: nat) {
    && c < |net.conns| && net.conns[c].Receiver(dir) == p && Readable(net, c, dir)
    && i < |net.conns[c].Queue(dir)|
    && net.conns[c].Queue(dir)[i].Coordinator? && net.conns[c].Queue(dir)[i].from < p
  }

  /** A coroutine of the lower id `k` will still announce it to `p` over connection `c`, which is open at both ends. */
  ghost predicate ClaimPending(net: Net, p: nat, k: nat, c: nat) {
    && k < p && c < |net.conns| && OpenAt(net, k, c) && OpenAt(net, p, c)
    && ((net.conns[c].ini == k && net.conns[c].acc == p) || (net.conns[c].ini == p && net.conns[c].acc == k))
    && Announcing(net.nodes[k], c)
  }

  ghost predicate Unclaimed(net: Net, p: nat) {
    && (forall c: nat, dir: bool, i: nat :: !ClaimQueued(net, p, c, dir, i))
    && (forall k: nat, c: nat :: !ClaimPending(net, p, k, c))
  }

  ghost predicate LeastPrimary(net: Net, p: nat) {
    && p < |net.nodes| && net.nodes[p].role == Primary
    && (forall k :: 0 <= k < p ==> net.nodes[k].role == Backup)
  }

  ghost predicate Reigns(net: Net, p: nat) {
    LeastPrimary(net, p) && Established(net) && Unclaimed(net, p)
  }

  // ---------- one frozen step ----------

  /** Handling anything but a HELLO: no session is lost, nobody is promoted, and only a Primary that is challenged by a
      higher id announces. */
  lemma QuietHandle(n: Node, c: nat, x: Msg)
    requires c in n.peers && !x.Hello?
    ensures var n' := Handle(n, c, x);
            && n'.peers.Keys == n.peers.Keys && n'.id == n.id
            && (n'.role == Primary ==> n.role == Primary)
            && (n.role == Primary && (x.Coordinator? ==> x.from > n.id) ==> n'.role == Primary)
            && (forall i :: 0 <= i < |n'.tasks| ==>
                  n'.tasks[i] in n.tasks || n'.tasks[i].SayAlive? || n'.tasks[i] == Begin(Elect) ||
                  (n'.tasks[i] == Begin(Announce) && n.role == Primary))
  {
  }

  /** A slice appends to at most one queue. */
  lemma SliceKeepsLinks(net: Net, k: nat, i: nat, pick: nat)
    requires WellFormed(net) && Enabled(net, Run(k, i, pick))
    ensures SameLinks(net, RunTask(net, k, i, pick))
    ensures var net', sent := RunTask(net, k, i, pick), Sent(net.nodes[k], net.nodes[k].tasks[i], pick);
            forall d, dir :: 0 <= d < |net.conns| ==>
              || net'.conns[d].Queue(dir) == net.conns[d].Queue(dir)
              || (sent.Some? && net'.conns[d].Queue(dir) == net.conns[d].Queue(dir) + [sent.value])
  {
    if Sent(net.nodes[k], net.nodes[k].tasks[i], pick).Some? {
      SlicePosts(net, k, i, pick);
    }
  }

  /** Connections keep their ends and nodes their sessions. */
  ghost predicate SameLinks(net: Net, net': Net) {
    && |net'.nodes| == |net.nodes| && |net'.conns| == |net.conns|
    && (forall k :: 0 <= k < |net.nodes| ==> net'.nodes[k].peers.Keys == net.nodes[k].peers.Keys)
    && (forall c :: 0 <= c < |net.conns| ==>
          && net'.conns[c].ini == net.conns[c].ini && net'.conns[c].acc == net.conns[c].acc
          && net'.conns[c].accepted == net.conns[c].accepted)
  }

  ghost predicate LinksKept(net: Net, net': Net) {
    forall a, b :: Linked(net, a, b) ==> Linked(net', a, b)
  }

  lemma LinksKeptByStep(net: Net, net': Net)
    requires SameLinks(net, net')
    ensures LinksKept(net, net')
  {
    forall a, b | Linked(net, a, b) ensures Linked(net', a, b) {
      var c :| 0 <= c < |net.conns| && LinkedBy(net, a, b, c);
      assert LinkedBy(net', a, b, c);
    }
  }

  lemma DeliverEstablished(net: Net, c: nat, dir: bool)
    requires WellFormed(net) && Established(net) && Enabled(net, Deliver(c, dir))
    ensures Established(DeliverStep(net, c, dir)) && SameLinks(net, DeliverStep(net, c, dir))
    ensures forall k :: 0 <= k < |net.nodes| && net.nodes[k].role == Backup ==>
              DeliverStep(net, c, dir).nodes[k].role == Backup
  {
    var net', conn := DeliverStep(net, c, dir), net.conns[c];
    var k, q := conn.Receiver(dir), conn.Queue(dir);
    assert Readable(net, c, dir) && NoHello(q);
    QuietHandle(net.nodes[k], c, q[0]);
    forall d, e | 0 <= d < |net'.conns| && Readable(net', d, e) ensures NoHello(net'.conns[d].Queue(e)) {
      assert Readable(net, d, e) && NoHello(net.conns[d].Queue(e));
    }
  }

  lemma RunEstablished(net: Net, k: nat, i: nat, pick: nat)
    requires WellFormed(net) && Established(net) && Enabled(net, Run(k, i, pick))
    ensures Established(RunTask(net, k, i, pick)) && SameLinks(net, RunTask(net, k, i, pick))
    ensures forall j :: 0 <= j < |net.nodes| ==> RunTask(net, k, i, pick).nodes[j].role == net.nodes[j].role
  {
    var net' := RunTask(net, k, i, pick);
    SliceKeepsLinks(net, k, i, pick);
    assert !net.nodes[k].tasks[i].SayHello?;
    forall d, e | 0 <= d < |net'.conns| && Readable(net', d, e) ensures NoHello(net'.conns[d].Queue(e)) {
      assert Readable(net, d, e) && NoHello(net.conns[d].Queue(e));
    }
  }

  lemma FrozenEstablished(net: Net, step: Step)
    requires WellFormed(net) && Established(net) && Enabled(net, step) && Frozen(step)
    ensures Established(Apply(net, step)) && SameLinks(net, Apply(net, step))
    ensures forall k :: 0 <= k < |net.nodes| && net.nodes[k].role == Backup ==> Apply(net, step).nodes[k].role == Backup
  {
    match step
    case Deliver(c, dir) => DeliverEstablished(net, c, dir);
    case Run(k, i, pick) => RunEstablished(net, k, i, pick);
  }

  /** A delivery brings up no new claim of a Backup. */
  lemma DeliverUnclaimed(net: Net, c: nat, dir: bool, p: nat)
    requires WellFormed(net) && Reigns(net, p) && Enabled(net, Deliver(c, dir))
    ensures Unclaimed(DeliverStep(net, c, dir), p)
  {
    var net', conn := DeliverStep(net, c, dir), net.conns[c];
    var n, q := conn.Receiver(dir), conn.Queue(dir);
    assert Readable(net, c, dir) && NoHello(q);
    QuietHandle(net.nodes[n], c, q[0]);
    forall d: nat, e: bool, i: nat | ClaimQueued(net', p, d, e, i) ensures false {
      assert ClaimQueued(net, p, d, e, if d == c && e == dir then i + 1 else i);
    }
    forall k: nat, d: nat | ClaimPending(net', p, k, d) ensures false {
      AnnouncedBefore(net.nodes[n], c, q[0], d);
      assert ClaimPending(net, p, k, d);
    }
  }

  lemma AnnouncedBefore(n: Node, c: nat, x: Msg, d: nat)
    requires c in n.peers && !x.Hello?
    ensures n.role == Backup && Announcing(Handle(n, c, x), d) ==> Announcing(n, d)
  {
    QuietHandle(n, c, x);
    var n' := Handle(n, c, x);
    if n.role == Backup && Announcing(n', d) {
      var i :| 0 <= i < |n'.tasks| && Announces(n'.tasks[i], d);
      var j :| 0 <= j < |n.tasks| && n.tasks[j] == n'.tasks[i];
      assert Announces(n.tasks[j], d);
    }
  }

  /** A slice brings up no new claim: a COORDINATOR that it sends to `p` was a pending claim before. */
  lemma RunUnclaimed(net: Net, k: nat, i: nat, pick: nat, p: nat)
    requires WellFormed(net) && Reigns(net, p) && Enabled(net, Run(k, i, pick))
    ensures Unclaimed(RunTask(net, k, i, pick), p)
  {
    var net' := RunTask(net, k, i, pick);
    SliceKeepsLinks(net, k, i, pick);
    forall d: nat, e: bool, j: nat | ClaimQueued(net', p, d, e, j) ensures false {
      if j < |net.conns[d].Queue(e)| {
        assert ClaimQueued(net, p, d, e, j);
      } else {
        SentClaimWasPending(net, k, i, pick, p, d, e, j);
      }
    }
    forall j: nat, d: nat | ClaimPending(net', p, j, d) ensures false {
      if j == k {
        SliceAnnounced(net.nodes[k], i, pick, d);
      }
      assert ClaimPending(net, p, j, d);
    }
  }

  lemma SentClaimWasPending(net: Net, k: nat, i: nat, pick: nat, p: nat, d: nat, e: bool, j: nat)
    requires WellFormed(net) && Enabled(net, Run(k, i, pick)) && p < |net.nodes|
    requires ClaimQueued(RunTask(net, k, i, pick), p, d, e, j)
    requires d < |net.conns| && |net.conns[d].Queue(e)| <= j
    ensures ClaimPending(net, p, k, d)
  {
    var n, net' := net.nodes[k], RunTask(net, k, i, pick);
    var sent := Sent(n, n.tasks[i], pick);
    assert sent.Some?;
    SlicePosts(net, k, i, pick);
    assert d == pick && net'.conns[d].Queue(e)[j] == sent.value;
    assert ConnOk(|net.nodes|, net.conns[d]);
    assert Announces(n.tasks[i], d);
  }

  lemma SliceAnnounced(n: Node, i: nat, pick: nat, d: nat)
    requires i < |n.tasks| && d in n.peers
    ensures Announcing(n.(tasks := n.tasks[i := Rest(n, n.tasks[i], pick)]), d) ==> Announcing(n, d)
  {
    var n' := n.(tasks := n.tasks[i := Rest(n, n.tasks[i], pick)]);
    if Announcing(n', d) {
      var j :| 0 <= j < |n'.tasks| && Announces(n'.tasks[j], d);
      assert Announces(n.tasks[j], d);
    }
  }

  lemma DeliverKeepsPrimary(net: Net, c: nat, dir: bool, p: nat)
    requires WellFormed(net) && Reigns(net, p) && Enabled(net, Deliver(c, dir))
    ensures DeliverStep(net, c, dir).nodes[p].role == Primary
  {
    var conn := net.conns[c];
    var k, x := conn.Receiver(dir), conn.Queue(dir)[0];
    assert Readable(net, c, dir) && NoHello(conn.Queue(dir));
    assert ConnOk(|net.nodes|, conn) && NodeOk(net.conns, k, net.nodes[k]);
    QuietHandle(net.nodes[k], c, x);
    if k == p && x.Coordinator? {
      assert !ClaimQueued(net, p, c, dir, 0);
      assert x.from == conn.Sender(dir);
    }
  }

  lemma FrozenStepKeepsReign(net: Net, step: Step, p: nat)
    requires WellFormed(net) && Reigns(net, p) && Enabled(net, step) && Frozen(step)
    ensures Reigns(Apply(net, step), p)
    ensures SameLinks(net, Apply(net, step))
  {
    FrozenEstablished(net, step);
    match step
    case Deliver(c, dir) =>
      DeliverUnclaimed(net, c, dir, p);
      DeliverKeepsPrimary(net, c, dir, p);
    case Run(k, i, pick) =>
      RunUnclaimed(net, k, i, pick, p);
      RunEstablished(net, k, i, pick);
  }

  // ---------- whole stretches ----------

  /** Nothing is left to deliver or to run. */
  ghost predicate Stuck(net: Net) {
    forall step :: Frozen(step) ==> !Enabled(net, step)
  }

  lemma StuckIsSettled(net: Net)
    requires Stuck(net)
    ensures Settled(net)
  {
    forall k, c: nat | 0 <= k < |net.nodes| ensures !Announcing(net.nodes[k], c) {
      if Announcing(net.nodes[k], c) {
        var i :| 0 <= i < |net.nodes[k].tasks| && Announces(net.nodes[k].tasks[i], c);
        assert CanRun(net.nodes[k], net.nodes[k].tasks[i], c);
        assert Enabled(net, Run(k, i, c));
      }
    }
    forall c, toAcceptor | 0 <= c < |net.conns| && OpenAt(net, net.conns[c].Receiver(toAcceptor), c)
      ensures !Exposes(net.conns[c].Queue(toAcceptor))
    {
      assert !Enabled(net, Deliver(c, toAcceptor));
    }
  }

  lemma ReignGoesOn(size: nat, nets: seq<Net>, steps: seq<Step>, t: nat, p: nat)
    requires IsRun(size, nets, steps) && t < |steps| && Frozen(steps[t]) && Reigns(nets[t], p)
    ensures Reigns(nets[t + 1], p) && LinksKept(nets[t], nets[t + 1])
  {
    RunWellFormedAt(size, nets, steps, t);
    FrozenStepKeepsReign(nets[t], steps[t], p);
    LinksKeptByStep(nets[t], nets[t + 1]);
  }

  lemma {:induction false} ReignLasts(size: nat, nets: seq<Net>, steps: seq<Step>, t0: nat, t: nat, p: nat)
    requires IsRun(size, nets, steps) && t0 <= t < |nets| && Reigns(nets[t0], p)
    requires forall i :: t0 <= i < t ==> Frozen(steps[i])
    ensures Reigns(nets[t], p)
    ensures LinksKept(nets[t0], nets[t])
    decreases t
  {
    if t0 == t {
    } else {
      ReignLasts(size, nets, steps, t0, t - 1, p);
      ReignGoesOn(size, nets, steps, t - 1, p);
    }
  }

  // ---------- exactly when the least Primary stays ----------

  /** A finite sequence of frozen steps from `net`. */
  ghost predicate FrozenPath(net: Net, nets: seq<Net>, steps: seq<Step>) {
    && |nets| == |steps| + 1 && nets[0] == net
    && forall t :: 0 <= t < |steps| ==>
         Frozen(steps[t]) && Enabled(nets[t], steps[t]) && nets[t + 1] == Apply(nets[t], steps[t])
  }

  lemma {:induction false} PathKeepsReign(net: Net, nets: seq<Net>, steps: seq<Step>, t: nat, p: nat)
    requires WellFormed(net) && Reigns(net, p) && FrozenPath(net, nets, steps) && t < |nets|
    ensures WellFormed(nets[t]) && Reigns(nets[t], p)
  {
    if t == 0 {
    } else {
      PathKeepsReign(net, nets, steps, t - 1, p);
      StepWellFormed(nets[t - 1], steps[t - 1]);
      FrozenStepKeepsReign(nets[t - 1], steps[t - 1], p);
      assert nets[t - 1 + 1] == Apply(nets[t - 1], steps[t - 1]);
    }
  }

  /** Some frozen continuation makes `p` step down. */
  ghost predicate Deposable(net: Net, p: nat) {
    exists nets, steps :: Deposes(net, nets, steps, p)
  }

  ghost predicate Deposes(net: Net, nets: seq<Net>, steps: seq<Step>, p: nat) {
    FrozenPath(net, nets, steps) && p < |nets[|steps|].nodes| && nets[|steps|].nodes[p].role == Backup
  }

  lemma DeposableLater(net: Net, step: Step, p: nat)
    requires Enabled(net, step) && Frozen(step) && Deposable(Apply(net, step), p)
    ensures Deposable(net, p)
  {
    var nets, steps :| Deposes(Apply(net, step), nets, steps, p);
    assert Deposes(net, [net] + nets, [step] + steps, p);
  }

  lemma DeposedNow(net: Net, p: nat)
    requires p < |net.nodes| && net.nodes[p].role == Backup
    ensures Deposable(net, p)
  {
    assert Deposes(net, [net], [], p);
  }

  /** A queued claim is delivered after the messages in front of it, and deposes. */
  lemma {:induction false} QueuedClaimDeposes(net: Net, p: nat, c: nat, dir: bool, i: nat)
    requires WellFormed(net) && Established(net) && ClaimQueued(net, p, c, dir, i)
    ensures Deposable(net, p)
    decreases i
  {
    var step := Deliver(c, dir);
    var net' := Apply(net, step);
    assert NoHello(net.conns[c].Queue(dir));
    DeliverEstablished(net, c, dir);
    if i == 0 {
      DeposedNow(net', p);
    } else {
      StepWellFormed(net, step);
      assert ClaimQueued(net', p, c, dir, i - 1);
      QueuedClaimDeposes(net', p, c, dir, i - 1);
    }
    DeposableLater(net, step, p);
  }

  /** A broadcast that still has session `c` to serve sends its claim there next. */
  lemma ContinuedClaimDeposes(net: Net, p: nat, k: nat, c: nat, i: nat)
    requires WellFormed(net) && Established(net) && ClaimPending(net, p, k, c)
    requires i < |net.nodes[k].tasks| && net.nodes[k].tasks[i].Continue? && Announces(net.nodes[k].tasks[i], c)
    ensures Deposable(net, p)
  {
    var step := Run(k, i, c);
    var net' := Apply(net, step);
    assert NodeOk(net.conns, k, net.nodes[k]) && ConnOk(|net.nodes|, net.conns[c]);
    StepWellFormed(net, step);
    RunEstablished(net, k, i, c);
    var dir := net.conns[c].ini == k;
    assert net'.conns[c].Queue(dir) == net.conns[c].Queue(dir) + [Coordinator(k)];
    assert ClaimQueued(net', p, c, dir, |net.conns[c].Queue(dir)|);
    QueuedClaimDeposes(net', p, c, dir, |net.conns[c].Queue(dir)|);
    DeposableLater(net, step, p);
  }

  lemma PendingClaimDeposes(net: Net, p: nat, k: nat, c: nat)
    requires WellFormed(net) && Established(net) && ClaimPending(net, p, k, c)
    ensures Deposable(net, p)
  {
    var n := net.nodes[k];
    var i :| 0 <= i < |n.tasks| && Announces(n.tasks[i], c);
    if n.tasks[i].Continue? {
      ContinuedClaimDeposes(net, p, k, c, i);
    } else {
      var step := Run(k, i, c);
      var net' := Apply(net, step);
      StepWellFormed(net, step);
      RunEstablished(net, k, i, c);
      assert net'.nodes[k].tasks[i] == Continue(Announce, n.peers.Keys) && Announcing(net'.nodes[k], c);
      ContinuedClaimDeposes(net', p, k, c, i);
      DeposableLater(net, step, p);
    }
  }

  /** On established links the least Primary stays Primary in every frozen continuation exactly when no claim of a lower
      id is under way towards it. */
  lemma DeposableIff(net: Net, p: nat)
    requires WellFormed(net) && LeastPrimary(net, p) && Established(net)
    ensures Deposable(net, p) <==> !Unclaimed(net, p)
  {
    if Unclaimed(net, p) {
      forall nets, steps | FrozenPath(net, nets, steps) ensures !Deposes(net, nets, steps, p) {
        PathKeepsReign(net, nets, steps, |steps|, p);
      }
    } else if c: nat, dir: bool, i: nat :| ClaimQueued(net, p, c, dir, i) {
      QueuedClaimDeposes(net, p, c, dir, i);
    } else {
      var k: nat, c: nat :| ClaimPending(net, p, k, c);
      PendingClaimDeposes(net, p, k, c);
    }
  }

  // ---------- what makes a Primary step down ----------

  /** Of the sessions with peer `from`, session `c` is the one that deduplication keeps, for a lower peer. */
  ghost predicate KeptForLower(n: Node, c: nat, from: nat)
    requires c in n.peers
  {
    forall d :: d in n.peers && d != c && n.peers[d].pid == Some(from) ==> !n.peers[c].initiator && n.peers[d].initiator
  }

  /** Exactly which messages make a Primary step down: a COORDINATOR from a lower id, even a stale one, or a HELLO of
      a lower Primary on a session that is not closed as a duplicate. */
  lemma PrimaryYieldsIff(n: Node, c: nat, x: Msg)
    requires c in n.peers && n.role == Primary && x.from != n.id && DistinctPids(n.peers - {c})
    ensures Handle(n, c, x).role == Backup <==>
              x.from < n.id && (x.Coordinator? || (x.Hello? && x.role == Primary && KeptForLower(n, c, x.from)))
  {
    if x.Hello? {
      var known := n.(peers := n.peers[c := n.peers[c].(pid := Some(x.from), role := x.role)]);
      var asked := if x.request then Spawn(known, SayHello(c, known.role)) else known;
      DedupOnlyPeers(asked, c);
      if x.from < n.id {
        assert asked.peers - {c} == n.peers - {c};
        KeptIff(asked, c);
        SameKept(n, asked, c, x.from, x.role);
      }
    }
  }

  lemma SameKept(n: Node, n': Node, c: nat, from: nat, role: Role)
    requires c in n.peers && n'.peers == n.peers[c := n.peers[c].(pid := Some(from), role := role)]
    ensures KeptForLower(n', c, from) <==> KeptForLower(n, c, from)
  {
    assert forall d :: d in n.peers && d != c ==> n'.peers[d] == n.peers[d];
  }

  lemma KeptIff(n: Node, c: nat)
    requires c in n.peers && n.peers[c].pid.Some? && n.peers[c].pid.value < n.id && DistinctPids(n.peers - {c})
    ensures c in Dedup(n, c).peers <==> KeptForLower(n, c, n.peers[c].pid.value)
  {
    var twins := Twins(n.peers, c);
    TwinsAreFew(n.peers, c);
    forall d | d in twins ensures twins == {d} {
      OnlyMember(twins, d);
    }
    forall d | d in n.peers && d != c && n.peers[d].pid == Some(n.peers[c].pid.value) ensures d in twins {
    }
  }

  // ---------- conflict resolution ----------

  /** Conflict resolution: from any reachable network with established links whose least Primary `p` is linked to
      all, and with no claim of a lower id under way towards `p`, it stays Primary throughout, and when everything
      has been delivered, which it is after at most Measure steps, `p` is the only Primary. */
  lemma LowestIdWins(size: nat, nets: seq<Net>, steps: seq<Step>, t0: nat, t: nat, p: nat, m: nat)
    requires IsRun(size, nets, steps) && t0 <= t < |nets| && Reigns(nets[t0], p) && FewPeers(nets[t0], m)
    requires forall i :: t0 <= i < t ==> Frozen(steps[i])
    requires forall k :: 0 <= k < size && k != p ==> Linked(nets[t0], p, k)
    ensures |nets[t].nodes| == size && p < size && nets[t].nodes[p].role == Primary
    ensures t - t0 <= Measure(nets[t0], m)
    ensures Stuck(nets[t]) ==> forall k :: 0 <= k < size && k != p ==> nets[t].nodes[k].role == Backup
  {
    RunWellFormedAt(size, nets, steps, t);
    ReignLasts(size, nets, steps, t0, t, p);
    FrozenRunEnds(size, nets, steps, t0, t, m);
    if Stuck(nets[t]) {
      StuckIsSettled(nets[t]);
      ClashesAreExposed(size, nets, steps, t);
      forall k | 0 <= k < size && k != p ensures nets[t].nodes[k].role == Backup {
        SettledLinkHasOnePrimary(nets[t], p, k);
      }
    }
  }
}
