/** The coordinator of one task: leases, the done counter, the running best and the checkpoint. */
module Coordination {
  import opened Wrappers
  import opened Base26
  import opened Decryptor
  import opened Units

  datatype Lease = Lease(worker: nat, since: int)

  /** The mutable part of a Coordinator as one value. */
  datatype Coord = Coord(units: seq<Unit>, pending: map<nat, Lease>, doneCount: nat, best: Result)

  /** The part of a checkpoint file that load_checkpoint uses, for a matching task. */
  datatype Checkpoint = Checkpoint(units: seq<Unit>, best: Result)

  const UNIT_TIMEOUT := 10
  const CHECKPOINT_EVERY_N_UNITS := 5

  function CountDone(units: seq<Unit>): (n: nat)
    ensures n <= |units|
  {
    if units == [] then 0
    else CountDone(units[..|units| - 1]) + (if units[|units| - 1].status == Done then 1 else 0)
  }

  lemma {:induction false} CountDoneUpdate(units: seq<Unit>, i: nat, u: Unit)
    requires i < |units|
    ensures CountDone(units[i := u]) == CountDone(units)
              - (if units[i].status == Done then 1 else 0) + (if u.status == Done then 1 else 0)
  {
    var n := |units| - 1;
    var updated := units[i := u];
    if i < n {
      assert updated[..n] == units[..n][i := u];
      CountDoneUpdate(units[..n], i, u);
    } else {
      assert updated[..n] == units[..n];
    }
  }

  ghost predicate AllDone(units: seq<Unit>) {
    forall i :: 0 <= i < |units| ==> units[i].status == Done
  }

  /** The counter counts the indices of done units. */
  lemma {:induction false} CountDoneIsSize(units: seq<Unit>)
    ensures CountDone(units) == |set i | 0 <= i < |units| && units[i].status == Done|
  {
    var now := set i | 0 <= i < |units| && units[i].status == Done;
    if units == [] {
      assert now == {};
    } else {
      var n := |units| - 1;
      CountDoneIsSize(units[..n]);
      var before := set i | 0 <= i < |units[..n]| && units[..n][i].status == Done;
      assert now == if units[n].status == Done then before + {n} else before;
    }
  }

  lemma {:induction false} AllDoneIffCount(units: seq<Unit>)
    ensures AllDone(units) <==> CountDone(units) == |units|
  {
    if units == [] {
    } else {
      var front := units[..|units| - 1];
      AllDoneIffCount(front);
      if AllDone(front) && units[|units| - 1].status == Done {
        forall i | 0 <= i < |units| ensures units[i].status == Done {
          assert i < |front| ==> units[i] == front[i];
        }
      }
      if AllDone(units) {
        assert forall i :: 0 <= i < |front| ==> front[i] == units[i];
      }
    }
  }

  // ---------- the operations ----------

  /** The first unassigned unit at or after `i`, or the number of units. */
  function FirstUnassigned(units: seq<Unit>, i: nat): (j: nat)
    requires i <= |units|
    ensures i <= j <= |units|
    ensures forall k :: i <= k < j ==> units[k].status != Unassigned
    ensures j < |units| ==> units[j].status == Unassigned
    decreases |units| - i
  {
    if i == |units| || units[i].status == Unassigned then i else FirstUnassigned(units, i + 1)
  }

  function SetStatus(c: Coord, i: nat, status: Status): Coord
    requires i < |c.units|
  {
    c.(units := c.units[i := c.units[i].(status := status)])
  }

  /** assign_to_worker up to the send: lease unit `i` to `worker`. */
  function LeaseUnit(c: Coord, i: nat, worker: nat, now: int): Coord
    requires i < |c.units|
  {
    SetStatus(c, i, Leased).(pending := c.pending[i := Lease(worker, now)])
  }

  function CandToBest(c: Coord, cand: Result): Coord { c.(best := Better(c.best, cand)) }

  function MarkUnitDone(c: Coord, i: nat): Coord
    requires i < |c.units|
  {
    if c.units[i].status == Leased then
      SetStatus(c, i, Done).(doneCount := c.doneCount + 1, pending := c.pending - {i})
    else c
  }

  /** The units of `expired` given back and their leases dropped, all at once. */
  function Expire(c: Coord, expired: set<nat>): Coord {
    c.(units := seq(|c.units|, i requires 0 <= i < |c.units| =>
                  if i in expired then c.units[i].(status := Unassigned) else c.units[i]),
       pending := c.pending - expired)
  }

  /** The record of the lease of unit `i` erased. */
  function Erase(c: Coord, i: nat): Coord { c.(pending := c.pending - {i}) }

  function Overdue(c: Coord, now: int): set<nat> {
    set i | i in c.pending && now - c.pending[i].since >= UNIT_TIMEOUT
  }

  /** What a timeout check at time `now` does: a lease of ten seconds or more loses its record and its unit is given
      back; a younger lease and its unit stay, and so does everything else. */
  ghost predicate TimedOut(c: Coord, c': Coord, now: int) {
    && |c'.units| == |c.units| && c'.doneCount == c.doneCount && c'.best == c.best
    && (forall i :: i in c'.pending ==> i in c.pending)
    && (forall i :: i in c.pending && now - c.pending[i].since >= 10 ==> i !in c'.pending)
    && (forall i :: i in c.pending && now - c.pending[i].since < 10 ==>
          i in c'.pending && c'.pending[i] == c.pending[i])
    && (forall i :: 0 <= i < |c.units| ==>
          c'.units[i] == if i in c.pending && now - c.pending[i].since >= 10 then c.units[i].(status := Unassigned)
                         else c.units[i])
  }

  lemma TimeoutMeaning(c: Coord, now: int)
    ensures TimedOut(c, Expire(c, Overdue(c, now)), now)
  {
  }

  function Fresh(total: int, size: int, params: Params): Coord
    requires size > 0
  {
    Coord(Cut(0, total, size, params), map[], 0, SENTINEL)
  }

  function Saved(c: Coord): Checkpoint { Checkpoint(c.units, c.best) }

  function RestoredUnits(units: seq<Unit>): (r: seq<Unit>)
    ensures |r| == |units|
    ensures forall i :: 0 <= i < |units| ==> r[i] == units[i].Restored()
  {
    seq(|units|, i requires 0 <= i < |units| => units[i].Restored())
  }

  function Loaded(cp: Checkpoint): Coord {
    var units := RestoredUnits(cp.units);
    Coord(units, map[], CountDone(units), cp.best)
  }

  // ---------- the bookkeeping invariant ----------

  /** Leases are recorded for leased units only, and the counter counts the done ones. */
  ghost predicate Counted(c: Coord) {
    && (forall i: nat :: i in c.pending ==> i < |c.units| && c.units[i].status == Leased)
    && c.doneCount == CountDone(c.units)
  }

  /** Every leased unit has its lease recorded, so that it can time out. */
  ghost predicate Recorded(c: Coord) {
    forall i: nat :: i < |c.units| && c.units[i].status == Leased ==> i in c.pending
  }

  ghost predicate Consistent(c: Coord) { Counted(c) && Recorded(c) }

  lemma {:induction false} NoneDone(units: seq<Unit>)
    requires forall u :: u in units ==> u.status == Unassigned
    ensures CountDone(units) == 0
  {
    if units == [] {
    } else {
      NoneDone(units[..|units| - 1]);
    }
  }

  lemma FreshConsistent(total: int, size: int, params: Params)
    requires size > 0
    ensures Consistent(Fresh(total, size, params))
  {
    NoneDone(Cut(0, total, size, params));
  }

  lemma LeaseConsistent(c: Coord, i: nat, worker: nat, now: int)
    requires Counted(c) && i < |c.units| && c.units[i].status == Unassigned
    ensures Counted(LeaseUnit(c, i, worker, now))
    ensures Recorded(c) ==> Recorded(LeaseUnit(c, i, worker, now))
  {
    CountDoneUpdate(c.units, i, c.units[i].(status := Leased));
  }

  lemma DoneConsistent(c: Coord, i: nat)
    requires Counted(c) && i < |c.units|
    ensures Counted(MarkUnitDone(c, i))
    ensures Recorded(c) ==> Recorded(MarkUnitDone(c, i))
  {
    CountDoneUpdate(c.units, i, c.units[i].(status := Done));
  }

  lemma {:induction false} SameDoneSameCount(a: seq<Unit>, b: seq<Unit>)
    requires |a| == |b|
    requires forall i :: 0 <= i < |a| ==> (a[i].status == Done <==> b[i].status == Done)
    ensures CountDone(a) == CountDone(b)
  {
    if a == [] {
    } else {
      SameDoneSameCount(a[..|a| - 1], b[..|b| - 1]);
    }
  }

  lemma ExpireConsistent(c: Coord, expired: set<nat>)
    requires Counted(c) && expired <= c.pending.Keys
    ensures Counted(Expire(c, expired))
    ensures Recorded(c) ==> Recorded(Expire(c, expired))
  {
    SameDoneSameCount(c.units, Expire(c, expired).units);
  }

  lemma LoadedConsistent(cp: Checkpoint)
    ensures Consistent(Loaded(cp))
    ensures Loaded(cp).doneCount == CountDone(cp.units)
  {
    SameDoneSameCount(cp.units, RestoredUnits(cp.units));
  }

  // ---------- the coordinator object ----------

  class Coordinator {
    var units: seq<Unit>
    var pending: map<nat, Lease>
    var doneCount: nat
    var best: Result

    ghost function View(): Coord
      reads this
    {
      Coord(units, pending, doneCount, best)
    }

    /** Draws units from the policy until it returns the end marker. */
    constructor (policy: StaticPolicy)
      requires policy.unitSize > 0 && policy.currentStart == 0
      modifies policy
      ensures View() == Fresh(policy.totalKeys, policy.unitSize, policy.params)
    {
      pending, doneCount, best := map[], 0, SENTINEL;
      var drawn: seq<Unit> := [];
      while true
        invariant policy.currentStart >= 0
        invariant drawn + Cut(policy.currentStart, policy.totalKeys, policy.unitSize, policy.params)
               == Cut(0, policy.totalKeys, policy.unitSize, policy.params)
        decreases policy.totalKeys - policy.currentStart
      {
        var unit := policy.GetNextUnit();
        if unit.IsEnd() {
          break;
        }
        drawn := drawn + [unit];
      }
      units := drawn;
    }

    /** Leases the first unassigned unit; None when there is none left. */
    method AssignToWorker(worker: nat, now: int) returns (sent: Option<nat>)
      modifies this
      ensures var i := FirstUnassigned(old(units), 0);
              if i == |old(units)| then sent == None && View() == old(View())
              else sent == Some(i) && View() == LeaseUnit(old(View()), i, worker, now)
      ensures sent.None? ==> View() == old(View()) && forall i :: 0 <= i < |units| ==> units[i].status != Unassigned
      ensures sent.Some? ==>
                && sent.value < |old(units)| && old(units)[sent.value].status == Unassigned
                && (forall k :: 0 <= k < sent.value ==> old(units)[k].status != Unassigned)
                && units == old(units)[sent.value := old(units)[sent.value].(status := Leased)]
                && pending == old(pending)[sent.value := Lease(worker, now)]
                && doneCount == old(doneCount) && best == old(best)
    {
      for i := 0 to |units|
        invariant View() == old(View())
        invariant FirstUnassigned(units, 0) == FirstUnassigned(units, i)
      {
        if units[i].status == Unassigned {
          units := units[i := units[i].(status := Leased)];
          pending := pending[i := Lease(worker, now)];
          return Some(i);
        }
      }
      return None;
    }

    method CandidateToBest(cand: Result)
      modifies this`best
      ensures View() == CandToBest(old(View()), cand)
      ensures best == if Scoring.Less(cand.score, old(best).score) then cand else old(best)
    {
      if Scoring.Less(cand.score, best.score) {
        best := cand;
      }
    }

    method MarkDone(index: nat) returns (credited: bool)
      requires index < |units|
      modifies this
      ensures View() == MarkUnitDone(old(View()), index)
      ensures credited <==> old(units)[index].status == Leased
      ensures !credited ==> View() == old(View())
      ensures credited ==>
                && units == old(units)[index := old(units)[index].(status := Done)]
                && doneCount == old(doneCount) + 1 && pending == old(pending) - {index} && best == old(best)
    {
      if units[index].status == Leased {
        units := units[index := units[index].(status := Done)];
        doneCount := doneCount + 1;
        if index in pending {
          pending := pending - {index};
        }
        assert pending == old(pending) - {index};
        return true;
      }
      return false;
    }

    method HasUnassignedUnits() returns (found: bool)
      ensures found <==> exists i :: 0 <= i < |units| && units[i].status == Unassigned
    {
      for i := 0 to |units|
        invariant forall k :: 0 <= k < i ==> units[k].status != Unassigned
      {
        if units[i].status == Unassigned {
          return true;
        }
      }
      return false;
    }

    method AllUnitsDone() returns (all: bool)
      ensures all <==> AllDone(units)
    {
      for i := 0 to |units|
        invariant forall k :: 0 <= k < i ==> units[k].status == Done
      {
        if units[i].status != Done {
          return false;
        }
      }
      return true;
    }

    /** load_checkpoint on a readable file of the same task. */
    method LoadCheckpoint(cp: Checkpoint)
      modifies this
      ensures View() == Loaded(cp)
      ensures pending == map[] && best == cp.best && |units| == |cp.units|
      ensures forall i :: 0 <= i < |units| ==>
                units[i] == cp.units[i].(status := if cp.units[i].status == Done then Done else Unassigned)
      ensures doneCount == |set i | 0 <= i < |units| && units[i].status == Done|
    {
      best := cp.best;
      units := [];
      for i := 0 to |cp.units|
        invariant best == cp.best
        invariant units == RestoredUnits(cp.units)[..i]
      {
        units := units + [cp.units[i].Restored()];
      }
      pending := map[];
      doneCount := 0;
      for i := 0 to |units|
        invariant units == RestoredUnits(cp.units) && pending == map[] && best == cp.best
        invariant doneCount == CountDone(units[..i])
      {
        assert units[..i + 1][..i] == units[..i];
        if units[i].status == Done {
          doneCount := doneCount + 1;
        }
      }
      assert units[..|units|] == units;
      CountDoneIsSize(units);
    }

    /** The loop of check_timeouts: every overdue lease is given back; returns the sessions removed. */
    method CheckTimeouts(now: int) returns (removed: set<nat>)
      requires forall i :: i in pending ==> i < |units|
      modifies this
      ensures View() == Expire(old(View()), Overdue(old(View()), now))
      ensures removed == set i | i in old(pending) && now - old(pending)[i].since >= 10 :: old(pending)[i].worker
      ensures TimedOut(old(View()), View(), now)
    {
      removed := {};
      var todo := pending.Keys;
      ghost var before := View();
      ghost var seen: set<nat> := {};
      assert Expire(before, {}) == before by {
        assert Expire(before, {}).units == before.units;
        assert Expire(before, {}).pending == before.pending;
      }
      while todo != {}
        invariant todo <= before.pending.Keys
        invariant seen == set i | i in before.pending && i !in todo && now - before.pending[i].since >= UNIT_TIMEOUT
        invariant View() == Expire(before, seen)
        invariant removed == set i | i in seen :: before.pending[i].worker
        decreases todo
      {
        var i :| i in todo;
        todo := todo - {i};
        assert i in pending && pending[i] == before.pending[i];
        if now - pending[i].since >= UNIT_TIMEOUT {
          removed := removed + {pending[i].worker};
          units := units[i := units[i].(status := Unassigned)];
          pending := pending - {i};
          ghost var more := seen + {i};
          assert units == Expire(before, more).units;
          assert pending == Expire(before, more).pending;
          seen := more;
        }
      }
      assert seen == Overdue(before, now);
      TimeoutMeaning(before, now);
      assert removed == set i | i in before.pending && now - before.pending[i].since >= 10 :: before.pending[i].worker;
    }
  }
}
