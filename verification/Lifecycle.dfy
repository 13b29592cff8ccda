/** The bookkeeping of units over all runs of the search, also those that give several units to one session and those
    whose coroutines start inside the timeout handler. */
module Lifecycle {
  import opened Wrappers
  import opened Scoring
  import opened Decryptor
  import opened Units
  import opened Coordination
  import opened Search

  /** Ranges are those of the cut, here and on disk, leases are recorded for leased units only, the counter is exact and
      never behind the last checkpoint. */
  ghost predicate Bookkept(job: Job, sys: Sys)
    requires job.Ok()
  {
    && SameRanges(job, sys.coord.units) && Counted(sys.coord)
    && (sys.disk.Some? ==> SameRanges(job, sys.disk.value.units))
    && sys.lastSaved <= sys.coord.doneCount
  }

  // ---------- several assignments in a row ----------

  ghost predicate NonNegative(units: seq<Unit>) { forall u :: u in units ==> u.start >= 0 && u.end >= 0 }

  /** Only statuses change, and no unit becomes done or stops being done. */
  ghost predicate Leasing(sys: Sys, sys': Sys) {
    var c, c' := sys.coord, sys'.coord;
    && |c'.units| == |c.units| && c'.doneCount == c.doneCount && c'.best == c.best
    && sys'.disk == sys.disk && sys'.lastSaved == sys.lastSaved
    && (forall k :: 0 <= k < |c.units| ==>
          && c'.units[k] == c.units[k].(status := c'.units[k].status)
          && (c'.units[k].status == Done <==> c.units[k].status == Done))
  }

  lemma AssignIsLeasing(job: Job, sys: Sys, s: nat, now: int)
    requires Counted(sys.coord) && NonNegative(sys.coord.units) && s < |sys.sessions|
    ensures var sys' := AssignStep(job, sys, s, now);
            Leasing(sys, sys') && Counted(sys'.coord) && (Recorded(sys.coord) ==> Recorded(sys'.coord))
  {
    var i := FirstUnassigned(sys.coord.units, 0);
    if i < |sys.coord.units| {
      LeaseConsistent(sys.coord, i, s, now);
    }
  }

  lemma {:induction false} AssignAllIsLeasing(job: Job, sys: Sys, free: seq<nat>, now: int)
    requires Counted(sys.coord) && NonNegative(sys.coord.units)
    requires forall j :: 0 <= j < |free| ==> free[j] < |sys.sessions|
    ensures var sys' := AssignAll(job, sys, free, now);
            Leasing(sys, sys') && Counted(sys'.coord) && (Recorded(sys.coord) ==> Recorded(sys'.coord))
    decreases |free|
  {
    if free == [] {
    } else {
      AssignIsLeasing(job, sys, free[0], now);
      AssignAllIsLeasing(job, AssignStep(job, sys, free[0], now), free[1..], now);
    }
  }

  function UnassignedBelow(units: seq<Unit>, i: nat): nat
    requires i <= |units|
  {
    if i == 0 then 0
    else UnassignedBelow(units, i - 1) + (if units[i - 1].status == Unassigned then 1 else 0)
  }

  lemma {:induction false} NoneUnassignedBelow(units: seq<Unit>, i: nat)
    requires i <= |units| && forall k :: 0 <= k < i ==> units[k].status != Unassigned
    ensures UnassignedBelow(units, i) == 0
  {
    if i == 0 {
    } else {
      NoneUnassignedBelow(units, i - 1);
    }
  }

  lemma {:induction false} OneLessUnassigned(units: seq<Unit>, j: nat, u: Unit, i: nat)
    requires i <= |units| && j < |units| && units[j].status == Unassigned && u.status != Unassigned
    ensures UnassignedBelow(units[j := u], i) == UnassignedBelow(units, i) - (if j < i then 1 else 0)
  {
    if i == 0 {
    } else {
      OneLessUnassigned(units, j, u, i - 1);
    }
  }

  lemma {:induction false} LeasedStays(job: Job, sys: Sys, free: seq<nat>, now: int, i: nat)
    requires NonNegative(sys.coord.units) && forall j :: 0 <= j < |free| ==> free[j] < |sys.sessions|
    requires i < |sys.coord.units| && sys.coord.units[i].status == Leased
    ensures AssignAll(job, sys, free, now).coord.units[i].status == Leased
    decreases |free|
  {
    if free == [] {
    } else {
      LeasedStays(job, AssignStep(job, sys, free[0], now), free[1..], now, i);
    }
  }

  /** Units go in index order, so unit `i` is leased again exactly when there are more sessions than units before it. */
  lemma {:induction false} LeasedAgainIff(job: Job, sys: Sys, free: seq<nat>, now: int, i: nat)
    requires NonNegative(sys.coord.units) && forall j :: 0 <= j < |free| ==> free[j] < |sys.sessions|
    requires i < |sys.coord.units| && sys.coord.units[i].status == Unassigned
    ensures AssignAll(job, sys, free, now).coord.units[i].status == Leased <==>
              |free| > UnassignedBelow(sys.coord.units, i)
    decreases |free|
  {
    var units := sys.coord.units;
    if free == [] {
    } else {
      var j := FirstUnassigned(units, 0);
      var next := AssignStep(job, sys, free[0], now);
      if j == i {
        NoneUnassignedBelow(units, i);
        LeasedStays(job, next, free[1..], now, i);
      } else {
        OneLessUnassigned(units, j, units[j].(status := Leased), i);
        LeasedAgainIff(job, next, free[1..], now, i);
      }
    }
  }

  // ---------- every step ----------

  /** A step after which a new coordinator is in charge. */
  predicate Reloads(step: Step) { step.Crash? || step.Resubmit? }

  lemma InitBookkept(job: Job)
    requires job.Ok()
    ensures Bookkept(job, Init(job)) && Recorded(Init(job).coord)
  {
    FreshConsistent(job.Total(), job.size, job.params);
    var units := job.Units();
    assert forall i :: 0 <= i < |units| ==> units[i] in units;
  }

  lemma AnswerBookkept(job: Job, sys: Sys, s: nat)
    requires job.Ok() && Bookkept(job, sys) && Enabled(sys, Answer(s))
    ensures Bookkept(job, AnswerStep(sys, s))
    ensures Recorded(sys.coord) ==> Recorded(AnswerStep(sys, s).coord)
  {
    var merged := CandToBest(sys.coord, sys.sessions[s].outbox[0]);
    assert Counted(merged) && (Recorded(sys.coord) ==> Recorded(merged));
    if sys.sessions[s].current.Some? {
      DoneConsistent(merged, sys.sessions[s].current.value);
    }
  }

  lemma ReloadBookkept(job: Job, sys: Sys)
    requires job.Ok() && Bookkept(job, sys)
    ensures Bookkept(job, ResubmitStep(job, sys)) && Recorded(ResubmitStep(job, sys).coord)
  {
    match sys.disk
    case None => InitBookkept(job);
    case Some(cp) => LoadedConsistent(cp);
  }

  lemma GivenBack(sys: Sys, i: nat)
    requires Counted(sys.coord) && i in sys.coord.pending
    ensures i < |sys.coord.units|
    ensures var c := Erase(SetStatus(sys.coord, i, Unassigned), i);
            Counted(c) && (Recorded(sys.coord) ==> Recorded(c)) && Leasing(sys, sys.(coord := c))
  {
    var c := Erase(SetStatus(sys.coord, i, Unassigned), i);
    ExpireConsistent(sys.coord, {i});
    assert c.units == Expire(sys.coord, {i}).units;
    assert c.pending == Expire(sys.coord, {i}).pending;
  }

  lemma InlineIsLeasing(job: Job, sys: Sys, i: nat, free: seq<nat>, now: int)
    requires Counted(sys.coord) && Enabled(sys, InlineTimeout(i, free, now))
    ensures Leasing(sys, InlineTimeoutStep(job, sys, i, free, now))
    ensures Counted(InlineTimeoutStep(job, sys, i, free, now).coord)
  {
    GivenBack(sys, i);
    AssignAllIsLeasing(job, sys.(coord := Erase(SetStatus(sys.coord, i, Unassigned), i)), free, now);
    InlineTimeoutErasesTwice(job, sys, i, free, now);
  }

  /** What an inline timeout does to the records: if every leased unit had one before, then this is still so exactly
      when there are at least as many unassigned units below `i` as free sessions. Otherwise unit `i` itself is leased
      again before its old record, and with it the new one, is erased. */
  lemma InlineTimeoutRecordedIff(job: Job, sys: Sys, i: nat, free: seq<nat>, now: int)
    requires Consistent(sys.coord) && Enabled(sys, InlineTimeout(i, free, now))
    ensures Recorded(InlineTimeoutStep(job, sys, i, free, now).coord) <==>
              |free| <= UnassignedBelow(sys.coord.units, i)
  {
    GivenBack(sys, i);
    var early := sys.(coord := Erase(SetStatus(sys.coord, i, Unassigned), i));
    AssignAllIsLeasing(job, early, free, now);
    LeasedAgainIff(job, early, free, now, i);
    SameBelow(sys.coord.units, early.coord.units, i);
    InlineTimeoutErasesTwice(job, sys, i, free, now);
  }

  lemma {:induction false} SameBelow(a: seq<Unit>, b: seq<Unit>, i: nat)
    requires i <= |a| && i <= |b| && forall k :: 0 <= k < i ==> a[k] == b[k]
    ensures UnassignedBelow(a, i) == UnassignedBelow(b, i)
  {
    if i == 0 {
    } else {
      SameBelow(a, b, i - 1);
    }
  }

  lemma AssignBookkept(job: Job, sys: Sys, s: nat, now: int)
    requires job.Ok() && Bookkept(job, sys) && Enabled(sys, Assign(s, now))
    ensures Bookkept(job, AssignStep(job, sys, s, now))
    ensures Recorded(sys.coord) ==> Recorded(AssignStep(job, sys, s, now).coord)
  {
    AssignIsLeasing(job, sys, s, now);
  }

  lemma InlineBookkept(job: Job, sys: Sys, i: nat, free: seq<nat>, now: int)
    requires job.Ok() && Bookkept(job, sys) && Enabled(sys, InlineTimeout(i, free, now))
    ensures Bookkept(job, InlineTimeoutStep(job, sys, i, free, now))
    ensures Recorded(sys.coord) && |free| <= UnassignedBelow(sys.coord.units, i) ==>
              Recorded(InlineTimeoutStep(job, sys, i, free, now).coord)
  {
    InlineIsLeasing(job, sys, i, free, now);
    if Recorded(sys.coord) {
      InlineTimeoutRecordedIff(job, sys, i, free, now);
    }
  }

  lemma TimeoutBookkept(job: Job, sys: Sys, now: int, written: bool)
    requires job.Ok() && Bookkept(job, sys)
    ensures Bookkept(job, TimeoutStep(sys, now, written))
    ensures Recorded(sys.coord) ==> Recorded(TimeoutStep(sys, now, written).coord)
  {
    ExpireConsistent(sys.coord, Overdue(sys.coord, now));
  }

  lemma StepBookkept(job: Job, sys: Sys, step: Step)
    requires job.Ok() && Bookkept(job, sys) && Enabled(sys, step)
    ensures Bookkept(job, Apply(job, sys, step))
    ensures Recorded(sys.coord) && RoomBelow(sys, step) ==> Recorded(Apply(job, sys, step).coord)
  {
    match step
    case Connect =>
    case Assign(s, now) => AssignBookkept(job, sys, s, now);
    case Work(_) =>
    case Answer(s) => AnswerBookkept(job, sys, s);
    case Disconnect(_) =>
    case CheckTimeouts(now, written) => TimeoutBookkept(job, sys, now, written);
    case InlineTimeout(i, free, now) => InlineBookkept(job, sys, i, free, now);
    case Resubmit => ReloadBookkept(job, sys);
    case Crash => ReloadBookkept(job, sys);
  }

  /** An inline timeout of unit `i` finds at least as many unassigned units below `i` as free sessions. */
  predicate RoomBelow(sys: Sys, step: Step) {
    step.InlineTimeout? && step.i < |sys.coord.units| ==> |step.free| <= UnassignedBelow(sys.coord.units, step.i)
  }

  ghost predicate AlwaysRoomBelow(states: seq<Sys>, steps: seq<Step>, k: nat) {
    forall j :: 0 <= j < k && j < |steps| && j < |states| ==> RoomBelow(states[j], steps[j])
  }

  lemma {:induction false} RunBookkept(job: Job, states: seq<Sys>, steps: seq<Step>, k: nat)
    requires job.Ok() && IsRun(job, states, steps) && k < |states|
    ensures Bookkept(job, states[k])
    ensures AlwaysRoomBelow(states, steps, k) ==> Recorded(states[k].coord)
  {
    if k == 0 {
      InitBookkept(job);
    } else {
      RunBookkept(job, states, steps, k - 1);
      StepBookkept(job, states[k - 1], steps[k - 1]);
      assert states[k - 1 + 1] == Apply(job, states[k - 1], steps[k - 1]);
      if AlwaysRoomBelow(states, steps, k) {
        assert AlwaysRoomBelow(states, steps, k - 1) && RoomBelow(states[k - 1], steps[k - 1]);
      }
    }
  }

  /** In every reachable state ranges are those of the cut, leases are recorded for leased units only, the counter is
      exact, and the checkpoint test's unsigned subtraction does not wrap. No leased unit lacks its record, that is, no
      unit is stranded, in every run whose inline timeouts found room below, so in particular in every run in which
      coroutines start later. */
  lemma LifecycleHolds(job: Job, states: seq<Sys>, steps: seq<Step>, k: nat)
    requires job.Ok() && IsRun(job, states, steps) && k < |states|
    ensures var c := states[k].coord;
            && SameRanges(job, c.units)
            && (forall i: nat :: i in c.pending ==> i < |c.units| && c.units[i].status == Leased)
            && (AlwaysRoomBelow(states, steps, k) ==>
                  forall i: nat :: i < |c.units| && c.units[i].status == Leased ==> i in c.pending)
            && c.doneCount == CountDone(c.units)
            && (c.doneCount == |c.units| <==> AllDone(c.units))
            && SizeMinus(c.doneCount, states[k].lastSaved) == c.doneCount - states[k].lastSaved
  {
    RunBookkept(job, states, steps, k);
    AllDoneIffCount(states[k].coord.units);
  }

  // ---------- a stranded unit ----------

  ghost predicate Stranded(c: Coord, u: nat) {
    u < |c.units| && c.units[u].status == Leased && u !in c.pending
  }

  /** A session is given a unit as soon as it connects, as long as one is unassigned. */
  ghost predicate Prompt(states: seq<Sys>, steps: seq<Step>)
    requires |states| == |steps| + 1
  {
    forall k :: 0 <= k < |steps| && steps[k].Connect? && SomeUnassigned(states[k].coord.units) ==>
      k + 1 < |steps| && steps[k + 1] == Assign(|states[k].sessions|, 0)
  }

  predicate SomeUnassigned(units: seq<Unit>) { FirstUnassigned(units, 0) < |units| }

  /** The first `m` units are leased since time 0, the others unassigned. */
  ghost predicate LeasedUpTo(c: Coord, m: nat) {
    && NonNegative(c.units) && m <= |c.units|
    && (forall k :: 0 <= k < m ==> c.units[k].status == Leased)
    && (forall k :: m <= k < |c.units| ==> c.units[k].status == Unassigned)
    && (m > 0 ==> 0 in c.pending && c.pending[0].since == 0)
  }

  ghost predicate Filled(job: Job, sys: Sys, m: nat)
    requires job.Ok()
  {
    Bookkept(job, sys) && LeasedUpTo(sys.coord, m) && |sys.sessions| == m
  }

  lemma LeaseNext(c: Coord, m: nat)
    requires LeasedUpTo(c, m) && m < |c.units|
    ensures FirstUnassigned(c.units, 0) == m && LeasedUpTo(LeaseUnit(c, m, m, 0), m + 1)
  {
    assert c.units[m] in c.units;
  }

  lemma FillOne(job: Job, sys: Sys, m: nat)
    requires job.Ok() && Filled(job, sys, m) && m < |sys.coord.units|
    ensures Enabled(Apply(job, sys, Connect), Assign(m, 0))
    ensures Filled(job, Apply(job, Apply(job, sys, Connect), Assign(m, 0)), m + 1)
  {
    var next := Apply(job, sys, Connect);
    LeaseNext(sys.coord, m);
    AssignBookkept(job, next, m, 0);
    assert AssignStep(job, next, m, 0).coord == LeaseUnit(sys.coord, m, m, 0);
  }

  lemma ExtendRun(job: Job, states: seq<Sys>, steps: seq<Step>, step: Step)
    requires job.Ok() && IsRun(job, states, steps) && Enabled(states[|steps|], step)
    ensures IsRun(job, states + [Apply(job, states[|steps|], step)], steps + [step])
  {
  }

  lemma NoneLeased(job: Job)
    requires job.Ok()
    ensures Filled(job, Init(job), 0)
  {
    InitBookkept(job);
    RangesNonNegative(job, Init(job).coord.units);
    assert forall k :: 0 <= k < |job.Units()| ==> job.Units()[k] in job.Units();
  }

  /** One more session connects and is given a unit. */
  lemma FillNext(job: Job, states: seq<Sys>, steps: seq<Step>, m: nat) returns (states': seq<Sys>, steps': seq<Step>)
    requires job.Ok() && IsRun(job, states, steps) && Prompt(states, steps)
    requires Filled(job, states[|steps|], m) && m < |states[|steps|].coord.units|
    ensures IsRun(job, states', steps') && Prompt(states', steps') && Filled(job, states'[|steps'|], m + 1)
    ensures |states'[|steps'|].coord.units| == |states[|steps|].coord.units|
  {
    var sys := states[|steps|];
    FillOne(job, sys, m);
    var next := Apply(job, sys, Connect);
    var last := Apply(job, next, Assign(m, 0));
    ExtendRun(job, states, steps, Connect);
    ExtendRun(job, states + [next], steps + [Connect], Assign(m, 0));
    states', steps' := states + [next] + [last], steps + [Connect] + [Assign(m, 0)];
    PromptGoesOn(states, steps, next, last, m);
  }

  lemma PromptGoesOn(states: seq<Sys>, steps: seq<Step>, next: Sys, last: Sys, m: nat)
    requires |states| == |steps| + 1 && Prompt(states, steps) && |states[|steps|].sessions| == m
    ensures Prompt(states + [next] + [last], steps + [Connect] + [Assign(m, 0)])
  {
    var states', steps' := states + [next] + [last], steps + [Connect] + [Assign(m, 0)];
    assert forall k :: 0 <= k < |steps| ==> steps'[k] == steps[k] && states'[k] == states[k];
    assert states'[|steps|] == states[|steps|];
  }

  /** Sessions connect one by one until the first `m` units are leased. */
  lemma {:induction false} Fill(job: Job, m: nat) returns (states: seq<Sys>, steps: seq<Step>)
    requires job.Ok() && m <= |job.Units()|
    ensures IsRun(job, states, steps) && Prompt(states, steps) && Filled(job, states[|steps|], m)
    ensures |states[|steps|].coord.units| == |job.Units()|
  {
    if m == 0 {
      states, steps := [Init(job)], [];
      NoneLeased(job);
    } else {
      states, steps := Fill(job, m - 1);
      states, steps := FillNext(job, states, steps, m - 1);
    }
  }

  /** Every job has a run that strands its first unit: all units are leased, one more session connects and stays free,
      and the lease of the first unit times out. */
  lemma UnitIsStranded(job: Job) returns (states: seq<Sys>, steps: seq<Step>)
    requires job.Ok()
    ensures IsRun(job, states, steps) && Prompt(states, steps) && Stranded(states[|steps|].coord, 0)
  {
    var n := |job.Units()|;
    HasFirstUnit(job);
    states, steps := Fill(job, n);
    var spare, last := Apply(job, states[|steps|], Connect), InlineTimeout(0, [n], 10);
    SpareStrands(job, states[|steps|], n);
    ExtendRun(job, states, steps, Connect);
    ExtendRun(job, states + [spare], steps + [Connect], last);
    var end := Apply(job, spare, last);
    SpareIsPrompt(states, steps, spare, end, last);
    states, steps := states + [spare] + [end], steps + [Connect] + [last];
  }

  lemma SpareStrands(job: Job, full: Sys, n: nat)
    requires job.Ok() && Filled(job, full, n) && n == |full.coord.units| > 0
    ensures var spare, last := Apply(job, full, Connect), InlineTimeout(0, [n], 10);
            Enabled(spare, last) && Stranded(Apply(job, spare, last).coord, 0)
    ensures !SomeUnassigned(full.coord.units)
  {
    var spare := Apply(job, full, Connect);
    assert AllFree(spare, [n]);
    FirstUnitStranded(job, spare, n);
  }

  lemma SpareIsPrompt(states: seq<Sys>, steps: seq<Step>, spare: Sys, end: Sys, last: Step)
    requires |states| == |steps| + 1 && Prompt(states, steps) && !last.Connect?
    requires !SomeUnassigned(states[|steps|].coord.units)
    ensures Prompt(states + [spare] + [end], steps + [Connect] + [last])
  {
    var states', steps' := states + [spare] + [end], steps + [Connect] + [last];
    assert forall k :: 0 <= k < |steps| ==> steps'[k] == steps[k] && states'[k] == states[k];
    assert states'[|steps|] == states[|steps|];
  }

  lemma HasFirstUnit(job: Job)
    requires job.Ok()
    ensures |job.Units()| > 0 && job.Units()[0].start == 0
  {
    CutTiles(0, job.Total(), job.size, job.params);
  }

  lemma RangesNonNegative(job: Job, units: seq<Unit>)
    requires job.Ok() && SameRanges(job, units)
    ensures NonNegative(units)
  {
    forall i | 0 <= i < |units| ensures units[i].start >= 0 && units[i].end >= 0 {
      RangeFacts(job, units, i);
    }
  }

  /** A timeout of the first unit with one free session. */
  lemma FirstUnitStranded(job: Job, sys: Sys, s: nat)
    requires sys.coord.units != [] && Enabled(sys, InlineTimeout(0, [s], 10)) && Counted(sys.coord)
    ensures Stranded(InlineTimeoutStep(job, sys, 0, [s], 10).coord, 0)
  {
    GivenBack(sys, 0);
    var early := sys.(coord := Erase(SetStatus(sys.coord, 0, Unassigned), 0));
    LeasedAgainIff(job, early, [s], 10, 0);
    InlineTimeoutErasesTwice(job, sys, 0, [s], 10);
  }

  lemma StepKeepsStranded(job: Job, sys: Sys, step: Step, u: nat)
    requires job.Ok() && Bookkept(job, sys) && Enabled(sys, step) && !Reloads(step)
    requires Stranded(sys.coord, u) && !Credits(sys, step, u)
    ensures Stranded(Apply(job, sys, step).coord, u)
  {
    match step
    case Answer(s) => AnswerKeepsStranded(sys, s, u);
    case CheckTimeouts(now, written) =>
      assert Apply(job, sys, step).coord == Expire(sys.coord, Overdue(sys.coord, now));
    case InlineTimeout(i, free, now) => InlineKeepsStranded(job, sys, i, free, now, u);
    case _ =>
  }

  lemma AnswerKeepsStranded(sys: Sys, s: nat, u: nat)
    requires Enabled(sys, Answer(s)) && Stranded(sys.coord, u) && !Credits(sys, Answer(s), u)
    ensures Stranded(AnswerStep(sys, s).coord, u)
  {
  }

  lemma InlineKeepsStranded(job: Job, sys: Sys, i: nat, free: seq<nat>, now: int, u: nat)
    requires Counted(sys.coord) && Enabled(sys, InlineTimeout(i, free, now)) && Stranded(sys.coord, u)
    ensures Stranded(InlineTimeoutStep(job, sys, i, free, now).coord, u)
  {
    GivenBack(sys, i);
    var early := sys.(coord := Erase(SetStatus(sys.coord, i, Unassigned), i));
    AssignAllKeepsStranded(job, early, free, now, u);
    InlineTimeoutErasesTwice(job, sys, i, free, now);
  }

  lemma {:induction false} AssignAllKeepsStranded(job: Job, sys: Sys, free: seq<nat>, now: int, u: nat)
    requires NonNegative(sys.coord.units) && forall j :: 0 <= j < |free| ==> free[j] < |sys.sessions|
    requires Stranded(sys.coord, u)
    ensures Stranded(AssignAll(job, sys, free, now).coord, u)
    decreases |free|
  {
    if free == [] {
    } else {
      AssignAllKeepsStranded(job, AssignStep(job, sys, free[0], now), free[1..], now, u);
    }
  }

  /** A stranded unit never times out: until an answer is credited to it or the task is reloaded it stays leased, so
      the task does not complete. */
  lemma {:induction false} StrandedStays(job: Job, states: seq<Sys>, steps: seq<Step>, i: nat, j: nat, u: nat)
    requires job.Ok() && IsRun(job, states, steps) && i <= j <= |steps| && NoReload(steps, i, j)
    requires Stranded(states[i].coord, u)
    requires forall k :: i <= k < j ==> !Credits(states[k], steps[k], u)
    ensures Stranded(states[j].coord, u) && !AllDone(states[j].coord.units)
    decreases j
  {
    if i == j {
    } else {
      StrandedStays(job, states, steps, i, j - 1, u);
      RunBookkept(job, states, steps, j - 1);
      StepKeepsStranded(job, states[j - 1], steps[j - 1], u);
      assert states[j - 1 + 1] == Apply(job, states[j - 1], steps[j - 1]);
    }
  }

  // ---------- how units become done ----------

  /** `step` is an answer that the coordinator credits to unit `u`, which is leased. */
  predicate Credits(sys: Sys, step: Step, u: nat) {
    && step.Answer? && step.s < |sys.sessions| && sys.sessions[step.s].current == Some(u)
    && u < |sys.coord.units| && sys.coord.units[u].status == Leased
  }

  predicate CreditsSome(sys: Sys, step: Step) {
    && step.Answer? && step.s < |sys.sessions| && sys.sessions[step.s].current.Some?
    && Credits(sys, step, sys.sessions[step.s].current.value)
  }

  ghost predicate BestNoWorse(best: Result, best': Result) { best' == best || Less(best'.score, best.score) }

  /** Over one step a unit becomes done exactly when it is credited, and it is counted then; the best never gets
      worse. */
  ghost predicate DoneMoves(sys: Sys, step: Step, c': Coord) {
    var c := sys.coord;
    && |c'.units| == |c.units|
    && (forall u: nat :: u < |c.units| ==>
          (c'.units[u].status == Done <==> c.units[u].status == Done || Credits(sys, step, u)))
    && c'.doneCount == c.doneCount + (if CreditsSome(sys, step) then 1 else 0)
    && BestNoWorse(c.best, c'.best)
  }

  lemma AnswerMoves(sys: Sys, s: nat)
    requires Enabled(sys, Answer(s))
    ensures DoneMoves(sys, Answer(s), AnswerStep(sys, s).coord)
  {
  }

  lemma StepMoves(job: Job, sys: Sys, step: Step)
    requires job.Ok() && Counted(sys.coord) && Enabled(sys, step) && !Reloads(step)
    ensures DoneMoves(sys, step, Apply(job, sys, step).coord)
  {
    match step
    case Answer(s) => AnswerMoves(sys, s);
    case Assign(s, now) => AssignIsLeasing(job, sys, s, now);
    case CheckTimeouts(now, written) =>
      assert Apply(job, sys, step).coord == Expire(sys.coord, Overdue(sys.coord, now));
    case InlineTimeout(i, free, now) => InlineIsLeasing(job, sys, i, free, now);
    case _ =>
  }

  lemma RunMoves(job: Job, states: seq<Sys>, steps: seq<Step>, k: nat)
    requires job.Ok() && IsRun(job, states, steps) && k < |steps| && !Reloads(steps[k])
    ensures DoneMoves(states[k], steps[k], states[k + 1].coord)
  {
    RunBookkept(job, states, steps, k);
    StepMoves(job, states[k], steps[k]);
  }

  ghost predicate NoReload(steps: seq<Step>, i: nat, j: nat) {
    forall k :: i <= k < j && k < |steps| ==> !Reloads(steps[k])
  }

  /** How many of the steps number `i` to `j` - 1 credit a unit. */
  function CountCredits(states: seq<Sys>, steps: seq<Step>, i: nat, j: nat): nat
    requires |states| == |steps| + 1 && j <= |steps|
    decreases j
  {
    if j <= i then 0
    else CountCredits(states, steps, i, j - 1) + (if CreditsSome(states[j - 1], steps[j - 1]) then 1 else 0)
  }

  ghost predicate DoneGrows(c: Coord, c': Coord, credits: nat) {
    && |c'.units| == |c.units|
    && (forall u: nat :: u < |c.units| && c.units[u].status == Done ==> c'.units[u].status == Done)
    && c'.doneCount == c.doneCount + credits
    && BestNoWorse(c.best, c'.best)
  }

  lemma {:induction false} MovesAddUp(states: seq<Sys>, steps: seq<Step>, i: nat, j: nat)
    requires |states| == |steps| + 1 && i <= j <= |steps|
    requires forall k :: i <= k < j ==> DoneMoves(states[k], steps[k], states[k + 1].coord)
    ensures DoneGrows(states[i].coord, states[j].coord, CountCredits(states, steps, i, j))
    decreases j
  {
    if i == j {
    } else {
      var k := j - 1;
      MovesAddUp(states, steps, i, k);
      assert DoneMoves(states[k], steps[k], states[k + 1].coord);
    }
  }

  /** Between reloads done units stay done, the best never gets worse and the counter grows by exactly one for every
      credited answer: late and repeated answers count nothing. */
  lemma DoneIsConserved(job: Job, states: seq<Sys>, steps: seq<Step>, i: nat, j: nat)
    requires job.Ok() && IsRun(job, states, steps) && i <= j <= |steps| && NoReload(steps, i, j)
    ensures DoneGrows(states[i].coord, states[j].coord, CountCredits(states, steps, i, j))
  {
    forall k | i <= k < j ensures DoneMoves(states[k], steps[k], states[k + 1].coord) {
      RunMoves(job, states, steps, k);
    }
    MovesAddUp(states, steps, i, j);
  }

  /** No unit is credited twice between reloads. */
  lemma CreditedOnce(job: Job, states: seq<Sys>, steps: seq<Step>, i: nat, j: nat, u: nat)
    requires job.Ok() && IsRun(job, states, steps) && i < j < |steps| && NoReload(steps, i, j)
    requires Credits(states[i], steps[i], u)
    ensures !Credits(states[j], steps[j], u)
  {
    RunMoves(job, states, steps, i);
    DoneIsConserved(job, states, steps, i + 1, j);
  }

  // ---------- closed sessions ----------

  lemma {:induction false} AssignAllKeepsClosed(job: Job, sys: Sys, free: seq<nat>, now: int, s: nat)
    requires NonNegative(sys.coord.units) && forall j :: 0 <= j < |free| ==> free[j] < |sys.sessions|
    requires s < |sys.sessions| && !sys.sessions[s].open
    ensures !AssignAll(job, sys, free, now).sessions[s].open
    decreases |free|
  {
    if free == [] {
    } else {
      AssignAllKeepsClosed(job, AssignStep(job, sys, free[0], now), free[1..], now, s);
    }
  }

  lemma StepKeepsClosed(job: Job, sys: Sys, step: Step, s: nat)
    requires job.Ok() && Enabled(sys, step) && !step.Crash? && s < |sys.sessions| && !sys.sessions[s].open
    ensures s < |Apply(job, sys, step).sessions| && !Apply(job, sys, step).sessions[s].open
  {
    match step
    case InlineTimeout(i, free, now) =>
      AssignAllKeepsClosed(job, sys.(coord := SetStatus(sys.coord, i, Unassigned)), free, now, s);
    case _ =>
  }

  /** A session that was disconnected works and answers no more, until the process is restarted. */
  lemma {:induction false} DisconnectedIsSilent(job: Job, states: seq<Sys>, steps: seq<Step>, i: nat, j: nat, s: nat)
    requires job.Ok() && IsRun(job, states, steps) && i < j <= |steps| && steps[i] == Disconnect(s)
    requires forall k :: i <= k < j ==> !steps[k].Crash?
    ensures s < |states[j].sessions| && !states[j].sessions[s].open
    ensures !Enabled(states[j], Work(s)) && !Enabled(states[j], Answer(s))
    decreases j
  {
    assert states[j - 1 + 1] == Apply(job, states[j - 1], steps[j - 1]);
    if i == j - 1 {
    } else {
      DisconnectedIsSilent(job, states, steps, i, j - 1, s);
      StepKeepsClosed(job, states[j - 1], steps[j - 1], s);
    }
  }

  // ---------- timeouts and answers ----------

  /** No lease is ten seconds old. */
  ghost predicate AllYoung(c: Coord, now: int) { forall i :: i in c.pending ==> now - c.pending[i].since < 10 }

  /** A unit leased at time `t` is given back by a check ten seconds later or more, unless something has happened to the
      lease in between: an assignment records its session and its time, and a check treats every lease by its age. */
  lemma LeasesAgeOut(job: Job, states: seq<Sys>, steps: seq<Step>, k: nat)
    requires job.Ok() && IsRun(job, states, steps) && k < |steps|
    ensures steps[k].CheckTimeouts? ==>
              && TimedOut(states[k].coord, states[k + 1].coord, steps[k].now)
              && AllYoung(states[k + 1].coord, steps[k].now)
    ensures steps[k].InlineTimeout? ==>
              steps[k].i in states[k].coord.pending && steps[k].now - states[k].coord.pending[steps[k].i].since >= 10
    ensures steps[k].Assign? && SomeUnassigned(states[k].coord.units) ==>
              var p := FirstUnassigned(states[k].coord.units, 0);
              states[k + 1].coord.pending == states[k].coord.pending[p := Lease(steps[k].s, steps[k].now)]
  {
    assert states[k + 1] == Apply(job, states[k], steps[k]);
    if steps[k].CheckTimeouts? {
      TimeoutMeaning(states[k].coord, steps[k].now);
    }
  }

  /** Every answer is merged, also one of a session without a unit; that session is then dropped. */
  lemma AnswersAreMerged(sys: Sys, s: nat)
    requires Enabled(sys, Answer(s))
    ensures AnswerStep(sys, s).coord.best == Better(sys.coord.best, sys.sessions[s].outbox[0])
    ensures sys.sessions[s].current.None? ==> AnswerStep(sys, s).coord.units == sys.coord.units
    ensures AnswerStep(sys, s).sessions[s].open <==> sys.sessions[s].open && sys.sessions[s].current.Some?
  {
  }

  // ---------- checkpoints ----------

  /** A check that can write does so exactly when five more units are done, or the last one. */
  lemma CheckpointWrittenIff(sys: Sys, now: int)
    requires Counted(sys.coord) && sys.lastSaved <= sys.coord.doneCount
    ensures var more, sys' := sys.coord.doneCount - sys.lastSaved, TimeoutStep(sys, now, true);
            if more >= 5 || (more > 0 && sys.coord.doneCount == |sys.coord.units|)
            then
              && sys'.disk == Some(Checkpoint(sys'.coord.units, sys'.coord.best))
              && sys'.lastSaved == sys.coord.doneCount
            else sys'.disk == sys.disk && sys'.lastSaved == sys.lastSaved
  {
    ExpireConsistent(sys.coord, Overdue(sys.coord, now));
    AllDoneIffCount(TimeoutStep(sys, now, true).coord.units);
  }

  /** The counter of the last checkpoint is the number of done units in the file. */
  ghost predicate UpToDate(sys: Sys) {
    sys.lastSaved == (if sys.disk.Some? then CountDone(sys.disk.value.units) else 0)
  }

  /** Every timeout check that wanted to write its file could do so. */
  ghost predicate AlwaysWritten(steps: seq<Step>, k: nat) {
    forall j :: 0 <= j < k && j < |steps| && steps[j].CheckTimeouts? ==> steps[j].written
  }

  lemma RestartCount(job: Job, sys: Sys)
    requires job.Ok() && UpToDate(sys)
    ensures CrashStep(job, sys).coord.doneCount == sys.lastSaved && UpToDate(ResubmitStep(job, sys))
  {
    match sys.disk
    case None => NoneDone(job.Units());
    case Some(cp) => LoadedConsistent(cp);
  }

  lemma StepUpToDate(job: Job, sys: Sys, step: Step)
    requires job.Ok() && Bookkept(job, sys) && Enabled(sys, step) && UpToDate(sys)
    requires step.CheckTimeouts? ==> step.written
    ensures UpToDate(Apply(job, sys, step))
  {
    match step
    case CheckTimeouts(now, _) => ExpireConsistent(sys.coord, Overdue(sys.coord, now));
    case InlineTimeout(i, free, now) => InlineIsLeasing(job, sys, i, free, now);
    case Resubmit => RestartCount(job, sys);
    case Crash => RestartCount(job, sys);
    case _ =>
  }

  lemma {:induction false} RunUpToDate(job: Job, states: seq<Sys>, steps: seq<Step>, k: nat)
    requires job.Ok() && IsRun(job, states, steps) && k < |states| && AlwaysWritten(steps, k)
    ensures UpToDate(states[k])
  {
    if k == 0 {
    } else {
      RunUpToDate(job, states, steps, k - 1);
      RunBookkept(job, states, steps, k - 1);
      assert steps[k - 1].CheckTimeouts? ==> steps[k - 1].written;
      StepUpToDate(job, states[k - 1], steps[k - 1]);
      assert states[k - 1 + 1] == Apply(job, states[k - 1], steps[k - 1]);
    }
  }

  /** In every run whose checkpoint files could be written, a crash right after a timeout check loses fewer than five
      done units, and none at all once the task is complete. */
  lemma CheckpointLag(job: Job, states: seq<Sys>, steps: seq<Step>, k: nat)
    requires job.Ok() && IsRun(job, states, steps) && k < |steps| && steps[k].CheckTimeouts?
    requires AlwaysWritten(steps, k + 1)
    ensures var sys, restarted := states[k + 1], CrashStep(job, states[k + 1]).coord;
            && 0 <= sys.coord.doneCount - restarted.doneCount < 5
            && (AllDone(sys.coord.units) ==> restarted.doneCount == sys.coord.doneCount)
  {
    RunUpToDate(job, states, steps, k + 1);
    RestartCount(job, states[k + 1]);
    RunBookkept(job, states, steps, k);
    RunBookkept(job, states, steps, k + 1);
    assert states[k + 1] == Apply(job, states[k], steps[k]);
  }

  /** A check whose file could not be written counts as a checkpoint: it moves `lastSaved` and leaves the file
      alone, and later checks do not write it either until more units are done. */
  lemma FailedWriteIsNotRepeated(job: Job, sys: Sys, now: int, later: int)
    requires job.Ok() && Bookkept(job, sys) && ShouldSave(Expire(sys.coord, Overdue(sys.coord, now)), sys.lastSaved)
    ensures var failed := TimeoutStep(sys, now, false);
            && failed.lastSaved == sys.coord.doneCount && failed.disk == sys.disk
            && TimeoutStep(failed, later, true).disk == sys.disk
  {
    TimeoutBookkept(job, sys, now, false);
  }

  lemma OneUnitDone(job: Job) returns (states: seq<Sys>, steps: seq<Step>)
    requires job.Ok() && |job.Units()| == 1
    ensures IsRun(job, states, steps)
    ensures var sys := states[|steps|];
            && Bookkept(job, sys) && AllDone(sys.coord.units) && sys.coord.doneCount == 1
            && sys.lastSaved == 0 && sys.disk.None?
  {
    var s0 := Init(job);
    InitBookkept(job);
    RangesNonNegative(job, s0.coord.units);
    assert job.Units()[0] in job.Units();
    var s1 := Apply(job, s0, Connect);
    assert FirstUnassigned(s1.coord.units, 0) == 0;
    var s2 := Apply(job, s1, Assign(0, 0));
    var s3 := Apply(job, s2, Work(0));
    var s4 := Apply(job, s3, Answer(0));
    states, steps := [s0, s1, s2, s3, s4], [Connect, Assign(0, 0), Work(0), Answer(0)];
    RunBookkept(job, states, steps, 4);
  }

  /** So a crash can lose a completed task: a run of any job of one unit, whose first check fails to write. */
  lemma CompletedTaskUnsaved(job: Job) returns (states: seq<Sys>, steps: seq<Step>)
    requires job.Ok() && |job.Units()| == 1
    ensures IsRun(job, states, steps) && |steps| > 1 && steps[|steps| - 1] == CheckTimeouts(1, true)
    ensures steps[|steps| - 2] == CheckTimeouts(0, false)
    ensures var sys := states[|steps|];
            AllDone(sys.coord.units) && sys.coord.doneCount == 1 && CrashStep(job, sys).coord.doneCount == 0
  {
    states, steps := OneUnitDone(job);
    var done := states[|steps|];
    var failed := Apply(job, done, CheckTimeouts(0, false));
    ExtendRun(job, states, steps, CheckTimeouts(0, false));
    ExtendRun(job, states + [failed], steps + [CheckTimeouts(0, false)], CheckTimeouts(1, true));
    states := states + [failed] + [Apply(job, failed, CheckTimeouts(1, true))];
    steps := steps + [CheckTimeouts(0, false)] + [CheckTimeouts(1, true)];
  }
}
