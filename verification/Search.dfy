/** The distributed search of one task as a step machine: sessions and their workers, leases, timeouts, answers,
    checkpoints, crashes and reloads. Code between two suspension points is one step. A timeout check comes in two
    forms: with coroutines that start after the handler that spawns them, and with coroutines that start inside it. */
module Search {
  import opened Wrappers
  import opened Base26
  import Ciphers
  import opened Scoring
  import opened Decryptor
  import opened Units
  import opened Coordination

  /** A task: its parameters, the unit size and the scoring function that all workers share. */
  datatype Job = Job(params: Params, size: nat, score: string -> Score) {
    /** Caesar tasks are always cut with key length one. */
    predicate Ok() { size > 0 && (params.cipher == Caesar ==> params.keyLength == 1) }

    function Len(): nat { params.keyLength }

    function Total(): nat { Pow26(Len()) }

    function Units(): seq<Unit>
      requires Ok()
    {
      Cut(0, Total(), size, params)
    }

    function ScoreAt(i: nat): Score { At(score, Len(), i) }

    /** What one sequential sweep of the whole key space returns. */
    function Sequential(): Result { Sweep(score, Len(), 0, Total() - 1) }
  }

  /** A DECRYPT request as sent: the bounds travel as keys, or as one byte each for Caesar. */
  datatype Request = Request(startKey: string, endKey: string, cipher: Cipher, keyLength: nat)

  /** One connection: the coordinator's session at one end, the worker with its queues at the other.
      An answer carries only a result; which unit it is for is remembered by `current` alone. */
  datatype Session = Session(open: bool, current: Option<nat>, inbox: seq<Request>, outbox: seq<Result>)

  datatype Sys = Sys(coord: Coord, sessions: seq<Session>, disk: Option<Checkpoint>, lastSaved: nat)

  datatype Step =
    | Connect
    | Assign(s: nat, now: int)
    | Work(s: nat)
    | Answer(s: nat)
    | Disconnect(s: nat)
    | CheckTimeouts(now: int, written: bool)
    | InlineTimeout(i: nat, free: seq<nat>, now: int)
    | Resubmit
    | Crash

  // ---------- steps ----------

  function EncodeBound(cipher: Cipher, i: nat, len: nat): string {
    if cipher == Vigenere then KeyOf(i, len) else [(i % 256) as char]
  }

  /** The index a worker reads back from a bound. */
  function DecodeBound(cipher: Cipher, bound: string): int {
    if cipher == Vigenere then Horner(bound) else if bound != "" then bound[0] as int else 0
  }

  function RequestFor(u: Unit): Request
    requires u.start >= 0 && u.end >= 0
  {
    Request(EncodeBound(u.params.cipher, u.start, u.params.keyLength),
            EncodeBound(u.params.cipher, u.end, u.params.keyLength), u.params.cipher, u.params.keyLength)
  }

  /** The worker: decode the bounds, rebuild the unit, sweep it. No coordinator sends a start below zero. */
  function WorkerResult(job: Job, r: Request): Result {
    var start := DecodeBound(r.cipher, r.startKey);
    Sweep(job.score, r.keyLength, if start < 0 then 0 else start, DecodeBound(r.cipher, r.endKey))
  }

  /** assign_to_worker and send_unit; a request to a closed connection is lost. */
  function AssignStep(job: Job, sys: Sys, s: nat, now: int): (sys': Sys)
    requires s < |sys.sessions|
    requires forall u :: u in sys.coord.units ==> u.start >= 0 && u.end >= 0
    ensures |sys'.sessions| == |sys.sessions| && |sys'.coord.units| == |sys.coord.units|
    ensures forall t :: 0 <= t < |sys.sessions| && t != s ==> sys'.sessions[t] == sys.sessions[t]
    ensures forall u :: u in sys'.coord.units ==> u.start >= 0 && u.end >= 0
  {
    var units := sys.coord.units;
    var i := FirstUnassigned(units, 0);
    if i == |units| then sys
    else
      var session := sys.sessions[s];
      var inbox := if session.open then session.inbox + [RequestFor(units[i])] else session.inbox;
      sys.(coord := LeaseUnit(sys.coord, i, s, now),
           sessions := sys.sessions[s := session.(current := Some(i), inbox := inbox)])
  }

  /** Assignments to the sessions `free`, one right after the other. */
  function AssignAll(job: Job, sys: Sys, free: seq<nat>, now: int): (sys': Sys)
    requires forall j :: 0 <= j < |free| ==> free[j] < |sys.sessions|
    requires forall u :: u in sys.coord.units ==> u.start >= 0 && u.end >= 0
    ensures |sys'.sessions| == |sys.sessions| && |sys'.coord.units| == |sys.coord.units|
    decreases |free|
  {
    if free == [] then sys else AssignAll(job, AssignStep(job, sys, free[0], now), free[1..], now)
  }

  /** One overdue lease when spawned coroutines start inside the handler that spawns them: handle_timeout gives unit `i`
      back and the sessions `free` are assigned to at once; only then does check_timeouts erase the record of `i`. */
  function InlineTimeoutStep(job: Job, sys: Sys, i: nat, free: seq<nat>, now: int): Sys
    requires i < |sys.coord.units| && forall j :: 0 <= j < |free| ==> free[j] < |sys.sessions|
    requires forall u :: u in sys.coord.units ==> u.start >= 0 && u.end >= 0
  {
    var given := AssignAll(job, sys.(coord := SetStatus(sys.coord, i, Unassigned)), free, now);
    given.(coord := Erase(given.coord, i))
  }

  function WorkStep(job: Job, sys: Sys, s: nat): Sys
    requires s < |sys.sessions| && sys.sessions[s].inbox != []
  {
    var session := sys.sessions[s];
    sys.(sessions := sys.sessions[s := session.(inbox := session.inbox[1..],
                                                outbox := session.outbox + [WorkerResult(job, session.inbox[0])])])
  }

  /** handle_message on a STATUS: merge, credit the remembered unit. Without one, `value()` throws after
      the merge and the read loop drops the session. */
  function AnswerStep(sys: Sys, s: nat): Sys
    requires s < |sys.sessions| && sys.sessions[s].outbox != []
    requires sys.sessions[s].current.Some? ==> sys.sessions[s].current.value < |sys.coord.units|
  {
    var session := sys.sessions[s];
    var merged := CandToBest(sys.coord, session.outbox[0]);
    match session.current
    case None =>
      sys.(coord := merged, sessions := sys.sessions[s := Session(false, None, [], [])])
    case Some(i) =>
      sys.(coord := MarkUnitDone(merged, i),
           sessions := sys.sessions[s := session.(current := None, outbox := session.outbox[1..])])
  }

  function DisconnectStep(sys: Sys, s: nat): Sys
    requires s < |sys.sessions|
  {
    sys.(sessions := sys.sessions[s := sys.sessions[s].(open := false, inbox := [], outbox := [])])
  }

  /** Subtraction of std::size_t. */
  function SizeMinus(a: nat, b: nat): nat { if b <= a then a - b else (a - b) % 0x1_0000_0000_0000_0000 }

  ghost predicate ShouldSave(c: Coord, lastSaved: nat) {
    || SizeMinus(c.doneCount, lastSaved) >= CHECKPOINT_EVERY_N_UNITS
    || (AllDone(c.units) && c.doneCount > lastSaved)
  }

  /** maybe_save_checkpoint; `written` is false when the file could not be opened. */
  ghost function SaveStep(sys: Sys, written: bool): Sys {
    if ShouldSave(sys.coord, sys.lastSaved) then
      sys.(disk := if written then Some(Saved(sys.coord)) else sys.disk, lastSaved := sys.coord.doneCount)
    else sys
  }

  ghost function TimeoutStep(sys: Sys, now: int, written: bool): Sys {
    SaveStep(sys.(coord := Expire(sys.coord, Overdue(sys.coord, now))), written)
  }

  /** The coordinator that set_task makes: restored from the checkpoint if there is one. */
  function Reloaded(job: Job, disk: Option<Checkpoint>): Coord
    requires job.Ok()
  {
    match disk
    case None => Fresh(job.Total(), job.size, job.params)
    case Some(cp) => Loaded(cp)
  }

  /** The process dies and is started again with the same task. */
  function CrashStep(job: Job, sys: Sys): Sys
    requires job.Ok()
  {
    ResubmitStep(job, sys).(sessions := [])
  }

  /** The client sends the task again to a running server: a new coordinator, with all sessions as they are. */
  function ResubmitStep(job: Job, sys: Sys): Sys
    requires job.Ok()
  {
    var coord := Reloaded(job, sys.disk);
    sys.(coord := coord, lastSaved := coord.doneCount)
  }

  /** `free` lists different sessions that hold no unit. */
  predicate AllFree(sys: Sys, free: seq<nat>) {
    && (forall j :: 0 <= j < |free| ==> free[j] < |sys.sessions| && sys.sessions[free[j]].current.None?)
    && (forall j, k :: 0 <= j < k < |free| ==> free[j] != free[k])
  }

  predicate Enabled(sys: Sys, step: Step) {
    match step
    case Connect => true
    case Assign(s, _) => s < |sys.sessions| && forall u :: u in sys.coord.units ==> u.start >= 0 && u.end >= 0
    case Work(s) => s < |sys.sessions| && sys.sessions[s].open && sys.sessions[s].inbox != []
    case Answer(s) =>
      && s < |sys.sessions| && sys.sessions[s].open && sys.sessions[s].outbox != []
      && (sys.sessions[s].current.Some? ==> sys.sessions[s].current.value < |sys.coord.units|)
    case Disconnect(s) => s < |sys.sessions|
    case CheckTimeouts(_, _) => true
    case InlineTimeout(i, free, now) =>
      && i < |sys.coord.units| && i in Overdue(sys.coord, now) && AllFree(sys, free)
      && forall u :: u in sys.coord.units ==> u.start >= 0 && u.end >= 0
    case Resubmit => true
    case Crash => true
  }

  ghost function Apply(job: Job, sys: Sys, step: Step): Sys
    requires job.Ok() && Enabled(sys, step)
  {
    match step
    case Connect => sys.(sessions := sys.sessions + [Session(true, None, [], [])])
    case Assign(s, now) => AssignStep(job, sys, s, now)
    case Work(s) => WorkStep(job, sys, s)
    case Answer(s) => AnswerStep(sys, s)
    case Disconnect(s) => DisconnectStep(sys, s)
    case CheckTimeouts(now, written) => TimeoutStep(sys, now, written)
    case InlineTimeout(i, free, now) => InlineTimeoutStep(job, sys, i, free, now)
    case Resubmit => ResubmitStep(job, sys)
    case Crash => CrashStep(job, sys)
  }

  function Init(job: Job): Sys
    requires job.Ok()
  {
    Sys(Fresh(job.Total(), job.size, job.params), [], None, 0)
  }

  /** The session is free or has no message under way. */
  predicate Idle(session: Session) { session.current.None? || (session.inbox == [] && session.outbox == []) }

  /** A unit is given to an idle session only, so no session ever has two under way. */
  predicate OneUnitAtATime(sys: Sys, step: Step) {
    step.Assign? && step.s < |sys.sessions| && FirstUnassigned(sys.coord.units, 0) < |sys.coord.units| ==>
      Idle(sys.sessions[step.s])
  }

  ghost predicate IsRun(job: Job, states: seq<Sys>, steps: seq<Step>)
    requires job.Ok()
  {
    && |states| == |steps| + 1
    && states[0] == Init(job)
    && forall k :: 0 <= k < |steps| ==> Enabled(states[k], steps[k]) && states[k + 1] == Apply(job, states[k], steps[k])
  }

  ghost predicate Disciplined(states: seq<Sys>, steps: seq<Step>)
    requires |states| == |steps| + 1
  {
    forall k :: 0 <= k < |steps| ==> OneUnitAtATime(states[k], steps[k])
  }

  // ---------- the invariant ----------

  ghost predicate SameRanges(job: Job, units: seq<Unit>)
    requires job.Ok()
  {
    var cut := job.Units();
    |units| == |cut| && forall i :: 0 <= i < |cut| ==> units[i] == cut[i].(status := units[i].status)
  }

  ghost predicate Covers(job: Job, u: Unit, best: Result) {
    forall k: nat :: u.Contains(k) ==> !Less(job.ScoreAt(k), best.score)
  }

  /** The best so far is no worse than any key of any done unit. */
  ghost predicate BestCovers(job: Job, units: seq<Unit>, best: Result) {
    forall i :: 0 <= i < |units| && units[i].status == Done ==> Covers(job, units[i], best)
  }

  /** The best so far is the sentinel or some key of the key space with its own score. */
  ghost predicate BestAttained(job: Job, best: Result) {
    best == SENTINEL || exists k: nat :: AttainedAt(job, best, k)
  }

  ghost predicate AttainedAt(job: Job, best: Result, k: nat) {
    k < job.Total() && best == Result(KeyOf(k, job.Len()), job.ScoreAt(k)) && best.score.Finite?
  }

  ghost predicate Sound(job: Job, units: seq<Unit>, best: Result)
    requires job.Ok()
  {
    SameRanges(job, units) && BestCovers(job, units, best) && BestAttained(job, best)
  }

  /** A session has at most one message under way, and it belongs to the unit the session remembers. */
  ghost predicate SessionOk(job: Job, units: seq<Unit>, s: Session) {
    match s.current
    case None => s.inbox == [] && s.outbox == []
    case Some(i) =>
      && i < |units| && units[i].start >= 0 && units[i].end >= 0
      && |s.inbox| + |s.outbox| <= 1
      && (s.inbox != [] ==> s.inbox[0] == RequestFor(units[i]))
      && (s.outbox != [] ==> s.outbox[0] == UnitResult(job, units[i]))
  }

  function UnitResult(job: Job, u: Unit): Result
    requires u.start >= 0
  {
    Sweep(job.score, job.Len(), u.start, u.end)
  }

  ghost predicate Inv(job: Job, sys: Sys)
    requires job.Ok()
  {
    && Sound(job, sys.coord.units, sys.coord.best)
    && Counted(sys.coord)
    && (forall s :: 0 <= s < |sys.sessions| ==> SessionOk(job, sys.coord.units, sys.sessions[s]))
    && (sys.disk.Some? ==> Sound(job, sys.disk.value.units, sys.disk.value.best))
    && sys.lastSaved <= sys.coord.doneCount
  }

  // ---------- lemmas about ranges and results ----------

  lemma RangeFacts(job: Job, units: seq<Unit>, i: nat)
    requires job.Ok() && SameRanges(job, units) && i < |units|
    ensures 0 <= units[i].start <= units[i].end < job.Total()
    ensures units[i].params == job.params
  {
    var cut := job.Units();
    CutTiles(0, job.Total(), job.size, job.params);
    TilesPartition(cut, 0, job.Total(), job.size, cut[i].start);
    TilesPartition(cut, 0, job.Total(), job.size, cut[i].end);
    assert cut[i].Contains(cut[i].start) && cut[i].Contains(cut[i].end);
    assert cut[i] in cut;
  }

  lemma {:induction false} HopKeepsBound(cipher: Cipher, i: nat, len: nat)
    requires i < Pow26(len) && (cipher == Caesar ==> len == 1)
    ensures DecodeBound(cipher, EncodeBound(cipher, i, len)) == i
  {
    HopKeepsIndex(i, len);
    HornerIsIndex(KeyOf(i, len));
    assert Pow26(1) == 26;
  }

  /** The bounds survive the hop, so the worker's answer is the sweep of the very unit that was sent. */
  lemma HopKeepsUnit(job: Job, u: Unit)
    requires job.Ok() && u.params == job.params
    requires 0 <= u.start && 0 <= u.end && u.start < job.Total() && u.end < job.Total()
    ensures WorkerResult(job, RequestFor(u)) == UnitResult(job, u)
  {
    HopKeepsBound(u.params.cipher, u.start, job.Len());
    HopKeepsBound(u.params.cipher, u.end, job.Len());
  }

  lemma UnitResultSound(job: Job, u: Unit)
    requires 0 <= u.start <= u.end < job.Total()
    ensures Covers(job, u, UnitResult(job, u)) && BestAttained(job, UnitResult(job, u))
  {
    var r := UnitResult(job, u);
    var n := Width(u.start, u.end);
    SweepIsFirstMinimum(job.score, job.Len(), u.start, u.end);
    if r != SENTINEL {
      var i :| FirstMinimumAt(r, job.score, job.Len(), u.start, n, i);
      assert AttainedAt(job, r, i);
    }
  }

  lemma MergeCovers(job: Job, u: Unit, best: Result, cand: Result)
    requires BestAttained(job, best) && BestAttained(job, cand)
    requires Covers(job, u, best) || Covers(job, u, cand)
    ensures Covers(job, u, Better(best, cand))
  {
  }

  lemma MergeSound(job: Job, units: seq<Unit>, best: Result, cand: Result)
    requires job.Ok() && Sound(job, units, best) && BestAttained(job, cand)
    ensures Sound(job, units, Better(best, cand))
  {
  }

  lemma SessionsKept(job: Job, sys: Sys, units': seq<Unit>)
    requires job.Ok() && Inv(job, sys) && SameRanges(job, units')
    ensures forall s :: 0 <= s < |sys.sessions| ==> SessionOk(job, units', sys.sessions[s])
  {
  }

  // ---------- every step keeps the invariant ----------

  lemma InitInv(job: Job)
    requires job.Ok()
    ensures Inv(job, Init(job))
  {
    FreshConsistent(job.Total(), job.size, job.params);
    var units := job.Units();
    assert forall i :: 0 <= i < |units| ==> units[i] in units;
  }

  /** A unit that is not done may change its status as long as it does not become done. */
  lemma StatusSound(job: Job, units: seq<Unit>, units': seq<Unit>, best: Result)
    requires job.Ok() && Sound(job, units, best) && |units'| == |units|
    requires forall i :: 0 <= i < |units| ==> units'[i] == units[i].(status := units'[i].status)
    requires forall i :: 0 <= i < |units| && units'[i].status == Done ==> units[i].status == Done
    ensures Sound(job, units', best)
  {
  }

  lemma GivenSessionOk(job: Job, units: seq<Unit>, i: nat, session: Session)
    requires job.Ok() && SameRanges(job, units) && i < |units|
    requires Idle(session) && SessionOk(job, units, session)
    ensures units[i].start >= 0 && units[i].end >= 0
    ensures SessionOk(job, units, session.(current := Some(i)))
    ensures SessionOk(job, units, session.(current := Some(i), inbox := session.inbox + [RequestFor(units[i])]))
  {
    RangeFacts(job, units, i);
  }

  lemma LeaseKeeps(job: Job, sys: Sys, i: nat, s: nat, now: int)
    requires job.Ok() && Inv(job, sys) && i < |sys.coord.units| && sys.coord.units[i].status == Unassigned
    ensures Inv(job, sys.(coord := LeaseUnit(sys.coord, i, s, now)))
  {
    var coord := LeaseUnit(sys.coord, i, s, now);
    LeaseConsistent(sys.coord, i, s, now);
    StatusSound(job, sys.coord.units, coord.units, sys.coord.best);
    SessionsKept(job, sys, coord.units);
  }

  lemma AssignKeeps(job: Job, sys: Sys, s: nat, now: int)
    requires job.Ok() && Inv(job, sys)
    requires Enabled(sys, Assign(s, now)) && OneUnitAtATime(sys, Assign(s, now))
    ensures Inv(job, AssignStep(job, sys, s, now))
  {
    var i := FirstUnassigned(sys.coord.units, 0);
    if i < |sys.coord.units| {
      GivenSessionOk(job, sys.coord.units, i, sys.sessions[s]);
      var given := sys.(sessions := AssignStep(job, sys, s, now).sessions);
      assert Inv(job, given);
      LeaseKeeps(job, given, i, s, now);
    }
  }

  /** Exactly when an assignment to an open session keeps the invariant: when there is nothing to assign or the session
      has no message under way. That is the discipline of the main theorem. */
  lemma AssignKeepsIff(job: Job, sys: Sys, s: nat, now: int)
    requires job.Ok() && Inv(job, sys) && Enabled(sys, Assign(s, now)) && sys.sessions[s].open
    ensures Inv(job, AssignStep(job, sys, s, now)) <==>
              || FirstUnassigned(sys.coord.units, 0) == |sys.coord.units|
              || (sys.sessions[s].inbox == [] && sys.sessions[s].outbox == [])
    ensures Inv(job, AssignStep(job, sys, s, now)) <==> OneUnitAtATime(sys, Assign(s, now))
  {
    if OneUnitAtATime(sys, Assign(s, now)) {
      AssignKeeps(job, sys, s, now);
    } else {
      var sys' := AssignStep(job, sys, s, now);
      assert !SessionOk(job, sys'.coord.units, sys'.sessions[s]);
    }
  }

  lemma WorkKeeps(job: Job, sys: Sys, s: nat)
    requires job.Ok() && Inv(job, sys) && Enabled(sys, Work(s))
    ensures Inv(job, WorkStep(job, sys, s))
  {
    var i := sys.sessions[s].current.value;
    RangeFacts(job, sys.coord.units, i);
    HopKeepsUnit(job, sys.coord.units[i]);
  }

  /** In a run where sessions hold one unit at a time, an answer is the sweep of the unit it is credited to. */
  lemma AnswerIsForItsUnit(job: Job, sys: Sys, s: nat)
    requires job.Ok() && Inv(job, sys) && Enabled(sys, Answer(s))
    ensures var session := sys.sessions[s];
            session.current.Some? && session.outbox == [UnitResult(job, sys.coord.units[session.current.value])]
  {
  }

  lemma AnswerKeeps(job: Job, sys: Sys, s: nat)
    requires job.Ok() && Inv(job, sys) && Enabled(sys, Answer(s))
    ensures Inv(job, AnswerStep(sys, s))
  {
    AnswerIsForItsUnit(job, sys, s);
    var i := sys.sessions[s].current.value;
    var units := sys.coord.units;
    var cand := UnitResult(job, units[i]);
    RangeFacts(job, units, i);
    UnitResultSound(job, units[i]);
    MergeSound(job, units, sys.coord.best, cand);
    var merged := CandToBest(sys.coord, cand);
    assert Counted(merged);
    DoneConsistent(merged, i);
    var sys' := AnswerStep(sys, s);
    MergeCovers(job, units[i], sys.coord.best, cand);
    assert BestCovers(job, sys'.coord.units, sys'.coord.best);
    SessionsKept(job, sys, sys'.coord.units);
  }

  lemma TimeoutKeeps(job: Job, sys: Sys, now: int, written: bool)
    requires job.Ok() && Inv(job, sys)
    ensures Inv(job, TimeoutStep(sys, now, written))
  {
    var expired := Overdue(sys.coord, now);
    ExpireConsistent(sys.coord, expired);
    SessionsKept(job, sys, Expire(sys.coord, expired).units);
  }

  lemma {:induction false} AssignAllKeeps(job: Job, sys: Sys, free: seq<nat>, now: int)
    requires job.Ok() && Inv(job, sys) && AllFree(sys, free)
    requires forall u :: u in sys.coord.units ==> u.start >= 0 && u.end >= 0
    ensures Inv(job, AssignAll(job, sys, free, now))
    decreases |free|
  {
    if free == [] {
    } else {
      AssignKeeps(job, sys, free[0], now);
      AssignAllKeeps(job, AssignStep(job, sys, free[0], now), free[1..], now);
    }
  }

  /** Up to the record of the lease of unit `i`. */
  ghost predicate SameButRecord(x: Sys, y: Sys, i: nat) {
    y == x.(coord := x.coord.(pending := y.coord.pending)) && x.coord.pending - {i} == y.coord.pending - {i}
  }

  lemma AssignSameButRecord(job: Job, x: Sys, y: Sys, i: nat, s: nat, now: int)
    requires SameButRecord(x, y, i) && s < |x.sessions|
    requires forall u :: u in x.coord.units ==> u.start >= 0 && u.end >= 0
    ensures SameButRecord(AssignStep(job, x, s, now), AssignStep(job, y, s, now), i)
  {
    var p, q := AssignStep(job, x, s, now).coord.pending, AssignStep(job, y, s, now).coord.pending;
    forall k | k != i ensures k in p <==> k in q {
      assert k in x.coord.pending - {i} <==> k in y.coord.pending - {i};
    }
    forall k | k in p && k != i ensures p[k] == q[k] {
      assert k in x.coord.pending ==> (x.coord.pending - {i})[k] == (y.coord.pending - {i})[k];
    }
  }

  lemma {:induction false} AssignAllSameButRecord(job: Job, x: Sys, y: Sys, i: nat, free: seq<nat>, now: int)
    requires SameButRecord(x, y, i) && forall j :: 0 <= j < |free| ==> free[j] < |x.sessions|
    requires forall u :: u in x.coord.units ==> u.start >= 0 && u.end >= 0
    ensures SameButRecord(AssignAll(job, x, free, now), AssignAll(job, y, free, now), i)
    decreases |free|
  {
    if free == [] {
    } else {
      AssignSameButRecord(job, x, y, i, free[0], now);
      AssignAllSameButRecord(job, AssignStep(job, x, free[0], now), AssignStep(job, y, free[0], now), i,
          free[1..], now);
    }
  }

  /** Erasing the record before the assignments as well makes no difference. */
  lemma InlineTimeoutErasesTwice(job: Job, sys: Sys, i: nat, free: seq<nat>, now: int)
    requires i < |sys.coord.units| && forall j :: 0 <= j < |free| ==> free[j] < |sys.sessions|
    requires forall u :: u in sys.coord.units ==> u.start >= 0 && u.end >= 0
    ensures var given := AssignAll(job, sys.(coord := Erase(SetStatus(sys.coord, i, Unassigned), i)), free, now);
            InlineTimeoutStep(job, sys, i, free, now) == given.(coord := Erase(given.coord, i))
  {
    var late := sys.(coord := SetStatus(sys.coord, i, Unassigned));
    var early := sys.(coord := Erase(late.coord, i));
    assert late.coord.pending - {i} == early.coord.pending - {i};
    AssignAllSameButRecord(job, late, early, i, free, now);
  }

  lemma ExpireOneKeeps(job: Job, sys: Sys, i: nat)
    requires job.Ok() && Inv(job, sys) && i in sys.coord.pending
    ensures i < |sys.coord.units| && Inv(job, sys.(coord := Erase(SetStatus(sys.coord, i, Unassigned), i)))
  {
    var coord := Erase(SetStatus(sys.coord, i, Unassigned), i);
    ExpireConsistent(sys.coord, {i});
    assert coord.units == Expire(sys.coord, {i}).units;
    StatusSound(job, sys.coord.units, coord.units, sys.coord.best);
    SessionsKept(job, sys, coord.units);
  }

  /** The invariant does not depend on when spawned coroutines start. */
  lemma InlineTimeoutKeeps(job: Job, sys: Sys, i: nat, free: seq<nat>, now: int)
    requires job.Ok() && Inv(job, sys) && Enabled(sys, InlineTimeout(i, free, now))
    ensures Inv(job, InlineTimeoutStep(job, sys, i, free, now))
  {
    ExpireOneKeeps(job, sys, i);
    var early := sys.(coord := Erase(SetStatus(sys.coord, i, Unassigned), i));
    AssignAllKeeps(job, early, free, now);
    InlineTimeoutErasesTwice(job, sys, i, free, now);
  }

  lemma ResubmitKeeps(job: Job, sys: Sys)
    requires job.Ok() && Inv(job, sys)
    ensures Inv(job, ResubmitStep(job, sys))
  {
    match sys.disk
    case None => InitInv(job);
    case Some(cp) => LoadedConsistent(cp);
    SessionsKept(job, sys, ResubmitStep(job, sys).coord.units);
  }

  lemma StepKeeps(job: Job, sys: Sys, step: Step)
    requires job.Ok() && Inv(job, sys) && Enabled(sys, step) && OneUnitAtATime(sys, step)
    ensures Inv(job, Apply(job, sys, step))
  {
    match step
    case Connect =>
    case Assign(s, now) => AssignKeeps(job, sys, s, now);
    case Work(s) => WorkKeeps(job, sys, s);
    case Answer(s) => AnswerKeeps(job, sys, s);
    case Disconnect(s) =>
    case CheckTimeouts(now, written) => TimeoutKeeps(job, sys, now, written);
    case InlineTimeout(i, free, now) => InlineTimeoutKeeps(job, sys, i, free, now);
    case Resubmit => ResubmitKeeps(job, sys);
    case Crash => ResubmitKeeps(job, sys);
  }

  lemma {:induction false} RunInv(job: Job, states: seq<Sys>, steps: seq<Step>, k: nat)
    requires job.Ok() && IsRun(job, states, steps) && Disciplined(states, steps)
    requires k < |states|
    ensures Inv(job, states[k])
  {
    if k == 0 {
      InitInv(job);
    } else {
      RunInv(job, states, steps, k - 1);
      assert OneUnitAtATime(states[k - 1], steps[k - 1]);
      StepKeeps(job, states[k - 1], steps[k - 1]);
      assert states[k - 1 + 1] == Apply(job, states[k - 1], steps[k - 1]);
    }
  }

  // ---------- main results ----------

  /** In every run that assigns to free sessions only, an answer is credited to the very unit it is the sweep of. */
  lemma AnswersAreForTheirUnits(job: Job, states: seq<Sys>, steps: seq<Step>, k: nat)
    requires job.Ok() && IsRun(job, states, steps) && Disciplined(states, steps)
    requires k < |steps| && steps[k].Answer?
    ensures var sys := states[k];
            var session := sys.sessions[steps[k].s];
            && session.current.Some? && session.current.value < |sys.coord.units|
            && sys.coord.units[session.current.value].start >= 0
            && session.outbox == [UnitResult(job, sys.coord.units[session.current.value])]
  {
    RunInv(job, states, steps, k);
    AnswerIsForItsUnit(job, states[k], steps[k].s);
  }

  /** Any interleaving of leases, timeouts, late and repeated answers, checkpoints, crashes and reloads finds
      what one sequential sweep of all keys finds: when every unit is done, the best score is the least score
      over the whole key space and, unless nothing beats the sentinel, the stored key attains it. */
  lemma DistributedRefinesSequential(job: Job, states: seq<Sys>, steps: seq<Step>, k: nat)
    requires job.Ok() && IsRun(job, states, steps) && Disciplined(states, steps)
    requires k < |states| && AllDone(states[k].coord.units)
    ensures var best := states[k].coord.best;
            && best.score == job.Sequential().score
            && (best == SENTINEL || (|best.key| == job.Len() && IsKey(best.key) && best.score == job.score(best.key)))
            && forall key :: |key| == job.Len() && IsKey(key) ==> !Less(job.score(key), best.score)
  {
    RunInv(job, states, steps, k);
    var c := states[k].coord;
    AllDoneMeansOptimal(job, c.units, c.best);
  }

  lemma AllDoneMeansOptimal(job: Job, units: seq<Unit>, best: Result)
    requires job.Ok() && Sound(job, units, best) && AllDone(units)
    ensures best.score == job.Sequential().score
    ensures best == SENTINEL || (|best.key| == job.Len() && IsKey(best.key) && best.score == job.score(best.key))
    ensures forall key :: |key| == job.Len() && IsKey(key) ==> !Less(job.score(key), best.score)
  {
    forall k: nat | k < job.Total() ensures !Less(job.ScoreAt(k), best.score) {
      CoveredByUnit(job, units, best, k);
    }
    forall key | |key| == job.Len() && IsKey(key) ensures !Less(job.score(key), best.score) {
      KeyOfIndexOf(key);
      assert !Less(job.ScoreAt(IndexOf(key)), best.score);
    }
    EqualMinima(job, best);
  }

  lemma CoveredByUnit(job: Job, units: seq<Unit>, best: Result, k: nat)
    requires job.Ok() && Sound(job, units, best) && AllDone(units) && k < job.Total()
    ensures !Less(job.ScoreAt(k), best.score)
  {
    CutTiles(0, job.Total(), job.size, job.params);
    var i := FindUnit(job.Units(), 0, job.Total(), job.size, k);
    assert units[i].Contains(k);
    assert Covers(job, units[i], best);
  }

  lemma EqualMinima(job: Job, best: Result)
    requires BestAttained(job, best)
    requires forall k: nat :: k < job.Total() ==> !Less(job.ScoreAt(k), best.score)
    ensures best.score == job.Sequential().score
  {
    var all := Unit(0, job.Total() - 1, Done, job.params);
    UnitResultSound(job, all);
    var seqBest := job.Sequential();
    assert seqBest == UnitResult(job, all);
    if best != SENTINEL {
      var k: nat :| AttainedAt(job, best, k);
      assert all.Contains(k);
      assert !Less(job.ScoreAt(k), seqBest.score);
    }
    if seqBest != SENTINEL {
      var k: nat :| AttainedAt(job, seqBest, k);
      assert !Less(job.ScoreAt(k), best.score);
    }
  }

  /** In FAST mode, on a text with at least one letter per key letter, the finished search names a key each of
      whose letters on its own minimises the chi-square of its stream. */
  lemma FastSearchIsLetterwiseOptimal(job: Job, text: string, states: seq<Sys>, steps: seq<Step>, k: nat)
    requires job.Ok() && IsRun(job, states, steps) && Disciplined(states, steps)
    requires k < |states| && AllDone(states[k].coord.units)
    requires job.score == FastScorer(text) && 0 < job.Len() <= |Ciphers.Letters(text)|
    ensures var key := states[k].coord.best.key;
            && |key| == job.Len() && IsKey(key)
            && AllStreamsNonEmpty(Ciphers.Letters(text), |key|)
            && LetterwiseOptimal(Ciphers.Letters(text), key)
  {
    DistributedRefinesSequential(job, states, steps, k);
    var ls, best := Ciphers.Letters(text), states[k].coord.best;
    FastScoresAreFinite(text, KeyOf(0, job.Len()));
    assert !Less(job.score(KeyOf(0, job.Len())), best.score);
    forall other | |other| == |best.key| && IsKey(other)
      ensures !Less(FastScore(ls, other), FastScore(ls, best.key))
    {
      assert !Less(job.score(other), best.score);
    }
    FastOptimumIsLetterwise(ls, best.key);
  }

  lemma FastScoresAreFinite(text: string, key: string)
    requires key != "" && IsKey(key) && |key| <= |Ciphers.Letters(text)|
    ensures FastScorer(text)(key).Finite?
  {
    FastRefinesDecryptThenCount(text, key);
  }

  /** A crash and reload, or a resubmission, keeps the ranges and exactly the saved done marks, forgets every lease,
      recounts, and the restored best is no worse than any key of any done unit. */
  lemma CrashRecovery(job: Job, states: seq<Sys>, steps: seq<Step>, k: nat)
    requires job.Ok() && IsRun(job, states, steps) && Disciplined(states, steps)
    requires k < |steps| && (steps[k].Crash? || steps[k].Resubmit?)
    ensures var c := states[k + 1].coord;
            && SameRanges(job, c.units)
            && c.pending == map[]
            && (forall i :: 0 <= i < |c.units| ==> c.units[i].status != Leased)
            && (forall i :: 0 <= i < |c.units| ==>
                  (c.units[i].status == Done <==> states[k].disk.Some? && states[k].disk.value.units[i].status == Done))
            && c.doneCount == CountDone(c.units) == states[k + 1].lastSaved
            && BestCovers(job, c.units, c.best)
            && (states[k].disk.Some? ==> c.best == states[k].disk.value.best)
    ensures states[k + 1].disk == states[k].disk
    ensures steps[k].Crash? ==> states[k + 1].sessions == []
    ensures steps[k].Resubmit? ==> states[k + 1].sessions == states[k].sessions
  {
    RunInv(job, states, steps, k);
    RunInv(job, states, steps, k + 1);
    assert states[k + 1] == Apply(job, states[k], steps[k]);
    ReloadedFacts(job, states[k].disk);
  }

  lemma ReloadedFacts(job: Job, disk: Option<Checkpoint>)
    requires job.Ok() && (disk.Some? ==> SameRanges(job, disk.value.units))
    ensures var c := Reloaded(job, disk);
            && c.pending == map[] && SameRanges(job, c.units)
            && (forall i :: 0 <= i < |c.units| ==> c.units[i].status != Leased)
            && (forall i :: 0 <= i < |c.units| ==>
                  (c.units[i].status == Done <==> disk.Some? && disk.value.units[i].status == Done))
            && (disk.Some? ==> c.best == disk.value.best)
  {
    var units := job.Units();
    assert forall i :: 0 <= i < |units| ==> units[i] in units;
  }
}
