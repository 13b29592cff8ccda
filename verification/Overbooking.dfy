/** What happens when a unit is assigned to a session that is not free. set_task assigns to every worker without
    looking, so a task that is submitted right after another has completed overbooks a worker that is still busy. Where
    spawned coroutines start only after the handler, one timeout check can also queue two assignments to the same free
    worker. */
module Overbooking {
  import opened Wrappers
  import opened Base26
  import opened Scoring
  import opened Decryptor
  import opened Units
  import opened Coordination
  import opened Search

  /** One turn of a session that remembers unit `i`: it sweeps its first request and the answer is credited to `i`. */
  lemma Turn(job: Job, sys: Sys, s: nat, i: nat, q: Request, rest: seq<Request>)
    requires job.Ok() && s < |sys.sessions| && i < |sys.coord.units|
    requires sys.sessions[s] == Session(true, Some(i), [q] + rest, [])
    ensures Enabled(sys, Work(s)) && Enabled(Apply(job, sys, Work(s)), Answer(s))
    ensures Apply(job, Apply(job, sys, Work(s)), Answer(s))
         == sys.(coord := MarkUnitDone(CandToBest(sys.coord, WorkerResult(job, q)), i),
                 sessions := sys.sessions[s := Session(true, None, rest, [])])
  {
    WorkOnFirst(job, sys, s, i, q, rest);
    var mid := WorkStep(job, sys, s);
    AnswerOnly(mid, s, i, rest, WorkerResult(job, q));
    assert mid.sessions[s := Session(true, None, rest, [])] == sys.sessions[s := Session(true, None, rest, [])];
  }

  lemma WorkOnFirst(job: Job, sys: Sys, s: nat, i: nat, req: Request, rest: seq<Request>)
    requires s < |sys.sessions| && sys.sessions[s] == Session(true, Some(i), [req] + rest, [])
    ensures WorkStep(job, sys, s)
         == sys.(sessions := sys.sessions[s := Session(true, Some(i), rest, [WorkerResult(job, req)])])
  {
    assert ([req] + rest)[1..] == rest;
    assert [] + [WorkerResult(job, req)] == [WorkerResult(job, req)];
  }

  lemma AnswerOnly(sys: Sys, s: nat, i: nat, rest: seq<Request>, r: Result)
    requires s < |sys.sessions| && i < |sys.coord.units| && sys.sessions[s] == Session(true, Some(i), rest, [r])
    ensures AnswerStep(sys, s)
         == sys.(coord := MarkUnitDone(CandToBest(sys.coord, r), i),
                 sessions := sys.sessions[s := Session(true, None, rest, [])])
  {
    assert [r][1..] == [];
  }

  /** What an assignment does to an open session. */
  lemma Assigned(job: Job, sys: Sys, s: nat, now: int, session: Session, p: nat)
    requires job.Ok() && Enabled(sys, Assign(s, now)) && sys.sessions[s] == session && session.open
    requires p == FirstUnassigned(sys.coord.units, 0) < |sys.coord.units|
    ensures sys.coord.units[p].start >= 0 && sys.coord.units[p].end >= 0
    ensures Apply(job, sys, Assign(s, now))
         == sys.(coord := LeaseUnit(sys.coord, p, s, now),
                 sessions := sys.sessions[s := Session(true, Some(p), session.inbox + [RequestFor(sys.coord.units[p])],
                                                       session.outbox)])
  {
    assert sys.coord.units[p] in sys.coord.units;
  }

  /** The steps of `steps` can be taken one after the other from `sys` and lead to `end`. */
  ghost predicate Leads(job: Job, sys: Sys, steps: seq<Step>, end: Sys)
    requires job.Ok()
    decreases |steps|
  {
    if steps == [] then end == sys
    else Enabled(sys, steps[0]) && Leads(job, Apply(job, sys, steps[0]), steps[1..], end)
  }

  lemma TwoLead(job: Job, sys: Sys, x: Step, y: Step)
    requires job.Ok() && Enabled(sys, x) && Enabled(Apply(job, sys, x), y)
    ensures Leads(job, sys, [x, y], Apply(job, Apply(job, sys, x), y))
  {
    assert [x, y][1..] == [y] && [y][1..] == [];
  }

  lemma ThreeLead(job: Job, sys: Sys, x: Step, y: Step, z: Step)
    requires job.Ok() && Enabled(sys, x) && Enabled(Apply(job, sys, x), y)
    requires Enabled(Apply(job, Apply(job, sys, x), y), z)
    ensures Leads(job, sys, [x, y, z], Apply(job, Apply(job, Apply(job, sys, x), y), z))
  {
    TwoLead(job, Apply(job, sys, x), y, z);
    assert [x, y, z][1..] == [y, z];
  }

  /** `sys` after unit `p` was given to session `s`, an answer `r` credited to it, and request `q` left unread. */
  function Credited(sys: Sys, s: nat, now: int, p: nat, r: Result, q: Request): Sys
    requires s < |sys.sessions| && p < |sys.coord.units|
  {
    sys.(coord := MarkUnitDone(CandToBest(LeaseUnit(sys.coord, p, s, now), r), p),
         sessions := sys.sessions[s := Session(true, None, [q], [])])
  }

  /** A session with one request to sweep is given unit `p`: the answer to the old request is credited to `p`. */
  lemma RequestCredited(job: Job, sys: Sys, s: nat, now: int, current: Option<nat>, q: Request, p: nat)
    requires job.Ok() && Enabled(sys, Assign(s, now)) && sys.sessions[s] == Session(true, current, [q], [])
    requires p == FirstUnassigned(sys.coord.units, 0) < |sys.coord.units|
    ensures sys.coord.units[p].start >= 0 && sys.coord.units[p].end >= 0
    ensures Leads(job, sys, [Assign(s, now), Work(s), Answer(s)],
                  Credited(sys, s, now, p, WorkerResult(job, q), RequestFor(sys.coord.units[p])))
  {
    Assigned(job, sys, s, now, sys.sessions[s], p);
    var next, q' := Apply(job, sys, Assign(s, now)), RequestFor(sys.coord.units[p]);
    Turn(job, next, s, p, q, [q']);
    ThreeLead(job, sys, Assign(s, now), Work(s), Answer(s));
    var done := Session(true, None, [q'], []);
    assert next.sessions[s := done] == sys.sessions[s := done];
  }

  /** A session whose answer is under way is given unit `p`: the answer is credited to `p`. */
  lemma AnswerCredited(job: Job, sys: Sys, s: nat, now: int, current: Option<nat>, r: Result, p: nat)
    requires job.Ok() && Enabled(sys, Assign(s, now)) && sys.sessions[s] == Session(true, current, [], [r])
    requires p == FirstUnassigned(sys.coord.units, 0) < |sys.coord.units|
    ensures sys.coord.units[p].start >= 0 && sys.coord.units[p].end >= 0
    ensures Leads(job, sys, [Assign(s, now), Answer(s)],
                  Credited(sys, s, now, p, r, RequestFor(sys.coord.units[p])))
  {
    Assigned(job, sys, s, now, sys.sessions[s], p);
    var next, q' := Apply(job, sys, Assign(s, now)), RequestFor(sys.coord.units[p]);
    assert [] + [q'] == [q'];
    AnswerOnly(next, s, p, [q'], r);
    TwoLead(job, sys, Assign(s, now), Answer(s));
    var done := Session(true, None, [q'], []);
    assert next.sessions[s := done] == sys.sessions[s := done];
  }

  /** Unit `u`, not `i`, is marked done although all that was merged since `sys` is the sweep of `i`, once or twice. */
  ghost predicate Miscredited(job: Job, sys: Sys, end: Sys, i: nat, u: nat, twice: bool)
    requires i < |sys.coord.units| && sys.coord.units[i].start >= 0
  {
    var r := UnitResult(job, sys.coord.units[i]);
    var once := Better(sys.coord.best, r);
    && u != i && u < |end.coord.units| && end.coord.units[u].status == Done
    && end.coord.best == if twice then Better(once, r) else once
  }

  lemma SessionFacts(job: Job, sys: Sys, s: nat)
    requires job.Ok() && Inv(job, sys) && s < |sys.sessions| && sys.sessions[s].open
    requires sys.sessions[s].inbox != [] || sys.sessions[s].outbox != []
    ensures var session := sys.sessions[s];
            && session.current.Some? && session.current.value < |sys.coord.units|
            && var u := sys.coord.units[session.current.value];
               && u.start >= 0 && u.end >= 0
               && WorkerResult(job, RequestFor(u)) == UnitResult(job, u)
               && (session == Session(true, session.current, [RequestFor(u)], []) ||
                   session == Session(true, session.current, [], [UnitResult(job, u)]))
  {
    var i := sys.sessions[s].current.value;
    RangeFacts(job, sys.coord.units, i);
    HopKeepsUnit(job, sys.coord.units[i]);
  }

  /** An assignment to a busy session: after at most one turn of it the picked unit is marked done with the result of
      the unit that was under way, be it a request or an answer. */
  lemma OverbookedTurn(job: Job, sys: Sys, s: nat, now: int) returns (steps: seq<Step>)
    requires job.Ok() && Inv(job, sys) && Enabled(sys, Assign(s, now)) && sys.sessions[s].open
    requires sys.sessions[s].inbox != [] || sys.sessions[s].outbox != []
    requires FirstUnassigned(sys.coord.units, 0) < |sys.coord.units|
    ensures sys.sessions[s].current.Some? && sys.sessions[s].current.value < |sys.coord.units|
    ensures var u, p := sys.coord.units[sys.sessions[s].current.value], FirstUnassigned(sys.coord.units, 0);
            && u.start >= 0 && sys.coord.units[p].start >= 0 && sys.coord.units[p].end >= 0
            && Leads(job, sys, steps, Credited(sys, s, now, p, UnitResult(job, u), RequestFor(sys.coord.units[p])))
    ensures steps == [Assign(s, now), Work(s), Answer(s)] || steps == [Assign(s, now), Answer(s)]
  {
    SessionFacts(job, sys, s);
    var current, p := sys.sessions[s].current, FirstUnassigned(sys.coord.units, 0);
    var u := sys.coord.units[current.value];
    if sys.sessions[s].inbox != [] {
      steps := [Assign(s, now), Work(s), Answer(s)];
      RequestCredited(job, sys, s, now, current, RequestFor(u), p);
    } else {
      steps := [Assign(s, now), Answer(s)];
      AnswerCredited(job, sys, s, now, current, UnitResult(job, u), p);
    }
  }

  /** Overbooking with another unit: that unit is marked done with the sweep of the old one. */
  lemma OtherUnitMiscredited(job: Job, sys: Sys, s: nat, now: int) returns (steps: seq<Step>, end: Sys)
    requires job.Ok() && Inv(job, sys) && Enabled(sys, Assign(s, now)) && sys.sessions[s].open
    requires sys.sessions[s].inbox != [] || sys.sessions[s].outbox != []
    requires FirstUnassigned(sys.coord.units, 0) < |sys.coord.units|
    requires sys.sessions[s].current != Some(FirstUnassigned(sys.coord.units, 0))
    ensures steps == [Assign(s, now), Work(s), Answer(s)] || steps == [Assign(s, now), Answer(s)]
    ensures sys.sessions[s].current.Some? && sys.sessions[s].current.value < |sys.coord.units|
    ensures var i := sys.sessions[s].current.value;
            && sys.coord.units[i].start >= 0 && Leads(job, sys, steps, end)
            && Miscredited(job, sys, end, i, FirstUnassigned(sys.coord.units, 0), false)
  {
    steps := OverbookedTurn(job, sys, s, now);
    var u, p := sys.coord.units[sys.sessions[s].current.value], FirstUnassigned(sys.coord.units, 0);
    end := Credited(sys, s, now, p, UnitResult(job, u), RequestFor(sys.coord.units[p]));
  }

  /** Overbooking with the same unit `i`: the first answer is credited to `i`, but a second request for `i` is left. The
      session, now free, is given the next unassigned unit, if there is one, and that unit is marked done with another
      sweep of `i`. */
  lemma SameUnitFallsBehind(job: Job, sys: Sys, s: nat, now: int)
    returns (steps: seq<Step>, mid: Sys, end: Sys)
    requires job.Ok() && Inv(job, sys) && Enabled(sys, Assign(s, now)) && sys.sessions[s].open
    requires sys.sessions[s].inbox != [] || sys.sessions[s].outbox != []
    requires FirstUnassigned(sys.coord.units, 0) < |sys.coord.units|
    requires sys.sessions[s].current == Some(FirstUnassigned(sys.coord.units, 0))
    requires exists k ::
               sys.sessions[s].current.value < k < |sys.coord.units| && sys.coord.units[k].status == Unassigned
    ensures steps == [Assign(s, now), Work(s), Answer(s)] || steps == [Assign(s, now), Answer(s)]
    ensures Leads(job, sys, steps, mid) && s < |mid.sessions| && mid.sessions[s].current.None?
    ensures Leads(job, mid, [Assign(s, now), Work(s), Answer(s)], end)
    ensures var i := sys.sessions[s].current.value;
            sys.coord.units[i].start >= 0 && Miscredited(job, sys, end, i, FirstUnassigned(mid.coord.units, 0), true)
  {
    SessionFacts(job, sys, s);
    steps := OverbookedTurn(job, sys, s, now);
    var i := sys.sessions[s].current.value;
    var u := sys.coord.units[i];
    mid := Credited(sys, s, now, i, UnitResult(job, u), RequestFor(u));
    CreditedState(sys, s, now, i, UnitResult(job, u), RequestFor(u));
    NextUnassigned(sys.coord.units, mid.coord.units, i);
    end := SecondCopy(job, mid, s, now, RequestFor(u), UnitResult(job, u));
  }

  /** A free session that still has a request to sweep is given a unit, which is credited with the request's answer. */
  lemma SecondCopy(job: Job, sys: Sys, s: nat, now: int, q: Request, r: Result) returns (end: Sys)
    requires job.Ok() && Enabled(sys, Assign(s, now)) && sys.sessions[s] == Session(true, None, [q], [])
    requires FirstUnassigned(sys.coord.units, 0) < |sys.coord.units| && WorkerResult(job, q) == r
    ensures Leads(job, sys, [Assign(s, now), Work(s), Answer(s)], end)
    ensures |end.coord.units| == |sys.coord.units| && end.coord.best == Better(sys.coord.best, r)
    ensures end.coord.units[FirstUnassigned(sys.coord.units, 0)].status == Done
  {
    var p := FirstUnassigned(sys.coord.units, 0);
    RequestCredited(job, sys, s, now, None, q, p);
    end := Credited(sys, s, now, p, r, RequestFor(sys.coord.units[p]));
    CreditedState(sys, s, now, p, r, RequestFor(sys.coord.units[p]));
  }

  lemma CreditedState(sys: Sys, s: nat, now: int, p: nat, r: Result, q: Request)
    requires Enabled(sys, Assign(s, now)) && p < |sys.coord.units|
    ensures var sys' := Credited(sys, s, now, p, r, q);
            && Enabled(sys', Assign(s, now)) && sys'.sessions[s] == Session(true, None, [q], [])
            && sys'.coord.units == sys.coord.units[p := sys.coord.units[p].(status := Done)]
            && sys'.coord.best == Better(sys.coord.best, r)
  {
    var sys' := Credited(sys, s, now, p, r, q);
    assert sys'.coord.units == sys.coord.units[p := sys.coord.units[p].(status := Done)];
    assert sys.coord.units[p] in sys.coord.units;
  }

  lemma NextUnassigned(units: seq<Unit>, units': seq<Unit>, i: nat)
    requires i < |units| && units' == units[i := units[i].(status := Done)]
    requires exists k :: i < k < |units| && units[k].status == Unassigned
    ensures i != FirstUnassigned(units', 0) < |units'|
  {
    var k :| i < k < |units| && units[k].status == Unassigned;
    assert units'[k].status == Unassigned;
  }

  // ---------- runs that end with the wrong optimum ----------

  const LAST_WINS: string -> Score := key => if key == "ZZZ" then Finite(0.0) else Finite(1.0)

  /** Three-letter keys in units of the size that Vigenere tasks use: two units. */
  const JOB := Job(Params(Vigenere, Brute, 3, 0.0), VIGENERE_UNIT, LAST_WINS)

  function Parts(first: Status, second: Status): seq<Unit> {
    [Unit(0, 9999, first, JOB.params), Unit(10000, 17575, second, JOB.params)]
  }

  lemma KeySpaceOfThree()
    ensures Pow26(3) == 17576
  {
    assert Pow26(1) == 26 && Pow26(2) == 676;
  }

  lemma PartsAreTheUnits()
    ensures JOB.Units() == Parts(Unassigned, Unassigned)
    ensures JOB.Total() == 17576
  {
    KeySpaceOfThree();
    assert Cut(17576, 17576, 10000, JOB.params) == [];
    assert Cut(10000, 17576, 10000, JOB.params) == [Unit(10000, 17575, Unassigned, JOB.params)];
  }

  function Part(i: nat): Unit
    requires i < 2
  {
    Parts(Leased, Leased)[i]
  }

  function PartRequest(i: nat): Request
    requires i < 2
  {
    RequestFor(Part(i))
  }

  const FIRST_RESULT := UnitResult(JOB, Part(0))

  /** A state of a run without a checkpoint. */
  function St(first: Status, second: Status, pending: map<nat, Lease>, done: nat, best: Result,
              sessions: seq<Session>): Sys
  {
    Sys(Coord(Parts(first, second), pending, done, best), sessions, None, 0)
  }

  const FREE := Session(true, None, [], [])

  function Given(session: Session, i: nat): Session
    requires i < 2
  {
    session.(current := Some(i), inbox := session.inbox + [PartRequest(i)])
  }

  lemma AssignFirst(second: Status, p: map<nat, Lease>, n: nat, best: Result, sessions: seq<Session>, s: nat, now: int)
    requires s < |sessions| && sessions[s].open
    ensures var sys := St(Unassigned, second, p, n, best, sessions);
            && Enabled(sys, Assign(s, now))
            && Apply(JOB, sys, Assign(s, now))
               == St(Leased, second, p[0 := Lease(s, now)], n, best, sessions[s := Given(sessions[s], 0)])
  {
    var units := Parts(Unassigned, second);
    assert FirstUnassigned(units, 0) == 0;
    assert units[0 := Part(0)] == Parts(Leased, second);
  }

  lemma AssignSecond(first: Status, p: map<nat, Lease>, n: nat, best: Result, sessions: seq<Session>, s: nat, now: int)
    requires s < |sessions| && sessions[s].open && first != Unassigned
    ensures var sys := St(first, Unassigned, p, n, best, sessions);
            && Enabled(sys, Assign(s, now))
            && Apply(JOB, sys, Assign(s, now))
               == St(first, Leased, p[1 := Lease(s, now)], n, best, sessions[s := Given(sessions[s], 1)])
  {
    var units := Parts(first, Unassigned);
    assert FirstUnassigned(units, 0) == FirstUnassigned(units, 1) == 1;
    assert units[1 := Part(1)] == Parts(first, Leased);
  }

  lemma FirstPartSwept()
    ensures WorkerResult(JOB, PartRequest(0)) == FIRST_RESULT
  {
    PartsAreTheUnits();
    HopKeepsUnit(JOB, Part(0));
  }

  /** The steps of the two routes. If coroutines start `later`, the task is submitted once; if they start inside the
      handlers, it is submitted again, which the server accepts only when all units are done. */
  ghost predicate OnRoute(sys: Sys, step: Step, later: bool) {
    && !step.Crash?
    && (if later then !step.InlineTimeout? && !step.Resubmit?
        else !step.CheckTimeouts? && (step.Resubmit? ==> AllDone(sys.coord.units)))
  }

  ghost predicate RunEndsIn(states: seq<Sys>, steps: seq<Step>, sys: Sys, later: bool) {
    && IsRun(JOB, states, steps) && states[|steps|] == sys
    && forall i :: 0 <= i < |steps| ==> OnRoute(states[i], steps[i], later)
  }

  ghost predicate Reachable(sys: Sys, later: bool) {
    exists states, steps :: RunEndsIn(states, steps, sys, later)
  }

  lemma Extend(sys: Sys, step: Step, later: bool)
    requires Reachable(sys, later) && Enabled(sys, step) && OnRoute(sys, step, later)
    ensures Reachable(Apply(JOB, sys, step), later)
  {
    var states, steps :| RunEndsIn(states, steps, sys, later);
    var next := Apply(JOB, sys, step);
    assert RunEndsIn(states + [next], steps + [step], next, later);
  }

  /** A session sweeps its first request. */
  lemma Sweeps(sys: Sys, s: nat, q: Request, rest: seq<Request>, r: Result, i: nat, later: bool)
    requires Reachable(sys, later) && s < |sys.sessions|
    requires sys.sessions[s] == Session(true, Some(i), [q] + rest, []) && WorkerResult(JOB, q) == r
    ensures Reachable(sys.(sessions := sys.sessions[s := Session(true, Some(i), rest, [r])]), later)
  {
    WorkOnFirst(JOB, sys, s, i, q, rest);
    Extend(sys, Work(s), later);
  }

  /** A session's turn: it sweeps its first request and the answer is credited to unit `i`, whichever that is. */
  lemma WorkOn(sys: Sys, s: nat, q: Request, rest: seq<Request>, r: Result, i: nat, later: bool)
    requires Reachable(sys, later) && s < |sys.sessions| && i < |sys.coord.units|
    requires sys.sessions[s] == Session(true, Some(i), [q] + rest, []) && WorkerResult(JOB, q) == r
    ensures Reachable(sys.(coord := MarkUnitDone(CandToBest(sys.coord, r), i),
                           sessions := sys.sessions[s := Session(true, None, rest, [])]), later)
  {
    Sweeps(sys, s, q, rest, r, i, later);
    var mid := sys.(sessions := sys.sessions[s := Session(true, Some(i), rest, [r])]);
    AnswerOnly(mid, s, i, rest, r);
    Extend(mid, Answer(s), later);
    assert mid.sessions[s := Session(true, None, rest, [])] == sys.sessions[s := Session(true, None, rest, [])];
  }

  lemma CreditFirst(second: Status, p: map<nat, Lease>, n: nat, best: Result, sessions: seq<Session>, s: nat,
                    q: Request, rest: seq<Request>, r: Result, later: bool)
    requires Reachable(St(Leased, second, p, n, best, sessions), later) && s < |sessions|
    requires sessions[s] == Session(true, Some(0), [q] + rest, []) && WorkerResult(JOB, q) == r
    ensures Reachable(St(Done, second, p - {0}, n + 1, Better(best, r),
                         sessions[s := Session(true, None, rest, [])]), later)
  {
    WorkOn(St(Leased, second, p, n, best, sessions), s, q, rest, r, 0, later);
    assert Parts(Leased, second)[0 := Parts(Done, second)[0]] == Parts(Done, second);
  }

  lemma CreditSecond(first: Status, p: map<nat, Lease>, n: nat, best: Result, sessions: seq<Session>, s: nat,
                     q: Request, rest: seq<Request>, r: Result, later: bool)
    requires Reachable(St(first, Leased, p, n, best, sessions), later) && s < |sessions|
    requires sessions[s] == Session(true, Some(1), [q] + rest, []) && WorkerResult(JOB, q) == r
    ensures Reachable(St(first, Done, p - {1}, n + 1, Better(best, r),
                         sessions[s := Session(true, None, rest, [])]), later)
  {
    WorkOn(St(first, Leased, p, n, best, sessions), s, q, rest, r, 1, later);
    assert Parts(first, Leased)[1 := Parts(first, Done)[1]] == Parts(first, Done);
  }

  lemma Opening(later: bool)
    ensures Reachable(St(Unassigned, Unassigned, map[], 0, SENTINEL, [FREE]), later)
  {
    PartsAreTheUnits();
    var start := Init(JOB);
    assert RunEndsIn([start], [], start, later);
    Extend(start, Connect, later);
    assert [] + [FREE] == [FREE];
  }

  lemma FirstPartMissesZ()
    ensures Less(LAST_WINS("ZZZ"), Better(Better(SENTINEL, FIRST_RESULT), FIRST_RESULT).score)
  {
    SweepIsFirstMinimum(LAST_WINS, 3, 0, 9999);
    if FIRST_RESULT != SENTINEL {
      var i :| FirstMinimumAt(FIRST_RESULT, LAST_WINS, 3, 0, 10000, i);
      KeySpaceOfThree();
      HopKeepsIndex(i, 3);
      LastIndex();
    }
  }

  lemma FirstResult() returns (q: Request, r: Result)
    ensures q == PartRequest(0) && WorkerResult(JOB, q) == r
    ensures Less(LAST_WINS("ZZZ"), Better(Better(SENTINEL, r), r).score)
  {
    q, r := PartRequest(0), FIRST_RESULT;
    FirstPartSwept();
    FirstPartMissesZ();
  }

  lemma LastIndex()
    ensures IndexOf("ZZZ") == 17575
  {
    assert "ZZZ"[..2] == "ZZ" && "ZZ"[..1] == "Z" && "Z"[..0] == "";
    assert IndexOf("Z") == 25 && IndexOf("ZZ") == 675;
  }

  /** All units are marked done and the best key was never scored. */
  ghost predicate OptimumLost(sys: Sys) {
    AllDone(sys.coord.units) && Less(JOB.score("ZZZ"), sys.coord.best.score)
  }

  // ---------- by way of a resubmission ----------

  lemma TwoSessions(later: bool)
    ensures Reachable(St(Unassigned, Unassigned, map[], 0, SENTINEL, [FREE, FREE]), later)
  {
    Opening(later);
    Extend(St(Unassigned, Unassigned, map[], 0, SENTINEL, [FREE]), Connect, later);
    assert [FREE] + [FREE] == [FREE, FREE];
  }

  /** Two workers are given the two units. */
  lemma BothBusy(q: Request, q': Request)
    requires q == PartRequest(0) && q' == PartRequest(1)
    ensures Reachable(St(Leased, Leased, map[0 := Lease(0, 0), 1 := Lease(1, 0)], 0, SENTINEL,
                         [Session(true, Some(0), [q], []), Session(true, Some(1), [q'], [])]), false)
  {
    TwoSessions(false);
    AssignFirst(Unassigned, map[], 0, SENTINEL, [FREE, FREE], 0, 0);
    Extend(St(Unassigned, Unassigned, map[], 0, SENTINEL, [FREE, FREE]), Assign(0, 0), false);
    GivenSessions(q, q');
    var a := Session(true, Some(0), [q], []);
    assert [FREE, FREE][0 := a] == [a, FREE] && map[][0 := Lease(0, 0)] == map[0 := Lease(0, 0)];
    SecondBusy(a, q');
  }

  lemma SecondBusy(a: Session, q': Request)
    requires q' == PartRequest(1)
    requires Reachable(St(Leased, Unassigned, map[0 := Lease(0, 0)], 0, SENTINEL, [a, FREE]), false)
    ensures Reachable(St(Leased, Leased, map[0 := Lease(0, 0), 1 := Lease(1, 0)], 0, SENTINEL,
                         [a, Session(true, Some(1), [q'], [])]), false)
  {
    var one, b := map[0 := Lease(0, 0)], Session(true, Some(1), [q'], []);
    AssignSecond(Leased, one, 0, SENTINEL, [a, FREE], 1, 0);
    Extend(St(Leased, Unassigned, one, 0, SENTINEL, [a, FREE]), Assign(1, 0), false);
    assert [] + [q'] == [q'];
    assert [a, FREE][1 := b] == [a, b];
    assert one[1 := Lease(1, 0)] == map[0 := Lease(0, 0), 1 := Lease(1, 0)];
  }

  /** The second worker answers and is free. */
  lemma SecondAnswers(a: Session, q': Request, r': Result)
    requires WorkerResult(JOB, q') == r'
    requires Reachable(St(Leased, Leased, map[0 := Lease(0, 0), 1 := Lease(1, 0)], 0, SENTINEL,
                          [a, Session(true, Some(1), [q'], [])]), false)
    ensures Reachable(St(Leased, Done, map[0 := Lease(0, 0)], 1, Better(SENTINEL, r'), [a, FREE]), false)
  {
    var b, pending := Session(true, Some(1), [q'], []), map[0 := Lease(0, 0), 1 := Lease(1, 0)];
    assert [q'] == [q'] + [];
    CreditSecond(Leased, pending, 0, SENTINEL, [a, b], 1, q', [], r', false);
    assert [a, b][1 := FREE] == [a, FREE];
    assert pending - {1} == map[0 := Lease(0, 0)];
  }

  /** The first worker's lease times out and the second is given unit 0 at once. */
  lemma Regiven(best: Result, a: Session, q: Request)
    requires q == PartRequest(0)
    requires Reachable(St(Leased, Done, map[0 := Lease(0, 0)], 1, best, [a, FREE]), false)
    ensures Reachable(St(Leased, Done, map[], 1, best, [a, Session(true, Some(0), [q], [])]), false)
  {
    var sys := St(Leased, Done, map[0 := Lease(0, 0)], 1, best, [a, FREE]);
    assert AllFree(sys, [1]);
    Extend(sys, InlineTimeout(0, [1], 10), false);
    TimeoutOfFirst(best, a, q);
  }

  lemma TimeoutOfFirst(best: Result, a: Session, q: Request)
    requires q == PartRequest(0)
    ensures var sys := St(Leased, Done, map[0 := Lease(0, 0)], 1, best, [a, FREE]);
            InlineTimeoutStep(JOB, sys, 0, [1], 10)
            == St(Leased, Done, map[], 1, best, [a, Session(true, Some(0), [q], [])])
  {
    var pending := map[0 := Lease(0, 0)];
    var back := St(Unassigned, Done, pending, 1, best, [a, FREE]);
    assert Parts(Leased, Done)[0 := Parts(Unassigned, Done)[0]] == Parts(Unassigned, Done);
    AssignFirst(Done, pending, 1, best, [a, FREE], 1, 10);
    assert [] + [q] == [q];
    assert [a, FREE][1 := Given(FREE, 0)] == [a, Session(true, Some(0), [q], [])];
    var given := AssignStep(JOB, back, 1, 10);
    assert [1][1..] == [] && AssignAll(JOB, given, [], 10) == given;
    assert AssignAll(JOB, back, [1], 10) == given;
    assert pending[0 := Lease(1, 10)] - {0} == map[];
  }

  /** The first worker's late answer completes the task; the second is still busy when it is submitted again. */
  lemma Resubmitted(best: Result, q: Request, r: Result)
    requires WorkerResult(JOB, q) == r
    requires Reachable(St(Leased, Done, map[], 1, best,
                          [Session(true, Some(0), [q], []), Session(true, Some(0), [q], [])]), false)
    ensures Reachable(St(Unassigned, Unassigned, map[], 0, SENTINEL, [FREE, Session(true, Some(0), [q], [])]), false)
  {
    var a := Session(true, Some(0), [q], []);
    assert [q] == [q] + [];
    CreditFirst(Done, map[], 1, best, [a, a], 0, q, [], r, false);
    assert [a, a][0 := FREE] == [FREE, a];
    var sys := St(Done, Done, map[] - {0}, 2, Better(best, r), [FREE, a]);
    Extend(sys, Resubmit, false);
    PartsAreTheUnits();
  }

  /** The second worker is given unit 0 once more; its first answer is rightly credited to unit 0. */
  lemma FirstCredited(q: Request, r: Result)
    requires q == PartRequest(0) && WorkerResult(JOB, q) == r
    requires Reachable(St(Unassigned, Unassigned, map[], 0, SENTINEL, [FREE, Session(true, Some(0), [q], [])]), false)
    ensures Reachable(St(Done, Unassigned, map[], 1, Better(SENTINEL, r), [FREE, Session(true, None, [q], [])]), false)
  {
    var a, twice := Session(true, Some(0), [q], []), Session(true, Some(0), [q] + [q], []);
    AssignFirst(Unassigned, map[], 0, SENTINEL, [FREE, a], 1, 10);
    Extend(St(Unassigned, Unassigned, map[], 0, SENTINEL, [FREE, a]), Assign(1, 10), false);
    assert [FREE, a][1 := Given(a, 0)] == [FREE, twice];
    CreditFirst(Unassigned, map[][0 := Lease(1, 10)], 0, SENTINEL, [FREE, twice], 1, q, [q], r, false);
    assert [FREE, twice][1 := Session(true, None, [q], [])] == [FREE, Session(true, None, [q], [])];
    assert map[][0 := Lease(1, 10)] - {0} == map[];
  }

  /** It is given unit 1 while it still has to sweep unit 0 again. */
  lemma OneBehind(q: Request, q': Request, best: Result)
    requires q' == PartRequest(1)
    requires Reachable(St(Done, Unassigned, map[], 1, best, [FREE, Session(true, None, [q], [])]), false)
    ensures Reachable(St(Done, Leased, map[1 := Lease(1, 10)], 1, best,
                         [FREE, Session(true, Some(1), [q, q'], [])]), false)
  {
    var left := Session(true, None, [q], []);
    AssignSecond(Done, map[], 1, best, [FREE, left], 1, 10);
    Extend(St(Done, Unassigned, map[], 1, best, [FREE, left]), Assign(1, 10), false);
    assert [q] + [q'] == [q, q'];
    assert [FREE, left][1 := Given(left, 1)] == [FREE, Session(true, Some(1), [q, q'], [])];
    assert map[][1 := Lease(1, 10)] == map[1 := Lease(1, 10)];
  }

  lemma OneBehindEndsWrong(q: Request, q': Request, r: Result)
    requires WorkerResult(JOB, q) == r && Less(LAST_WINS("ZZZ"), Better(Better(SENTINEL, r), r).score)
    requires Reachable(St(Done, Leased, map[1 := Lease(1, 10)], 1, Better(SENTINEL, r),
                          [FREE, Session(true, Some(1), [q, q'], [])]), false)
    ensures exists sys :: Reachable(sys, false) && OptimumLost(sys)
  {
    var best, late := Better(SENTINEL, r), Session(true, Some(1), [q, q'], []);
    assert [q, q'] == [q] + [q'];
    CreditSecond(Done, map[1 := Lease(1, 10)], 1, best, [FREE, late], 1, q, [q'], r, false);
    var last := St(Done, Done, map[1 := Lease(1, 10)] - {1}, 2, Better(best, r),
                   [FREE, late][1 := Session(true, None, [q'], [])]);
    assert Reachable(last, false) && OptimumLost(last);
  }

  lemma ResubmissionEndsWrong(q: Request, q': Request, r: Result, r': Result)
    requires q == PartRequest(0) && q' == PartRequest(1) && WorkerResult(JOB, q) == r && WorkerResult(JOB, q') == r'
    requires Less(LAST_WINS("ZZZ"), Better(Better(SENTINEL, r), r).score)
    ensures exists sys :: Reachable(sys, false) && OptimumLost(sys)
  {
    var a := Session(true, Some(0), [q], []);
    BothBusy(q, q');
    SecondAnswers(a, q', r');
    Regiven(Better(SENTINEL, r'), a, q);
    Resubmitted(Better(SENTINEL, r'), q, r);
    FirstCredited(q, r);
    OneBehind(q, q', Better(SENTINEL, r));
    OneBehindEndsWrong(q, q', r);
  }

  /** Without the free-session discipline the main theorem fails. A task completes by the late answer of a worker whose
      unit was given to another in the meantime; the same task is submitted again while that other worker is busy. From
      then on its answers are one unit behind the credits. */
  lemma ResubmissionLosesTheOptimum() returns (states: seq<Sys>, steps: seq<Step>)
    ensures JOB.Ok() && IsRun(JOB, states, steps) && OptimumLost(states[|steps|]) && !Disciplined(states, steps)
    ensures forall i :: 0 <= i < |steps| ==> OnRoute(states[i], steps[i], false)
  {
    var q, r := FirstResult();
    var q' := PartRequest(1);
    ResubmissionEndsWrong(q, q', r, WorkerResult(JOB, q'));
    states, steps := LostRun(false);
  }

  // ---------- by way of two timeouts ----------

  /** Two sessions are given the two units, and both leases time out in one check. */
  lemma BothTimedOut()
    ensures Reachable(St(Unassigned, Unassigned, map[], 0, SENTINEL, [Given(FREE, 0), Given(FREE, 1), FREE]), true)
  {
    BothLeased();
    var sys := St(Leased, Leased, map[0 := Lease(0, 0), 1 := Lease(1, 0)], 0, SENTINEL,
                  [Given(FREE, 0), Given(FREE, 1), FREE]);
    Extend(sys, CheckTimeouts(10, false), true);
    assert Overdue(sys.coord, 10) == {0, 1};
    assert Expire(sys.coord, {0, 1}).units == Parts(Unassigned, Unassigned);
    assert Expire(sys.coord, {0, 1}).pending == map[];
    assert !AllDone(Parts(Unassigned, Unassigned)) by {
      assert Parts(Unassigned, Unassigned)[0].status != Done;
    }
  }

  lemma BothLeased()
    ensures Reachable(St(Leased, Leased, map[0 := Lease(0, 0), 1 := Lease(1, 0)], 0, SENTINEL,
                         [Given(FREE, 0), Given(FREE, 1), FREE]), true)
  {
    TwoSessions(true);
    Extend(St(Unassigned, Unassigned, map[], 0, SENTINEL, [FREE, FREE]), Connect, true);
    assert [FREE, FREE] + [FREE] == [FREE, FREE, FREE];
    AssignFirst(Unassigned, map[], 0, SENTINEL, [FREE, FREE, FREE], 0, 0);
    Extend(St(Unassigned, Unassigned, map[], 0, SENTINEL, [FREE, FREE, FREE]), Assign(0, 0), true);
    assert [FREE, FREE, FREE][0 := Given(FREE, 0)] == [Given(FREE, 0), FREE, FREE];
    var one := map[0 := Lease(0, 0)];
    assert map[][0 := Lease(0, 0)] == one;
    AssignSecond(Leased, one, 0, SENTINEL, [Given(FREE, 0), FREE, FREE], 1, 0);
    Extend(St(Leased, Unassigned, one, 0, SENTINEL, [Given(FREE, 0), FREE, FREE]), Assign(1, 0), true);
    assert [Given(FREE, 0), FREE, FREE][1 := Given(FREE, 1)] == [Given(FREE, 0), Given(FREE, 1), FREE];
    assert one[1 := Lease(1, 0)] == map[0 := Lease(0, 0), 1 := Lease(1, 0)];
  }

  /** The two assignments that the check spawned both go to the third session, which was free when each was spawned. */
  lemma ThirdOverbooked()
    ensures Reachable(St(Leased, Leased, map[0 := Lease(2, 10), 1 := Lease(2, 10)], 0, SENTINEL,
                         [Given(FREE, 0), Given(FREE, 1), Given(Given(FREE, 0), 1)]), true)
  {
    BothTimedOut();
    var a, b := Given(FREE, 0), Given(FREE, 1);
    AssignFirst(Unassigned, map[], 0, SENTINEL, [a, b, FREE], 2, 10);
    Extend(St(Unassigned, Unassigned, map[], 0, SENTINEL, [a, b, FREE]), Assign(2, 10), true);
    assert [a, b, FREE][2 := Given(FREE, 0)] == [a, b, Given(FREE, 0)];
    var one := map[0 := Lease(2, 10)];
    assert map[][0 := Lease(2, 10)] == one;
    AssignSecond(Leased, one, 0, SENTINEL, [a, b, Given(FREE, 0)], 2, 10);
    Extend(St(Leased, Unassigned, one, 0, SENTINEL, [a, b, Given(FREE, 0)]), Assign(2, 10), true);
    assert [a, b, Given(FREE, 0)][2 := Given(Given(FREE, 0), 1)] == [a, b, Given(Given(FREE, 0), 1)];
    assert one[1 := Lease(2, 10)] == map[0 := Lease(2, 10), 1 := Lease(2, 10)];
  }

  /** Its answer for unit 0 is credited to unit 1. */
  lemma Misattribution(a: Session, b: Session, q: Request, q': Request, r: Result)
    requires WorkerResult(JOB, q) == r
    requires Reachable(St(Leased, Leased, map[0 := Lease(2, 10), 1 := Lease(2, 10)], 0, SENTINEL,
                          [a, b, Session(true, Some(1), [q, q'], [])]), true)
    ensures Reachable(St(Leased, Done, map[0 := Lease(2, 10)], 1, Better(SENTINEL, r),
                         [a, b, Session(true, None, [q'], [])]), true)
  {
    var pending, both := map[0 := Lease(2, 10), 1 := Lease(2, 10)], Session(true, Some(1), [q, q'], []);
    assert [q, q'] == [q] + [q'];
    CreditSecond(Leased, pending, 0, SENTINEL, [a, b, both], 2, q, [q'], r, true);
    assert [a, b, both][2 := Session(true, None, [q'], [])] == [a, b, Session(true, None, [q'], [])];
    assert pending - {1} == map[0 := Lease(2, 10)];
  }

  /** The first session's late answer completes unit 0, and with it the task. */
  lemma LateAnswer(b: Session, c: Session, q: Request, r: Result)
    requires WorkerResult(JOB, q) == r && Less(LAST_WINS("ZZZ"), Better(Better(SENTINEL, r), r).score)
    requires Reachable(St(Leased, Done, map[0 := Lease(2, 10)], 1, Better(SENTINEL, r),
                          [Session(true, Some(0), [q], []), b, c]), true)
    ensures exists sys :: Reachable(sys, true) && OptimumLost(sys)
  {
    var best, pending := Better(SENTINEL, r), map[0 := Lease(2, 10)];
    var sessions := [Session(true, Some(0), [q], []), b, c];
    assert [q] == [q] + [];
    CreditFirst(Done, pending, 1, best, sessions, 0, q, [], r, true);
    var last := St(Done, Done, pending - {0}, 2, Better(best, r), sessions[0 := Session(true, None, [], [])]);
    assert Reachable(last, true) && OptimumLost(last);
  }

  lemma TimeoutsEndWrong(q: Request, q': Request, r: Result)
    requires WorkerResult(JOB, q) == r && Less(LAST_WINS("ZZZ"), Better(Better(SENTINEL, r), r).score)
    requires Reachable(St(Leased, Leased, map[0 := Lease(2, 10), 1 := Lease(2, 10)], 0, SENTINEL,
                          [Session(true, Some(0), [q], []), Session(true, Some(1), [q'], []),
                           Session(true, Some(1), [q, q'], [])]), true)
    ensures exists sys :: Reachable(sys, true) && OptimumLost(sys)
  {
    var a, b := Session(true, Some(0), [q], []), Session(true, Some(1), [q'], []);
    Misattribution(a, b, q, q', r);
    LateAnswer(b, Session(true, None, [q'], []), q, r);
  }

  lemma ThirdIsOverbooked(q: Request) returns (q': Request)
    requires q == PartRequest(0)
    ensures Reachable(St(Leased, Leased, map[0 := Lease(2, 10), 1 := Lease(2, 10)], 0, SENTINEL,
                         [Session(true, Some(0), [q], []), Session(true, Some(1), [q'], []),
                          Session(true, Some(1), [q, q'], [])]), true)
  {
    ThirdOverbooked();
    q' := PartRequest(1);
    GivenSessions(q, q');
  }

  lemma GivenSessions(q: Request, q': Request)
    requires q == PartRequest(0) && q' == PartRequest(1)
    ensures Given(FREE, 0) == Session(true, Some(0), [q], [])
    ensures Given(FREE, 1) == Session(true, Some(1), [q'], [])
    ensures Given(Given(FREE, 0), 1) == Session(true, Some(1), [q, q'], [])
  {
    assert [] + [q] == [q] && [] + [q'] == [q'] && [q] + [q'] == [q, q'];
  }

  lemma LostRun(later: bool) returns (states: seq<Sys>, steps: seq<Step>)
    requires exists sys :: Reachable(sys, later) && OptimumLost(sys)
    ensures JOB.Ok() && IsRun(JOB, states, steps) && OptimumLost(states[|steps|]) && !Disciplined(states, steps)
    ensures forall i :: 0 <= i < |steps| ==> OnRoute(states[i], steps[i], later)
  {
    var sys :| Reachable(sys, later) && OptimumLost(sys);
    states, steps :| RunEndsIn(states, steps, sys, later);
    WrongEndIsUndisciplined(JOB, states, steps, "ZZZ");
  }

  lemma WrongEndIsUndisciplined(job: Job, states: seq<Sys>, steps: seq<Step>, key: string)
    requires job.Ok() && IsRun(job, states, steps) && AllDone(states[|steps|].coord.units)
    requires |key| == job.Len() && IsKey(key) && Less(job.score(key), states[|steps|].coord.best.score)
    ensures !Disciplined(states, steps)
  {
    if Disciplined(states, steps) {
      DistributedRefinesSequential(job, states, steps, |steps|);
    }
  }

  /** The same happens to a task submitted once where spawned coroutines start after the handler: one timeout check
      gives two units to the same free session. */
  lemma OverbookingLosesTheOptimum() returns (states: seq<Sys>, steps: seq<Step>)
    ensures JOB.Ok() && IsRun(JOB, states, steps) && OptimumLost(states[|steps|]) && !Disciplined(states, steps)
    ensures forall i :: 0 <= i < |steps| ==> OnRoute(states[i], steps[i], true)
  {
    var q, r := FirstResult();
    var q' := ThirdIsOverbooked(q);
    TimeoutsEndWrong(q, q', r);
    states, steps := LostRun(true);
  }
}
