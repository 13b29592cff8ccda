/** The cipher text is sent to a session once per task and cached by the worker. This machine follows the cache
    across tasks, reconnects and tasks that are complete as soon as they are loaded from a checkpoint. */
module TextCache {
  import opened Wrappers

  /** A unit on the wire: the text it carries ("" for none) and, for bookkeeping, the text of its task. */
  datatype Packet = Packet(text: string, task: string)

  /** A session, the packets under way to its worker, and that worker's cached text. */
  datatype Link = Link(registered: bool, textSent: bool, queue: seq<Packet>, cached: Option<string>)

  /** `active`: the current task has units left to hand out or to wait for. */
  datatype World = World(text: string, active: bool, links: seq<Link>)

  datatype Step =
    | NewTask(text: string, complete: bool)
    | Finish
    | Register(cached: Option<string>)
    | Unregister(s: nat)
    | Send(s: nat)
    | Receive(s: nat)

  // ---------- the two ends ----------

  /** send_unit: the text goes along unless this session was already sent it. */
  function Payload(textSent: bool, text: string): string { if textSent then "" else text }

  /** The worker's cache after a packet: an empty text leaves it alone. */
  function Cached(cached: Option<string>, payload: string): Option<string> {
    if payload != "" then Some(payload) else cached
  }

  function Reset(links: seq<Link>): (r: seq<Link>)
    ensures |r| == |links|
    ensures forall s :: 0 <= s < |links| ==>
              r[s] == if links[s].registered then links[s].(textSent := false) else links[s]
  {
    seq(|links|, s requires 0 <= s < |links| =>
          if links[s].registered then links[s].(textSent := false) else links[s])
  }

  predicate Enabled(w: World, step: Step) {
    match step
    case Send(s) => s < |w.links| && w.active
    case Unregister(s) => s < |w.links|
    case Receive(s) => s < |w.links| && w.links[s].queue != []
    case _ => true
  }

  function Apply(w: World, step: Step): World
    requires Enabled(w, step)
  {
    match step
    case NewTask(text, complete) =>
      World(text, !complete, if complete then w.links else Reset(w.links))
    case Finish => w.(active := false)
    case Register(cached) => w.(links := w.links + [Link(true, false, [], cached)])
    case Unregister(s) => w.(links := w.links[s := w.links[s].(registered := false)])
    case Send(s) =>
      var l := w.links[s];
      w.(links := w.links[s := l.(textSent := true, queue := l.queue + [Packet(Payload(l.textSent, w.text), w.text)])])
    case Receive(s) =>
      var l := w.links[s];
      w.(links := w.links[s := l.(queue := l.queue[1..], cached := Cached(l.cached, l.queue[0].text))])
  }

  const START := World("", false, [])

  /** Units go to registered sessions only, and tasks have a text. */
  predicate Disciplined(w: World, step: Step) {
    match step
    case NewTask(text, _) => text != ""
    case Send(s) => s < |w.links| && w.links[s].registered
    case _ => true
  }

  ghost predicate IsRun(worlds: seq<World>, steps: seq<Step>) {
    && |worlds| == |steps| + 1
    && worlds[0] == START
    && forall k :: 0 <= k < |steps| ==> Enabled(worlds[k], steps[k]) && worlds[k + 1] == Apply(worlds[k], steps[k])
  }

  // ---------- what the packets under way will see ----------

  /** Every packet of the queue will be processed against the text of the task it was sent for. */
  predicate AllSeeTheirText(cached: Option<string>, queue: seq<Packet>)
    decreases |queue|
  {
    queue == [] ||
    (var c := Cached(cached, queue[0].text); c == Some(queue[0].task) && AllSeeTheirText(c, queue[1..]))
  }

  /** The worker's cache once the queue has been received. */
  function Eventually(cached: Option<string>, queue: seq<Packet>): Option<string>
    decreases |queue|
  {
    if queue == [] then cached else Eventually(Cached(cached, queue[0].text), queue[1..])
  }

  lemma {:induction false} QueueSnoc(cached: Option<string>, queue: seq<Packet>, p: Packet)
    ensures Eventually(cached, queue + [p]) == Cached(Eventually(cached, queue), p.text)
    ensures AllSeeTheirText(cached, queue + [p]) <==>
              AllSeeTheirText(cached, queue) && Cached(Eventually(cached, queue), p.text) == Some(p.task)
    decreases |queue|
  {
    if queue == [] {
      assert [] + [p] == [p] && [p][1..] == [];
    } else {
      assert (queue + [p])[1..] == queue[1..] + [p];
      QueueSnoc(Cached(cached, queue[0].text), queue[1..], p);
    }
  }

  ghost predicate LinkOk(w: World, l: Link) {
    && AllSeeTheirText(l.cached, l.queue)
    && (w.active && l.registered && l.textSent ==> Eventually(l.cached, l.queue) == Some(w.text))
  }

  ghost predicate Inv(w: World) {
    && (w.active ==> w.text != "")
    && forall s :: 0 <= s < |w.links| ==> LinkOk(w, w.links[s])
  }

  lemma SendKeeps(w: World, s: nat)
    requires Inv(w) && Enabled(w, Send(s)) && Disciplined(w, Send(s))
    ensures Inv(Apply(w, Send(s)))
  {
    var l := w.links[s];
    QueueSnoc(l.cached, l.queue, Packet(Payload(l.textSent, w.text), w.text));
    assert LinkOk(w, Apply(w, Send(s)).links[s]);
  }

  lemma StepKeeps(w: World, step: Step)
    requires Inv(w) && Enabled(w, step) && Disciplined(w, step)
    ensures Inv(Apply(w, step))
  {
    match step
    case Send(s) => SendKeeps(w, s);
    case _ =>
  }

  lemma {:induction false} RunInv(worlds: seq<World>, steps: seq<Step>, k: nat)
    requires IsRun(worlds, steps) && k < |worlds|
    requires forall i :: 0 <= i < |steps| ==> Disciplined(worlds[i], steps[i])
    ensures Inv(worlds[k])
  {
    if k == 0 {
    } else {
      RunInv(worlds, steps, k - 1);
      assert Disciplined(worlds[k - 1], steps[k - 1]);
      StepKeeps(worlds[k - 1], steps[k - 1]);
      assert worlds[k - 1 + 1] == Apply(worlds[k - 1], steps[k - 1]);
    }
  }

  /** Every unit that a worker receives is processed against the text of the task it was sent for, whatever tasks,
      reconnects and instantly complete tasks come in between; in particular no unit finds the cache empty. */
  lemma UnitsSeeTheirText(worlds: seq<World>, steps: seq<Step>, k: nat)
    requires IsRun(worlds, steps) && k < |steps| && steps[k].Receive?
    requires forall i :: 0 <= i < |steps| ==> Disciplined(worlds[i], steps[i])
    ensures var l := worlds[k].links[steps[k].s]; Cached(l.cached, l.queue[0].text) == Some(l.queue[0].task)
  {
    RunInv(worlds, steps, k);
    assert Enabled(worlds[k], steps[k]);
    assert LinkOk(worlds[k], worlds[k].links[steps[k].s]);
  }

  /** Exactly when one more unit keeps the promise, for any session and any text: either the text goes along, or
      the worker will by then hold the text of the current task anyway. */
  lemma SendIsRightIff(w: World, s: nat)
    requires Enabled(w, Send(s)) && AllSeeTheirText(w.links[s].cached, w.links[s].queue)
    ensures var l, l' := w.links[s], Apply(w, Send(s)).links[s];
            AllSeeTheirText(l'.cached, l'.queue) <==>
              (!l.textSent && w.text != "") || Eventually(l.cached, l.queue) == Some(w.text)
  {
    var l := w.links[s];
    QueueSnoc(l.cached, l.queue, Packet(Payload(l.textSent, w.text), w.text));
  }

  // ---------- the text is sent once ----------

  /** Step `k` sends a unit to session `s` together with the text. */
  predicate SendsText(worlds: seq<World>, steps: seq<Step>, k: nat, s: nat)
    requires |worlds| == |steps| + 1 && k < |steps|
  {
    && steps[k] == Send(s) && s < |worlds[k].links| && s < |worlds[k + 1].links|
    && worlds[k + 1].links[s].queue != []
    && worlds[k + 1].links[s].queue[|worlds[k + 1].links[s].queue| - 1].text != ""
  }

  /** A step that makes the sessions forget that they were sent the text: a new task with units left to do. */
  predicate Forgets(step: Step) { step.NewTask? && !step.complete }

  lemma {:induction false} SentStays(worlds: seq<World>, steps: seq<Step>, i: nat, j: nat, s: nat)
    requires IsRun(worlds, steps) && i <= j < |worlds| && s < |worlds[i].links| && worlds[i].links[s].textSent
    requires forall k :: i <= k < j ==> !Forgets(steps[k])
    ensures s < |worlds[j].links| && worlds[j].links[s].textSent
    decreases j
  {
    if i == j {
    } else {
      SentStays(worlds, steps, i, j - 1, s);
      assert !Forgets(steps[j - 1]);
      assert worlds[j - 1 + 1] == Apply(worlds[j - 1], steps[j - 1]);
    }
  }

  /** What the cache is for: a session is sent the text a second time only after a new task with units left to do. In
      particular a task that is complete from its checkpoint does not cause the text to be sent again. */
  lemma TextSentOnce(worlds: seq<World>, steps: seq<Step>, i: nat, j: nat, s: nat)
    requires IsRun(worlds, steps) && i < j < |steps| && SendsText(worlds, steps, i, s) && SendsText(worlds, steps, j, s)
    ensures exists k :: i < k < j && Forgets(steps[k])
  {
    assert worlds[i + 1] == Apply(worlds[i], steps[i]);
    assert worlds[j + 1] == Apply(worlds[j], steps[j]);
    if forall k :: i < k < j ==> !Forgets(steps[k]) {
      SentStays(worlds, steps, i + 1, j, s);
    }
  }

  /** And it is sent with the first unit after such a task, to every registered session, and to a new session. */
  lemma TextSentFirst(worlds: seq<World>, steps: seq<Step>, k: nat, s: nat)
    requires IsRun(worlds, steps) && k + 1 < |steps| && steps[k + 1] == Send(s) && worlds[k + 1].text != ""
    requires || (Forgets(steps[k]) && s < |worlds[k].links| && worlds[k].links[s].registered)
             || (steps[k].Register? && s == |worlds[k].links|)
    ensures SendsText(worlds, steps, k + 1, s)
  {
    assert worlds[k + 1] == Apply(worlds[k], steps[k]);
    assert worlds[k + 2] == Apply(worlds[k + 1], steps[k + 1]);
  }

  // ---------- the discipline is needed ----------

  ghost predicate SomeUnitSeesAnotherText(w: World) {
    exists s :: 0 <= s < |w.links| && !AllSeeTheirText(w.links[s].cached, w.links[s].queue)
  }

  lemma Extend(worlds: seq<World>, steps: seq<Step>, step: Step) returns (worlds': seq<World>, steps': seq<Step>)
    requires IsRun(worlds, steps) && Enabled(worlds[|steps|], step)
    ensures IsRun(worlds', steps') && steps' == steps + [step]
    ensures worlds'[|steps'|] == Apply(worlds[|steps|], step)
  {
    worlds', steps' := worlds + [Apply(worlds[|steps|], step)], steps + [step];
  }

  lemma FirstTaskServed() returns (worlds: seq<World>, steps: seq<Step>)
    ensures IsRun(worlds, steps) && worlds[|steps|] == World("one", true, [Link(true, true, [], Some("one"))])
    ensures forall i :: 0 <= i < |steps| && steps[i].NewTask? ==> steps[i].text != ""
  {
    worlds, steps := [START], [];
    worlds, steps := Extend(worlds, steps, Register(None));
    worlds, steps := Extend(worlds, steps, NewTask("one", false));
    worlds, steps := Extend(worlds, steps, Send(0));
    worlds, steps := Extend(worlds, steps, Receive(0));
    assert worlds[|steps|].links[0].queue == [];
  }

  /** A session that timed out is no longer in the worker list, so a new task does not reset it; its late answer
      still earns it a unit, which its worker then processes against the previous task's text. */
  lemma TimedOutSessionKeepsOldText() returns (worlds: seq<World>, steps: seq<Step>)
    ensures IsRun(worlds, steps) && SomeUnitSeesAnotherText(worlds[|steps|])
    ensures forall i :: 0 <= i < |steps| && steps[i].NewTask? ==> steps[i].text != ""
  {
    worlds, steps := FirstTaskServed();
    worlds, steps := Extend(worlds, steps, Unregister(0));
    worlds, steps := Extend(worlds, steps, NewTask("two", false));
    worlds, steps := Extend(worlds, steps, Send(0));
    var l := worlds[|steps|].links[0];
    assert l.cached == Some("one") && l.queue == [Packet("", "two")];
    assert !AllSeeTheirText(l.cached, l.queue);
  }

  /** An empty text cannot be told from "use the cache": a task with an empty text is processed against the old one. */
  lemma EmptyTextKeepsOldText() returns (worlds: seq<World>, steps: seq<Step>)
    ensures IsRun(worlds, steps) && SomeUnitSeesAnotherText(worlds[|steps|])
    ensures forall i :: 0 <= i < |steps| && steps[i].Send? ==> worlds[i].links[steps[i].s].registered
  {
    steps := [Register(Some("old")), NewTask("", false), Send(0)];
    var l1 := Link(true, false, [], Some("old"));
    var l2 := Link(true, true, [Packet("", "")], Some("old"));
    worlds := [START, World("", false, [l1]), World("", true, [l1]), World("", true, [l2])];
    assert Reset([l1]) == [l1];
    assert l1.queue + [Packet("", "")] == l2.queue;
    assert worlds[1] == Apply(worlds[0], steps[0]);
    assert worlds[2] == Apply(worlds[1], steps[1]);
    assert worlds[3] == Apply(worlds[2], steps[2]);
    assert !AllSeeTheirText(worlds[3].links[0].cached, worlds[3].links[0].queue);
  }
}
