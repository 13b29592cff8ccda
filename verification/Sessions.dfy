/** The two ends of a worker connection: the coordinator's WorkerSession and the networked Worker. */
module Sessions {
  import opened Wrappers
  import opened Base26
  import opened Scoring
  import opened Decryptor
  import opened Units
  import opened Coordination
  import Search
  import TextCache

  method EncodeBound(cipher: Cipher, i: nat, len: nat) returns (bound: string)
    ensures bound == Search.EncodeBound(cipher, i, len)
    ensures cipher == Vigenere ==> bound == KeyOf(i, len)
    ensures cipher == Caesar ==> |bound| == 1 && 0 <= bound[0] as int < 256 && (i - bound[0] as int) % 256 == 0
  {
    if cipher == Vigenere {
      bound := IndexToKey(i, len);
    } else {
      bound := [(i % 256) as char];
    }
  }

  class WorkerSession {
    var current: Option<nat>
    var textSent: bool

    constructor ()
      ensures current == None && !textSent
    {
      current, textSent := None, false;
    }

    method ResetTextCache()
      modifies this`textSent
      ensures !textSent
    {
      textSent := false;
    }

    /** Remembers the unit and builds the request; the text goes along once per task. */
    method SendUnit(index: nat, unit: Unit, text: string) returns (payload: string, request: Search.Request)
      requires unit.start >= 0 && unit.end >= 0
      modifies this
      ensures current == Some(index) && textSent
      ensures payload == TextCache.Payload(old(textSent), text)
      ensures request == Search.RequestFor(unit)
    {
      current := Some(index);
      payload := "";
      if !textSent {
        payload := text;
        textSent := true;
      }
      var start := EncodeBound(unit.params.cipher, unit.start, unit.params.keyLength);
      var end := EncodeBound(unit.params.cipher, unit.end, unit.params.keyLength);
      request := Search.Request(start, end, unit.params.cipher, unit.params.keyLength);
    }

    /** A STATUS message: merge the candidate, credit the remembered unit and say what to do next. Without a
        remembered unit the candidate has been merged when the missing value throws. */
    method HandleStatus(coordinator: Coordinator, cand: Result) returns (threw: bool, finished: bool, more: bool)
      requires current.Some? ==> current.value < |coordinator.units|
      modifies this, coordinator
      ensures threw <==> old(current).None?
      ensures current == None && textSent == old(textSent)
      ensures coordinator.View() ==
                if threw then CandToBest(old(coordinator.View()), cand)
                else MarkUnitDone(CandToBest(old(coordinator.View()), cand), old(current).value)
      ensures finished <==> !threw && AllDone(coordinator.units)
      ensures more <==>
                && !threw && !finished
                && exists i :: 0 <= i < |coordinator.units| && coordinator.units[i].status == Unassigned
    {
      coordinator.CandidateToBest(cand);
      if current.None? {
        return true, false, false;
      }
      var _ := coordinator.MarkDone(current.value);
      current := None;
      threw := false;
      finished := coordinator.AllUnitsDone();
      more := false;
      if !finished {
        more := coordinator.HasUnassignedUnits();
      }
    }
  }

  class Worker {
    var cachedCiphertext: string
    var hasCiphertext: bool

    ghost function Cache(): Option<string>
      reads this
    {
      if hasCiphertext then Some(cachedCiphertext) else None
    }

    constructor ()
      ensures Cache() == None
    {
      cachedCiphertext, hasCiphertext := "", false;
    }

    /** A DECRYPT request: update the cache, rebuild the unit from its bounds and sweep it with a new decryptor. */
    method HandleRequest(payload: string, request: Search.Request, mode: Mode, ofPlain: string -> Score)
      returns (answer: Option<Result>)
      requires request.keyLength > 0 && (mode == Fast ==> request.keyLength <= MAX_STREAMS)
      requires Search.DecodeBound(request.cipher, request.startKey) >= 0
      modifies this
      ensures Cache() == TextCache.Cached(old(Cache()), payload)
      ensures answer.Some? <==>
                Cache().Some? && (request.cipher == Caesar ==> request.startKey != "" && request.endKey != "")
      ensures answer.Some? ==>
                answer.value == Sweep(Scorer(mode, Cache().value, ofPlain), request.keyLength,
                                      Search.DecodeBound(request.cipher, request.startKey),
                                      Search.DecodeBound(request.cipher, request.endKey))
    {
      if payload != "" {
        cachedCiphertext := payload;
        hasCiphertext := true;
      }
      if !hasCiphertext {
        return None;
      }
      var start, end: int;
      if request.cipher == Caesar {
        if request.startKey == "" || request.endKey == "" {
          return None;
        }
        start, end := request.startKey[0] as int, request.endKey[0] as int;
      } else {
        start := KeyToIndex(request.startKey);
        end := KeyToIndex(request.endKey);
      }
      var decryptor := new PolyAlphabeticDecryptor(cachedCiphertext);
      decryptor.ProcessUnit(start, end, request.keyLength, mode, ofPlain);
      return Some(decryptor.best);
    }
  }

  /** Over the whole hop: a worker that holds the task's text answers a unit's request with the sweep of that unit
      under the scoring of the task, which is what the search machine takes a worker to do. */
  lemma WorkerAnswersItsUnit(job: Search.Job, u: Unit, mode: Mode, text: string, ofPlain: string -> Score)
    requires job.Ok() && u.params == job.params && 0 <= u.start <= u.end < job.Total()
    requires job.score == Scorer(mode, text, ofPlain)
    ensures var request := Search.RequestFor(u);
            var start := Search.DecodeBound(request.cipher, request.startKey);
            var end := Search.DecodeBound(request.cipher, request.endKey);
            start >= 0 && Sweep(Scorer(mode, text, ofPlain), request.keyLength, start, end) == Search.UnitResult(job, u)
  {
    Search.HopKeepsBound(u.params.cipher, u.start, job.Len());
    Search.HopKeepsUnit(job, u);
  }
}
