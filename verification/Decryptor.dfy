/** The worker's sweep over a range of keys. */
module Decryptor {
  import opened Base26
  import opened Ciphers
  import opened Scoring

  datatype Result = Result(key: string, score: Score)

  const SENTINEL := Result("-1", Max)

  datatype Mode = Brute | Fast

  /** The strict test that lets a candidate replace the best result so far. */
  function Better(best: Result, cand: Result): Result {
    if Less(cand.score, best.score) then cand else best
  }

  // ---------- specification of a sweep ----------

  /** The best result after offering the `n` keys from index `start` on, in index order. */
  function Swept(score: string -> Score, len: nat, start: nat, n: nat, best: Result): Result {
    if n == 0 then best
    else
      var key := KeyOf(start + n - 1, len);
      Better(Swept(score, len, start, n - 1, best), Result(key, score(key)))
  }

  function Width(start: int, end: int): nat {
    if start <= end then end - start + 1 else 0
  }

  function Sweep(score: string -> Score, len: nat, start: nat, end: int): Result {
    Swept(score, len, start, Width(start, end), SENTINEL)
  }

  function At(score: string -> Score, len: nat, i: nat): Score { score(KeyOf(i, len)) }

  ghost predicate NoneBelowSentinel(score: string -> Score, len: nat, start: nat, n: nat) {
    forall i :: start <= i < start + n ==> !Less(At(score, len, i), Max)
  }

  /** `r` holds the key of index `i`, the smallest index in [start, start + n) that reaches the least score there. */
  ghost predicate FirstMinimumAt(r: Result, score: string -> Score, len: nat, start: nat, n: nat, i: nat) {
    && start <= i < start + n
    && r == Result(KeyOf(i, len), At(score, len, i))
    && r.score.Finite?
    && (forall j :: start <= j < start + n ==> !Less(At(score, len, j), r.score))
    && (forall j :: start <= j < i ==> At(score, len, j).NaN? || Less(r.score, At(score, len, j)))
  }

  /** The first minimum of the range, or the sentinel when nothing there scores below it. */
  ghost predicate FirstMinimum(r: Result, score: string -> Score, len: nat, start: nat, n: nat) {
    || (r == SENTINEL && NoneBelowSentinel(score, len, start, n))
    || exists i :: FirstMinimumAt(r, score, len, start, n, i)
  }

  lemma OneMoreKey(before: Result, score: string -> Score, len: nat, start: nat, n: nat)
    requires FirstMinimum(before, score, len, start, n)
    ensures FirstMinimum(Better(before, Result(KeyOf(start + n, len), At(score, len, start + n))),
                         score, len, start, n + 1)
  {
    var r := Better(before, Result(KeyOf(start + n, len), At(score, len, start + n)));
    if r != before {
      assert FirstMinimumAt(r, score, len, start, n + 1, start + n);
    } else if before != SENTINEL {
      var i :| FirstMinimumAt(before, score, len, start, n, i);
      assert FirstMinimumAt(r, score, len, start, n + 1, i);
    }
  }

  lemma {:induction false} SweptIsFirstMinimum(score: string -> Score, len: nat, start: nat, n: nat)
    ensures FirstMinimum(Swept(score, len, start, n, SENTINEL), score, len, start, n)
  {
    if n == 0 {
    } else {
      SweptIsFirstMinimum(score, len, start, n - 1);
      OneMoreKey(Swept(score, len, start, n - 1, SENTINEL), score, len, start, n - 1);
    }
  }

  /** A sweep of [start, end] returns the first minimum of that range, whatever the scoring function. */
  lemma SweepIsFirstMinimum(score: string -> Score, len: nat, start: nat, end: int)
    ensures FirstMinimum(Sweep(score, len, start, end), score, len, start, Width(start, end))
  {
    SweptIsFirstMinimum(score, len, start, Width(start, end));
  }

  // ---------- scoring functions of the two modes ----------

  ghost function FastScorer(text: string): string -> Score {
    key => if key != "" && IsKey(key) then FastScore(Letters(text), key) else NaN
  }

  /** BRUTE: a fixed function of the decrypted text (trigrams, chi-square or dictionary). */
  function BruteScorer(text: string, ofPlain: string -> Score): string -> Score {
    key => ofPlain(Decrypt(text, key))
  }

  ghost function Scorer(mode: Mode, text: string, ofPlain: string -> Score): string -> Score {
    if mode == Fast then FastScorer(text) else BruteScorer(text, ofPlain)
  }

  /** BRUTE scores the plain text, FAST the streams of the plain text, whichever way that plain text is obtained. */
  lemma ScorerMeaning(text: string, key: string, plain: string, ofPlain: string -> Score)
    requires IsPlain(plain, text, key)
    ensures Scorer(Brute, text, ofPlain)(key) == ofPlain(plain)
    ensures key != "" && IsKey(key) ==> Scorer(Fast, text, ofPlain)(key) == StreamsScore(Letters(plain), |key|)
  {
    DecryptIsPlain(text, key);
    PlainIsUnique(plain, Decrypt(text, key), text, key);
    if key != "" && IsKey(key) {
      FastRefinesDecryptThenCount(text, key);
    }
  }

  // ---------- the decryptor ----------

  const MAX_STREAMS := 7

  class PolyAlphabeticDecryptor {
    const text: string
    const streamsFreq: array2<nat>
    const streamSize: array<nat>
    var best: Result

    ghost predicate Valid() {
      streamsFreq.Length0 == streamSize.Length == MAX_STREAMS && streamsFreq.Length1 == 26
    }

    /** The first `len` rows of the tables hold the streams of a text with letters `ls`. */
    ghost predicate Tabulates(ls: seq<nat>, len: nat)
      requires Valid() && 0 < len <= MAX_STREAMS
      reads streamsFreq, streamSize
    {
      && (forall i :: 0 <= i < len ==> streamSize[i] == StreamSize(ls, len, i))
      && (forall i, v :: 0 <= i < len && 0 <= v < 26 ==> streamsFreq[i, v] == StreamCount(ls, len, i, v))
    }

    constructor (text: string)
      ensures Valid() && fresh(streamsFreq) && fresh(streamSize)
      ensures this.text == text && best == SENTINEL
    {
      this.text := text;
      streamsFreq := new nat[MAX_STREAMS, 26]((_, _) => 0);
      streamSize := new nat[MAX_STREAMS](_ => 0);
      best := SENTINEL;
    }

    /** Zeroes the rows in use. */
    method ClearStreams(keyLen: nat)
      requires Valid() && 0 < keyLen <= MAX_STREAMS
      modifies streamsFreq, streamSize
      ensures Tabulates([], keyLen)
    {
      for i := 0 to keyLen
        invariant forall k :: 0 <= k < i ==> streamSize[k] == 0
        invariant forall k, v :: 0 <= k < i && 0 <= v < 26 ==> streamsFreq[k, v] == 0
      {
        streamSize[i] := 0;
        for c := 0 to 26
          invariant forall k :: 0 <= k < i + 1 ==> streamSize[k] == 0
          invariant forall k, v :: 0 <= k < i && 0 <= v < 26 ==> streamsFreq[k, v] == 0
          invariant forall v :: 0 <= v < c ==> streamsFreq[i, v] == 0
        {
          streamsFreq[i, c] := 0;
        }
      }
    }

    method CountLetter(ghost ls: seq<nat>, v: nat, letterIdx: nat, keyLen: nat)
      requires Valid() && 0 < keyLen <= MAX_STREAMS && v < 26
      requires Tabulates(ls, keyLen) && letterIdx == |ls|
      modifies streamsFreq, streamSize
      ensures Tabulates(ls + [v], keyLen)
    {
      var pos := letterIdx % keyLen;
      StreamSnoc(ls, v, keyLen);
      streamsFreq[pos, v] := streamsFreq[pos, v] + 1;
      streamSize[pos] := streamSize[pos] + 1;
    }

    /** Fills the frequency tables from the cipher text. */
    method FillStreams(keyLen: nat)
      requires Valid() && 0 < keyLen <= MAX_STREAMS
      modifies streamsFreq, streamSize
      ensures Tabulates(Letters(text), keyLen)
    {
      ClearStreams(keyLen);
      var letterIdx := 0;
      assert Letters(text[..0]) == [];
      for i := 0 to |text|
        invariant letterIdx == |Letters(text[..i])|
        invariant Tabulates(Letters(text[..i]), keyLen)
      {
        assert text[..i + 1] == text[..i] + [text[i]];
        LettersSnoc(text[..i], text[i]);
        if IsAlpha(text[i]) {
          CountLetter(Letters(text[..i]), Value(text[i]), letterIdx, keyLen);
          letterIdx := letterIdx + 1;
        }
      }
      assert text[..|text|] == text;
    }

    /** The inner loop of score_for_key: the chi-square of stream `i` under `shift`, NaN for an empty stream. */
    method ScoreStream(i: nat, shift: nat, ghost ls: seq<nat>, ghost len: nat) returns (s: Score)
      requires Valid() && 0 <= i < len <= MAX_STREAMS && shift < 26 && Tabulates(ls, len)
      ensures s == if StreamSize(ls, len, i) > 0 then Finite(LetterScore(ls, len, i, shift)) else NaN
    {
      var n := streamSize[i];
      if n == 0 {
        return NaN;
      }
      ghost var counts := Shifted(Table(ls, len, i), shift);
      var total := 0.0;
      for c := 0 to 26
        invariant total == ChiUpTo(counts, n, c)
      {
        var observed := streamsFreq[i, (c + shift) % 26];
        assert observed == counts[c];
        total := total + Term(observed, n, c);
      }
      s := Finite(total);
    }

    method ScoreForKey(key: string) returns (s: Score)
      requires Valid() && key != "" && IsKey(key) && |key| <= MAX_STREAMS
      requires Tabulates(Letters(text), |key|)
      ensures s == FastScore(Letters(text), key)
    {
      ghost var ls := Letters(text);
      s := Finite(0.0);
      for i := 0 to |key|
        invariant s.Finite? <==> StreamsNonEmptyUpTo(ls, |key|, i)
        invariant !s.Finite? ==> s == NaN
        invariant AllStreamsNonEmpty(ls, |key|) ==> s == Finite(FastSum(ls, key, i))
      {
        var stream := ScoreStream(i, Digit(key[i]), ls, |key|);
        s := Plus(s, stream);
      }
    }

    method TryKey(key: string, mode: Mode, ofPlain: string -> Score)
      requires Valid() && key != "" && IsKey(key)
      requires mode == Fast ==> |key| <= MAX_STREAMS && Tabulates(Letters(text), |key|)
      modifies this`best
      ensures best == Better(old(best), Result(key, Scorer(mode, text, ofPlain)(key)))
      ensures mode == Brute ==>
                forall plain :: IsPlain(plain, text, key) ==> best == Better(old(best), Result(key, ofPlain(plain)))
    {
      forall plain | IsPlain(plain, text, key) ensures Scorer(Brute, text, ofPlain)(key) == ofPlain(plain) {
        ScorerMeaning(text, key, plain, ofPlain);
      }
      var score: Score;
      if mode == Fast {
        score := ScoreForKey(key);
      } else {
        var candidate := VigenereDecrypt(text, key);
        score := ofPlain(candidate);
      }
      if Less(score, best.score) {
        best := Result(key, score);
      }
    }

    /** One turn of the key loop: offer the key of index `i` and, unless it is the last, advance to the next one. */
    method SweepOne(currentKey: string, i: nat, end: int, keyLen: nat, mode: Mode, ofPlain: string -> Score,
                    ghost score: string -> Score, ghost start: nat, ghost first: Result) returns (next: string)
      requires Valid() && keyLen > 0 && score == Scorer(mode, text, ofPlain)
      requires mode == Fast ==> keyLen <= MAX_STREAMS && Tabulates(Letters(text), keyLen)
      requires start <= i && currentKey == KeyOf(i, keyLen) && best == Swept(score, keyLen, start, i - start, first)
      modifies this`best
      ensures best == Swept(score, keyLen, start, i + 1 - start, first)
      ensures i < end ==> next == KeyOf(i + 1, keyLen)
    {
      next := currentKey;
      TryKey(currentKey, mode, ofPlain);
      if i < end {
        SuccessorIsNextKey(i, keyLen);
        next := IncrementKey(currentKey);
      }
    }

    /** The key loop of process_unit. */
    method SweepKeys(start: nat, end: int, keyLen: nat, mode: Mode, ofPlain: string -> Score,
                     ghost score: string -> Score)
      requires Valid() && keyLen > 0 && score == Scorer(mode, text, ofPlain)
      requires mode == Fast ==> keyLen <= MAX_STREAMS && Tabulates(Letters(text), keyLen)
      modifies this`best
      ensures best == Swept(score, keyLen, start, Width(start, end), old(best))
    {
      var currentKey := IndexToKey(start, keyLen);
      var i: int := start;
      while i <= end
        invariant start <= i && (i > end + 1 ==> i == start)
        invariant i <= end ==> currentKey == KeyOf(i, keyLen)
        invariant best == Swept(score, keyLen, start, i - start, old(best))
      {
        currentKey := SweepOne(currentKey, i, end, keyLen, mode, ofPlain, score, start, old(best));
        i := i + 1;
      }
    }

    /** process_unit: at every turn the incrementally maintained key is the key of the loop counter. */
    method ProcessUnit(start: nat, end: int, keyLen: nat, mode: Mode, ofPlain: string -> Score)
      requires Valid() && keyLen > 0
      requires mode == Fast ==> keyLen <= MAX_STREAMS
      modifies this`best, streamsFreq, streamSize
      ensures best == Swept(Scorer(mode, text, ofPlain), keyLen, start, Width(start, end), old(best))
      ensures old(best) == SENTINEL ==> best == Sweep(Scorer(mode, text, ofPlain), keyLen, start, end)
    {
      if mode == Fast {
        FillStreams(keyLen);
      }
      SweepKeys(start, end, keyLen, mode, ofPlain, Scorer(mode, text, ofPlain));
    }
  }
}
