/** Key-length guessing: the index of coincidence and the distances of repeated trigrams. Counts and products are
    mathematical integers. Texts are given by their letters, as places in the alphabet. */
module Kasiski {
  import Base26
  import opened Ciphers

  const MAX_LENGTH := 10

  // ---------- index of coincidence ----------

  function Count(ls: seq<nat>, v: nat): nat {
    if ls == [] then 0 else Count(ls[..|ls| - 1], v) + (if ls[|ls| - 1] == v then 1 else 0)
  }

  /** Sum of n (n - 1) over the counts of the letters below `k`. */
  function PairSum(ls: seq<nat>, k: nat): int {
    if k == 0 then 0 else PairSum(ls, k - 1) + Count(ls, k - 1) * (Count(ls, k - 1) - 1)
  }

  /** Ordered pairs of different positions that hold equal letters. */
  ghost function EqualPairs(ls: seq<nat>): set<(nat, nat)> {
    set i: nat, j: nat | i < |ls| && j < |ls| && i != j && ls[i] == ls[j] :: (i, j)
  }

  ghost function PositionsOf(ls: seq<nat>, v: nat): set<nat> {
    set i: nat | i < |ls| && ls[i] == v
  }

  lemma {:induction false} CountIsPositions(ls: seq<nat>, v: nat)
    ensures |PositionsOf(ls, v)| == Count(ls, v)
  {
    if ls == [] {
      assert PositionsOf(ls, v) == {};
    } else {
      var n := |ls| - 1;
      var front := ls[..n];
      CountIsPositions(front, v);
      assert PositionsOf(ls, v) == PositionsOf(front, v) + (if ls[n] == v then {n} else {});
    }
  }

  lemma {:induction false} PairSumSnoc(ls: seq<nat>, x: nat, k: nat)
    ensures PairSum(ls + [x], k) == PairSum(ls, k) + (if x < k then 2 * Count(ls, x) else 0)
  {
    if k == 0 {
    } else {
      PairSumSnoc(ls, x, k - 1);
      assert (ls + [x])[..|ls|] == ls;
      var f: int := Count(ls, k - 1);
      if x == k - 1 {
        assert (f + 1) * f == f * (f - 1) + 2 * f;
      }
    }
  }

  ghost function Row(s: set<nat>, n: nat): set<(nat, nat)> { set i | i in s :: (i, n) }

  ghost function Column(s: set<nat>, n: nat): set<(nat, nat)> { set i | i in s :: (n, i) }

  lemma {:induction false} RowSize(s: set<nat>, n: nat)
    ensures |Row(s, n)| == |s| && |Column(s, n)| == |s|
  {
    if s == {} {
      assert Row(s, n) == {} && Column(s, n) == {};
    } else {
      var x :| x in s;
      RowSize(s - {x}, n);
      assert Row(s, n) == Row(s - {x}, n) + {(x, n)};
      assert Column(s, n) == Column(s - {x}, n) + {(n, x)};
    }
  }

  lemma EqualPairsSplit(ls: seq<nat>, x: nat)
    ensures var at := PositionsOf(ls, x);
            EqualPairs(ls + [x]) == EqualPairs(ls) + Row(at, |ls|) + Column(at, |ls|)
  {
  }

  lemma EqualPairsSnoc(ls: seq<nat>, x: nat)
    ensures |EqualPairs(ls + [x])| == |EqualPairs(ls)| + 2 * Count(ls, x)
  {
    var at := PositionsOf(ls, x);
    CountIsPositions(ls, x);
    RowSize(at, |ls|);
    EqualPairsSplit(ls, x);
    DisjointSizes(EqualPairs(ls), Row(at, |ls|), Column(at, |ls|));
  }

  lemma DisjointSizes(a: set<(nat, nat)>, b: set<(nat, nat)>, c: set<(nat, nat)>)
    requires a !! b && a !! c && b !! c
    ensures |a + b + c| == |a| + |b| + |c|
  {
  }

  lemma {:induction false} PairSumCountsPairs(ls: seq<nat>)
    requires forall i :: 0 <= i < |ls| ==> ls[i] < 26
    ensures PairSum(ls, 26) == |EqualPairs(ls)|
  {
    if ls == [] {
      assert EqualPairs(ls) == {};
      NoPairs(26);
    } else {
      var n := |ls| - 1;
      PairSumCountsPairs(ls[..n]);
      PairSumSnoc(ls[..n], ls[n], 26);
      EqualPairsSnoc(ls[..n], ls[n]);
      assert ls[..n] + [ls[n]] == ls;
    }
  }

  lemma {:induction false} NoPairs(k: nat)
    ensures PairSum([], k) == 0
  {
    if k == 0 {
    } else {
      NoPairs(k - 1);
    }
  }

  /** The fraction of ordered position pairs that hold equal letters; 0 for fewer than two letters. */
  ghost function IC(ls: seq<nat>): (r: real)
    ensures r >= 0.0
  {
    if |ls| < 2 then 0.0 else
      var pairs := |ls| * (|ls| - 1);
      assert pairs > 0;
      |EqualPairs(ls)| as real / pairs as real
  }

  method CountFrequencies(ls: seq<nat>) returns (freq: array<nat>)
    requires forall i :: 0 <= i < |ls| ==> ls[i] < 26
    ensures fresh(freq) && freq.Length == 26
    ensures forall v :: 0 <= v < 26 ==> freq[v] == Count(ls, v)
  {
    freq := new nat[26](_ => 0);
    for i := 0 to |ls|
      invariant forall v :: 0 <= v < 26 ==> freq[v] == Count(ls[..i], v)
    {
      assert ls[..i + 1][..i] == ls[..i];
      freq[ls[i]] := freq[ls[i]] + 1;
    }
    assert ls[..|ls|] == ls;
  }

  method IndexOfCoincidence(ls: seq<nat>) returns (ic: real)
    requires forall i :: 0 <= i < |ls| ==> ls[i] < 26
    ensures ic == IC(ls)
  {
    if |ls| < 2 {
      return 0.0;
    }
    var freq := CountFrequencies(ls);
    var sum := 0;
    for i := 0 to 26
      invariant sum == PairSum(ls, i)
    {
      var f: int := freq[i];
      sum := sum + f * (f - 1);
    }
    PairSumCountsPairs(ls);
    var n := |ls|;
    assert n * (n - 1) > 0;
    ic := sum as real / (n * (n - 1)) as real;
  }

  // ---------- average over the streams of a length ----------

  function Stream(ls: seq<nat>, from: nat, len: nat): (s: seq<nat>)
    requires len > 0
    ensures forall i :: 0 <= i < |s| ==> s[i] in ls
    decreases |ls| - from
  {
    if from >= |ls| then [] else [ls[from]] + Stream(ls, from + len, len)
  }

  /** Stream `from` holds every `len`-th letter from there on, to the end. */
  lemma {:induction false} StreamAt(ls: seq<nat>, from: nat, len: nat, k: nat)
    requires len > 0
    ensures k < |Stream(ls, from, len)| <==> from + k * len < |ls|
    ensures k < |Stream(ls, from, len)| ==> Stream(ls, from, len)[k] == ls[from + k * len]
    decreases k
  {
    if k == 0 {
    } else {
      assert from + k * len == from + len + (k - 1) * len;
      StreamAt(ls, from + len, len, k - 1);
      assert from >= |ls| ==> from + k * len >= |ls| by { Grows(k, len); }
    }
  }

  lemma Grows(k: nat, len: nat)
    ensures k * len >= 0
  {
  }

  ghost function ICSum(ls: seq<nat>, len: nat, k: nat): (r: real)
    requires len > 0
    ensures r >= 0.0
  {
    if k == 0 then 0.0 else ICSum(ls, len, k - 1) + IC(Stream(ls, k - 1, len))
  }

  ghost function AverageIC(ls: seq<nat>, len: nat): (r: real)
    requires len > 0
    ensures r >= 0.0
  {
    ICSum(ls, len, len) / len as real
  }

  method TakeStream(ls: seq<nat>, from: nat, len: nat) returns (s: seq<nat>)
    requires len > 0
    ensures s == Stream(ls, from, len)
  {
    s := [];
    var j := from;
    while j < |ls|
      invariant s + Stream(ls, j, len) == Stream(ls, from, len)
      decreases |ls| - j
    {
      s := s + [ls[j]];
      j := j + len;
    }
  }

  method AverageCoincidence(ls: seq<nat>, len: nat) returns (avg: real)
    requires len > 0 && forall i :: 0 <= i < |ls| ==> ls[i] < 26
    ensures avg == AverageIC(ls, len)
  {
    var sum := 0.0;
    for i := 0 to len
      invariant sum == ICSum(ls, len, i)
    {
      var s := TakeStream(ls, i, len);
      var ic := IndexOfCoincidence(s);
      sum := sum + ic;
    }
    avg := sum / len as real;
  }

  ghost predicate Positive(lens: seq<nat>) { forall i :: 0 <= i < |lens| ==> lens[i] > 0 }

  /** Length number `b` is the first with the greatest average IC, and that is positive. */
  ghost predicate FirstBestAt(ls: seq<nat>, lens: seq<nat>, b: nat)
    requires Positive(lens)
  {
    && b < |lens| && AverageIC(ls, lens[b]) > 0.0
    && (forall i :: 0 <= i < |lens| ==> AverageIC(ls, lens[i]) <= AverageIC(ls, lens[b]))
    && (forall i :: 0 <= i < b ==> AverageIC(ls, lens[i]) < AverageIC(ls, lens[b]))
  }

  /** `best` is the first of the lengths `lens` with the greatest average IC, or `fallback` when none is positive. */
  ghost predicate FirstBest(ls: seq<nat>, lens: seq<nat>, fallback: int, best: int)
    requires Positive(lens)
  {
    if exists b: nat :: FirstBestAt(ls, lens, b) then exists b: nat :: FirstBestAt(ls, lens, b) && best == lens[b]
    else best == fallback && forall i :: 0 <= i < |lens| ==> AverageIC(ls, lens[i]) == 0.0
  }

  /** The best-so-far loop that both guesses share. */
  method PickByIC(ls: seq<nat>, lens: seq<nat>, fallback: int) returns (best: int)
    requires forall i :: 0 <= i < |ls| ==> ls[i] < 26
    requires Positive(lens)
    ensures FirstBest(ls, lens, fallback, best)
  {
    var bestIC := 0.0;
    best := fallback;
    ghost var b := -1;
    for i := 0 to |lens|
      invariant -1 <= b < i
      invariant b == -1 ==> best == fallback && bestIC == 0.0
      invariant b >= 0 ==> lens[b] == best && bestIC == AverageIC(ls, best) > 0.0
      invariant forall j :: 0 <= j < i ==> AverageIC(ls, lens[j]) <= bestIC
      invariant forall j :: 0 <= j < b ==> AverageIC(ls, lens[j]) < bestIC
    {
      var avg := AverageCoincidence(ls, lens[i]);
      if avg > bestIC {
        bestIC, best := avg, lens[i];
        b := i;
      }
    }
    if b >= 0 {
      assert FirstBestAt(ls, lens, b);
    }
  }

  function Range(lo: nat, hi: int): (r: seq<nat>)
    ensures |r| == if lo <= hi then hi - lo + 1 else 0
    ensures forall i :: 0 <= i < |r| ==> r[i] == lo + i
  {
    seq(if lo <= hi then hi - lo + 1 else 0, i requires i >= 0 => lo + i)
  }

  /** A length below one has no streams: its average, zero divided by that length, is never greater than zero. */
  function LeastLength(minLen: int): (lo: nat)
    ensures lo >= 1 && lo >= minLen && (lo == 1 || lo == minLen)
  {
    if minLen < 1 then 1 else minLen
  }

  /** guessKeyLengthByIC: the first length in [minLen, maxLen] with the greatest average IC. */
  method GuessByIC(ls: seq<nat>, minLen: int, maxLen: int) returns (len: int)
    requires forall i :: 0 <= i < |ls| ==> ls[i] < 26
    ensures FirstBest(ls, Range(LeastLength(minLen), maxLen), minLen, len)
    ensures minLen <= maxLen ==> minLen <= len <= maxLen
  {
    len := PickByIC(ls, Range(LeastLength(minLen), maxLen), minLen);
  }

  // ---------- repeated trigrams ----------

  function Trigram(ls: seq<nat>, i: nat): (t: seq<nat>)
    requires i + 3 <= |ls|
    ensures |t| == 3 && forall k :: 0 <= k < 3 ==> t[k] == ls[i + k]
  {
    ls[i..i + 3]
  }

  /** Positions `i` < `j` hold the same trigram and no position between them does. */
  ghost predicate Repeat(ls: seq<nat>, i: nat, j: nat) {
    && i < j && j + 3 <= |ls|
    && Trigram(ls, i) == Trigram(ls, j)
    && forall k :: i < k < j ==> Trigram(ls, k) != Trigram(ls, j)
  }

  /** The letters at `i` and the two after it are those at `j`. */
  predicate SameThree(ls: seq<nat>, i: nat, j: nat)
    requires i + 3 <= |ls| && j + 3 <= |ls|
  {
    ls[i] == ls[j] && ls[i + 1] == ls[j + 1] && ls[i + 2] == ls[j + 2]
  }

  lemma SameTrigramIff(ls: seq<nat>, i: nat, j: nat)
    requires i + 3 <= |ls| && j + 3 <= |ls|
    ensures Trigram(ls, i) == Trigram(ls, j) <==> SameThree(ls, i, j)
  {
    var t, u := Trigram(ls, i), Trigram(ls, j);
    assert t[0] == ls[i] && t[1] == ls[i + 1] && t[2] == ls[i + 2];
    assert u[0] == ls[j] && u[1] == ls[j + 1] && u[2] == ls[j + 2];
    if SameThree(ls, i, j) {
      assert t == [ls[i], ls[i + 1], ls[i + 2]];
      assert u == [ls[j], ls[j + 1], ls[j + 2]];
    }
  }

  /** A repeat, in letters: the same three letters at `i` and, next, at `j`. */
  lemma RepeatIff(ls: seq<nat>, i: nat, j: nat)
    ensures Repeat(ls, i, j) <==>
              && i < j && j + 3 <= |ls| && SameThree(ls, i, j)
              && forall k :: i < k < j ==> !SameThree(ls, k, j)
  {
    if i < j && j + 3 <= |ls| {
      forall k | i <= k < j ensures Trigram(ls, k) == Trigram(ls, j) <==> SameThree(ls, k, j) {
        SameTrigramIff(ls, k, j);
      }
    }
  }

  ghost function Repeats(ls: seq<nat>): set<(nat, nat)> {
    set i: nat, j: nat | i < |ls| && j < |ls| && Repeat(ls, i, j) :: (i, j)
  }

  ghost function Divisible(pairs: set<(nat, nat)>, d: nat): set<(nat, nat)>
    requires d > 0
  {
    set p | p in pairs && (p.1 - p.0) % d == 0
  }

  /** How many consecutive repeats lie at a distance divisible by `d`. */
  ghost function DivisorCount(ls: seq<nat>, d: nat): nat
    requires d > 0
  {
    |Divisible(Repeats(ls), d)|
  }

  lemma SubsetSize(a: set<(nat, nat)>, b: set<(nat, nat)>)
    requires a <= b
    ensures |a| <= |b|
  {
    assert b == a + (b - a);
  }

  lemma DividesThrough(x: int, e: nat, d: nat)
    requires d > 0 && e > 0 && e % d == 0 && x % e == 0
    ensures x % d == 0
  {
    var q, r := x / e, e / d;
    assert x == e * q && e == d * r;
    assert x == d * (r * q);
    MultipleHasNoRemainder(d, r * q);
  }

  lemma MultipleHasNoRemainder(d: nat, k: int)
    requires d > 0
    ensures (d * k) % d == 0
  {
    var r := (d * k) % d;
    assert d * k == d * ((d * k) / d) + r;
    assert d * (k - (d * k) / d) == r;
    Base26.SmallMultiple(k - (d * k) / d, d);
  }

  /** A divisor of a length is supported by at least as many repeats as the length itself. */
  lemma DivisorsAreMoreFrequent(ls: seq<nat>, d: nat, e: nat)
    requires d > 0 && e > 0 && e % d == 0
    ensures DivisorCount(ls, d) >= DivisorCount(ls, e)
  {
    var reps := Repeats(ls);
    forall p | p in Divisible(reps, e) ensures p in Divisible(reps, d) {
      DividesThrough(p.1 - p.0, e, d);
    }
    SubsetSize(Divisible(reps, e), Divisible(reps, d));
  }

  // ---------- collecting the positions ----------

  /** `ps` lists in order exactly the positions below `m` that hold trigram `t`. */
  ghost predicate Lists(ls: seq<nat>, t: seq<nat>, m: nat, ps: seq<nat>)
    requires m + 2 <= |ls|
  {
    && (forall a, b :: 0 <= a < b < |ps| ==> ps[a] < ps[b])
    && (forall a :: 0 <= a < |ps| ==> ps[a] < m && Trigram(ls, ps[a]) == t)
    && (forall i: nat :: i < m && Trigram(ls, i) == t ==> i in ps)
  }

  ghost predicate Indexes(ls: seq<nat>, m: nat, index: map<seq<nat>, seq<nat>>)
    requires m + 2 <= |ls|
  {
    && (forall i: nat :: i < m ==> Trigram(ls, i) in index)
    && (forall t :: t in index ==> |t| == 3 && index[t] != [] && Lists(ls, t, m, index[t]))
  }

  method TrigramPositions(ls: seq<nat>) returns (index: map<seq<nat>, seq<nat>>)
    ensures |ls| < 2 ==> index == map[]
    ensures |ls| >= 2 ==> Indexes(ls, |ls| - 2, index)
  {
    index := map[];
    if |ls| < 3 {
      return;
    }
    for i := 0 to |ls| - 2
      invariant Indexes(ls, i, index)
    {
      var t := ls[i..i + 3];
      ghost var before := index;
      index := index[t := (if t in index then index[t] else []) + [i]];
      OneMorePosition(ls, i, before, index);
    }
  }

  lemma PositionsSoFar(ls: seq<nat>, i: nat, index: map<seq<nat>, seq<nat>>, t: seq<nat>)
    requires i + 2 <= |ls| && Indexes(ls, i, index)
    ensures Lists(ls, t, i, if t in index then index[t] else [])
  {
  }

  lemma ListsSkip(ls: seq<nat>, t: seq<nat>, i: nat, ps: seq<nat>)
    requires i + 3 <= |ls| && Trigram(ls, i) != t && Lists(ls, t, i, ps)
    ensures Lists(ls, t, i + 1, ps)
  {
  }

  lemma OneMorePosition(ls: seq<nat>, i: nat, before: map<seq<nat>, seq<nat>>, after: map<seq<nat>, seq<nat>>)
    requires i + 3 <= |ls| && Indexes(ls, i, before)
    requires var t := Trigram(ls, i); after == before[t := (if t in before then before[t] else []) + [i]]
    ensures Indexes(ls, i + 1, after)
  {
    var t := Trigram(ls, i);
    PositionsSoFar(ls, i, before, t);
    ListsSnoc(ls, t, i, if t in before then before[t] else []);
    forall u | u in after ensures |u| == 3 && after[u] != [] && Lists(ls, u, i + 1, after[u]) {
      if u != t {
        ListsSkip(ls, u, i, before[u]);
      }
    }
  }

  lemma ListsSnoc(ls: seq<nat>, t: seq<nat>, i: nat, ps: seq<nat>)
    requires i + 3 <= |ls| && Trigram(ls, i) == t && Lists(ls, t, i, ps)
    ensures Lists(ls, t, i + 1, ps + [i])
  {
  }

  /** Neighbours in a position list are exactly the consecutive repeats of that trigram. */
  lemma NeighboursAreRepeats(ls: seq<nat>, t: seq<nat>, ps: seq<nat>, a: nat)
    requires |ls| >= 2 && Lists(ls, t, |ls| - 2, ps) && 0 < a < |ps|
    ensures Repeat(ls, ps[a - 1], ps[a])
  {
  }

  lemma RepeatsAreNeighbours(ls: seq<nat>, ps: seq<nat>, i: nat, j: nat)
    requires Repeat(ls, i, j) && Lists(ls, Trigram(ls, j), |ls| - 2, ps)
    ensures exists a :: 0 < a < |ps| && ps[a - 1] == i && ps[a] == j
  {
    assert i in ps && j in ps;
    var a :| 0 <= a < |ps| && ps[a] == j;
    var b :| 0 <= b < |ps| && ps[b] == i;
    assert b < a;
    assert Trigram(ls, ps[a - 1]) == Trigram(ls, j) && ps[b] <= ps[a - 1] < ps[a];
  }

  // ---------- counting the divisors ----------

  ghost predicate Tallied(tally: map<nat, nat>, pairs: set<(nat, nat)>, d: nat)
    requires d > 0
  {
    |Divisible(pairs, d)| == (if d in tally then tally[d] else 0) && (d in tally ==> tally[d] > 0)
  }

  /** The map counts, for each length in [lo, MAX_LENGTH] that occurs, the pairs at a divisible distance. */
  ghost predicate Tallies(tally: map<nat, nat>, pairs: set<(nat, nat)>, lo: nat)
    requires lo > 0
  {
    && (forall d :: d in tally ==> lo <= d <= MAX_LENGTH)
    && (forall d :: lo <= d <= MAX_LENGTH ==> Tallied(tally, pairs, d))
  }

  lemma DivisibleInsert(pairs: set<(nat, nat)>, p: (nat, nat), d: nat)
    requires d > 0 && p !in pairs
    ensures |Divisible(pairs + {p}, d)| == |Divisible(pairs, d)| + (if (p.1 - p.0) % d == 0 then 1 else 0)
  {
    if (p.1 - p.0) % d == 0 {
      assert Divisible(pairs + {p}, d) == Divisible(pairs, d) + {p};
    } else {
      assert Divisible(pairs + {p}, d) == Divisible(pairs, d);
    }
  }

  function Bump(tally: map<nat, nat>, d: nat, dist: nat): map<nat, nat>
    requires d > 0
  {
    if dist % d == 0 then tally[d := (if d in tally then tally[d] else 0) + 1] else tally
  }

  lemma BumpTallies(tally: map<nat, nat>, pairs: set<(nat, nat)>, p: (nat, nat), d: nat, dist: nat)
    requires d > 0 && p !in pairs && dist == p.1 - p.0 && Tallied(tally, pairs, d)
    ensures Tallied(Bump(tally, d, dist), pairs + {p}, d)
  {
    DivisibleInsert(pairs, p, d);
  }

  lemma BumpSpares(tally: map<nat, nat>, pairs: set<(nat, nat)>, d: nat, dist: nat, e: nat)
    requires d > 0 && e > 0 && e != d && Tallied(tally, pairs, e)
    ensures Tallied(Bump(tally, d, dist), pairs, e)
  {
  }

  /** The innermost loop: one distance, all its divisors. */
  method AddDistance(tally: map<nat, nat>, lo: nat, dist: nat, ghost pairs: set<(nat, nat)>, ghost p: (nat, nat))
    returns (after: map<nat, nat>)
    requires lo > 0 && Tallies(tally, pairs, lo) && p !in pairs && dist == p.1 - p.0
    ensures Tallies(after, pairs + {p}, lo)
  {
    after := tally;
    if lo > MAX_LENGTH {
      return;
    }
    ghost var more := pairs + {p};
    for d := lo to MAX_LENGTH + 1
      invariant forall e :: e in after ==> lo <= e <= MAX_LENGTH
      invariant forall e :: lo <= e < d ==> Tallied(after, more, e)
      invariant forall e :: d <= e <= MAX_LENGTH ==> Tallied(after, pairs, e)
    {
      ghost var before := after;
      BumpTallies(before, pairs, p, d, dist);
      after := Bump(after, d, dist);
      forall e | lo <= e < d ensures Tallied(after, more, e) {
        BumpSpares(before, more, d, dist, e);
      }
      forall e | d < e <= MAX_LENGTH ensures Tallied(after, pairs, e) {
        BumpSpares(before, pairs, d, dist, e);
      }
    }
  }

  // ---------- counting over all trigrams ----------

  /** The consecutive repeats whose trigram is in `ts`. */
  ghost function RepeatsOf(ls: seq<nat>, ts: set<seq<nat>>): set<(nat, nat)> {
    set p | p in Repeats(ls) && p.1 + 3 <= |ls| && Trigram(ls, p.1) in ts
  }

  function Neighbour(ps: seq<nat>, a: nat): (nat, nat)
    requires 0 < a < |ps|
  {
    (ps[a - 1], ps[a])
  }

  ghost function Neighbours(ps: seq<nat>, m: nat): set<(nat, nat)>
    requires m <= |ps|
  {
    set a | 0 < a < m :: Neighbour(ps, a)
  }

  lemma RepeatsOfOne(ls: seq<nat>, t: seq<nat>, ps: seq<nat>)
    requires |ls| >= 2 && Lists(ls, t, |ls| - 2, ps)
    ensures Neighbours(ps, |ps|) == RepeatsOf(ls, {t})
  {
    forall p | p in Neighbours(ps, |ps|) ensures p in RepeatsOf(ls, {t}) {
      var a :| 0 < a < |ps| && p == Neighbour(ps, a);
      NeighboursAreRepeats(ls, t, ps, a);
    }
    forall p | p in RepeatsOf(ls, {t}) ensures p in Neighbours(ps, |ps|) {
      RepeatsAreNeighbours(ls, ps, p.0, p.1);
      var a :| 0 < a < |ps| && ps[a - 1] == p.0 && ps[a] == p.1;
      assert p == Neighbour(ps, a);
    }
  }

  /** The loop over the positions of one trigram. */
  method CountOne(tally: map<nat, nat>, lo: nat, ps: seq<nat>, ghost pairs: set<(nat, nat)>)
    returns (after: map<nat, nat>)
    requires lo > 0 && Tallies(tally, pairs, lo)
    requires forall a, b :: 0 <= a < b < |ps| ==> ps[a] < ps[b]
    requires pairs !! Neighbours(ps, |ps|)
    ensures Tallies(after, pairs + Neighbours(ps, |ps|), lo)
  {
    after := tally;
    if |ps| < 2 {
      assert pairs + Neighbours(ps, |ps|) == pairs;
      return;
    }
    assert pairs + Neighbours(ps, 1) == pairs;
    for j := 1 to |ps|
      invariant Tallies(after, pairs + Neighbours(ps, j), lo)
    {
      ghost var p := Neighbour(ps, j);
      assert p in Neighbours(ps, |ps|);
      after := AddDistance(after, lo, ps[j] - ps[j - 1], pairs + Neighbours(ps, j), p);
      assert pairs + Neighbours(ps, j) + {p} == pairs + Neighbours(ps, j + 1);
    }
  }

  /** divisorCount: for every length from max(minLen, 2) to MAX_LENGTH, the consecutive repeats it supports. */
  method CountDivisors(ls: seq<nat>, lo: nat) returns (tally: map<nat, nat>)
    requires lo > 0
    ensures Tallies(tally, Repeats(ls), lo)
    ensures forall d :: d in tally ==> lo <= d <= 10 && tally[d] == DivisorCount(ls, d) > 0
    ensures forall d :: lo <= d <= 10 && DivisorCount(ls, d) > 0 ==> d in tally
  {
    tally := CollectDivisors(ls, lo);
    forall d | lo <= d <= MAX_LENGTH
      ensures d in tally <==> DivisorCount(ls, d) > 0
      ensures d in tally ==> tally[d] == DivisorCount(ls, d)
    {
      assert Tallied(tally, Repeats(ls), d);
    }
  }

  method CollectDivisors(ls: seq<nat>, lo: nat) returns (tally: map<nat, nat>)
    requires lo > 0
    ensures Tallies(tally, Repeats(ls), lo)
  {
    tally := map[];
    assert Tallies(tally, {}, lo) by {
      forall d | lo <= d <= MAX_LENGTH ensures Tallied(tally, {}, d) {
        assert Divisible({}, d) == {};
      }
    }
    var index := TrigramPositions(ls);
    if |ls| < 2 {
      assert Repeats(ls) == {};
      return;
    }
    ghost var done: set<seq<nat>> := {};
    var todo := index.Keys;
    assert RepeatsOf(ls, {}) == {};
    while todo != {}
      invariant done !! todo && done + todo == index.Keys
      invariant Tallies(tally, RepeatsOf(ls, done), lo)
      decreases todo
    {
      var t :| t in todo;
      RepeatsOfOne(ls, t, index[t]);
      tally := CountOne(tally, lo, index[t], RepeatsOf(ls, done));
      assert RepeatsOf(ls, done) + RepeatsOf(ls, {t}) == RepeatsOf(ls, done + {t});
      todo, done := todo - {t}, done + {t};
    }
    AllRepeatsCounted(ls, index);
  }

  lemma AllRepeatsCounted(ls: seq<nat>, index: map<seq<nat>, seq<nat>>)
    requires |ls| >= 2 && Indexes(ls, |ls| - 2, index)
    ensures RepeatsOf(ls, index.Keys) == Repeats(ls)
  {
  }

  // ---------- the guess ----------

  /** `order` lists the keys of `tally`, most frequent first; ties may come in any order. */
  ghost predicate Ranked(tally: map<nat, nat>, order: seq<nat>) {
    && (forall d :: d in order <==> d in tally)
    && (forall i, j :: 0 <= i < j < |order| ==>
          order[i] != order[j] && order[i] in tally && order[j] in tally && tally[order[i]] >= tally[order[j]])
  }

  lemma {:induction false} MostFrequentExists(tally: map<nat, nat>, s: set<nat>)
    requires s != {} && s <= tally.Keys
    ensures exists k :: k in s && forall j :: j in s ==> tally[j] <= tally[k]
  {
    var x :| x in s;
    if s == {x} {
      assert x in s && forall j :: j in s ==> tally[j] <= tally[x];
    } else {
      var rest := s - {x};
      assert rest != {} by { assert s == rest + {x}; }
      MostFrequentExists(tally, rest);
      var k :| k in rest && forall j :: j in rest ==> tally[j] <= tally[k];
      var top := if tally[k] < tally[x] then x else k;
      assert top in s && forall j :: j in s ==> tally[j] <= tally[top];
    }
  }

  /** The candidates sorted by count, in descending order. */
  method RankByCount(tally: map<nat, nat>) returns (order: seq<nat>)
    ensures Ranked(tally, order) && |order| == |tally|
  {
    order := [];
    var rest := tally.Keys;
    while rest != {}
      invariant rest <= tally.Keys && |order| + |rest| == |tally|
      invariant forall d :: d in order <==> d in tally && d !in rest
      invariant forall i, j :: 0 <= i < j < |order| ==> order[i] != order[j] && tally[order[i]] >= tally[order[j]]
      invariant forall i, d :: 0 <= i < |order| && d in rest ==> tally[order[i]] >= tally[d]
      decreases rest
    {
      MostFrequentExists(tally, rest);
      var k :| k in rest && forall j :: j in rest ==> tally[j] <= tally[k];
      order := order + [k];
      rest := rest - {k};
    }
  }

  /** `top` holds three lengths that are supported by repeats, or all if there are fewer, and no length outside it is
      supported by more. */
  ghost predicate MostSupported(ls: seq<nat>, lo: nat, top: seq<nat>) {
    && 0 < |top| <= 3 && Positive(top)
    && (forall i, j :: 0 <= i < j < |top| ==> top[i] != top[j])
    && (|top| < 3 ==> forall d :: 0 < lo <= d <= 10 && DivisorCount(ls, d) > 0 ==> d in top)
    && (forall i :: 0 <= i < |top| ==> lo <= top[i] <= 10 && DivisorCount(ls, top[i]) > 0)
    && (forall i, d :: 0 <= i < |top| && 0 < lo <= d <= 10 && d !in top ==>
          DivisorCount(ls, d) <= DivisorCount(ls, top[i]))
  }

  ghost predicate NoSupport(ls: seq<nat>, lo: nat) {
    forall d :: 0 < lo <= d <= 10 ==> DivisorCount(ls, d) == 0
  }

  /** What the guess promises: by IC alone without any repeat at a usable distance, else by IC among the most
      supported. */
  ghost predicate IsGuess(ls: seq<nat>, minLen: int, len: int) {
    if NoSupport(ls, LeastDivisor(minLen)) then FirstBest(ls, Range(LeastLength(minLen), 10), minLen, len)
    else exists top :: MostSupported(ls, LeastDivisor(minLen), top) && FirstBest(ls, top, top[0], len)
  }

  /** Repeats vote for lengths from 2 up, even when a length of 1 is allowed. */
  function LeastDivisor(minLen: int): (lo: nat)
    ensures lo >= 2 && lo >= minLen && (lo == 2 || lo == minLen)
  {
    if minLen < 2 then 2 else minLen
  }

  /** guessKeyLength: the three lengths that most repeats support are compared by average IC. The caller's upper
      bound is overridden by MAX_LENGTH. */
  method GuessKeyLength(text: string, minLen: int) returns (len: int)
    ensures if minLen <= 10 then minLen <= len <= 10 else len == minLen
    ensures IsGuess(Letters(text), minLen, len)
  {
    var ls := Letters(text);
    ghost var lo := LeastDivisor(minLen);
    var tally := CountDivisors(ls, LeastDivisor(minLen));
    if tally == map[] {
      len := GuessByIC(ls, minLen, MAX_LENGTH);
    } else {
      var order := RankByCount(tally);
      assert |order| > 0;
      var n := if |order| < 3 then |order| else 3;
      var top := order[..n];
      TopThree(ls, lo, tally, order, n);
      len := PickByIC(ls, top, order[0]);
      SupportExists(ls, lo, tally);
      GuessHolds(ls, minLen, lo, top, len);
    }
  }

  lemma GuessHolds(ls: seq<nat>, minLen: int, lo: nat, top: seq<nat>, len: int)
    requires lo == LeastDivisor(minLen)
    ensures !NoSupport(ls, lo) && MostSupported(ls, lo, top) && FirstBest(ls, top, top[0], len) ==>
              lo <= len <= MAX_LENGTH && IsGuess(ls, minLen, len)
  {
  }

  /** The tally holds exactly the supported lengths with their counts. */
  ghost predicate CountsSupport(ls: seq<nat>, lo: nat, tally: map<nat, nat>) {
    && (forall d :: d in tally ==> 0 < lo <= d <= MAX_LENGTH && tally[d] == DivisorCount(ls, d) > 0)
    && (forall d :: 0 < lo <= d <= MAX_LENGTH && DivisorCount(ls, d) > 0 ==> d in tally)
  }

  lemma SupportExists(ls: seq<nat>, lo: nat, tally: map<nat, nat>)
    ensures tally != map[] && CountsSupport(ls, lo, tally) ==> !NoSupport(ls, lo)
  {
    if tally != map[] && CountsSupport(ls, lo, tally) {
      var d :| d in tally;
      assert DivisorCount(ls, d) > 0;
    }
  }

  lemma TopThree(ls: seq<nat>, lo: nat, tally: map<nat, nat>, order: seq<nat>, n: nat)
    requires lo > 0 && Ranked(tally, order) && 0 < n <= |order| && n <= 3 && (n < |order| ==> n == 3)
    ensures CountsSupport(ls, lo, tally) ==> MostSupported(ls, lo, order[..n])
  {
    if CountsSupport(ls, lo, tally) {
      var top := order[..n];
      forall i | 0 <= i < n ensures lo <= top[i] <= MAX_LENGTH && top[i] in tally {
        assert order[i] in order;
      }
      forall i, d | 0 <= i < n && lo <= d <= MAX_LENGTH && d !in top
        ensures DivisorCount(ls, d) <= DivisorCount(ls, top[i])
      {
        if d in tally {
          LaterIsLess(tally, order, n, i, d);
        }
      }
      if n < 3 {
        assert order[..n] == order;
      }
    }
  }

  lemma LaterIsLess(tally: map<nat, nat>, order: seq<nat>, n: nat, i: nat, d: nat)
    requires Ranked(tally, order) && i < n <= |order| && d in tally && d !in order[..n]
    ensures order[i] in tally && tally[d] <= tally[order[i]]
  {
    var j :| 0 <= j < |order| && order[j] == d;
    assert forall k :: 0 <= k < n ==> order[..n][k] == order[k];
  }

  // ---------- the caller's bound ----------

  const REQUESTED_MAX := 7

  /** Without a repeat at a distance divisible by 8, 9 or 10 the guess keeps within the seven letters that the
      caller asks for, as long as some repeat lies at a usable distance. */
  lemma GuessWithinRequest(ls: seq<nat>, minLen: int, len: int)
    ensures IsGuess(ls, minLen, len) && !NoSupport(ls, LeastDivisor(minLen)) && NoneSupportsLong(ls) ==>
              len <= REQUESTED_MAX
  {
    if IsGuess(ls, minLen, len) && !NoSupport(ls, LeastDivisor(minLen)) && NoneSupportsLong(ls) {
      var top :| MostSupported(ls, LeastDivisor(minLen), top) && FirstBest(ls, top, top[0], len);
    }
  }

  ghost predicate NoneSupportsLong(ls: seq<nat>) {
    forall d :: REQUESTED_MAX < d <= MAX_LENGTH ==> DivisorCount(ls, d) == 0
  }

  /** The lengths that the guess compares by average IC, in order; ties among the supported ones may come in any
      order. */
  ghost predicate Candidates(ls: seq<nat>, minLen: int, lens: seq<nat>) {
    if NoSupport(ls, LeastDivisor(minLen)) then lens == Range(LeastLength(minLen), MAX_LENGTH)
    else MostSupported(ls, LeastDivisor(minLen), lens)
  }

  /** What is guessed when no candidate has a positive average IC. */
  ghost function Fallback(ls: seq<nat>, minLen: int, lens: seq<nat>): int
    requires lens != []
  {
    if NoSupport(ls, LeastDivisor(minLen)) then minLen else lens[0]
  }

  /** Candidate number `i` is short enough and no longer candidate has a greater average IC, nor an equal one in
      front. */
  ghost predicate ShortWins(ls: seq<nat>, lens: seq<nat>, i: nat)
    requires Positive(lens)
  {
    && i < |lens| && lens[i] <= REQUESTED_MAX
    && (forall j :: 0 <= j < |lens| && lens[j] > REQUESTED_MAX ==> AverageIC(ls, lens[j]) <= AverageIC(ls, lens[i]))
    && (forall j :: 0 <= j < i && lens[j] > REQUESTED_MAX ==> AverageIC(ls, lens[j]) < AverageIC(ls, lens[i]))
  }

  lemma PickIsShortIff(ls: seq<nat>, lens: seq<nat>, fallback: int, best: int)
    requires Positive(lens) && lens != [] && (fallback == lens[0] || (fallback < 1 && lens[0] == 1))
    ensures FirstBest(ls, lens, fallback, best) ==>
              (best <= REQUESTED_MAX <==> exists i: nat :: ShortWins(ls, lens, i))
  {
    if FirstBest(ls, lens, fallback, best) {
      if b: nat :| FirstBestAt(ls, lens, b) && best == lens[b] {
        if best <= REQUESTED_MAX {
          assert ShortWins(ls, lens, b);
        }
      } else if best <= REQUESTED_MAX {
        assert ShortWins(ls, lens, 0);
      }
    }
  }

  /** Exactly when a guess keeps within the seven letters asked for: some candidate of at most seven letters has an
      average IC that no longer candidate beats. */
  lemma GuessWithinRequestIff(ls: seq<nat>, minLen: int, lens: seq<nat>, len: int)
    requires minLen <= MAX_LENGTH && Positive(lens) && lens != []
    ensures Candidates(ls, minLen, lens) && FirstBest(ls, lens, Fallback(ls, minLen, lens), len) ==>
              IsGuess(ls, minLen, len) && (len <= REQUESTED_MAX <==> exists i: nat :: ShortWins(ls, lens, i))
  {
    if Candidates(ls, minLen, lens) && FirstBest(ls, lens, Fallback(ls, minLen, lens), len) {
      PickIsShortIff(ls, lens, Fallback(ls, minLen, lens), len);
    }
  }

  const SAMPLE: seq<nat> := [0, 1, 2, 3, 4, 5, 6, 7, 8, 0, 1, 2]

  lemma SampleRepeats()
    ensures Repeats(SAMPLE) == {(0, 9)}
  {
    assert Trigram(SAMPLE, 0) == [0, 1, 2] && Trigram(SAMPLE, 9) == [0, 1, 2];
    forall i: nat, j: nat | Repeat(SAMPLE, i, j) ensures i == 0 && j == 9 {
      assert Trigram(SAMPLE, i)[0] == SAMPLE[i] && Trigram(SAMPLE, j)[0] == SAMPLE[j];
      assert Trigram(SAMPLE, i)[1] == SAMPLE[i + 1] && Trigram(SAMPLE, j)[1] == SAMPLE[j + 1];
    }
    assert Repeat(SAMPLE, 0, 9) by {
      forall k | 0 < k < 9 ensures Trigram(SAMPLE, k) != Trigram(SAMPLE, 9) {
        assert Trigram(SAMPLE, k)[0] != 0;
      }
    }
  }

  lemma SampleSupport(d: nat)
    requires 2 <= d <= MAX_LENGTH
    ensures DivisorCount(SAMPLE, d) > 0 <==> d == 3 || d == 9
  {
    SampleRepeats();
    if 9 % d == 0 {
      assert (0, 9) in Divisible(Repeats(SAMPLE), d);
    } else {
      assert Divisible(Repeats(SAMPLE), d) == {};
    }
  }

  lemma ThreeApart(a: nat, b: nat, c: nat)
    requires a != b && b != c && a != c
    ensures IC([a, b, c, a]) == 1.0 / 6.0
  {
    assert EqualPairs([a, b, c, a]) == {(0, 3), (3, 0)};
  }

  lemma Twice(a: nat)
    ensures IC([a, a]) == 1.0
  {
    assert EqualPairs([a, a]) == {(0, 1), (1, 0)};
  }

  lemma SampleByThree()
    ensures AverageIC(SAMPLE, 3) == 1.0 / 6.0
  {
    assert Stream(SAMPLE, 0, 3) == [0, 3, 6, 0];
    assert Stream(SAMPLE, 1, 3) == [1, 4, 7, 1];
    assert Stream(SAMPLE, 2, 3) == [2, 5, 8, 2];
    ThreeApart(0, 3, 6);
    ThreeApart(1, 4, 7);
    ThreeApart(2, 5, 8);
    assert ICSum(SAMPLE, 3, 1) == 1.0 / 6.0;
    assert ICSum(SAMPLE, 3, 2) == 2.0 / 6.0;
    assert ICSum(SAMPLE, 3, 3) == 3.0 / 6.0;
  }

  lemma SampleByNine()
    ensures AverageIC(SAMPLE, 9) == 1.0 / 3.0
  {
    assert Stream(SAMPLE, 0, 9) == [0, 0];
    assert Stream(SAMPLE, 1, 9) == [1, 1];
    assert Stream(SAMPLE, 2, 9) == [2, 2];
    Twice(0);
    Twice(1);
    Twice(2);
    assert ICSum(SAMPLE, 9, 1) == 1.0;
    assert ICSum(SAMPLE, 9, 2) == 2.0;
    assert ICSum(SAMPLE, 9, 3) == 3.0;
    SampleRest(9);
  }

  lemma {:induction false} SampleRest(k: nat)
    requires 3 <= k <= 9 && ICSum(SAMPLE, 9, 3) == 3.0
    ensures ICSum(SAMPLE, 9, k) == 3.0
  {
    if k == 3 {
    } else {
      SampleRest(k - 1);
      assert Stream(SAMPLE, k - 1, 9) == [SAMPLE[k - 1]];
    }
  }

  lemma SampleTop(top: seq<nat>)
    requires MostSupported(SAMPLE, 2, top)
    ensures 9 in top && forall i :: 0 <= i < |top| ==> top[i] == 3 || top[i] == 9
  {
    forall i | 0 <= i < |top| ensures top[i] == 3 || top[i] == 9 {
      SampleSupport(top[i]);
    }
    FirstThreeDiffer(top);
    SampleSupport(9);
  }

  lemma FirstThreeDiffer(top: seq<nat>)
    requires forall i, j :: 0 <= i < j < |top| ==> top[i] != top[j]
    ensures |top| >= 3 ==> top[0] != top[1] && top[0] != top[2] && top[1] != top[2]
  {
  }

  lemma NinePicked(top: seq<nat>, len: int)
    requires Positive(top) && 9 in top && forall i :: 0 <= i < |top| ==> top[i] == 3 || top[i] == 9
    ensures FirstBest(SAMPLE, top, top[0], len) && AverageIC(SAMPLE, 3) < AverageIC(SAMPLE, 9) ==> len == 9
  {
    if FirstBest(SAMPLE, top, top[0], len) && AverageIC(SAMPLE, 3) < AverageIC(SAMPLE, 9) {
      var k :| 0 <= k < |top| && top[k] == 9;
      var b: nat :| FirstBestAt(SAMPLE, top, b) && len == top[b];
      assert AverageIC(SAMPLE, top[k]) <= AverageIC(SAMPLE, top[b]);
    }
  }

  /** The caller's bound is not kept: for the letters of ABCDEFGHIABC every guess from 2 up is nine. */
  lemma GuessExceedsRequest(len: int)
    ensures IsGuess(SAMPLE, 2, len) ==> len == 9 > REQUESTED_MAX
  {
    if IsGuess(SAMPLE, 2, len) {
      assert !NoSupport(SAMPLE, 2) by { SampleSupport(9); }
      var top :| MostSupported(SAMPLE, 2, top) && FirstBest(SAMPLE, top, top[0], len);
      SampleTop(top);
      assert AverageIC(SAMPLE, 3) < AverageIC(SAMPLE, 9) by {
        SampleByThree();
        SampleByNine();
      }
      NinePicked(top, len);
    }
  }

  lemma SixLetters(s: string, t: string)
    requires |s| == |t| == 3
    requires forall i :: 0 <= i < 3 ==> IsUpper(s[i]) && IsUpper(t[i])
    ensures Letters(s + t) == [Value(s[0]), Value(s[1]), Value(s[2]), Value(t[0]), Value(t[1]), Value(t[2])]
  {
    LettersConcat(s, t);
    Short(s);
    Short(t);
  }

  lemma SampleIsText()
    ensures Letters("ABC" + "DEF" + ("GHI" + "ABC")) == SAMPLE
  {
    LettersConcat("ABC" + "DEF", "GHI" + "ABC");
    SixLetters("ABC", "DEF");
    SixLetters("GHI", "ABC");
  }

  /** The analyzer itself, asked for at most seven letters, answers nine. */
  method GuessForSample() returns (len: int)
    ensures len == 9
  {
    SampleIsText();
    len := GuessKeyLength("ABC" + "DEF" + ("GHI" + "ABC"), 2);
    GuessExceedsRequest(len);
  }

  lemma Short(s: string)
    requires |s| == 3 && IsUpper(s[0]) && IsUpper(s[1]) && IsUpper(s[2])
    ensures Letters(s) == [Value(s[0]), Value(s[1]), Value(s[2])]
  {
    assert Letters(s[1..][1..][1..]) == [];
    assert Letters(s[1..][1..]) == [Value(s[2])];
    assert Letters(s[1..]) == [Value(s[1])] + [Value(s[2])];
  }
}
