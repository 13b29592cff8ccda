/** Chi-square scoring of decryption candidates: the decrypt-then-count form and the FAST form,
    which works on frequency tables of the cipher text and never decrypts. */
module Scoring {
  import opened Base26
  import opened Ciphers

  /** A score: a real, the `max()` sentinel, or the not-a-number that 0/0 leaves for an empty stream. */
  datatype Score = Finite(value: real) | Max | NaN

  /** The `<` of doubles: nothing is below or above NaN. */
  predicate Less(a: Score, b: Score) {
    a.Finite? && (b.Max? || (b.Finite? && a.value < b.value))
  }

  function Plus(a: Score, b: Score): Score {
    if a.Finite? && b.Finite? then Finite(a.value + b.value) else NaN
  }

  /** Relative letter frequencies of English, A to Z. */
  const ENGLISH_FREQS: seq<real> := [
    0.08167, 0.01492, 0.02782, 0.04253, 0.12702, 0.02228, 0.02015,
    0.06094, 0.06966, 0.00153, 0.00772, 0.04025, 0.02406, 0.06749,
    0.07507, 0.01929, 0.00095, 0.05987, 0.06327, 0.09056, 0.02758,
    0.00978, 0.02360, 0.00150, 0.01974, 0.00074]

  function Freq(c: nat): (f: real)
    requires c < 26
    ensures f > 0.0
  {
    ENGLISH_FREQS[c]
  }

  // ---------- the chi-square statistic ----------

  function Expected(n: nat, c: nat): (e: real)
    requires c < 26
    ensures e == 0.0 <==> n == 0
  {
    n as real * Freq(c)
  }

  function Term(observed: nat, n: nat, c: nat): real
    requires n > 0 && c < 26
  {
    var diff := observed as real - Expected(n, c);
    diff * diff / Expected(n, c)
  }

  function ChiUpTo(counts: seq<nat>, n: nat, k: nat): real
    requires |counts| == 26 && n > 0 && k <= 26
  {
    if k == 0 then 0.0 else ChiUpTo(counts, n, k - 1) + Term(counts[k - 1], n, k - 1)
  }

  function ChiSquare(counts: seq<nat>, n: nat): real
    requires |counts| == 26 && n > 0
  {
    ChiUpTo(counts, n, 26)
  }

  /** The quotient of the squared deviation: `q` times the expected count is the square of the deviation. */
  lemma TermQuotient(observed: nat, n: nat, c: nat)
    requires n > 0 && c < 26
    ensures var e := n as real * ENGLISH_FREQS[c];
            e > 0.0 && Term(observed, n, c) * e == (observed as real - e) * (observed as real - e)
  {
    var e := Expected(n, c);
    var d := observed as real - e;
    Divide(d * d, e);
  }

  lemma Divide(x: real, e: real)
    requires e != 0.0
    ensures x / e * e == x
  {
  }

  lemma PositiveSquare(d: real, x: real)
    requires d != 0.0 && x == d * d
    ensures x > 0.0
  {
    var a := if d > 0.0 then d else 0.0 - d;
    assert x == a * a;
    PositiveProduct(a, a, x);
  }

  lemma PositiveProduct(a: real, b: real, x: real)
    requires a > 0.0 && b > 0.0 && x == a * b
    ensures x > 0.0
  {
  }

  lemma SameQuotient(p: real, q: real, e: real)
    requires e != 0.0 && p * e == q * e
    ensures p == q
  {
    assert (p - q) * e == 0.0;
  }

  /** Where a letter is missing its term is the expected count. */
  lemma TermOfMissing(n: nat, c: nat)
    requires n > 0 && c < 26
    ensures Term(0, n, c) == n as real * ENGLISH_FREQS[c]
  {
    TermQuotient(0, n, c);
    MissingLetter(Term(0, n, c), Expected(n, c));
  }

  /** A term vanishes exactly where the count is as expected. */
  lemma TermVanishesIff(observed: nat, n: nat, c: nat)
    requires n > 0 && c < 26
    ensures Term(observed, n, c) == 0.0 <==> observed as real == n as real * ENGLISH_FREQS[c]
  {
    TermQuotient(observed, n, c);
    var e := n as real * ENGLISH_FREQS[c];
    ZeroQuotient(Term(observed, n, c), observed as real - e, e);
  }

  /** Twice the text has terms twice as large. */
  lemma TermDoubles(observed: nat, n: nat, c: nat)
    requires n > 0 && c < 26
    ensures Term(2 * observed, 2 * n, c) == 2.0 * Term(observed, n, c)
  {
    TermQuotient(observed, n, c);
    TermQuotient(2 * observed, 2 * n, c);
    TwiceExpected(n, c);
    DoubleTerm(Term(2 * observed, 2 * n, c), Term(observed, n, c), observed as real, n as real * ENGLISH_FREQS[c],
               (2 * observed) as real, (2 * n) as real * ENGLISH_FREQS[c]);
  }

  lemma TwiceExpected(n: nat, c: nat)
    requires c < 26
    ensures (2 * n) as real * ENGLISH_FREQS[c] == 2.0 * (n as real * ENGLISH_FREQS[c])
  {
  }

  lemma DoubleTerm(p: real, q: real, o: real, e: real, o': real, e': real)
    requires e > 0.0 && q * e == (o - e) * (o - e) && o' == 2.0 * o && e' == 2.0 * e
    requires p * e' == (o' - e') * (o' - e')
    ensures p == 2.0 * q
  {
    assert (o' - e') * (o' - e') == 4.0 * ((o - e) * (o - e));
    SameQuotient(p, 2.0 * q, 2.0 * e);
  }

  lemma MissingLetter(q: real, e: real)
    requires e > 0.0 && q * e == (0.0 - e) * (0.0 - e)
    ensures q == e
  {
    SameQuotient(q, e, e);
  }

  lemma ZeroQuotient(q: real, d: real, e: real)
    requires e > 0.0 && q * e == d * d
    ensures q == 0.0 <==> d == 0.0
  {
    if d == 0.0 {
      SameQuotient(q, 0.0, e);
    } else {
      PositiveSquare(d, q * e);
      assert q == 0.0 ==> q * e == 0.0;
    }
  }

  // ---------- closed form ----------

  function SumUpTo(xs: seq<real>, k: nat): real
    requires k <= |xs|
  {
    if k == 0 then 0.0 else SumUpTo(xs, k - 1) + xs[k - 1]
  }

  function Terms(counts: seq<nat>, n: nat): (ts: seq<real>)
    requires |counts| == 26 && n > 0
    ensures |ts| == 26 && forall c :: 0 <= c < 26 ==> ts[c] == Term(counts[c], n, c)
  {
    seq(26, c requires 0 <= c < 26 => Term(counts[c], n, c))
  }

  /** The squared counts, each over the frequency of its letter. */
  function Shares(counts: seq<nat>): (ss: seq<real>)
    requires |counts| == 26
    ensures |ss| == 26
    ensures forall c :: 0 <= c < 26 ==> ss[c] == counts[c] as real * counts[c] as real / ENGLISH_FREQS[c]
  {
    seq(26, c requires 0 <= c < 26 => counts[c] as real * counts[c] as real / Freq(c))
  }

  function Reals(counts: seq<nat>): (rs: seq<real>)
    ensures |rs| == |counts| && forall c :: 0 <= c < |counts| ==> rs[c] == counts[c] as real
  {
    seq(|counts|, c requires 0 <= c < |counts| => counts[c] as real)
  }

  /** The letters of English from the most to the least frequent, as places in the alphabet. */
  const BY_FREQUENCY: seq<nat> :=
    [4, 19, 0, 14, 8, 13, 18, 7, 17, 3, 11, 2, 20, 12, 22, 5, 6, 24, 15, 1, 21, 10, 9, 23, 16, 25]

  /** E, T, A, O, I, N, ...: the table is in the order of the alphabet. */
  lemma FrequenciesInOrder(i: nat)
    requires i < 25
    ensures BY_FREQUENCY[i] < 26 && BY_FREQUENCY[i + 1] < 26
    ensures Freq(BY_FREQUENCY[i]) > Freq(BY_FREQUENCY[i + 1])
  {
  }

  lemma FrequenciesTotal()
    ensures SumUpTo(ENGLISH_FREQS, 26) == 0.99999
  {
    assert SumUpTo(ENGLISH_FREQS, 5) == 0.29396;
    assert SumUpTo(ENGLISH_FREQS, 10) == 0.46852;
    assert SumUpTo(ENGLISH_FREQS, 15) == 0.68311;
    assert SumUpTo(ENGLISH_FREQS, 20) == 0.91705;
  }

  lemma {:induction false} ChiIsSum(counts: seq<nat>, n: nat, k: nat)
    requires |counts| == 26 && n > 0 && k <= 26
    ensures ChiUpTo(counts, n, k) == SumUpTo(Terms(counts, n), k)
  {
    if k == 0 {
    } else {
      ChiIsSum(counts, n, k - 1);
    }
  }

  /** A term times `n`, without a quotient by `n`. */
  ghost predicate Expands(y: real, b: real, o: real, f: real, n: real) { y * n == b - 2.0 * (n * o) + n * n * f }

  lemma ExpandsAdds(y: real, b: real, o: real, f: real, y': real, b': real, o': real, f': real, n: real)
    requires Expands(y, b, o, f, n) && Expands(y', b', o', f', n)
    ensures Expands(y + y', b + b', o + o', f + f', n)
  {
    assert (y + y') * n == y * n + y' * n;
    assert n * (o + o') == n * o + n * o';
    assert n * n * (f + f') == n * n * f + n * n * f';
  }

  lemma {:induction false} SumExpands(ys: seq<real>, bs: seq<real>, os: seq<real>, fs: seq<real>, n: real, k: nat)
    requires k <= |ys| == |bs| == |os| == |fs|
    requires forall c :: 0 <= c < |ys| ==> Expands(ys[c], bs[c], os[c], fs[c], n)
    ensures Expands(SumUpTo(ys, k), SumUpTo(bs, k), SumUpTo(os, k), SumUpTo(fs, k), n)
  {
    if k == 0 {
    } else {
      var c := k - 1;
      SumExpands(ys, bs, os, fs, n, c);
      ExpandsAdds(SumUpTo(ys, c), SumUpTo(bs, c), SumUpTo(os, c), SumUpTo(fs, c), ys[c], bs[c], os[c], fs[c], n);
    }
  }

  lemma TermExpands(observed: nat, n: nat, c: nat)
    requires n > 0 && c < 26
    ensures Expands(Term(observed, n, c), observed as real * observed as real / ENGLISH_FREQS[c], observed as real,
                    ENGLISH_FREQS[c], n as real)
  {
    TermQuotient(observed, n, c);
    SquareExpands(Term(observed, n, c), observed as real, n as real, Freq(c));
  }

  lemma SquareExpands(y: real, o: real, n: real, f: real)
    requires n > 0.0 && f > 0.0 && y * (n * f) == (o - n * f) * (o - n * f)
    ensures Expands(y, o * o / f, o, f, n)
  {
    var b := o * o / f;
    Divide(o * o, f);
    assert y * n * f == y * (n * f);
    assert (b - 2.0 * (n * o) + n * n * f) * f == b * f - 2.0 * (n * o) * f + n * n * f * f;
    assert (o - n * f) * (o - n * f) == o * o - 2.0 * (n * o) * f + n * n * f * f;
    SameQuotient(y * n, b - 2.0 * (n * o) + n * n * f, f);
  }

  lemma {:induction false} RealsTotal(counts: seq<nat>, k: nat)
    requires k <= |counts|
    ensures SumUpTo(Reals(counts), k) == Total(counts, k) as real
  {
    if k == 0 {
    } else {
      RealsTotal(counts, k - 1);
    }
  }

  function Total(counts: seq<nat>, k: nat): nat
    requires k <= |counts|
  {
    if k == 0 then 0 else Total(counts, k - 1) + counts[k - 1]
  }

  predicate Closed(y: real, shares: real, n: real) { y * n == shares - 1.00001 * (n * n) }

  lemma ChiExpands(counts: seq<nat>, n: nat)
    requires |counts| == 26 && n > 0
    ensures Expands(ChiSquare(counts, n), SumUpTo(Shares(counts), 26), SumUpTo(Reals(counts), 26),
                    SumUpTo(ENGLISH_FREQS, 26), n as real)
  {
    AllExpand(counts, n);
    SumExpands(Terms(counts, n), Shares(counts), Reals(counts), ENGLISH_FREQS, n as real, 26);
    ChiIsSum(counts, n, 26);
  }

  lemma AllExpand(counts: seq<nat>, n: nat)
    requires |counts| == 26 && n > 0
    ensures forall c :: 0 <= c < 26 ==>
              Expands(Terms(counts, n)[c], Shares(counts)[c], Reals(counts)[c], ENGLISH_FREQS[c], n as real)
  {
    forall c | 0 <= c < 26
      ensures Expands(Terms(counts, n)[c], Shares(counts)[c], Reals(counts)[c], ENGLISH_FREQS[c], n as real)
    {
      OneExpands(counts, n, c, Terms(counts, n)[c], Shares(counts)[c]);
    }
  }

  lemma OneExpands(counts: seq<nat>, n: nat, c: nat, y: real, b: real)
    requires |counts| == 26 && n > 0 && c < 26 && y == Term(counts[c], n, c)
    requires b == counts[c] as real * counts[c] as real / ENGLISH_FREQS[c]
    ensures Expands(y, b, counts[c] as real, ENGLISH_FREQS[c], n as real)
  {
    TermExpands(counts[c], n, c);
  }

  /** Pearson's statistic in closed form, for counts that add up to `n`: `n` times it is the sum of the squared counts,
      each over its letter's frequency, less the square of `n` times two minus the total frequency. */
  lemma ChiClosedForm(counts: seq<nat>, n: nat)
    requires |counts| == 26 && n > 0 && Total(counts, 26) == n
    ensures Closed(ChiSquare(counts, n), SumUpTo(Shares(counts), 26), n as real)
  {
    ChiExpands(counts, n);
    RealsTotal(counts, 26);
    FrequenciesTotal();
    Collect(ChiSquare(counts, n), SumUpTo(Shares(counts), 26), SumUpTo(Reals(counts), 26), SumUpTo(ENGLISH_FREQS, 26),
            n as real);
  }

  lemma Collect(y: real, b: real, o: real, f: real, n: real)
    requires Expands(y, b, o, f, n) && o == n && f == 0.99999
    ensures Closed(y, b, n)
  {
  }

  // ---------- streams: the letters at positions pos, pos + len, pos + 2 len, ... ----------

  function StreamCount(ls: seq<nat>, len: nat, pos: nat, v: nat): (n: nat)
    requires len > 0
    ensures n <= StreamSize(ls, len, pos)
  {
    if ls == [] then 0
    else
      var j := |ls| - 1;
      StreamCount(ls[..j], len, pos, v) + (if j % len == pos && ls[j] == v then 1 else 0)
  }

  function StreamSize(ls: seq<nat>, len: nat, pos: nat): nat
    requires len > 0
  {
    if ls == [] then 0
    else
      var j := |ls| - 1;
      StreamSize(ls[..j], len, pos) + (if j % len == pos then 1 else 0)
  }

  function Table(ls: seq<nat>, len: nat, pos: nat): (t: seq<nat>)
    requires len > 0
    ensures |t| == 26
    ensures forall v :: 0 <= v < 26 ==> t[v] == StreamCount(ls, len, pos, v)
  {
    seq(26, v requires 0 <= v < 26 => StreamCount(ls, len, pos, v))
  }

  ghost predicate AllStreamsNonEmpty(ls: seq<nat>, len: nat)
    requires len > 0
  {
    StreamsNonEmptyUpTo(ls, len, len)
  }

  ghost predicate StreamsNonEmptyUpTo(ls: seq<nat>, len: nat, k: nat)
    requires len > 0
  {
    forall i :: 0 <= i < k ==> StreamSize(ls, len, i) > 0
  }

  /** Every stream has a letter exactly when the text has at least one letter per key letter. */
  lemma {:induction false} StreamsNonEmptyIff(ls: seq<nat>, len: nat)
    requires len > 0
    ensures AllStreamsNonEmpty(ls, len) <==> |ls| >= len
  {
    forall i | 0 <= i < len ensures StreamSize(ls, len, i) > 0 <==> i < |ls| {
      StreamSizePositive(ls, len, i);
    }
    if |ls| < len {
      StreamSizePositive(ls, len, len - 1);
      assert StreamSize(ls, len, len - 1) == 0;
    }
  }

  lemma {:induction false} StreamSizePositive(ls: seq<nat>, len: nat, i: nat)
    requires i < len
    ensures StreamSize(ls, len, i) > 0 <==> i < |ls|
  {
    if ls == [] {
    } else {
      StreamSizePositive(ls[..|ls| - 1], len, i);
      if |ls| - 1 < len {
        assert (|ls| - 1) % len == |ls| - 1;
      }
    }
  }

  ghost function StreamPositions(ls: seq<nat>, len: nat, pos: nat): set<nat>
    requires len > 0
  {
    set j: nat | j < |ls| && j % len == pos
  }

  ghost function LetterPositions(ls: seq<nat>, len: nat, pos: nat, v: nat): set<nat>
    requires len > 0
  {
    set j: nat | j < |ls| && j % len == pos && ls[j] == v
  }

  lemma {:induction false} SizeCountsPositions(ls: seq<nat>, len: nat, pos: nat)
    requires len > 0
    ensures StreamSize(ls, len, pos) == |StreamPositions(ls, len, pos)|
  {
    if ls == [] {
      assert StreamPositions(ls, len, pos) == {};
    } else {
      var j := |ls| - 1;
      SizeCountsPositions(ls[..j], len, pos);
      var before, after := StreamPositions(ls[..j], len, pos), StreamPositions(ls, len, pos);
      assert after == if j % len == pos then before + {j} else before;
    }
  }

  lemma {:induction false} CountCountsPositions(ls: seq<nat>, len: nat, pos: nat, v: nat)
    requires len > 0
    ensures StreamCount(ls, len, pos, v) == |LetterPositions(ls, len, pos, v)|
  {
    if ls == [] {
      assert LetterPositions(ls, len, pos, v) == {};
    } else {
      var j := |ls| - 1;
      CountCountsPositions(ls[..j], len, pos, v);
      var before, after := LetterPositions(ls[..j], len, pos, v), LetterPositions(ls, len, pos, v);
      assert after == if j % len == pos && ls[j] == v then before + {j} else before;
    }
  }

  /** The tables count positions: those of the stream, and those of the stream that hold a given letter. */
  lemma StreamsCountPositions(ls: seq<nat>, len: nat, pos: nat, v: nat)
    requires len > 0
    ensures StreamSize(ls, len, pos) == |set j: nat | j < |ls| && j % len == pos|
    ensures StreamCount(ls, len, pos, v) == |set j: nat | j < |ls| && j % len == pos && ls[j] == v|
  {
    SizeCountsPositions(ls, len, pos);
    CountCountsPositions(ls, len, pos, v);
    assert StreamPositions(ls, len, pos) == set j: nat | j < |ls| && j % len == pos;
    assert LetterPositions(ls, len, pos, v) == set j: nat | j < |ls| && j % len == pos && ls[j] == v;
  }

  lemma {:induction false} TotalSnoc(ls: seq<nat>, x: nat, len: nat, pos: nat, k: nat)
    requires len > 0 && k <= 26
    ensures Total(Table(ls + [x], len, pos), k)
         == Total(Table(ls, len, pos), k) + (if |ls| % len == pos && x < k then 1 else 0)
  {
    if k == 0 {
    } else {
      TotalSnoc(ls, x, len, pos, k - 1);
      StreamSnoc(ls, x, len);
    }
  }

  lemma {:induction false} NoLettersTotal(len: nat, pos: nat, k: nat)
    requires len > 0 && k <= 26
    ensures Total(Table([], len, pos), k) == 0
  {
    if k == 0 {
    } else {
      NoLettersTotal(len, pos, k - 1);
    }
  }

  /** A table adds up to the size of its stream. */
  lemma {:induction false} TableTotal(ls: seq<nat>, len: nat, pos: nat)
    requires len > 0 && forall j :: 0 <= j < |ls| ==> ls[j] < 26
    ensures Total(Table(ls, len, pos), 26) == StreamSize(ls, len, pos)
  {
    if ls == [] {
      NoLettersTotal(len, pos, 26);
    } else {
      var j := |ls| - 1;
      TableTotal(ls[..j], len, pos);
      TotalSnoc(ls[..j], ls[j], len, pos, 26);
      assert ls[..j] + [ls[j]] == ls;
    }
  }

  ghost function LetterCounts(ls: seq<nat>): (counts: seq<nat>)
    ensures |counts| == 26
  {
    seq(26, v requires 0 <= v < 26 => |LetterPositions(ls, 1, 0, v)|)
  }

  /** Pearson's statistic of a text with letters `ls`, from the number of positions of each letter. */
  ghost predicate IsPearson(score: Score, ls: seq<nat>) {
    if ls == [] then score == Max
    else
      score.Finite? && Closed(score.value, SumUpTo(Shares(LetterCounts(ls)), 26), |ls| as real)
  }

  lemma {:induction false} WholeStream(ls: seq<nat>)
    ensures StreamSize(ls, 1, 0) == |ls| && LetterCounts(ls) == Table(ls, 1, 0)
  {
    forall v | 0 <= v < 26 ensures LetterCounts(ls)[v] == Table(ls, 1, 0)[v] {
      CountCountsPositions(ls, 1, 0, v);
    }
    AllInOneStream(ls);
  }

  lemma {:induction false} AllInOneStream(ls: seq<nat>)
    ensures StreamSize(ls, 1, 0) == |ls|
  {
    if ls == [] {
    } else {
      AllInOneStream(ls[..|ls| - 1]);
    }
  }

  lemma CountsArePearson(ls: seq<nat>)
    requires ls != [] && forall j :: 0 <= j < |ls| ==> ls[j] < 26
    ensures IsPearson(Finite(ChiSquare(LetterCounts(ls), |ls|)), ls)
  {
    WholeStream(ls);
    TableTotal(ls, 1, 0);
    ChiClosedForm(LetterCounts(ls), |ls|);
  }

  /** The score of a text is Pearson's statistic of its letter counts against the English frequencies. */
  lemma TextScoreIsPearson(text: string)
    ensures IsPearson(TextScore(text), Letters(text))
  {
    var ls := Letters(text);
    if ls != [] {
      CountsArePearson(ls);
      WholeStream(ls);
      assert TextScore(text) == Finite(ChiSquare(LetterCounts(ls), |ls|));
    }
  }

  // ---------- decrypt-then-count ----------

  /** Sum of the chi-squares of the first `k` streams of a plain text. */
  function StreamsSum(ls: seq<nat>, len: nat, k: nat): real
    requires 0 < len && k <= len
    requires forall i :: 0 <= i < k ==> StreamSize(ls, len, i) > 0
  {
    if k == 0 then 0.0
    else StreamsSum(ls, len, k - 1) + ChiSquare(Table(ls, len, k - 1), StreamSize(ls, len, k - 1))
  }

  ghost function StreamsScore(ls: seq<nat>, len: nat): Score
    requires len > 0
  {
    if AllStreamsNonEmpty(ls, len) then Finite(StreamsSum(ls, len, len)) else NaN
  }

  /** calculate_score: chi-square of the whole text, the sentinel for a text without letters. */
  ghost function TextScore(text: string): Score {
    var ls := Letters(text);
    if ls == [] then Max else
      StreamSizePositive(ls, 1, 0);
      Finite(ChiSquare(Table(ls, 1, 0), StreamSize(ls, 1, 0)))
  }

  method CountLetters(text: string) returns (count: array<nat>, total: nat)
    ensures fresh(count)
    ensures total == StreamSize(Letters(text), 1, 0)
    ensures count.Length == 26 && count[..] == Table(Letters(text), 1, 0)
  {
    count := new nat[26](_ => 0);
    total := 0;
    assert Letters(text[..0]) == [];
    for i := 0 to |text|
      invariant total == StreamSize(Letters(text[..i]), 1, 0)
      invariant count.Length == 26
      invariant forall v :: 0 <= v < 26 ==> count[v] == StreamCount(Letters(text[..i]), 1, 0, v)
    {
      assert text[..i + 1] == text[..i] + [text[i]];
      LettersSnoc(text[..i], text[i]);
      if IsAlpha(text[i]) {
        var index := Value(text[i]);
        StreamSnoc(Letters(text[..i]), index, 1);
        count[index] := count[index] + 1;
        total := total + 1;
      }
    }
    assert text[..|text|] == text;
  }

  method CalculateScore(text: string) returns (score: Score)
    ensures score == TextScore(text) && IsPearson(score, Letters(text))
  {
    TextScoreIsPearson(text);
    var count, total := CountLetters(text);
    ghost var ls := Letters(text);
    StreamSizePositive(ls, 1, 0);
    if total == 0 {
      return Max;
    }
    ghost var table := Table(ls, 1, 0);
    var sum := 0.0;
    for i := 0 to 26
      invariant sum == ChiUpTo(table, total, i)
    {
      assert count[i] == count[..][i];
      sum := sum + Term(count[i], total, i);
    }
    score := Finite(sum);
  }

  lemma StreamSnoc(ls: seq<nat>, x: nat, len: nat)
    requires len > 0
    ensures forall i :: StreamSize(ls + [x], len, i) == StreamSize(ls, len, i) + (if |ls| % len == i then 1 else 0)
    ensures forall i, v :: StreamCount(ls + [x], len, i, v)
                        == StreamCount(ls, len, i, v) + (if |ls| % len == i && x == v then 1 else 0)
  {
  }

  // ---------- the FAST form ----------

  /** A stream's table as seen through a shift: the letter that becomes `c` stands at c + shift. */
  function Shifted(t: seq<nat>, shift: nat): (s: seq<nat>)
    requires |t| == 26
    ensures |s| == 26
    ensures forall c :: 0 <= c < 26 ==> s[c] == t[(c + shift) % 26]
  {
    seq(26, c requires 0 <= c < 26 => t[(c + shift) % 26])
  }

  /** Chi-square of stream `i` of the cipher text under key letter `d`. */
  function LetterScore(ls: seq<nat>, len: nat, i: nat, d: nat): real
    requires len > 0 && StreamSize(ls, len, i) > 0
  {
    ChiSquare(Shifted(Table(ls, len, i), d), StreamSize(ls, len, i))
  }

  ghost function FastSum(ls: seq<nat>, key: string, k: nat): real
    requires key != "" && IsKey(key) && k <= |key|
    requires AllStreamsNonEmpty(ls, |key|)
  {
    if k == 0 then 0.0 else FastSum(ls, key, k - 1) + LetterScore(ls, |key|, k - 1, Digit(key[k - 1]))
  }

  /** score_for_key over the tables of a cipher text with letters `ls`. */
  ghost function FastScore(ls: seq<nat>, key: string): Score
    requires key != "" && IsKey(key)
  {
    if AllStreamsNonEmpty(ls, |key|) then Finite(FastSum(ls, key, |key|)) else NaN
  }

  /** `ms` is `ls` decrypted letter by letter with `key`. */
  ghost predicate Unshifted(ms: seq<nat>, ls: seq<nat>, key: string)
    requires key != "" && IsKey(key)
  {
    |ms| == |ls| && forall j :: 0 <= j < |ls| ==> ms[j] == (ls[j] - Digit(key[j % |key|]) + 26) % 26
  }

  lemma {:induction false} CountsMove(ms: seq<nat>, ls: seq<nat>, key: string, i: nat, c: nat)
    requires key != "" && IsKey(key) && i < |key| && c < 26
    requires forall j :: 0 <= j < |ls| ==> ls[j] < 26
    requires Unshifted(ms, ls, key)
    ensures StreamSize(ms, |key|, i) == StreamSize(ls, |key|, i)
    ensures StreamCount(ms, |key|, i, c) == StreamCount(ls, |key|, i, (c + Digit(key[i])) % 26)
  {
    if ls == [] {
    } else {
      var j := |ls| - 1;
      CountsMove(ms[..j], ls[..j], key, i, c);
      if j % |key| == i {
        ShiftIff(ls[j], Digit(key[i]), c);
      }
    }
  }

  lemma ShiftIff(v: nat, d: nat, c: nat)
    requires v < 26 && d < 26 && c < 26
    ensures (v - d + 26) % 26 == c <==> v == (c + d) % 26
  {
  }

  lemma {:induction false} SumsMove(ms: seq<nat>, ls: seq<nat>, key: string, k: nat)
    requires key != "" && IsKey(key) && k <= |key|
    requires forall j :: 0 <= j < |ls| ==> ls[j] < 26
    requires Unshifted(ms, ls, key)
    requires AllStreamsNonEmpty(ls, |key|) && AllStreamsNonEmpty(ms, |key|)
    ensures FastSum(ls, key, k) == StreamsSum(ms, |key|, k)
  {
    if k == 0 {
    } else {
      var i := k - 1;
      SumsMove(ms, ls, key, i);
      forall c | 0 <= c < 26
        ensures Table(ms, |key|, i)[c] == Shifted(Table(ls, |key|, i), Digit(key[i]))[c]
      {
        CountsMove(ms, ls, key, i, c);
      }
      CountsMove(ms, ls, key, i, 0);
      assert Table(ms, |key|, i) == Shifted(Table(ls, |key|, i), Digit(key[i]));
    }
  }

  /** The FAST score of a key, computed without decrypting, is the sum over the key's streams of the
      chi-squares of the decrypted text; both are NaN exactly when the text is shorter than the key. */
  lemma {:induction false} FastRefinesDecryptThenCount(text: string, key: string)
    requires key != "" && IsKey(key)
    ensures FastScore(Letters(text), key) == StreamsScore(Letters(Decrypt(text, key)), |key|)
    ensures FastScore(Letters(text), key).Finite? <==> |Letters(text)| >= |key|
  {
    var ls, ms := Letters(text), Letters(Decrypt(text, key));
    if ls == [] {
      DecryptKeepsLetterCount(text, key, 0);
    } else {
      forall j | 0 <= j < |ls| ensures |ms| == |ls| && ms[j] == (ls[j] - Digit(key[j % |key|]) + 26) % 26 {
        LettersOfDecrypt(text, key, 0, j);
      }
      assert |ms| == |ls| by {
        LettersOfDecrypt(text, key, 0, 0);
      }
    }
    StreamsNonEmptyIff(ls, |key|);
    StreamsNonEmptyIff(ms, |key|);
    if |ls| >= |key| {
      SumsMove(ms, ls, key, |key|);
    }
  }

  /** For one-letter keys FAST is the plain chi-square score of the decryption, on exactly the texts
      that have a letter (on the others one form gives NaN and the other the sentinel). */
  lemma {:induction false} OneLetterFastIsTextScore(text: string, key: string)
    requires |key| == 1 && IsKey(key)
    ensures FastScore(Letters(text), key) == TextScore(Decrypt(text, key)) <==> Letters(text) != []
  {
    FastRefinesDecryptThenCount(text, key);
    var ms := Letters(Decrypt(text, key));
    if Letters(text) == [] {
      DecryptKeepsLetterCount(text, key, 0);
    } else {
      LettersOfDecrypt(text, key, 0, 0);
      StreamsNonEmptyIff(ms, 1);
      assert StreamsSum(ms, 1, 1) == StreamsSum(ms, 1, 0) + ChiSquare(Table(ms, 1, 0), StreamSize(ms, 1, 0));
    }
  }

  // ---------- the FAST optimum ----------

  lemma {:induction false} ReplaceLetter(ls: seq<nat>, key: string, i: nat, d: nat, k: nat)
    requires IsKey(key) && i < |key| && d < 26 && k <= |key|
    requires AllStreamsNonEmpty(ls, |key|)
    ensures IsKey(key[i := Letter(d)])
    ensures FastSum(ls, key[i := Letter(d)], k)
         == FastSum(ls, key, k)
            + (if i < k then LetterScore(ls, |key|, i, d) - LetterScore(ls, |key|, i, Digit(key[i])) else 0.0)
  {
    if k == 0 {
    } else {
      ReplaceLetter(ls, key, i, d, k - 1);
    }
  }

  lemma {:induction false} LetterwiseBelow(ls: seq<nat>, key: string, other: string, k: nat)
    requires key != "" && |other| == |key| && IsKey(key) && IsKey(other) && k <= |key|
    requires AllStreamsNonEmpty(ls, |key|)
    requires LetterwiseOptimal(ls, key)
    ensures FastSum(ls, key, k) <= FastSum(ls, other, k)
  {
    if k == 0 {
    } else {
      LetterwiseBelow(ls, key, other, k - 1);
      assert LetterScore(ls, |key|, k - 1, Digit(key[k - 1])) <= LetterScore(ls, |key|, k - 1, Digit(other[k - 1]));
    }
  }

  ghost predicate LetterwiseOptimal(ls: seq<nat>, key: string)
    requires key != "" && IsKey(key) && AllStreamsNonEmpty(ls, |key|)
  {
    forall i, d {:trigger LetterScore(ls, |key|, i, d)} :: 0 <= i < |key| && 0 <= d < 26 ==>
      LetterScore(ls, |key|, i, Digit(key[i])) <= LetterScore(ls, |key|, i, d)
  }

  ghost predicate FastOptimal(ls: seq<nat>, key: string)
    requires key != "" && IsKey(key)
  {
    forall other :: |other| == |key| && IsKey(other) ==> !Less(FastScore(ls, other), FastScore(ls, key))
  }

  /** A key minimises the FAST score over all keys of its length exactly when each of its letters on its
      own minimises the chi-square of its stream. */
  lemma {:induction false} FastOptimumIsLetterwise(ls: seq<nat>, key: string)
    requires key != "" && IsKey(key) && |ls| >= |key|
    ensures AllStreamsNonEmpty(ls, |key|)
    ensures FastOptimal(ls, key) <==> LetterwiseOptimal(ls, key)
  {
    StreamsNonEmptyIff(ls, |key|);
    if FastOptimal(ls, key) {
      forall i, d {:trigger LetterScore(ls, |key|, i, d)} | 0 <= i < |key| && 0 <= d < 26
        ensures LetterScore(ls, |key|, i, Digit(key[i])) <= LetterScore(ls, |key|, i, d)
      {
        ReplaceLetter(ls, key, i, d, |key|);
        var other := key[i := Letter(d)];
        assert !Less(FastScore(ls, other), FastScore(ls, key));
      }
    }
    if LetterwiseOptimal(ls, key) {
      forall other | |other| == |key| && IsKey(other)
        ensures !Less(FastScore(ls, other), FastScore(ls, key))
      {
        LetterwiseBelow(ls, key, other, |key|);
      }
    }
  }
}
