/** Units of work and the static policy that cuts the key space into them. */
module Units {
  import opened Base26
  import opened Decryptor

  datatype Cipher = Caesar | Vigenere

  datatype Status = Unassigned | Leased | Done

  /** What every unit of one task carries unchanged. */
  datatype Params = Params(cipher: Cipher, mode: Mode, keyLength: nat, noise: real)

  datatype Unit = Unit(start: int, end: int, status: Status, params: Params) {
    predicate IsEnd() { start == -1 && end == -1 }

    predicate Contains(i: int) { start <= i <= end }

    /** A unit read back from a checkpoint: a lease does not survive, everything else does. */
    function Restored(): Unit {
      if status == Leased then this.(status := Unassigned) else this
    }
  }

  // ---------- the partition ----------

  function Min(a: int, b: int): int { if a <= b then a else b }

  /** The units cut from [start, total) in steps of `size`. */
  function Cut(start: int, total: int, size: int, params: Params): (units: seq<Unit>)
    requires size > 0
    ensures forall u :: u in units ==> u.status == Unassigned && u.params == params
    decreases total - start
  {
    if start >= total then []
    else
      var end := Min(start + size, total) - 1;
      [Unit(start, end, Unassigned, params)] + Cut(end + 1, total, size, params)
  }

  /** Contiguous, non-empty ranges of at most `size` keys covering exactly [from, total). */
  ghost predicate Tiles(units: seq<Unit>, from: int, total: int, size: int) {
    && (units == [] ==> from >= total)
    && (units != [] ==> units[0].start == from && units[|units| - 1].end == total - 1)
    && (forall i :: 0 <= i < |units| ==> units[i].start <= units[i].end < units[i].start + size)
    && (forall i :: 0 <= i < |units| - 1 ==>
          units[i + 1].start == units[i].end + 1 && units[i].end == units[i].start + size - 1)
  }

  lemma {:induction false} CutTiles(start: int, total: int, size: int, params: Params)
    requires size > 0
    ensures Tiles(Cut(start, total, size, params), start, total, size)
    decreases total - start
  {
    if start < total {
      var end := Min(start + size, total) - 1;
      CutTiles(end + 1, total, size, params);
    }
  }

  lemma {:induction false} TilesOrdered(units: seq<Unit>, from: int, total: int, size: int, i: nat, j: nat)
    requires Tiles(units, from, total, size) && i < j < |units|
    ensures units[i].end < units[j].start
    decreases j
  {
    if i < j - 1 {
      TilesOrdered(units, from, total, size, i, j - 1);
    }
    assert units[j - 1 + 1].start == units[j - 1].end + 1;
  }

  ghost predicate SomeUnitHolds(units: seq<Unit>, k: int) {
    exists i :: 0 <= i < |units| && units[i].Contains(k)
  }

  ghost predicate AtMostOneHolds(units: seq<Unit>, k: int) {
    forall i, j ::
      0 <= i < |units| && 0 <= j < |units| && units[i].Contains(k) && units[j].Contains(k) ==> i == j
  }

  /** Every key index belongs to exactly one unit, and units hold no other index. */
  lemma TilesPartition(units: seq<Unit>, from: int, total: int, size: int, k: int)
    requires Tiles(units, from, total, size)
    ensures from <= k < total <==> SomeUnitHolds(units, k)
    ensures AtMostOneHolds(units, k)
  {
    forall i, j | 0 <= i < |units| && 0 <= j < |units| && units[i].Contains(k) && units[j].Contains(k)
      ensures i == j
    {
      if i < j {
        TilesOrdered(units, from, total, size, i, j);
      } else if j < i {
        TilesOrdered(units, from, total, size, j, i);
      }
    }
    forall i | 0 <= i < |units| && units[i].Contains(k) ensures from <= k < total {
      if i > 0 {
        TilesOrdered(units, from, total, size, 0, i);
      }
      if i < |units| - 1 {
        TilesOrdered(units, from, total, size, i, |units| - 1);
      }
    }
    if from <= k < total {
      var i := FindUnit(units, from, total, size, k);
    }
  }

  lemma FindUnit(units: seq<Unit>, from: int, total: int, size: int, k: int) returns (i: nat)
    requires Tiles(units, from, total, size) && from <= k < total
    ensures i < |units| && units[i].Contains(k)
  {
    i := 0;
    while k > units[i].end
      invariant i < |units| && units[i].start <= k
      decreases |units| - i
    {
      i := i + 1;
    }
  }

  /** The policy's cut of a key space is an exact partition of it. */
  lemma ExactPartition(total: int, size: int, params: Params, k: int)
    requires size > 0
    ensures Tiles(Cut(0, total, size, params), 0, total, size)
    ensures 0 <= k < total <==> SomeUnitHolds(Cut(0, total, size, params), k)
    ensures AtMostOneHolds(Cut(0, total, size, params), k)
  {
    CutTiles(0, total, size, params);
    TilesPartition(Cut(0, total, size, params), 0, total, size, k);
  }

  // ---------- the policy object ----------

  class StaticPolicy {
    const totalKeys: int
    const unitSize: int
    const params: Params
    var currentStart: int

    constructor (totalKeys: int, unitSize: int, params: Params)
      ensures this.totalKeys == totalKeys && this.unitSize == unitSize && this.params == params
      ensures currentStart == 0
    {
      this.totalKeys, this.unitSize, this.params := totalKeys, unitSize, params;
      currentStart := 0;
    }

    /** The next unit of the cut, or the end marker once the key space is used up. The additions stay
        within 32 bits whenever the key space leaves room for one more unit. */
    method GetNextUnit() returns (unit: Unit)
      requires unitSize > 0 && currentStart >= 0
      modifies this
      ensures unit.IsEnd() <==> old(currentStart) >= totalKeys
      ensures unit.IsEnd() ==> currentStart == old(currentStart)
      ensures old(currentStart) < totalKeys ==>
                && old(currentStart) < currentStart <= totalKeys
                && Cut(old(currentStart), totalKeys, unitSize, params)
                   == [unit] + Cut(currentStart, totalKeys, unitSize, params)
      ensures totalKeys + unitSize <= INT32_MAX && old(currentStart) < totalKeys ==>
                old(currentStart) + unitSize <= INT32_MAX && 0 <= unit.start <= unit.end < currentStart <= INT32_MAX
    {
      if currentStart >= totalKeys {
        return Unit(-1, -1, Unassigned, params.(noise := 0.0));
      }
      var end := Min(currentStart + unitSize, totalKeys) - 1;
      unit := Unit(currentStart, end, Unassigned, params);
      currentStart := end + 1;
    }
  }

  const VIGENERE_UNIT := 10000

  /** The sums of get_next_unit stay within a 32-bit int on exactly the key lengths whose key space does. */
  lemma PolicyFitsInt32(len: nat)
    ensures Pow26(len) + VIGENERE_UNIT <= INT32_MAX <==> len <= 6
  {
  }
}
