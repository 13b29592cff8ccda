/** The base-26 key codec shared by the coordinator, the network hop and the worker:
    an index into the key space and the upper-case key it stands for. */
module Base26 {

  const INT32_MAX := 0x7FFF_FFFF

  function Pow26(len: nat): (p: nat)
    ensures p >= 1
  {
    if len == 0 then 1 else 26 * Pow26(len - 1)
  }

  predicate IsKey(key: string) {
    forall i :: 0 <= i < |key| ==> 'A' <= key[i] <= 'Z'
  }

  function Letter(d: nat): (c: char)
    requires d < 26
    ensures 'A' <= c <= 'Z' && Digit(c) == d
  {
    ('A' as int + d) as char
  }

  function Digit(c: char): (d: nat)
    requires 'A' <= c <= 'Z'
    ensures d < 26
  {
    c as int - 'A' as int
  }

  /** The key that index `idx` stands for, most significant letter first. Higher digits are cut off. */
  function KeyOf(idx: nat, len: nat): (key: string)
    ensures |key| == len && IsKey(key)
  {
    if len == 0 then "" else KeyOf(idx / 26, len - 1) + [Letter(idx % 26)]
  }

  /** The index of an upper-case key. */
  function IndexOf(key: string): (idx: nat)
    requires IsKey(key)
    ensures idx < Pow26(|key|)
  {
    if key == "" then 0 else
      assert IsKey(key[..|key| - 1]);
      IndexOf(key[..|key| - 1]) * 26 + Digit(key[|key| - 1])
  }

  /** Letter `i` of a key is the digit of its index with weight 26 to the number of letters after it. */
  lemma {:induction false} KeyOfAt(idx: nat, len: nat, i: nat)
    requires i < len
    ensures KeyOf(idx, len)[i] as int == 65 + idx / Pow26(len - 1 - i) % 26
  {
    if i == len - 1 {
    } else {
      KeyOfAt(idx / 26, len - 1, i);
      DivideTwice(idx, Pow26(len - 2 - i));
    }
  }

  lemma DivideTwice(x: nat, p: nat)
    requires p >= 1
    ensures x / 26 / p == x / (26 * p)
  {
    var q := x / 26;
    var r := (q % p) * 26 + x % 26;
    assert q == (q / p) * p + q % p;
    assert x == (q / p) * (26 * p) + r by {
      assert (q / p) * p * 26 == (q / p) * (26 * p);
    }
    RemainderIsUnique(x, 26 * p, q / p, r);
  }

  lemma {:induction false} IndexOfKeyOf(idx: nat, len: nat)
    ensures IndexOf(KeyOf(idx, len)) == idx % Pow26(len)
  {
    if len == 0 {
    } else {
      var p := Pow26(len - 1);
      var key := KeyOf(idx, len);
      assert key[..len - 1] == KeyOf(idx / 26, len - 1);
      IndexOfKeyOf(idx / 26, len - 1);
      assert IndexOf(key) == idx / 26 % p * 26 + idx % 26;
      SplitDigit(idx, p);
    }
  }

  lemma SplitDigit(idx: nat, p: nat)
    requires p >= 1
    ensures (idx / 26 % p) * 26 + idx % 26 == idx % (26 * p)
  {
    var q := idx / 26;
    var r := (q % p) * 26 + idx % 26;
    assert q == (q / p) * p + q % p;
    assert idx == q * 26 + idx % 26;
    assert idx == (q / p) * (26 * p) + r by {
      assert (q / p) * p * 26 == (q / p) * (26 * p);
    }
    RemainderIsUnique(idx, 26 * p, q / p, r);
  }

  lemma RemainderIsUnique(x: nat, m: nat, k: nat, r: nat)
    requires m >= 1 && x == k * m + r && r < m
    ensures x % m == r && x / m == k
  {
    var d := k - x / m;
    assert d * m == x % m - r;
    SmallMultiple(d, m);
  }

  lemma SmallMultiple(d: int, m: nat)
    ensures 0 - m < d * m < m ==> d == 0
  {
  }

  lemma {:induction false} KeyOfIndexOf(key: string)
    requires IsKey(key)
    ensures KeyOf(IndexOf(key), |key|) == key
  {
    if key == "" {
    } else {
      var front := key[..|key| - 1];
      KeyOfIndexOf(front);
      var d := Digit(key[|key| - 1]);
      RemainderIsUnique(IndexOf(front) * 26 + d, 26, IndexOf(front), d);
      assert key == front + [key[|key| - 1]];
    }
  }

  lemma {:induction false} HopKeepsIndex(i: nat, len: nat)
    requires i < Pow26(len)
    ensures IndexOf(KeyOf(i, len)) == i
  {
    IndexOfKeyOf(i, len);
    RemainderIsUnique(i, Pow26(len), 0, i);
  }

  /** The two directions of the coordinator-to-worker hop are mutual inverses on the key space. */
  lemma CodecRoundTrip(idx: nat, key: string)
    requires idx < Pow26(|key|) && IsKey(key)
    ensures IndexOf(KeyOf(idx, |key|)) == idx
    ensures KeyOf(IndexOf(key), |key|) == key
    ensures KeyOf(idx, |key|) == key <==> IndexOf(key) == idx
  {
    HopKeepsIndex(idx, |key|);
    KeyOfIndexOf(key);
  }

  /** index_to_key and index_to_vigenere_key: the key is filled from its last letter backwards. */
  method IndexToKey(idx: nat, len: nat) returns (key: string)
    ensures key == KeyOf(idx, len)
  {
    var a := new char[len](_ => 'A');
    var rest, i := idx, len;
    assert a[len..] == "";
    while i > 0
      invariant 0 <= i <= len
      invariant KeyOf(rest, i) + a[i..] == KeyOf(idx, len)
    {
      i := i - 1;
      a[i] := Letter(rest % 26);
      assert a[i..] == [Letter(rest % 26)] + a[i + 1..];
      rest := rest / 26;
    }
    key := a[..];
  }

  /** A byte as C++ reads it from a signed char. */
  function SignedByte(c: char): (b: int)
    ensures -128 <= b < 128 && (c as int - b) % 256 == 0
  {
    if c as int % 256 < 128 then c as int % 256 else c as int % 256 - 256
  }

  /** The number that Horner's rule makes of any bytes, upper-case letters or not. */
  function Horner(bytes: string): int {
    if bytes == "" then 0
    else Horner(bytes[..|bytes| - 1]) * 26 + (SignedByte(bytes[|bytes| - 1]) - 'A' as int)
  }

  lemma {:induction false} HornerIsIndex(key: string)
    requires IsKey(key)
    ensures Horner(key) == IndexOf(key)
  {
    if key == "" {
    } else {
      HornerIsIndex(key[..|key| - 1]);
    }
  }

  /** The first byte weighs most. */
  lemma {:induction false} HornerFront(c: char, rest: string)
    ensures Horner([c] + rest) == (SignedByte(c) - 65) * Pow26(|rest|) + Horner(rest)
  {
    if rest == "" {
      assert [c] + rest == [c] && [c][..0] == "";
    } else {
      var n := |rest| - 1;
      var front := rest[..n];
      HornerFront(c, front);
      assert ([c] + rest)[..|rest|] == [c] + front;
      var w := SignedByte(c) - 65;
      assert (w * Pow26(n) + Horner(front)) * 26 == w * Pow26(n + 1) + Horner(front) * 26 by {
        Regroup(w, Pow26(n));
      }
    }
  }

  lemma Regroup(w: int, p: nat)
    ensures w * p * 26 == w * (26 * p)
  {
  }

  /** key_to_index: on a key it is the key's index. */
  method KeyToIndex(key: string) returns (idx: int)
    ensures idx == Horner(key)
    ensures IsKey(key) ==> idx == IndexOf(key) && (|key| <= 6 ==> 0 <= idx <= INT32_MAX)
  {
    idx := 0;
    for i := 0 to |key|
      invariant idx == Horner(key[..i])
    {
      assert key[..i + 1][..i] == key[..i];
      idx := idx * 26 + (SignedByte(key[i]) - 'A' as int);
    }
    assert key[..|key|] == key;
    if IsKey(key) {
      HornerIsIndex(key);
      KeySpaceFitsInt32(|key|);
      if |key| <= 6 {
        Pow26Grows(|key|, 6);
      }
    }
  }

  /** The successor of a key, AZ -> BA, with ZZ wrapping round to AA. */
  function Successor(key: string): (next: string)
    requires IsKey(key)
    ensures |next| == |key| && IsKey(next)
  {
    if key == "" then ""
    else
      var n := |key| - 1;
      assert IsKey(key[..n]);
      if key[n] < 'Z' then key[..n] + [Letter(Digit(key[n]) + 1)]
      else Successor(key[..n]) + ['A']
  }

  lemma {:induction false} SuccessorIsNextKey(idx: nat, len: nat)
    ensures Successor(KeyOf(idx, len)) == KeyOf(idx + 1, len)
  {
    if len == 0 {
    } else {
      var key := KeyOf(idx, len);
      assert key[..len - 1] == KeyOf(idx / 26, len - 1);
      if idx % 26 < 25 {
        assert (idx + 1) / 26 == idx / 26 && (idx + 1) % 26 == idx % 26 + 1;
      } else {
        assert (idx + 1) / 26 == idx / 26 + 1 && (idx + 1) % 26 == 0;
        SuccessorIsNextKey(idx / 26, len - 1);
      }
    }
  }

  /** Incrementing a key is adding one to its index, modulo the size of the key space. */
  lemma {:induction false} SuccessorAddsOne(key: string)
    requires IsKey(key)
    ensures IndexOf(Successor(key)) == (IndexOf(key) + 1) % Pow26(|key|)
  {
    KeyOfIndexOf(key);
    SuccessorIsNextKey(IndexOf(key), |key|);
    IndexOfKeyOf(IndexOf(key) + 1, |key|);
  }

  /** increment_key: works on a copy of the key, from the last letter to the first. */
  method IncrementKey(key: string) returns (next: string)
    requires IsKey(key)
    ensures next == Successor(key)
  {
    next := key;
    var i := |key|;
    assert key[..i] == key;
    while i > 0
      invariant 0 <= i <= |key| == |next|
      invariant next[..i] == key[..i]
      invariant IsKey(key[..i])
      invariant Successor(key) == Successor(key[..i]) + next[i..]
    {
      i := i - 1;
      ghost var front := key[..i + 1];
      assert front[..i] == key[..i] && front[i] == key[i] == next[i];
      if next[i] < 'Z' {
        next := next[i := Letter(Digit(next[i]) + 1)];
        assert next == key[..i] + [next[i]] + next[i + 1..];
        return;
      }
      next := next[i := 'A'];
      assert next[i..] == ['A'] + next[i + 1..];
    }
    assert next == next[0..];
  }

  /** `const int total = std::pow(26, key_len)` fits a 32-bit int exactly for key lengths up to six;
      length seven, which the request handler still accepts, does not fit. */
  lemma KeySpaceFitsInt32(len: nat)
    ensures Pow26(len) <= INT32_MAX <==> len <= 6
  {
  }

  lemma {:induction false} Pow26Grows(small: nat, large: nat)
    requires small <= large
    ensures Pow26(small) <= Pow26(large)
    decreases large
  {
    if small == large {
    } else {
      Pow26Grows(small, large - 1);
    }
  }
}
