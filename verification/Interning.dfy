/**
 An interning table is an index map together with the sequence of keys in the
 order in which they were first seen; the number of the i-th key is `base + i`.
 Both pprof encoders keep three or four of these.
 */
module Interning {

  /** The index map that numbers the keys in order. */
  ghost function Numbering<K>(keys: seq<K>, base: int): map<K, int> {
    if keys == [] then map[]
    else Numbering(keys[..|keys| - 1], base)[keys[|keys| - 1] := base + |keys| - 1]
  }

  ghost predicate Distinct<K>(keys: seq<K>) {
    keys == [] || (keys[|keys| - 1] !in keys[..|keys| - 1] && Distinct(keys[..|keys| - 1]))
  }

  ghost predicate Indexes<K>(index: map<K, int>, keys: seq<K>, base: int) {
    index == Numbering(keys, base) && Distinct(keys)
  }

  lemma {:induction false} IndexedSize<K>(keys: seq<K>, base: int)
    requires Distinct(keys)
    ensures |Numbering(keys, base)| == |keys|
    ensures forall k :: k in Numbering(keys, base) <==> k in keys
  {
    if keys != [] {
      IndexedSize(keys[..|keys| - 1], base);
      assert keys == keys[..|keys| - 1] + [keys[|keys| - 1]];
    }
  }

  /** A key that is there has the number of its position, and it has only one. */
  lemma {:induction false} IndexedAt<K>(keys: seq<K>, base: int, k: K)
    requires k in Numbering(keys, base)
    ensures var i := Numbering(keys, base)[k] - base; 0 <= i < |keys| && keys[i] == k
  {
    if k != keys[|keys| - 1] {
      IndexedAt(keys[..|keys| - 1], base, k);
    }
  }

  lemma {:induction false} NumberOf<K>(keys: seq<K>, base: int, i: nat)
    requires Distinct(keys) && i < |keys|
    ensures keys[i] in Numbering(keys, base) && Numbering(keys, base)[keys[i]] == base + i
  {
    if i < |keys| - 1 {
      NumberOf(keys[..|keys| - 1], base, i);
      assert keys[i] in keys[..|keys| - 1];
    }
  }

  lemma DistinctAt<K>(keys: seq<K>, i: nat, j: nat)
    requires Distinct(keys) && i < |keys| && j < |keys|
    ensures keys[i] == keys[j] <==> i == j
  {
    NumberOf(keys, 0, i);
    NumberOf(keys, 0, j);
  }

  /** What looking `k` up in the index says about the keys. */
  lemma Lookup<K>(index: map<K, int>, keys: seq<K>, base: int, k: K)
    requires Indexes(index, keys, base)
    ensures |index| == |keys| && (k in index <==> k in keys)
    ensures k in index ==> base <= index[k] < base + |keys| && keys[index[k] - base] == k
  {
    IndexedSize(keys, base);
    if k in index { IndexedAt(keys, base, k); }
  }

  /** A key that is not there yet gets the next number. */
  lemma IndexesPush<K>(index: map<K, int>, keys: seq<K>, base: int, k: K)
    requires Indexes(index, keys, base) && k !in keys
    ensures Indexes(index[k := base + |keys|], keys + [k], base)
  {
    assert (keys + [k])[..|keys|] == keys;
  }

  /** The index finds the i-th key. */
  lemma Found<K>(index: map<K, int>, keys: seq<K>, base: int, i: nat)
    requires Indexes(index, keys, base) && i < |keys|
    ensures keys[i] in index && index[keys[i]] == base + i
  {
    NumberOf(keys, base, i);
  }
}
