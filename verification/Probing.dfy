/**
 The mathematics of the open-addressing table in src/server/ns_turn_khash.h:
 cyclic intervals of buckets, probe chains, and the finite map that a table
 (a used-bitset and a bucket array) stands for.  Everything here is about
 values; HashTable.dfy runs the C loops on arrays and appeals to these lemmas.
 */
module Probing {

  /** One bucket of the `keys` array: kh_packed struct { key; val; }. */
  datatype Entry<K, V> = Entry(key: K, val: V)

  function Pow2(b: nat): (p: nat)
    ensures p >= 1
  {
    if b == 0 then 1 else 2 * Pow2(b - 1)
  }

  lemma {:induction false} Pow2Monotone(a: nat, b: nat)
    requires a <= b
    ensures Pow2(a) <= Pow2(b)
    ensures a < b ==> 2 * Pow2(a) <= Pow2(b)
    decreases b
  {
    if a < b {
      Pow2Monotone(a, b - 1);
    }
  }

  /** The bits of the smallest table, of at least four buckets, that has n buckets or more. */
  function CeilBits(n: nat): (b: nat)
    ensures b >= 2 && Pow2(b) >= n
    ensures b > 2 ==> Pow2(b - 1) < n
  {
    if n <= 4 then assert Pow2(2) == 4 by { assert Pow2(1) == 2; } 2 else
      assert Pow2(2) == 4 by { assert Pow2(1) == 2; }
      1 + CeilBits((n + 1) / 2)
  }

  /** No other size than CeilBits has that property. */
  lemma CeilBitsUnique(n: nat, b: nat)
    requires b >= 2 && Pow2(b) >= n && (b > 2 ==> Pow2(b - 1) < n)
    ensures b == CeilBits(n)
  {
    var c := CeilBits(n);
    if b < c {
      Pow2Monotone(b, c - 1);
    } else if c < b {
      Pow2Monotone(c, b - 1);
    }
  }

  /** kh_max_count: half plus a quarter of the buckets. */
  function MaxCount(cap: nat): nat {
    cap / 2 + cap / 4
  }

  /** (i + 1U) & mask, for n = mask + 1 buckets. */
  function Next(n: nat, i: nat): (r: nat)
    requires i < n
    ensures r < n
  {
    if i + 1 == n then 0 else i + 1
  }

  /** x lies in the cyclic half-open interval [a, b). */
  predicate Between(a: nat, x: nat, b: nat) {
    if a <= b then a <= x < b else a <= x || x < b
  }

  /** The number of Next steps that lead from a to b. */
  function Gap(n: nat, a: nat, b: nat): nat
    requires a < n && b < n
  {
    if a <= b then b - a else b + n - a
  }

  /** Every bucket from h up to, not including, i is in use. */
  predicate Reach(used: seq<bool>, h: nat, i: nat) {
    forall x :: 0 <= x < |used| && Between(h, x, i) ==> used[x]
  }

  /** `place` maps every key into the table for every admissible size. */
  ghost predicate Places<K(!new)>(place: (K, nat) -> nat) {
    forall k: K, b: nat {:trigger place(k, b)} :: 2 <= b <= 31 ==> place(k, b) < Pow2(b)
  }

  /** The probe-chain invariant: no free bucket between a key's home and its slot. */
  ghost predicate Chained<K, V>(place: (K, nat) -> nat, bits: nat, used: seq<bool>, keys: seq<Entry<K, V>>)
    requires |used| <= |keys|
  {
    forall i :: 0 <= i < |used| && used[i] ==> Reach(used, place(keys[i].key, bits), i)
  }

  function UsedSet(used: seq<bool>): set<nat> {
    set i: nat | i < |used| && used[i]
  }

  /** How the number of used buckets moves when one bit changes or the last bucket is cut off. */
  lemma UsedSizes(used: seq<bool>, i: nat)
    requires i < |used|
    ensures used[i] ==> |UsedSet(used[i := false])| == |UsedSet(used)| - 1
    ensures !used[i] ==> |UsedSet(used[i := true])| == |UsedSet(used)| + 1
    ensures i == |used| - 1 ==> |UsedSet(used[..i])| == |UsedSet(used)| - if used[i] then 1 else 0
  {
    assert UsedSet(used[i := false]) == UsedSet(used) - {i};
    assert UsedSet(used[i := true]) == UsedSet(used) + {i};
    assert i == |used| - 1 ==> UsedSet(used[..i]) == UsedSet(used) - {i};
  }

  /** Bucket i is in use and carries key k. */
  predicate At<K(==), V>(used: seq<bool>, keys: seq<Entry<K, V>>, i: nat, k: K)
    requires |used| <= |keys|
  {
    i < |used| && used[i] && keys[i].key == k
  }

  ghost predicate Distinct<K, V>(used: seq<bool>, keys: seq<Entry<K, V>>)
    requires |used| <= |keys|
  {
    forall i, j :: 0 <= i < |used| && 0 <= j < |used| && used[i] && used[j] && keys[i].key == keys[j].key ==> i == j
  }

  ghost predicate Sound<K, V>(used: seq<bool>, keys: seq<Entry<K, V>>, m: map<K, V>)
    requires |used| <= |keys|
  {
    forall i :: 0 <= i < |used| && used[i] ==> keys[i].key in m && m[keys[i].key] == keys[i].val
  }

  /**
   The used buckets hold exactly the entries of m, each once.  That no key of m
   is missing follows from the equal sizes; see HoldsComplete.
   */
  ghost predicate Holds<K, V>(used: seq<bool>, keys: seq<Entry<K, V>>, m: map<K, V>) {
    && |used| <= |keys|
    && Distinct(used, keys)
    && Sound(used, keys, m)
    && |UsedSet(used)| == |m|
  }

  /** Removing a key takes one off the size of a map; adding a new one adds one. */
  lemma MapSizes<K, V>(m: map<K, V>, k: K, v: V)
    ensures k in m ==> |m - {k}| == |m| - 1
    ensures k !in m ==> |m[k := v]| == |m| + 1
    ensures k in m ==> |m[k := v]| == |m|
  {
  }

  /** Every key of the map sits in some used bucket. */
  lemma {:induction false} HoldsComplete<K, V>(used: seq<bool>, keys: seq<Entry<K, V>>, m: map<K, V>,
                                               k: K) returns (i: nat)
    requires Holds(used, keys, m) && k in m
    ensures At(used, keys, i, k)
    decreases |used|
  {
    assert used != [] by {
      assert |m| > 0;
      assert used == [] ==> UsedSet(used) == {};
    }
    var last := |used| - 1;
    if At(used, keys, last, k) {
      i := last;
    } else {
      var m' := HoldsPrefix(used, keys, m);
      i := HoldsComplete(used[..last], keys, m', k);
    }
  }

  lemma HoldsPrefix<K, V>(used: seq<bool>, keys: seq<Entry<K, V>>, m: map<K, V>) returns (m': map<K, V>)
    requires Holds(used, keys, m) && used != []
    ensures Holds(used[..|used| - 1], keys, m')
    ensures m' == if used[|used| - 1] then m - {keys[|used| - 1].key} else m
  {
    var last := |used| - 1;
    UsedSizes(used, last);
    if used[last] {
      m' := m - {keys[last].key};
      MapSizes(m, keys[last].key, keys[last].val);
    } else {
      m' := m;
    }
  }

  /** Clearing one used bit takes exactly that bucket's entry out of the map. */
  lemma HoldsRemove<K, V>(used: seq<bool>, keys: seq<Entry<K, V>>, m: map<K, V>, i: nat)
    requires Holds(used, keys, m) && i < |used| && used[i]
    ensures Holds(used[i := false], keys, m - {keys[i].key})
  {
    UsedSizes(used, i);
    MapSizes(m, keys[i].key, keys[i].val);
  }

  /** Writing an entry with a new key into a free bucket adds exactly that entry. */
  lemma HoldsInsert<K, V>(used: seq<bool>, keys: seq<Entry<K, V>>, m: map<K, V>, i: nat, e: Entry<K, V>)
    requires Holds(used, keys, m) && i < |used| && !used[i] && e.key !in m
    ensures Holds(used[i := true], keys[i := e], m[e.key := e.val])
  {
    UsedSizes(used, i);
    MapSizes(m, e.key, e.val);
    DistinctInsert(used, keys, i, e);
  }

  lemma DistinctInsert<K, V>(used: seq<bool>, keys: seq<Entry<K, V>>, i: nat, e: Entry<K, V>)
    requires |used| <= |keys| && Distinct(used, keys) && i < |used| && !used[i]
    requires forall x :: 0 <= x < |used| && used[x] ==> keys[x].key != e.key
    ensures Distinct(used[i := true], keys[i := e])
  {
  }

  /** Overwriting the value of a used bucket updates exactly that key. */
  lemma HoldsUpdate<K, V>(used: seq<bool>, keys: seq<Entry<K, V>>, m: map<K, V>, i: nat, v: V)
    requires Holds(used, keys, m) && i < |used| && used[i]
    ensures Holds(used, keys[i := Entry(keys[i].key, v)], m[keys[i].key := v])
  {
  }

  /** Fewer entries than buckets leaves a free bucket. */
  lemma {:induction false} FreeBucket(used: seq<bool>) returns (f: nat)
    requires |UsedSet(used)| < |used|
    ensures f < |used| && !used[f]
  {
    var last := |used| - 1;
    UsedSizes(used, last);
    if used[last] {
      f := FreeBucket(used[..last]);
    } else {
      f := last;
    }
  }

  /** A probe that met only other keys and then a free bucket proves absence. */
  lemma ProbeMiss<K, V>(place: (K, nat) -> nat, bits: nat, used: seq<bool>, keys: seq<Entry<K, V>>,
                        m: map<K, V>, key: K, i: nat)
    requires Holds(used, keys, m) && Chained(place, bits, used, keys)
    requires place(key, bits) < |used| && i < |used| && !used[i]
    requires forall x :: 0 <= x < |used| && Between(place(key, bits), x, i) ==> used[x] && keys[x].key != key
    ensures key !in m
  {
    if key in m {
      var x := HoldsComplete(used, keys, m, key);
      assert false;
    }
  }

  /** A probe that went all the way round without meeting the key proves absence too. */
  lemma ProbeFull<K, V>(used: seq<bool>, keys: seq<Entry<K, V>>, m: map<K, V>, key: K)
    requires Holds(used, keys, m)
    requires forall x :: 0 <= x < |used| ==> keys[x].key != key
    ensures key !in m
  {
    if key in m {
      var x := HoldsComplete(used, keys, m, key);
      assert false;
    }
  }

  /** Filling the first free bucket of the key's probe keeps every chain. */
  lemma ChainedInsert<K, V>(place: (K, nat) -> nat, bits: nat, used: seq<bool>, keys: seq<Entry<K, V>>,
                            i: nat, e: Entry<K, V>)
    requires |used| <= |keys| && Chained(place, bits, used, keys)
    requires i < |used| && !used[i] && Reach(used, place(e.key, bits), i)
    ensures Chained(place, bits, used[i := true], keys[i := e])
  {
  }

  // ---- backward-shift deletion ----

  /** x was visited by the scan that started behind hole i and now stands at j. */
  predicate Scanned(i: nat, x: nat, j: nat) {
    i != j && x != i && (x == j || Between(i, x, j))
  }

  /**
   The state of the deletion loop: bucket i is the hole, j the last bucket
   scanned.  Chains may still run through the hole, but only those of entries
   the scan has not reached.
   */
  ghost predicate HoleAt<K, V>(place: (K, nat) -> nat, bits: nat, used: seq<bool>, keys: seq<Entry<K, V>>,
                               i: nat, j: nat)
    requires |used| <= |keys|
  {
    && i < |used| && j < |used| && used[j]
    && Reach(used, i, j) && used[i]
    && (forall x :: 0 <= x < |used| && used[x] && x != i ==> Reach(used, place(keys[x].key, bits), x))
    && (forall x :: 0 <= x < |used| && used[x] && Scanned(i, x, j) ==>
                      !Between(place(keys[x].key, bits), i, x))
  }

  /** The C test for moving bucket j into hole i says that j's chain crosses the hole. */
  lemma ShiftTest(n: nat, i: nat, j: nat, k: nat)
    requires i < n && j < n && k < n && i != j
    ensures (j > i && (k <= i || k > j)) || (j < i && (k <= i && k > j)) <==> Between(k, i, j)
  {
  }

  /** The scan cannot come back round to the hole while some bucket is free. */
  lemma ScanStopsBeforeHole(used: seq<bool>, i: nat, j: nat, f: nat)
    requires i < |used| && j < |used| && f < |used| && !used[f] && used[j]
    requires Reach(used, i, j)
    ensures Next(|used|, j) != i
  {
  }

  /** One step of the scan that leaves bucket j where it is. */
  lemma HoleKeep<K, V>(place: (K, nat) -> nat, bits: nat, used: seq<bool>, keys: seq<Entry<K, V>>, i: nat, j: nat)
    requires |used| <= |keys| && HoleAt(place, bits, used, keys, i, j)
    requires Next(|used|, j) != i && used[Next(|used|, j)]
    requires place(keys[Next(|used|, j)].key, bits) < |used|
    requires !Between(place(keys[Next(|used|, j)].key, bits), i, Next(|used|, j))
    ensures HoleAt(place, bits, used, keys, i, Next(|used|, j))
  {
  }

  /** One step of the scan that moves bucket j into the hole and makes j the hole. */
  lemma HoleShift<K, V>(place: (K, nat) -> nat, bits: nat, used: seq<bool>, keys: seq<Entry<K, V>>, i: nat, j: nat)
    requires |used| <= |keys| && HoleAt(place, bits, used, keys, i, j)
    requires Next(|used|, j) != i && used[Next(|used|, j)]
    requires place(keys[Next(|used|, j)].key, bits) < |used|
    requires Between(place(keys[Next(|used|, j)].key, bits), i, Next(|used|, j))
    ensures HoleAt(place, bits, used, keys[i := keys[Next(|used|, j)]], Next(|used|, j), Next(|used|, j))
  {
  }

  /** The same step on the map side: moving an entry changes nothing but its bucket. */
  lemma HoldsMove<K, V>(used: seq<bool>, keys: seq<Entry<K, V>>, m: map<K, V>, i: nat, j: nat)
    requires i < |used| && j < |used| && i != j && used[i] && used[j]
    requires Holds(used[i := false], keys, m)
    ensures Holds(used[j := false], keys[i := keys[j]], m)
  {
    var u := used[i := false];
    HoldsRemove(u, keys, m, j);
    HoldsInsert(u[j := false], keys, m - {keys[j].key}, i, keys[j]);
    assert u[j := false][i := true] == used[j := false];
    assert (m - {keys[j].key})[keys[j].key := keys[j].val] == m;
  }

  /** When the scan meets a free bucket, clearing the hole restores every chain. */
  lemma HoleClosed<K, V>(place: (K, nat) -> nat, bits: nat, used: seq<bool>, keys: seq<Entry<K, V>>, i: nat, j: nat)
    requires |used| <= |keys| && HoleAt(place, bits, used, keys, i, j)
    requires Next(|used|, j) != i && !used[Next(|used|, j)]
    requires forall x :: 0 <= x < |used| && used[x] ==> place(keys[x].key, bits) < |used|
    ensures Chained(place, bits, used[i := false], keys)
  {
  }

  /** The deletion loop's invariant: the entries besides the hole are m, and HoleAt. */
  ghost predicate Deleting<K, V>(place: (K, nat) -> nat, bits: nat, used: seq<bool>, keys: seq<Entry<K, V>>,
                                 m: map<K, V>, i: nat, j: nat) {
    && i < |used| <= |keys|
    && Holds(used[i := false], keys, m)
    && HoleAt(place, bits, used, keys, i, j)
    && (forall x :: 0 <= x < |used| ==> place(keys[x].key, bits) < |used|)
  }

  lemma DeleteStart<K, V>(place: (K, nat) -> nat, bits: nat, used: seq<bool>, keys: seq<Entry<K, V>>,
                          m: map<K, V>, i: nat)
    requires Holds(used, keys, m) && Chained(place, bits, used, keys) && i < |used| && used[i]
    requires forall x :: 0 <= x < |used| ==> place(keys[x].key, bits) < |used|
    ensures Deleting(place, bits, used, keys, m - {keys[i].key}, i, i)
    ensures |m - {keys[i].key}| == |m| - 1
  {
    HoldsRemove(used, keys, m, i);
    MapSizes(m, keys[i].key, keys[i].val);
  }

  /** One iteration of the loop, in either of its two branches. */
  lemma DeleteStep<K, V>(place: (K, nat) -> nat, bits: nat, used: seq<bool>, keys: seq<Entry<K, V>>,
                         m: map<K, V>, i: nat, j: nat, j': nat)
    requires Deleting(place, bits, used, keys, m, i, j)
    requires j' == Next(|used|, j) != i && used[j']
    ensures var k := place(keys[j'].key, bits);
            if (j' > i && (k <= i || k > j')) || (j' < i && (k <= i && k > j')) then
              Deleting(place, bits, used, keys[i := keys[j']], m, j', j')
            else
              Deleting(place, bits, used, keys, m, i, j')
  {
    ShiftTest(|used|, i, j', place(keys[j'].key, bits));
    if Between(place(keys[j'].key, bits), i, j') {
      HoleShift(place, bits, used, keys, i, j);
      HoldsMove(used, keys, m, i, j');
    } else {
      HoleKeep(place, bits, used, keys, i, j);
    }
  }
}

