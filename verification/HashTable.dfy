/**
 The khashl table of src/server/ns_turn_khash.h: linear probing over a power of
 two of buckets, backward-shift deletion and the in-place rehash.  The C loops
 run here on arrays; M is the finite map they implement.

 A NULL `keys` pointer is the empty array.  `place(k, bits)` stands for
 __kh_h2b(hash(k), salt, bits); nothing is assumed of it beyond its range, so
 every result holds for any hash function.  The outcome of the C allocations is
 the parameter `memory`; asking for more than 2^31 buckets, where the 32-bit
 shift leaves its range, is treated as a failed allocation.
 */
module HashTable {
  import opened Probing
  import opened Rehash

  class KHash<K(==, 0, !new), V(0)> {
    const place: (K, nat) -> nat
    var bits: nat
    var count: nat
    var keys: array<Entry<K, V>>
    var used: array<bool>
    ghost var M: map<K, V>

    ghost predicate Valid()
      reads this, keys, used
    {
      && Places(place)
      && keys.Length == used.Length
      && (if keys.Length == 0 then bits == 0 else 2 <= bits <= 31 && keys.Length == Pow2(bits))
      && Holds(used[..], keys[..], M)
      && Chained(place, bits, used[..], keys[..])
      && count == |M| <= MaxCount(keys.Length)
    }

    /** prefix_init: no buckets, no entries. */
    constructor (place: (K, nat) -> nat)
      requires Places(place)
      ensures Valid() && M == map[] && this.place == place
      ensures fresh(keys) && fresh(used)
    {
      this.place := place;
      bits, count := 0, 0;
      keys := new Entry<K, V>[0];
      used := new bool[0];
      M := map[];
      new;
      assert UsedSet(used[..]) == {};
    }

    /** prefix_getp: the bucket of the key, or the number of buckets when it is absent. */
    method Get(key: K) returns (r: nat)
      requires Valid()
      ensures key in M ==> r < keys.Length && used[r] && keys[r] == Entry(key, M[key])
      ensures key !in M ==> r == keys.Length
    {
      if keys.Length == 0 {
        assert UsedSet(used[..]) == {};
        return 0;
      }
      var n := keys.Length;
      var last := place(key, bits);
      var i: nat := last;
      while used[i] && keys[i].key != key
        invariant i < n
        invariant forall x :: 0 <= x < n && Between(last, x, i) ==> used[x] && keys[x].key != key
        decreases Gap(n, Next(n, i), last)
      {
        i := Next(n, i);
        if i == last {
          ProbeFull(used[..], keys[..], M, key);
          return n;
        }
      }
      if !used[i] {
        ProbeMiss(place, bits, used[..], keys[..], M, key, i);
        return n;
      }
      return i;
    }

    /**
     The loop of prefix_del: entries whose chain crosses the hole move back into
     it, until the scan meets a free bucket.  The hole left over is `i`.
     */
    method ShiftBack(start: nat) returns (i: nat)
      requires Valid() && start < keys.Length && used[start]
      modifies keys
      ensures i < used.Length && used[i]
      ensures Holds(used[..][i := false], keys[..], M - {old(keys[start].key)})
      ensures Chained(place, bits, used[..][i := false], keys[..])
    {
      var n := keys.Length;
      var j: nat := start;
      i := start;
      ghost var u, m := used[..], M - {keys[start].key};
      ghost var f := FreeBucket(u);
      DeleteStart(place, bits, u, keys[..], M, start);
      while true
        invariant i < n && j < n
        invariant Deleting(place, bits, u, keys[..], m, i, j)
        decreases Gap(n, j, f)
      {
        ScanStopsBeforeHole(u, i, j, f);
        ghost var prev, was := j, keys[..];
        j := Next(n, j);
        if j == i || !used[j] {
          HoleClosed(place, bits, u, keys[..], i, prev);
          break;
        }
        DeleteStep(place, bits, u, was, m, i, prev, j);
        var k := place(keys[j].key, bits);
        if (j > i && (k <= i || k > j)) || (j < i && (k <= i && k > j)) {
          keys[i] := keys[j];
          assert keys[..] == was[i := was[j]];
          i := j;
        }
      }
    }

    /** prefix_del: backward-shift deletion of the entry in bucket `start`. */
    method Del(start: nat)
      requires Valid() && start < keys.Length && used[start]
      modifies this`count, this`M, keys, used
      ensures Valid() && M == old(M) - {old(keys[start].key)}
    {
      ghost var k := keys[start].key;
      MapSizes(M, k, keys[start].val);
      var i := ShiftBack(start);
      ghost var u := used[..];
      used[i] := false;
      assert used[..] == u[i := false];
      count := count - 1;
      M := M - {k};
    }

    /** The head of prefix_resize: round the requested bucket count up to a power of two. */
    static method RoundUp(n: nat) returns (newBits: nat)
      ensures newBits == CeilBits(n)
    {
      var x, j: nat := n, 0;
      while x / 2 != 0
        invariant if n > 0 then x > 0 else j == 0
        invariant Pow2(j) * x <= n < Pow2(j) * (x + 1)
      {
        assert Pow2(j + 1) * (x / 2) <= Pow2(j) * x && Pow2(j) * (x + 1) <= Pow2(j + 1) * (x / 2 + 1) by {
          HalfStep(Pow2(j), x);
        }
        x, j := x / 2, j + 1;
      }
      assert x <= 1;
      if n > 0 && n != Pow2(j) {  // new_n_buckets & (new_n_buckets - 1)
        j := j + 1;
      }
      assert n > 0 ==> Pow2(j) >= n && (j > 0 ==> Pow2(j - 1) < n);
      newBits := if j > 2 then j else 2;
      if j < 2 {
        Pow2Monotone(j, 2);
      }
      CeilBitsUnique(n, newBits);
    }

    static lemma HalfStep(p: nat, x: nat)
      ensures 2 * p * (x / 2) <= p * x && p * (x + 1) <= 2 * p * (x / 2 + 1)
    {
      var h := x / 2;
      assert x == 2 * h || x == 2 * h + 1;
      assert 2 * p * h == p * (2 * h);
      assert 2 * p * (h + 1) == p * (2 * h + 2);
    }

    /** The probe of the rehash: the first bucket from the key's home that the new table leaves free. */
    method FirstFree(newUsed: array<bool>, home: nat) returns (i: nat)
      requires home < newUsed.Length && (exists f :: 0 <= f < newUsed.Length && !newUsed[f])
      ensures i < newUsed.Length && !newUsed[i] && Reach(newUsed[..], home, i)
    {
      ghost var f: nat :| f < newUsed.Length && !newUsed[f];
      i := home;
      while newUsed[i]
        invariant i < newUsed.Length
        invariant Reach(newUsed[..], home, i)
        decreases Gap(newUsed.Length, i, f)
      {
        i := Next(newUsed.Length, i);
      }
    }

    /** Between two kick-outs of the rehash into newUsed, with all of m placed in one table or the other. */
    ghost predicate Moving(newBits: nat, newUsed: array<bool>, m: map<K, V>)
      reads this, used, newUsed, keys
    {
      && Places(place) && 2 <= newBits <= 31 && newUsed.Length == Pow2(newBits)
      && newUsed != used && |M| < newUsed.Length
      && Rehashing(place, newBits, used[..], newUsed[..], keys[..], m)
    }

    /** One round of the kick-out: the carried entry is written, and what it displaced is carried on. */
    method KickStep(newBits: nat, newUsed: array<bool>, key: Entry<K, V>) returns (done: bool, next: Entry<K, V>)
      requires key.key in M && M[key.key] == key.val && Moving(newBits, newUsed, M - {key.key})
      modifies used, newUsed, keys
      ensures done ==> Moving(newBits, newUsed, M)
      ensures !done ==> next.key in M && M[next.key] == next.val && Moving(newBits, newUsed, M - {next.key})
      ensures !done ==> |UsedSet(used[..])| < |UsedSet(old(used[..]))|
      ensures forall x :: 0 <= x < used.Length && used[x] ==> old(used[x])
    {
      ghost var was, u, nu := keys[..], used[..], newUsed[..];
      MapSizes(M, key.key, key.val);
      ghost var f := RehashFree(place, newBits, u, nu, was, M - {key.key});
      assert !newUsed[f];
      var i := FirstFree(newUsed, place(key.key, newBits));
      newUsed[i] := true;
      next := keys[i];
      keys[i] := key;
      assert newUsed[..] == nu[i := true] && keys[..] == was[i := key];
      if i < used.Length && used[i] {
        RehashKick(place, newBits, u, nu, was, M, i, key);
        used[i] := false;
        assert used[..] == u[i := false];
        done := false;
      } else {
        RehashPlace(place, newBits, u, nu, was, M - {key.key}, i, key);
        assert (M - {key.key})[key.key := key.val] == M;
        done := true;
      }
    }

    /** The rehash loop over the old buckets, from an empty new table to an empty old one. */
    method MoveAll(newBits: nat, newUsed: array<bool>)
      requires Moving(newBits, newUsed, M)
      modifies used, newUsed, keys
      ensures Moving(newBits, newUsed, M)
      ensures forall x :: 0 <= x < used.Length ==> !used[x]
    {
      for j := 0 to used.Length
        invariant Moving(newBits, newUsed, M)
        invariant forall x :: 0 <= x < j ==> !used[x]
      {
        if used[j] {
          var key := keys[j];
          ghost var u := used[..];
          RehashTake(place, newBits, u, newUsed[..], keys[..], M, j);
          used[j] := false;
          assert used[..] == u[j := false];
          var done := false;
          while !done
            invariant if done then Moving(newBits, newUsed, M) else
                        key.key in M && M[key.key] == key.val && Moving(newBits, newUsed, M - {key.key})
            invariant forall x :: 0 <= x <= j ==> !used[x]
            decreases !done, |UsedSet(used[..])|
          {
            done, key := KickStep(newBits, newUsed, key);
          }
        }
      }
    }

    /** Krealloc: the first entries survive, the rest of a longer array is unspecified. */
    method Realloc(n: nat)
      modifies this`keys
      ensures fresh(keys) && keys.Length == n
      ensures n <= old(keys).Length ==> keys[..] == old(keys[..n])
      ensures old(keys).Length <= n ==> keys[..old(keys).Length] == old(keys[..])
    {
      var old_keys := keys;
      keys := new Entry<K, V>[n];
      var m := if n < old_keys.Length then n else old_keys.Length;
      for x := 0 to m
        invariant fresh(keys) && keys.Length == n
        invariant keys[..x] == old_keys[..x]
        modifies keys
      {
        keys[x] := old_keys[x];
      }
    }

    /** The tail of prefix_resize, with memory for the new table at hand: every entry moves over. */
    method RehashTo(newBits: nat)
      requires Valid() && 2 <= newBits <= 31 && count <= MaxCount(Pow2(newBits))
      modifies this`bits, this`keys, this`used, keys, used
      ensures Valid() && bits == newBits
      ensures keys == old(keys) || fresh(keys)
      ensures fresh(used)
    {
      var newN := Pow2(newBits);
      var newUsed := new bool[newN](_ => false);
      ghost var was := keys[..];
      if used.Length < newN {  // expand
        Realloc(newN);
      }
      RehashStart(place, newBits, used[..], newUsed[..], was, keys[..], M);
      MoveAll(newBits, newUsed);
      FinishRehash(newBits, newUsed);
    }

    /** The old table is empty: the bucket array shrinks if it must, and the new table takes over. */
    method FinishRehash(newBits: nat, newUsed: array<bool>)
      requires Moving(newBits, newUsed, M) && (forall x :: 0 <= x < used.Length ==> !used[x])
      requires keys.Length == if used.Length < newUsed.Length then newUsed.Length else used.Length
      requires count == |M| <= MaxCount(newUsed.Length)
      modifies this`bits, this`keys, this`used
      ensures Valid() && bits == newBits && used == newUsed
      ensures keys == old(keys) || fresh(keys)
    {
      RehashDone(place, newBits, used[..], newUsed[..], keys[..], M);
      if used.Length > newUsed.Length {  // shrink
        Realloc(newUsed.Length);
      } else {
        assert keys[..] == keys[..newUsed.Length];
      }
      used, bits := newUsed, newBits;
    }

    /** prefix_resize: 0 on success or when there is nothing to do, -1 without memory. */
    method Resize(n: nat, memory: bool) returns (r: int)
      requires Valid()
      modifies this`bits, this`keys, this`used, keys, used
      ensures Valid() && r in {0, -1}
      ensures keys == old(keys) || fresh(keys)
      ensures used == old(used) || fresh(used)
      ensures r == -1 <==>
              CeilBits(n) != old(bits) && count <= MaxCount(Pow2(CeilBits(n))) && (!memory || CeilBits(n) > 31)
      ensures bits == if r == -1 || count > MaxCount(Pow2(CeilBits(n))) then old(bits) else CeilBits(n)
    {
      var newBits := RoundUp(n);
      if newBits == bits || count > MaxCount(Pow2(newBits)) {
        return 0;
      }
      if !memory || newBits > 31 {
        return -1;
      }
      RehashTo(newBits);
      return 0;
    }

    /** The probe of prefix_putp: the key's bucket, or the free bucket that ends its chain. */
    method Probe(key: K) returns (i: nat)
      requires Valid() && keys.Length != 0
      ensures i < keys.Length
      ensures used[i] ==> keys[i].key == key
      ensures !used[i] ==> key !in M && Reach(used[..], place(key, bits), i)
    {
      var n := keys.Length;
      var last := place(key, bits);
      ghost var f := FreeBucket(used[..]);
      i := last;
      while used[i] && keys[i].key != key
        invariant i < n && !Between(last, f, i)
        invariant forall x :: 0 <= x < n && Between(last, x, i) ==> used[x] && keys[x].key != key
        decreases Gap(n, i, f)
      {
        i := Next(n, i);
        if i == last {
          break;
        }
      }
      if !used[i] {
        ProbeMiss(place, bits, used[..], keys[..], M, key, i);
      }
    }

    /** Writing a new entry into the free bucket that ends its chain. */
    method Occupy(i: nat, e: Entry<K, V>)
      requires Valid() && i < keys.Length && !used[i] && count < MaxCount(keys.Length)
      requires e.key !in M && Reach(used[..], place(e.key, bits), i)
      modifies this`count, this`M, keys, used
      ensures Valid() && M == old(M)[e.key := e.val] && used[i] && keys[i] == e
    {
      ghost var u, was := used[..], keys[..];
      HoldsInsert(u, was, M, i, e);
      ChainedInsert(place, bits, u, was, i, e);
      MapSizes(M, e.key, e.val);
      keys[i] := e;
      used[i] := true;
      count := count + 1;
      M := M[e.key := e.val];
      assert used[..] == u[i := true] && keys[..] == was[i := e];
    }

    /** The rehashing test of prefix_putp. */
    method MakeRoom(memory: bool) returns (ok: bool)
      requires Valid()
      modifies this`bits, this`keys, this`used, keys, used
      ensures Valid() && (ok ==> count < MaxCount(keys.Length))
      ensures keys == old(keys) || fresh(keys)
      ensures used == old(used) || fresh(used)
      ensures ok <==> count < MaxCount(old(keys.Length)) || (memory && old(bits) < 31)
    {
      ok := true;
      if count >= MaxCount(keys.Length) {
        GrowthBits(bits, keys.Length);
        var r := Resize(keys.Length + 1, memory);
        ok := r >= 0;
      }
    }

    /**
     prefix_putp: absent is 1 for a new key, 0 for one already there, -1 when the
     table must grow and cannot.  A new bucket takes the value field of the
     caller's stack bucket, which the C map leaves uninitialised: `junk`.
     */
    method Put(key: K, junk: V, memory: bool) returns (i: nat, absent: int)
      requires Valid()
      modifies this`bits, this`count, this`keys, this`used, this`M, keys, used
      ensures Valid() && absent in {-1, 0, 1}
      ensures keys == old(keys) || fresh(keys)
      ensures used == old(used) || fresh(used)
      ensures absent == -1 <==> old(count) >= MaxCount(old(keys.Length)) && (!memory || old(bits) == 31)
      ensures absent == 0 ==> key in old(M)
      ensures absent == 1 ==> key !in old(M)
      ensures M == if absent == 1 then old(M)[key := junk] else old(M)
      ensures absent != -1 ==> i < keys.Length && used[i] && keys[i].key == key
    {
      var room := MakeRoom(memory);
      if !room {
        return keys.Length, -1;
      }
      i := Probe(key);
      if used[i] {
        return i, 0;
      }
      Occupy(i, Entry(key, junk));
      return i, 1;
    }

    /** A full table asks for one bucket more and gets twice its size, or the first four buckets. */
    static lemma GrowthBits(bits: nat, n: nat)
      requires if n == 0 then bits == 0 else 2 <= bits && n == Pow2(bits)
      ensures CeilBits(n + 1) == if n == 0 then 2 else bits + 1
      ensures MaxCount(n) < MaxCount(Pow2(CeilBits(n + 1)))
    {
      if n == 0 {
        assert Pow2(2) == 4 by { assert Pow2(1) == 2; }
      } else {
        Pow2Monotone(2, bits);
        assert Pow2(2) == 4 by { assert Pow2(1) == 2; }
        CeilBitsUnique(n + 1, bits + 1);
      }
    }

    /** kh_val(h, i) = v for a used bucket. */
    method SetVal(i: nat, v: V)
      requires Valid() && i < keys.Length && used[i]
      modifies this`M, keys
      ensures Valid() && M == old(M)[old(keys[i].key) := v]
    {
      ghost var was := keys[..];
      HoldsUpdate(used[..], was, M, i, v);
      MapSizes(M, keys[i].key, v);
      M := M[keys[i].key := v];
      keys[i] := Entry(keys[i].key, v);
      assert keys[..] == was[i := Entry(was[i].key, v)];
    }
  }
}

