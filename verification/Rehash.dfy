/**
 The in-place kick-out rehash of src/server/ns_turn_khash.h, on values.  While
 it runs, one bucket array is shared by two used-bitsets: the old table, which
 shrinks, and the new one, which grows.
 */
module Rehash {
  import opened Basics
  import opened Probing

  /** Buckets that hold an entry for either table. */
  function Live(oldUsed: seq<bool>, newUsed: seq<bool>, total: nat): (live: seq<bool>)
    ensures |live| == total
  {
    seq(total, x requires 0 <= x < total => (x < |oldUsed| && oldUsed[x]) || (x < |newUsed| && newUsed[x]))
  }

  ghost predicate Disjoint(oldUsed: seq<bool>, newUsed: seq<bool>) {
    forall x :: 0 <= x < |oldUsed| && x < |newUsed| && oldUsed[x] ==> !newUsed[x]
  }

  /**
   Between two kick-outs: the two tables are disjoint, together they hold
   exactly m, and the new one already satisfies its probe-chain invariant.
   */
  ghost predicate Rehashing<K, V>(place: (K, nat) -> nat, newBits: nat, oldUsed: seq<bool>, newUsed: seq<bool>,
                                  keys: seq<Entry<K, V>>, m: map<K, V>) {
    && |oldUsed| <= |keys| && |newUsed| <= |keys|
    && Disjoint(oldUsed, newUsed)
    && Holds(Live(oldUsed, newUsed, |keys|), keys, m)
    && Chained(place, newBits, newUsed, keys)
  }

  /** Before the first step the new table is empty. */
  lemma RehashStart<K, V>(place: (K, nat) -> nat, newBits: nat, oldUsed: seq<bool>, newUsed: seq<bool>,
                          keys: seq<Entry<K, V>>, keys': seq<Entry<K, V>>, m: map<K, V>)
    requires Holds(oldUsed, keys, m) && |keys| == |oldUsed| <= |keys'| && |newUsed| <= |keys'|
    requires keys'[..|keys|] == keys
    requires forall x :: 0 <= x < |newUsed| ==> !newUsed[x]
    ensures Rehashing(place, newBits, oldUsed, newUsed, keys', m)
  {
    var live := Live(oldUsed, newUsed, |keys'|);
    assert UsedSet(live) == UsedSet(oldUsed);
    assert forall x :: 0 <= x < |keys| ==> keys'[x] == keys'[..|keys|][x];
  }

  /** Taking an entry out of the old table, to be carried. */
  lemma RehashTake<K, V>(place: (K, nat) -> nat, newBits: nat, oldUsed: seq<bool>, newUsed: seq<bool>,
                         keys: seq<Entry<K, V>>, m: map<K, V>, j: nat)
    requires Rehashing(place, newBits, oldUsed, newUsed, keys, m) && j < |oldUsed| && oldUsed[j]
    ensures keys[j].key in m && m[keys[j].key] == keys[j].val
    ensures Rehashing(place, newBits, oldUsed[j := false], newUsed, keys, m - {keys[j].key})
    ensures |UsedSet(oldUsed[j := false])| == |UsedSet(oldUsed)| - 1
  {
    var live := Live(oldUsed, newUsed, |keys|);
    assert Live(oldUsed[j := false], newUsed, |keys|) == live[j := false];
    HoldsRemove(live, keys, m, j);
    UsedSizes(oldUsed, j);
  }

  /** Writing the carried entry into the first bucket of its probe that the new table leaves free. */
  lemma RehashPlace<K, V>(place: (K, nat) -> nat, newBits: nat, oldUsed: seq<bool>, newUsed: seq<bool>,
                          keys: seq<Entry<K, V>>, m: map<K, V>, i: nat, e: Entry<K, V>)
    requires Rehashing(place, newBits, oldUsed, newUsed, keys, m) && e.key !in m
    requires i < |newUsed| && !newUsed[i] && (i < |oldUsed| ==> !oldUsed[i])
    requires Reach(newUsed, place(e.key, newBits), i)
    ensures Rehashing(place, newBits, oldUsed, newUsed[i := true], keys[i := e], m[e.key := e.val])
  {
    var live := Live(oldUsed, newUsed, |keys|);
    assert Live(oldUsed, newUsed[i := true], |keys|) == live[i := true];
    HoldsInsert(live, keys, m, i, e);
    ChainedInsert(place, newBits, newUsed, keys, i, e);
  }

  /** The kick-out: the old entry of bucket i is taken out and the carried entry takes its bucket. */
  lemma RehashKick<K, V>(place: (K, nat) -> nat, newBits: nat, oldUsed: seq<bool>, newUsed: seq<bool>,
                         keys: seq<Entry<K, V>>, m: map<K, V>, i: nat, e: Entry<K, V>)
    requires Rehashing(place, newBits, oldUsed, newUsed, keys, m - {e.key}) && e.key in m && m[e.key] == e.val
    requires i < |newUsed| && !newUsed[i] && i < |oldUsed| && oldUsed[i]
    requires Reach(newUsed, place(e.key, newBits), i)
    ensures keys[i].key in m && m[keys[i].key] == keys[i].val
    ensures Rehashing(place, newBits, oldUsed[i := false], newUsed[i := true], keys[i := e], m - {keys[i].key})
    ensures |UsedSet(oldUsed[i := false])| == |UsedSet(oldUsed)| - 1
  {
    var k := keys[i].key;
    RehashTake(place, newBits, oldUsed, newUsed, keys, m - {e.key}, i);
    RehashPlace(place, newBits, oldUsed[i := false], newUsed, keys, m - {e.key} - {k}, i, e);
    assert (m - {e.key} - {k})[e.key := e.val] == m - {k};
  }

  /** The new table always has a free bucket for the carried entry. */
  lemma RehashFree<K, V>(place: (K, nat) -> nat, newBits: nat, oldUsed: seq<bool>, newUsed: seq<bool>,
                         keys: seq<Entry<K, V>>, m: map<K, V>) returns (f: nat)
    requires Rehashing(place, newBits, oldUsed, newUsed, keys, m) && |m| < |newUsed|
    ensures f < |newUsed| && !newUsed[f]
  {
    var live := Live(oldUsed, newUsed, |keys|);
    assert UsedSet(newUsed) <= UsedSet(live);
    SubsetSize(UsedSet(newUsed), UsedSet(live));
    f := FreeBucket(newUsed);
  }

  /** Once the old table is empty, the new one alone holds the map, also after a shrink. */
  lemma RehashDone<K, V>(place: (K, nat) -> nat, newBits: nat, oldUsed: seq<bool>, newUsed: seq<bool>,
                         keys: seq<Entry<K, V>>, m: map<K, V>)
    requires Rehashing(place, newBits, oldUsed, newUsed, keys, m)
    requires forall x :: 0 <= x < |oldUsed| ==> !oldUsed[x]
    ensures Holds(newUsed, keys[..|newUsed|], m) && Chained(place, newBits, newUsed, keys[..|newUsed|])
  {
    assert UsedSet(Live(oldUsed, newUsed, |keys|)) == UsedSet(newUsed);
    assert forall x :: 0 <= x < |newUsed| && newUsed[x] ==> Live(oldUsed, newUsed, |keys|)[x];
  }
}

