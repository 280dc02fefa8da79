/**
 lm_map of src/server/ns_turn_maps.c: the small per-permission map from a peer
 port to its channel.  Eight buckets; each has three inline slots and a tail
 that only grows.  A slot is free when its key or its value is zero.
 */
module LocalMap {
  import opened Basics

  const LM_HASH_SIZE := 8
  const LM_ARRAY_SIZE := 3

  /** One key/value cell; None is the NULL value. */
  datatype Slot<+V> = Slot(key: nat, val: Option<V>)

  type LmMap<V> = seq<seq<Slot<V>>>

  predicate Free<V>(s: Slot<V>) {
    s.key == 0 || s.val.None?
  }

  /** Buckets have their inline slots, and key and value of a slot are zero together. */
  ghost predicate Shape<V>(m: LmMap<V>) {
    && |m| == LM_HASH_SIZE
    && (forall b :: 0 <= b < |m| ==> |m[b]| >= LM_ARRAY_SIZE)
    && (forall b, i :: 0 <= b < |m| && 0 <= i < |m[b]| ==> (m[b][i].key == 0 <==> m[b][i].val.None?))
  }

  ghost predicate Distinct<V>(b: seq<Slot<V>>) {
    forall i, j :: 0 <= i < |b| && 0 <= j < |b| && !Free(b[i]) && b[i].key == b[j].key ==> i == j
  }

  /** Every key is stored once, in its own bucket. */
  ghost predicate WellFormed<V>(m: LmMap<V>) {
    && Shape(m)
    && (forall b :: 0 <= b < |m| ==> Distinct(m[b]))
    && (forall b, i :: 0 <= b < |m| && 0 <= i < |m[b]| && !Free(m[b][i]) ==> m[b][i].key % LM_HASH_SIZE == b)
  }

  /** lm_map_init: all slots zero. */
  function Zero<V>(): (m: LmMap<V>)
    ensures WellFormed(m)
    ensures Ports(m) == map[]
  {
    var b: seq<Slot<V>> := seq(LM_ARRAY_SIZE, _ => Slot(0, None));
    seq(LM_HASH_SIZE, _ => b)
  }

  /** Key k is in slot i. */
  predicate Sits<V>(b: seq<Slot<V>>, k: nat, i: nat) {
    i < |b| && !Free(b[i]) && b[i].key == k
  }

  ghost predicate Has<V>(b: seq<Slot<V>>, k: nat) {
    exists i: nat :: Sits(b, k, i)
  }

  /** The value the map holds for k. */
  ghost function Find<V>(m: LmMap<V>, k: nat): Option<V>
    requires |m| == LM_HASH_SIZE
  {
    var b := m[k % LM_HASH_SIZE];
    if Has(b, k) then var i: nat :| Sits(b, k, i); b[i].val else None
  }

  /** Distinct keys make the value of a key independent of where the search looks first. */
  lemma FindAt<V>(m: LmMap<V>, k: nat, i: nat)
    requires WellFormed(m) && Sits(m[k % LM_HASH_SIZE], k, i)
    ensures Find(m, k) == m[k % LM_HASH_SIZE][i].val
  {
  }

  lemma FindNone<V>(m: LmMap<V>, k: nat)
    requires |m| == LM_HASH_SIZE
    requires forall i :: 0 <= i < |m[k % LM_HASH_SIZE]| ==>
               Free(m[k % LM_HASH_SIZE][i]) || m[k % LM_HASH_SIZE][i].key != k
    ensures Find(m, k) == None
  {
  }

  /** The mathematical map an lm_map stands for. */
  ghost function Ports<V>(m: LmMap<V>): map<nat, V>
    requires |m| == LM_HASH_SIZE
  {
    var keys := set b, i | 0 <= b < |m| && 0 <= i < |m[b]| :: m[b][i].key;
    map k | k in keys && Find(m, k).Some? :: Find(m, k).value
  }

  function Lookup<V>(p: map<nat, V>, k: nat): Option<V> {
    if k in p then Some(p[k]) else None
  }

  /** Ports and Find say the same. */
  lemma PortsFind<V>(m: LmMap<V>, k: nat)
    requires |m| == LM_HASH_SIZE
    ensures Lookup(Ports(m), k) == Find(m, k)
  {
  }

  lemma PortsAre<V>(m: LmMap<V>, p: map<nat, V>)
    requires |m| == LM_HASH_SIZE && forall k: nat :: Find(m, k) == Lookup(p, k)
    ensures Ports(m) == p
  {
    forall k: nat
      ensures Lookup(Ports(m), k) == Lookup(p, k)
    {
      PortsFind(m, k);
    }
    assert forall k: nat :: k in p <==> Lookup(p, k).Some?;
    assert forall k: nat :: k in Ports(m) <==> Lookup(Ports(m), k).Some?;
  }

  lemma PortsUpdate<V>(m: LmMap<V>, m': LmMap<V>, key: nat, v: V)
    requires |m| == |m'| == LM_HASH_SIZE && forall k: nat :: Find(m', k) == if k == key then Some(v) else Find(m, k)
    ensures Ports(m') == Ports(m)[key := v]
  {
    forall k: nat { PortsFind(m, k); }
    PortsAre(m', Ports(m)[key := v]);
  }

  lemma PortsRemove<V>(m: LmMap<V>, m': LmMap<V>, key: nat)
    requires |m| == |m'| == LM_HASH_SIZE && forall k: nat :: Find(m', k) == if k == key then None else Find(m, k)
    ensures Ports(m') == Ports(m) - {key}
  {
    forall k: nat { PortsFind(m, k); }
    PortsAre(m', Ports(m) - {key});
  }

  /** lm_map_get */
  method Get<V>(m: LmMap<V>, key: nat) returns (r: Option<V>)
    requires WellFormed(m)
    ensures r == Lookup(Ports(m), key)
  {
    PortsFind(m, key);
    var a := m[key % LM_HASH_SIZE];
    if key == 0 {
      FindNone(m, 0);
      return None;
    }
    for i := 0 to |a|
      invariant forall j :: 0 <= j < i ==> Free(a[j]) || a[j].key != key
    {
      if a[i].key == key && (i >= LM_ARRAY_SIZE || a[i].val.Some?) {
        FindAt(m, key, i);
        return a[i].val;
      }
    }
    FindNone(m, key);
    return None;
  }

  /** Two maps whose buckets for k hold the same cells for k find the same. */
  lemma FindSame<V>(m: LmMap<V>, m': LmMap<V>, k: nat)
    requires WellFormed(m) && WellFormed(m')
    requires forall i: nat :: Sits(m[k % LM_HASH_SIZE], k, i) ==>
               Sits(m'[k % LM_HASH_SIZE], k, i) && m'[k % LM_HASH_SIZE][i] == m[k % LM_HASH_SIZE][i]
    requires forall i: nat :: Sits(m'[k % LM_HASH_SIZE], k, i) ==> Sits(m[k % LM_HASH_SIZE], k, i)
    ensures Find(m', k) == Find(m, k)
  {
  }

  /** The bucket after writing a cell at a free slot, or at the end. */
  function Write<V>(b: seq<Slot<V>>, i: nat, s: Slot<V>): seq<Slot<V>>
    requires i <= |b|
  {
    if i < |b| then b[i := s] else b + [s]
  }

  lemma DistinctWrite<V>(b: seq<Slot<V>>, i: nat, s: Slot<V>)
    requires i <= |b| && Distinct(b) && s.key != 0 && forall j :: 0 <= j < |b| ==> b[j].key != s.key
    requires i < |b| ==> Free(b[i])
    ensures Distinct(Write(b, i, s))
  {
  }

  /** Writing an absent key into a free slot, or a new one, adds exactly that key. */
  lemma WriteAdds<V>(m: LmMap<V>, key: nat, value: V, i: nat, m': LmMap<V>)
    requires WellFormed(m) && key != 0 && Find(m, key) == None
    requires var b := key % LM_HASH_SIZE;
             i <= |m[b]| && (i < |m[b]| ==> Free(m[b][i])) && m' == m[b := Write(m[b], i, Slot(key, Some(value)))]
    ensures WellFormed(m')
    ensures forall k: nat :: Find(m', k) == if k == key then Some(value) else Find(m, k)
  {
    var b := key % LM_HASH_SIZE;
    forall j | 0 <= j < |m[b]|
      ensures m[b][j].key != key
    {
      if m[b][j].key == key { FindAt(m, key, j); assert false; }
    }
    DistinctWrite(m[b], i, Slot(key, Some(value)));
    forall k: nat
      ensures Find(m', k) == if k == key then Some(value) else Find(m, k)
    {
      if k == key {
        FindAt(m', k, i);
      } else {
        FindSame(m, m', k);
      }
    }
  }

  /** Zeroing the slot of a key removes exactly that key. */
  lemma EraseRemoves<V>(m: LmMap<V>, key: nat, i: nat, m': LmMap<V>)
    requires WellFormed(m) && Sits(m[key % LM_HASH_SIZE], key, i)
    requires m' == m[key % LM_HASH_SIZE := m[key % LM_HASH_SIZE][i := Slot(0, None)]]
    ensures WellFormed(m')
    ensures forall k: nat :: Find(m', k) == if k == key then None else Find(m, k)
  {
    forall k: nat
      ensures Find(m', k) == if k == key then None else Find(m, k)
    {
      if k == key {
        FindNone(m', k);
      } else {
        FindSame(m, m', k);
      }
    }
  }

  /** The key sits in an inline slot that no free slot precedes: lm_map_put sees it. */
  ghost predicate Seen<V>(m: LmMap<V>, key: nat)
    requires |m| == LM_HASH_SIZE
  {
    var b := m[key % LM_HASH_SIZE];
    exists i: nat :: i < LM_ARRAY_SIZE && Sits(b, key, i) && forall j :: 0 <= j < i ==> !Free(b[j])
  }

  /** A second cell for a key that is already stored breaks the map. */
  lemma WriteDuplicates<V>(m: LmMap<V>, key: nat, value: V, i: nat, m': LmMap<V>)
    requires WellFormed(m) && key != 0 && Find(m, key) != None
    requires var b := key % LM_HASH_SIZE;
             i <= |m[b]| && (i < |m[b]| ==> Free(m[b][i])) && m' == m[b := Write(m[b], i, Slot(key, Some(value)))]
    ensures !WellFormed(m')
  {
    var b := key % LM_HASH_SIZE;
    var j: nat :| Sits(m[b], key, j);
    assert j != i && Sits(m'[b], key, j) && Sits(m'[b], key, i);
  }

  /** Where lm_map_put stops, looking from slot i on: at the key in an inline slot, at a free slot, or at the end. */
  function PutAt<V>(b: seq<Slot<V>>, key: nat, i: nat): (r: nat)
    ensures r <= |b|
    decreases |b| - i
  {
    if i >= |b| then |b|
    else if (i < LM_ARRAY_SIZE && b[i].key == key) || Free(b[i]) then i
    else PutAt(b, key, i + 1)
  }

  /** The map after lm_map_put, slot for slot. */
  function PutOf<V>(m: LmMap<V>, key: nat, value: V): LmMap<V>
    requires |m| == LM_HASH_SIZE
  {
    var b := m[key % LM_HASH_SIZE];
    var i := PutAt(b, key, 0);
    if key == 0 || (i < |b| && i < LM_ARRAY_SIZE && b[i].key == key) then m
    else m[key % LM_HASH_SIZE := Write(b, i, Slot(key, Some(value)))]
  }

  /** Where lm_map_del finds the key, looking from slot i on. */
  function DelAt<V>(b: seq<Slot<V>>, key: nat, i: nat): nat
    decreases |b| - i
  {
    if i >= |b| || (b[i].key == key && (i >= LM_ARRAY_SIZE || b[i].val.Some?)) then i else DelAt(b, key, i + 1)
  }

  /** The map after lm_map_del, slot for slot. */
  function DelOf<V>(m: LmMap<V>, key: nat): LmMap<V>
    requires |m| == LM_HASH_SIZE
  {
    var b := m[key % LM_HASH_SIZE];
    var i := DelAt(b, key, 0);
    if key == 0 || i >= |b| then m else m[key % LM_HASH_SIZE := b[i := Slot(0, None)]]
  }

  /**
   lm_map_put.  An absent key is added and nothing else changes.  A key that is
   already present is a different matter: the map stays well-formed exactly when
   the key is Seen, and then nothing changes; otherwise the key is stored twice.
   */
  method Put<V(==)>(m: LmMap<V>, key: nat, value: V) returns (m': LmMap<V>, ok: bool)
    requires WellFormed(m)
    ensures m' == PutOf(m, key, value)
    ensures key == 0 ==> !ok && m' == m
    ensures key != 0 && key !in Ports(m) ==> ok && WellFormed(m') && Ports(m') == Ports(m)[key := value]
    ensures key in Ports(m) ==> (WellFormed(m') <==> Seen(m, key))
    ensures key != 0 && Seen(m, key) ==> m' == m && (ok <==> Lookup(Ports(m), key) == Some(value))
  {
    PortsFind(m, key);
    if key == 0 {
      return m, false;
    }
    var index := key % LM_HASH_SIZE;
    var a := m[index];
    var i := 0;
    while i < |a|
      invariant 0 <= i <= |a| && PutAt(a, key, i) == PutAt(a, key, 0)
      invariant forall j :: 0 <= j < i ==> !Free(a[j]) && (j < LM_ARRAY_SIZE ==> a[j].key != key)
    {
      if i < LM_ARRAY_SIZE && a[i].key == key {
        FindAt(m, key, i);
        return m, a[i].val == Some(value);
      }
      if Free(a[i]) {
        break;
      }
      i := i + 1;
    }
    m', ok := m[index := Write(a, i, Slot(key, Some(value)))], true;
    if Find(m, key) == None {
      WriteAdds(m, key, value, i, m');
      PortsUpdate(m, m', key, value);
      assert !Seen(m, key);
    } else {
      WriteDuplicates(m, key, value, i, m');
    }
  }

  /** lm_map_del: removes exactly the key, and says whether it was there. */
  method Del<V>(m: LmMap<V>, key: nat) returns (m': LmMap<V>, ok: bool)
    requires WellFormed(m)
    ensures WellFormed(m') && m' == DelOf(m, key)
    ensures Ports(m') == Ports(m) - {key}
    ensures ok <==> key in Ports(m)
  {
    PortsFind(m, key);
    if key == 0 {
      FindNone(m, 0);
      PortsRemove(m, m, key);
      return m, false;
    }
    var index := key % LM_HASH_SIZE;
    var a := m[index];
    for i := 0 to |a|
      invariant forall j :: 0 <= j < i ==> Free(a[j]) || a[j].key != key
      invariant DelAt(a, key, i) == DelAt(a, key, 0)
    {
      if a[i].key == key && (i >= LM_ARRAY_SIZE || a[i].val.Some?) {
        m' := m[index := a[i := Slot(0, None)]];
        FindAt(m, key, i);
        EraseRemoves(m, key, i, m');
        PortsRemove(m, m', key);
        return m', true;
      }
    }
    FindNone(m, key);
    PortsRemove(m, m, key);
    return m, false;
  }

  /** What three zeroed inline slots go through when 9 and 1 are put and 9 is deleted. */
  lemma ExampleRun<V>(v: V, zero: LmMap<V>, m: LmMap<V>)
    requires zero == Zero() && m == zero[1 := zero[1][1 := Slot(1, Some(v))]]
    ensures DelOf(PutOf(PutOf(zero, 9, v), 1, v), 9) == m
  {
    var nine, one := Slot(9, Some(v)), Slot(1, Some(v));
    var b1 := zero[1][0 := nine];
    var b2 := b1[1 := one];
    assert PutAt(zero[1], 9, 0) == 0;
    assert PutAt(b1, 1, 0) == PutAt(b1, 1, 1) == 1;
    assert DelAt(b2, 9, 0) == 0;
    assert b2[0 := Slot(0, None)] == zero[1][1 := one];
    assert PutOf(zero, 9, v) == zero[1 := b1];
    assert PutOf(zero[1 := b1], 1, v) == zero[1 := b2];
    assert DelOf(zero[1 := b2], 9) == m;
  }

  /**
   Such a map comes about: after a put of 9, a put of 1 and a delete of 9, a put of 1 does not see
   the 1 that is there.
   */
  lemma UnseenExample<V>(v: V, w: V)
    ensures var m := DelOf(PutOf(PutOf(Zero(), 9, v), 1, v), 9);
            && WellFormed(m) && Ports(m) == map[1 := v] && !Seen(m, 1)
            && !WellFormed(PutOf(m, 1, w))
  {
    var zero := Zero<V>();
    var m := zero[1 := zero[1][1 := Slot(1, Some(v))]];
    ExampleRun(v, zero, m);
    assert Distinct(m[1]);
    forall k: nat
      ensures Find(m, k) == Lookup(map[1 := v], k)
    {
      if k == 1 { FindAt(m, 1, 1); } else { FindNone(m, k); }
    }
    PortsAre(m, map[1 := v]);
    assert Free(m[1][0]) && PutAt(m[1], 1, 0) == 0;
    WriteDuplicates(m, 1, w, 0, PutOf(m, 1, w));
  }
}
