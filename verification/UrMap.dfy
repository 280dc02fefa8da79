/**
 ur_map of src/server/ns_turn_maps.c: the 64-bit-keyed map behind the server's
 session, mobility-ticket, TCP-connection and RTP-reservation indexes, over the
 khashl table.  Contents() is the mathematical map it is promised to be.
 */
module UrMaps {
  import opened Probing
  import opened HashTable
  import opened Basics

  newtype Key = x: int | 0 <= x < 0x1_0000_0000_0000_0000

  /** kh_hash_uint64: the splitmix64 finaliser, cut to 32 bits. */
  function HashUint64(key: Key): bv32 {
    var x0 := key as bv64;
    var x1 := (x0 ^ (x0 >> 30)) * 0xbf58476d1ce4e5b9;
    var x2 := (x1 ^ (x1 >> 27)) * 0x94d049bb133111eb;
    var x3 := x2 ^ (x2 >> 31);
    (x3 & 0xFFFF_FFFF) as bv32
  }

  /** A 32-bit unsigned product. */
  function Product32(a: nat, b: nat): (p: nat)
    ensures p < 0x1_0000_0000
  {
    a * b % 0x1_0000_0000
  }

  function Quotient(x: nat, d: nat): nat
    requires d > 0
  {
    x / d
  }

  /** __kh_h2b with the salt 0 of prefix_init: Fibonacci hashing into 2^bits buckets. */
  function H2b(hash: nat, bits: nat): nat
    requires bits <= 32
  {
    Quotient(Product32(hash, 2654435769), Pow2(32 - bits))
  }

  lemma {:induction false} Pow2Product(a: nat, b: nat)
    ensures Pow2(a + b) == Pow2(a) * Pow2(b)
    decreases b
  {
    if b > 0 {
      Pow2Product(a, b - 1);
    }
  }

  lemma Pow2Of32()
    ensures Pow2(32) == 0x1_0000_0000
  {
    assert Pow2(2) == 4 by { assert Pow2(1) == 2; }
    Pow2Product(2, 2);
    Pow2Product(4, 4);
    Pow2Product(8, 8);
    Pow2Product(16, 16);
  }

  /** The high bits of the product address a bucket of the table. */
  lemma H2bInRange(hash: nat, bits: nat)
    requires bits <= 32
    ensures H2b(hash, bits) < Pow2(bits)
  {
    Pow2Of32();
    Pow2Product(32 - bits, bits);
    QuotientBound(Product32(hash, 2654435769), Pow2(32 - bits), Pow2(bits));
  }

  lemma QuotientBound(x: nat, d: nat, q: nat)
    requires d > 0 && x < d * q
    ensures Quotient(x, d) < q
  {
  }

  function Place(k: Key, bits: nat): nat {
    if bits <= 32 then H2b(HashUint64(k) as nat, bits) else 0
  }

  lemma PlaceInRange()
    ensures Places(Place)
  {
    forall k: Key, b: nat | 2 <= b <= 31
      ensures Place(k, b) < Pow2(b)
    {
      H2bInRange(HashUint64(k) as nat, b);
    }
  }

  function Lookup<V>(m: map<Key, V>, k: Key): Option<V> {
    if k in m then Some(m[k]) else None
  }

  /** Entries a table of 2^31 buckets takes before it would have to grow again. */
  const CAPACITY: nat := 0x6000_0000

  /** The used buckets before k, in order. */
  ghost predicate Visited<V>(items: seq<Entry<Key, V>>, used: seq<bool>, keys: seq<Entry<Key, V>>, k: nat)
    requires k <= |used| <= |keys|
  {
    && (forall x :: 0 <= x < k && used[x] ==> keys[x] in items)
    && (forall e :: e in items ==> exists x :: 0 <= x < k && used[x] && keys[x] == e)
    && (Distinct(used, keys) ==> forall i, j :: 0 <= i < j < |items| ==> items[i].key != items[j].key)
  }

  lemma VisitedNone<V>(used: seq<bool>, keys: seq<Entry<Key, V>>)
    requires |used| <= |keys|
    ensures Visited([], used, keys, 0)
  {
  }

  lemma VisitedNext<V>(items: seq<Entry<Key, V>>, used: seq<bool>, keys: seq<Entry<Key, V>>, k: nat)
    requires k < |used| <= |keys| && Visited(items, used, keys, k)
    ensures Visited(if used[k] then items + [keys[k]] else items, used, keys, k + 1)
  {
    if used[k] {
      var next := items + [keys[k]];
      forall e | e in next
        ensures exists x :: 0 <= x < k + 1 && used[x] && keys[x] == e
      {
        if e in items {
          var x :| 0 <= x < k && used[x] && keys[x] == e;
        }
      }
      forall i, j | Distinct(used, keys) && 0 <= i < j < |next|
        ensures next[i].key != next[j].key
      {
        assert next[i] in items;
        var x :| 0 <= x < k && used[x] && keys[x] == next[i];
      }
    }
  }

  lemma VisitedAll<V>(items: seq<Entry<Key, V>>, used: seq<bool>, keys: seq<Entry<Key, V>>, m: map<Key, V>)
    requires Holds(used, keys, m) && Visited(items, used, keys, |used|)
    ensures Enumerates(items, m)
  {
    forall k | k in m
      ensures Entry(k, m[k]) in items
    {
      var i := HoldsComplete(used, keys, m, k);
    }
  }

  class UrMap<V(0)> {
    const h: KHash<Key, V>

    ghost predicate Valid()
      reads h, h.keys, h.used
    {
      h.Valid()
    }

    ghost function Contents(): map<Key, V>
      reads h
    {
      h.M
    }

    /** ur_map_create */
    constructor ()
      ensures Valid() && Contents() == map[]
      ensures fresh(h) && fresh(h.keys) && fresh(h.used)
    {
      PlaceInRange();
      h := new KHash(Place);
    }

    /** ur_map_put: installs or overwrites; refuses only when the table must grow and cannot. */
    method Put(key: Key, value: V, memory: bool) returns (ok: bool)
      requires Valid()
      modifies h, h.keys, h.used
      ensures Valid()
      ensures h.keys == old(h.keys) || fresh(h.keys)
      ensures h.used == old(h.used) || fresh(h.used)
      ensures Contents() == if ok then old(Contents())[key := value] else old(Contents())
      ensures memory && |old(Contents())| < CAPACITY ==> ok
    {
      FullOnlyAtCapacity();
      var k, absent := h.Put(key, value, memory);
      if absent < 0 {
        return false;
      }
      h.SetVal(k, value);
      return true;
    }

    lemma FullOnlyAtCapacity()
      requires Valid()
      ensures h.bits == 31 && h.count >= MaxCount(h.keys.Length) ==> |Contents()| >= CAPACITY
    {
      if h.bits == 31 {
        Pow2Of32();
        assert Pow2(32) == 2 * Pow2(31);
      }
    }

    /** ur_map_get (and ur_map_exist). */
    method Get(key: Key) returns (r: Option<V>)
      requires Valid()
      ensures r == Lookup(Contents(), key)
    {
      var k := h.Get(key);
      if k != h.keys.Length && h.used[k] {
        return Some(h.keys[k].val);
      }
      return None;
    }

    /** ur_map_del: removes exactly the key, and says whether it was there; the value goes to delfunc. */
    method Del(key: Key) returns (r: Option<V>)
      requires Valid()
      modifies h, h.keys, h.used
      ensures Valid() && h.keys == old(h.keys) && h.used == old(h.used)
      ensures r == Lookup(old(Contents()), key)
      ensures Contents() == old(Contents()) - {key}
    {
      var k := h.Get(key);
      if k != h.keys.Length && h.used[k] {
        r := Some(h.keys[k].val);
        h.Del(k);
      } else {
        assert Contents() - {key} == Contents();
        r := None;
      }
    }

    /** ur_map_foreach(_arg): the entries in the order a callback that never stops the walk sees them. */
    method Foreach() returns (items: seq<Entry<Key, V>>)
      requires Valid()
      ensures Enumerates(items, Contents())
    {
      hide Chained, Places, Enumerates, Visited;
      VisitedNone(h.used[..], h.keys[..]);
      items := [];
      for k := 0 to h.keys.Length
        invariant Visited(items, h.used[..], h.keys[..], k)
      {
        VisitedNext(items, h.used[..], h.keys[..], k);
        if h.used[k] {
          items := items + [h.keys[k]];
        }
      }
      VisitedAll(items, h.used[..], h.keys[..], Contents());
    }

    /** ur_map_size */
    method Size() returns (n: nat)
      requires Valid()
      ensures n == |Contents()|
      ensures n <= MaxCount(h.keys.Length)
    {
      n := h.count;
    }
  }

  /** Each entry of m once, and nothing else. */
  ghost predicate Enumerates<V>(items: seq<Entry<Key, V>>, m: map<Key, V>) {
    && (forall i, j :: 0 <= i < j < |items| ==> items[i].key != items[j].key)
    && (forall e :: e in items ==> e.key in m && m[e.key] == e.val)
    && (forall k :: k in m ==> Entry(k, m[k]) in items)
  }

  datatype Op<V> = PutOp(key: Key, value: V, memory: bool) | GetOp(key: Key) | DelOp(key: Key) | SizeOp
  datatype Answer<V> = Stored(ok: bool) | Found(result: Option<V>) | Sized(n: nat)

  /** What a mathematical map answers, and what it becomes.  `ok` decides only a put. */
  function Apply<V>(m: map<Key, V>, op: Op<V>, a: Answer<V>): (map<Key, V>, Answer<V>) {
    match op
    case PutOp(k, v, _) => var ok := a.Stored? && a.ok; (if ok then m[k := v] else m, Stored(ok))
    case GetOp(k) => (m, Found(Lookup(m, k)))
    case DelOp(k) => (m - {k}, Found(Lookup(m, k)))
    case SizeOp => (m, Sized(|m|))
  }

  /** The answers are those of a mathematical map, in which a refused put does nothing. */
  predicate Agrees<V(==)>(m: map<Key, V>, ops: seq<Op<V>>, answers: seq<Answer<V>>)
    requires |answers| == |ops|
    decreases |ops|
  {
    ops == [] ||
    var (m', a) := Apply(m, ops[0], answers[0]);
    answers[0] == a && Agrees(m', ops[1..], answers[1..])
  }

  ghost function After<V>(m: map<Key, V>, ops: seq<Op<V>>, answers: seq<Answer<V>>): map<Key, V>
    requires |answers| == |ops|
    decreases |ops|
  {
    if ops == [] then m else After(Apply(m, ops[0], answers[0]).0, ops[1..], answers[1..])
  }

  /** The entries a run has put into the map and not deleted when its operation i comes. */
  ghost function HeldAt<V>(ops: seq<Op<V>>, answers: seq<Answer<V>>, i: nat): map<Key, V>
    requires |answers| == |ops| && i <= |ops|
  {
    After(map[], ops[..i], answers[..i])
  }

  /** A refused put is one without memory, or into a table already as large as it can be. */
  ghost predicate RefusedOnly<V>(ops: seq<Op<V>>, answers: seq<Answer<V>>)
    requires |answers| == |ops|
  {
    forall i :: 0 <= i < |ops| && ops[i].PutOp? && ops[i].memory && |HeldAt(ops, answers, i)| < CAPACITY ==>
                  answers[i] == Stored(true)
  }

  /** One more operation at the end of a run. */
  lemma {:induction false} AgreesExtend<V>(m: map<Key, V>, ops: seq<Op<V>>, answers: seq<Answer<V>>, op: Op<V>,
                                           a: Answer<V>)
    requires |answers| == |ops| && Agrees(m, ops, answers)
    requires Apply(After(m, ops, answers), op, a).1 == a
    ensures Agrees(m, ops + [op], answers + [a])
    ensures After(m, ops + [op], answers + [a]) == Apply(After(m, ops, answers), op, a).0
    decreases |ops|
  {
    if ops != [] {
      AgreesExtend(Apply(m, ops[0], answers[0]).0, ops[1..], answers[1..], op, a);
      assert (ops + [op])[1..] == ops[1..] + [op];
      assert (answers + [a])[1..] == answers[1..] + [a];
    } else {
      assert ops + [op] == [op] && answers + [a] == [a];
    }
  }

  /** One operation on a ur_map answers, and changes it, as Apply says. */
  method Perform<V(0)>(t: UrMap<V>, op: Op<V>) returns (a: Answer<V>)
    requires t.Valid()
    modifies t.h, t.h.keys, t.h.used
    ensures t.Valid()
    ensures t.h.keys == old(t.h.keys) || fresh(t.h.keys)
    ensures t.h.used == old(t.h.used) || fresh(t.h.used)
    ensures (t.Contents(), a) == Apply(old(t.Contents()), op, a)
    ensures op.PutOp? && op.memory && |old(t.Contents())| < CAPACITY ==> a == Stored(true)
  {
    match op {
      case PutOp(k, v, memory) =>
        var ok := t.Put(k, v, memory);
        a := Stored(ok);
      case GetOp(k) =>
        var r := t.Get(k);
        a := Found(r);
      case DelOp(k) =>
        var r := t.Del(k);
        a := Found(r);
      case SizeOp =>
        var n := t.Size();
        a := Sized(n);
    }
  }

  /** The run so far answered as the mathematical map does, and the table now holds m. */
  ghost predicate Faithful<V>(ops: seq<Op<V>>, answers: seq<Answer<V>>, m: map<Key, V>) {
    && |answers| == |ops|
    && Agrees(map[], ops, answers) && RefusedOnly(ops, answers)
    && m == After(map[], ops, answers)
  }

  lemma FaithfulExtend<V>(ops: seq<Op<V>>, i: nat, answers: seq<Answer<V>>, m: map<Key, V>, a: Answer<V>)
    requires i < |ops| && Faithful(ops[..i], answers, m) && Apply(m, ops[i], a).1 == a
    requires ops[i].PutOp? && ops[i].memory && |m| < CAPACITY ==> a == Stored(true)
    ensures Faithful(ops[..i + 1], answers + [a], Apply(m, ops[i], a).0)
  {
    assert ops[..i + 1] == ops[..i] + [ops[i]];
    AgreesExtend(map[], ops[..i], answers, ops[i], a);
    forall j | 0 <= j <= i
      ensures HeldAt(ops[..i + 1], answers + [a], j) == HeldAt(ops[..i], answers, j)
    {
      assert ops[..i + 1][..j] == ops[..i][..j] && (answers + [a])[..j] == answers[..j];
    }
    assert ops[..i][..i] == ops[..i] && answers[..i] == answers;
  }

  /**
   Every run of puts, gets, deletes and sizes on a new ur_map, with any pattern
   of allocation failures, answers as a mathematical map does.
   */
  method Run<V(0, ==)>(ops: seq<Op<V>>) returns (answers: seq<Answer<V>>)
    ensures |answers| == |ops|
    ensures Agrees(map[], ops, answers)
    ensures RefusedOnly(ops, answers)
  {
    var t := new UrMap<V>();
    answers := [];
    for i := 0 to |ops|
      invariant t.Valid() && fresh(t.h) && fresh(t.h.keys) && fresh(t.h.used)
      invariant Faithful(ops[..i], answers, t.Contents())
    {
      ghost var m := t.Contents();
      var a := Perform(t, ops[i]);
      FaithfulExtend(ops, i, answers, m, a);
      answers := answers + [a];
    }
    assert ops[..|ops|] == ops;
  }
}

