/**
 Peer addresses, src/client/ns_turn_ioaddr.c.  UNSPEC is the all-zero address of
 family 0 that addr_set_any leaves behind when an attribute does not decode.
 */
module Addresses {
  type Port = x: nat | x < 0x1_0000
  type Word32 = x: nat | x < 0x1_0000_0000

  /** The family and the address without its port; NoIp is family 0. */
  datatype Ip = NoIp | Ip4(word: bv32) | Ip6(word0: bv64, word1: bv64)

  datatype Addr = Addr(ip: Ip, port: Port)

  /** addr_set_any */
  const UNSPEC: Addr := Addr(NoIp, 0)

  /** addr_get_port */
  function PortOf(a: Addr): Port {
    if a.ip.NoIp? then 0 else a.port
  }

  /** addr_set_port */
  function WithPort(a: Addr, p: Port): Addr {
    if a.ip.NoIp? then a else a.(port := p)
  }

  /** addr_eq_no_port: an address of family 0 equals nothing, not even itself. */
  predicate EqNoPort(a: Addr, b: Addr) {
    a.ip == b.ip && !a.ip.NoIp?
  }

  /** addr_eq */
  predicate Eq(a: Addr, b: Addr) {
    a.ip == b.ip && !a.ip.NoIp? && a.port == b.port
  }

  /** addr_any */
  predicate Any(a: Addr) {
    match a.ip
    case NoIp => true
    case Ip4(w) => w == 0 && a.port == 0
    case Ip6(x, y) => x == 0 && y == 0 && a.port == 0
  }

  /** hash_int32: the first line of it, */
  function Fold(w: bv32): bv32 {
    w ^ (w >> 4)
  }

  /** the other two, */
  function Stir(a: bv32): bv32 {
    var b := (a ^ 0xdeadbeef) + (a << 5);
    b ^ (b >> 11)
  }

  /** and the whole. */
  function HashInt32(w: bv32): bv32 {
    Stir(Fold(w))
  }

  /** hash_int64 */
  function HashInt64(w: bv64): bv64 {
    var a := w ^ (w >> 4);
    var b := (a ^ 0xdeadbeefdeadbeef) + (a << 5);
    b ^ (b >> 11)
  }

  /** addr_hash_no_port */
  function IpHash(ip: Ip): bv32 {
    match ip
    case Ip4(w) => HashInt32(w)
    case Ip6(x, y) => (((HashInt64(x) << 3) + HashInt64(y)) & 0xFFFF_FFFF) as bv32
    case NoIp => (((HashInt64(0) << 3) + HashInt64(0)) & 0xFFFF_FFFF) as bv32
  }

  /** The bucket of an address: hash & (TURN_PERMISSION_HASHTABLE_SIZE - 1). */
  function IpBucket(ip: Ip): (b: nat)
    ensures b < 8
  {
    ((IpHash(ip) & 7) as bv3) as nat
  }

  /** The low 18 bits of an IPv4 word decide its bucket. */
  lemma LowBitsDecide(w: bv32, low: bv32)
    requires w & 0x3FFFF == low & 0x3FFFF
    ensures IpBucket(Ip4(w)) == IpBucket(Ip4(low))
  {
    HashLowBits(w, low);
  }

  lemma HashLowBits(w: bv32, low: bv32)
    requires w & 0x3FFFF == low & 0x3FFFF
    ensures HashInt32(w) & 7 == HashInt32(low) & 7
  {
    hide Fold, Stir;
    FoldLow(w, low);
    StirLow(Fold(w), Fold(low));
  }

  lemma FoldLow(x: bv32, y: bv32)
    requires x & 0x3FFFF == y & 0x3FFFF
    ensures Fold(x) & 0x3FFF == Fold(y) & 0x3FFF
  {
  }

  lemma StirLow(x: bv32, y: bv32)
    requires x & 0x3FFF == y & 0x3FFF
    ensures Stir(x) & 7 == Stir(y) & 7
  {
  }

  lemma BucketsDiffer()
    ensures IpBucket(Ip4(0)) != IpBucket(Ip4(1))
  {
  }
}
