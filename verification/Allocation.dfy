/**
 The allocation object: its hash tables in memory, and the operations of
 src/server/ns_turn_allocation.c on them.  `perms` and `chns` are the slots by
 address; `psize` and `csize` say how many slots each bucket has, three main ones
 and one for every pointer in its growing extra array.
 */
module Allocations {
  import opened Basics
  import opened Addresses
  import opened LocalMap
  import opened AllocState

  /** A permission slot as stored, with its lm_map. */
  datatype PermSlot = PermSlot(live: bool, ip: Ip, expires: Time, chns: LmMap<Ref>)

  const ZERO_SLOT: PermSlot := PermSlot(false, NoIp, 0, Zero())

  ghost predicate Addressed<T>(slots: map<Ref, T>, size: seq<nat>) {
    && |size| == HASH_SIZE && (forall b :: 0 <= b < HASH_SIZE ==> size[b] >= ARRAY_SIZE)
    && (forall r: Ref :: r in slots <==> r.b < HASH_SIZE && r.i < size[r.b])
  }

  ghost function ViewOf(s: PermSlot): Perm
    requires |s.chns| == LM_HASH_SIZE
  {
    Perm(s.live, s.ip, s.expires, Ports(s.chns))
  }

  ghost predicate Mapped(perms: map<Ref, PermSlot>) {
    forall p :: p in perms ==> WellFormed(perms[p].chns) && (perms[p].live || perms[p] == ZERO_SLOT)
  }

  ghost function View(perms: map<Ref, PermSlot>): Perms
    requires Mapped(perms)
  {
    map p | p in perms :: ViewOf(perms[p])
  }

  lemma ViewUpdate(perms: map<Ref, PermSlot>, p: Ref, s: PermSlot)
    requires Mapped(perms) && WellFormed(s.chns) && (s.live || s == ZERO_SLOT)
    ensures Mapped(perms[p := s])
    ensures View(perms[p := s]) == View(perms)[p := ViewOf(s)]
  {
  }

  /** The permission slots in memory, in buckets of the given sizes, stand for t. */
  ghost predicate Stored(perms: map<Ref, PermSlot>, psize: seq<nat>, t: Perms) {
    && Addressed(perms, psize) && (forall b :: 0 <= b < HASH_SIZE ==> psize[b] <= MAX_PERMISSIONS)
    && Mapped(perms) && t == View(perms)
  }

  /** The main slots of all buckets, each holding v. */
  function MainSlots<T>(v: T): map<Ref, T> {
    map b, i | 0 <= b < HASH_SIZE && 0 <= i < ARRAY_SIZE :: Ref(b, i) := v
  }

  /** The slot is in use for this IP: allocated && addr_eq_no_port(..). */
  predicate Matches(s: PermSlot, ip: Ip) {
    s.live && s.ip == ip && !ip.NoIp?
  }

  /** The lookup loop over one bucket's main and extra slots. */
  method SearchBucket(slots: map<Ref, PermSlot>, b: nat, n: nat, ip: Ip) returns (r: Option<Ref>)
    requires forall j: nat :: j < n ==> Ref(b, j) in slots
    ensures r.Some? ==> r.value.b == b && r.value.i < n && Matches(slots[r.value], ip)
    ensures r.None? ==> forall j: nat :: j < n ==> !Matches(slots[Ref(b, j)], ip)
  {
    for i := 0 to n
      invariant forall j: nat :: j < i ==> !Matches(slots[Ref(b, j)], ip)
    {
      if Matches(slots[Ref(b, i)], ip) {
        return Some(Ref(b, i));
      }
    }
    return None;
  }

  /** The first slot of a bucket that is not in use, or the bucket's size. */
  method FirstUnused(slots: map<Ref, PermSlot>, b: nat, n: nat) returns (i: nat)
    requires forall j: nat :: j < n ==> Ref(b, j) in slots
    ensures i <= n && (i < n ==> !slots[Ref(b, i)].live)
    ensures forall j: nat :: j < i ==> slots[Ref(b, j)].live
  {
    i := 0;
    while i < n && slots[Ref(b, i)].live
      invariant i <= n && forall j: nat :: j < i ==> slots[Ref(b, j)].live
    {
      i := i + 1;
    }
  }

  function LiveSet(t: Perms): set<Ref> {
    set p | p in t && t[p].live
  }

  lemma LiveAdd(t: Perms, p: Ref, pm: Perm)
    requires !LivePerm(t, p) && pm.live
    ensures |LiveSet(t[p := pm])| == |LiveSet(t)| + 1
  {
    assert LiveSet(t[p := pm]) == LiveSet(t) + {p};
  }

  /** Every slot of bucket b is in use. */
  predicate Full(t: Perms, b: nat, n: nat) {
    forall j: nat :: j < n ==> LivePerm(t, Ref(b, j))
  }

  /** A new permission in bucket b is refused: no slot is unused, and the allocation may not grow. */
  predicate Refuses(t: Perms, size: seq<nat>, b: nat)
    requires b < |size|
  {
    |LiveSet(t)| >= MAX_PERMISSIONS && Full(t, b, size[b])
  }

  /** The live slots before position i of bucket b, in the order the count visits them. */
  function LiveBefore(slots: map<Ref, PermSlot>, b: nat, i: nat): set<Ref> {
    set p | p in slots && slots[p].live && (p.b < b || (p.b == b && p.i < i))
  }

  /** allocation_count_permissions */
  method CountLive(slots: map<Ref, PermSlot>, size: seq<nat>) returns (n: nat)
    requires Addressed(slots, size)
    ensures n == |LiveBefore(slots, HASH_SIZE, 0)|
  {
    n := 0;
    assert LiveBefore(slots, 0, 0) == {};
    for b := 0 to HASH_SIZE
      invariant n == |LiveBefore(slots, b, 0)|
    {
      for i := 0 to size[b]
        invariant n == |LiveBefore(slots, b, i)|
      {
        CountStep(slots, b, i);
        if slots[Ref(b, i)].live {
          n := n + 1;
        }
      }
      assert LiveBefore(slots, b, size[b]) == LiveBefore(slots, b + 1, 0);
    }
  }

  lemma CountStep(slots: map<Ref, PermSlot>, b: nat, i: nat)
    requires Ref(b, i) in slots
    ensures |LiveBefore(slots, b, i + 1)| == |LiveBefore(slots, b, i)| + if slots[Ref(b, i)].live then 1 else 0
  {
    var r := Ref(b, i);
    if slots[r].live {
      assert LiveBefore(slots, b, i + 1) == LiveBefore(slots, b, i) + {r};
    } else {
      assert LiveBefore(slots, b, i + 1) == LiveBefore(slots, b, i);
    }
  }

  /** A bucket that is full holds as many of the live permissions as it has slots. */
  lemma {:induction false} FullBucket(b: nat, n: nat, s: set<Ref>)
    requires forall j: nat :: j < n ==> Ref(b, j) in s
    ensures n <= |s|
  {
    if n > 0 {
      assert Ref(b, n - 1) in s;
      FullBucket(b, n - 1, s - {Ref(b, n - 1)});
    }
  }

  /**
   The search of allocation_add_permission, short of writing the slot: one that is
   not in use, else one more at the end of the bucket.
   */
  method PermissionSlot(slots: map<Ref, PermSlot>, size: seq<nat>, b: nat) returns (r: Option<Ref>, size': seq<nat>)
    requires Addressed(slots, size) && b < HASH_SIZE
    ensures r.None? <==> |LiveBefore(slots, HASH_SIZE, 0)| >= MAX_PERMISSIONS && FullSlots(slots, b, size[b])
    ensures r.Some? ==> r.value.b == b && (r.value in slots ==> !slots[r.value].live && size' == size)
    ensures r.Some? && r.value !in slots ==>
              && r.value.i == size[b] && size' == size[b := size[b] + 1] && size'[b] <= MAX_PERMISSIONS
              && |LiveBefore(slots, HASH_SIZE, 0)| < MAX_PERMISSIONS && FullSlots(slots, b, size[b])
  {
    size' := size;
    var i := FirstUnused(slots, b, size[b]);
    if i == size[b] {
      var n := CountLive(slots, size);
      if n >= MAX_PERMISSIONS {
        return None, size;
      }
      FullBucket(b, i, LiveBefore(slots, HASH_SIZE, 0));
      size' := size[b := i + 1];
    }
    return Some(Ref(b, i)), size';
  }

  predicate FullSlots(slots: map<Ref, PermSlot>, b: nat, n: nat) {
    forall j: nat :: j < n ==> Ref(b, j) in slots && slots[Ref(b, j)].live
  }

  /** The slots and what they stand for agree on who is live. */
  lemma StoredLive(perms: map<Ref, PermSlot>, psize: seq<nat>, t: Perms, b: nat)
    requires Stored(perms, psize, t) && b < HASH_SIZE
    ensures Addressed(perms, psize) && t.Keys == perms.Keys
    ensures forall p :: p in perms ==> t[p].live == perms[p].live
    ensures LiveSet(t) == LiveBefore(perms, HASH_SIZE, 0)
    ensures Full(t, b, psize[b]) <==> FullSlots(perms, b, psize[b])
  {
  }

  /** Writing one slot, in place or at the end of its bucket. */
  lemma StoredWrite(perms: map<Ref, PermSlot>, psize: seq<nat>, t: Perms, p: Ref, s: PermSlot, psize': seq<nat>)
    requires Stored(perms, psize, t) && WellFormed(s.chns) && (s.live || s == ZERO_SLOT) && p.b < HASH_SIZE
    requires if p in perms then psize' == psize
             else p.i == psize[p.b] < MAX_PERMISSIONS && psize' == psize[p.b := p.i + 1]
    ensures Stored(perms[p := s], psize', t[p := ViewOf(s)])
  {
    ViewUpdate(perms, p, s);
  }

  lemma AddressedKeys<T>(m: map<Ref, T>, m': map<Ref, T>, size: seq<nat>)
    requires Addressed(m, size) && m'.Keys == m.Keys
    ensures Addressed(m', size)
  {
  }

  /** The lookup loop of ch_map_get over one bucket. */
  method SearchChannels(chns: Chans, b: nat, n: nat, chnum: nat) returns (r: Option<Ref>)
    requires forall j: nat :: j < n ==> Ref(b, j) in chns
    ensures r.Some? ==> r.value.b == b && LiveChan(chns, r.value) && chns[r.value].chnum == chnum
    ensures r.None? ==> forall j: nat :: j < n && chns[Ref(b, j)].live ==> chns[Ref(b, j)].chnum != chnum
  {
    for i := 0 to n
      invariant forall j: nat :: j < i && chns[Ref(b, j)].live ==> chns[Ref(b, j)].chnum != chnum
    {
      if chns[Ref(b, i)].live && chns[Ref(b, i)].chnum == chnum {
        return Some(Ref(b, i));
      }
    }
    return None;
  }

  /** ch_map_get with new_chn: the first slot of the bucket not in use, else a new zeroed one. */
  method ChannelSlot(chns: Chans, size: seq<nat>, b: nat) returns (c: Ref, size': seq<nat>)
    requires Addressed(chns, size) && b < HASH_SIZE
    ensures c.b == b && !LiveChan(chns, c)
    ensures Addressed(chns[c := NO_CHAN], size')
  {
    var i := 0;
    while i < size[b] && chns[Ref(b, i)].live
      invariant 0 <= i <= size[b]
    {
      i := i + 1;
    }
    return Ref(b, i), if i < size[b] then size else size[b := i + 1];
  }

  /** lm_map_foreach with the channel-cleaning callback: every channel in the map is zeroed. */
  method CleanPorts(m: LmMap<Ref>, chns: Chans) returns (r: Chans)
    requires WellFormed(m) && forall k :: k in Ports(m) ==> Ports(m)[k] in chns
    ensures r.Keys == chns.Keys
    ensures forall c :: c in chns ==> r[c] == if c in Ports(m).Values then NO_CHAN else chns[c]
  {
    r := chns;
    ghost var done: set<Ref> := {};
    for b := 0 to LM_HASH_SIZE
      invariant r.Keys == chns.Keys && done <= Ports(m).Values
      invariant forall c :: c in chns ==> r[c] == if c in done then NO_CHAN else chns[c]
      invariant forall x, y :: 0 <= x < b && 0 <= y < |m[x]| && !Free(m[x][y]) ==> m[x][y].val.value in done
    {
      for i := 0 to |m[b]|
        invariant r.Keys == chns.Keys && done <= Ports(m).Values
        invariant forall c :: c in chns ==> r[c] == if c in done then NO_CHAN else chns[c]
        invariant forall x, y :: 0 <= x < b && 0 <= y < |m[x]| && !Free(m[x][y]) ==> m[x][y].val.value in done
        invariant forall y :: 0 <= y < i && !Free(m[b][y]) ==> m[b][y].val.value in done
      {
        if !Free(m[b][i]) {
          SlotPort(m, b, i);
          r := r[m[b][i].val.value := NO_CHAN];
          done := done + {m[b][i].val.value};
        }
      }
    }
    forall k | k in Ports(m)
      ensures Ports(m)[k] in done
    {
      PortSlot(m, k);
    }
  }

  /** An occupied slot holds one of the ports, */
  lemma SlotPort(m: LmMap<Ref>, b: nat, i: nat)
    requires WellFormed(m) && b < LM_HASH_SIZE && i < |m[b]| && !Free(m[b][i])
    ensures m[b][i].key in Ports(m) && Ports(m)[m[b][i].key] == m[b][i].val.value
    ensures m[b][i].val.value in Ports(m).Values
  {
    FindAt(m, m[b][i].key, i);
    PortsFind(m, m[b][i].key);
  }

  /** and every port is held by a slot. */
  lemma PortSlot(m: LmMap<Ref>, k: nat)
    requires WellFormed(m) && k in Ports(m)
    ensures exists i: nat :: Sits(m[k % LM_HASH_SIZE], k, i) && m[k % LM_HASH_SIZE][i].val == Some(Ports(m)[k])
  {
  }

  /** Slots of one bucket are told apart by their index, */
  lemma {:induction false} BucketBound(s: set<Ref>, b: nat, m: nat)
    requires forall r :: r in s ==> r.b == b && r.i < m
    ensures |s| <= m
  {
    if m == 0 {
      assert s == {};
    } else {
      BucketBound(s - {Ref(b, m - 1)}, b, m - 1);
    }
  }

  /** so n buckets of bounded size hold a bounded number of slots. */
  lemma {:induction false} TableBound(s: set<Ref>, n: nat)
    requires forall r :: r in s ==> r.b < n && r.i < MAX_PERMISSIONS
    ensures |s| <= n * MAX_PERMISSIONS
  {
    if n == 0 {
      assert s == {};
    } else {
      var last := set r | r in s && r.b == n - 1;
      TableBound(s - last, n - 1);
      BucketBound(last, n - 1, MAX_PERMISSIONS);
      assert s == (s - last) + last;
    }
  }

  /** What an allocation amounts to: whether it is valid, and its tables with the sizes of the permission buckets. */
  datatype Tables = Tables(valid: bool, t: Perms, size: seq<nat>, chns: Chans)

  class Allocation {
    const bucket: Ip -> nat
    var perms: map<Ref, PermSlot>
    var psize: seq<nat>
    var chns: map<Ref, Chan>
    var csize: seq<nat>
    var valid: bool  // is_valid
    ghost var T: Perms  // what perms stands for, port maps and all

    ghost predicate Valid()
      reads this
    {
      && (forall ip :: bucket(ip) < HASH_SIZE)
      && Stored(perms, psize, T)
      && Addressed(chns, csize)
      && Consistent(bucket, T, chns)
    }

    ghost function Now(): Tables
      reads this
    {
      Tables(valid, T, psize, chns)
    }

    /** init_allocation */
    constructor (bucket: Ip -> nat)
      requires forall ip :: bucket(ip) < HASH_SIZE
      ensures Valid() && this.bucket == bucket && !valid
      ensures (forall p :: !LivePerm(T, p)) && (forall c :: !LiveChan(chns, c))
    {
      this.bucket := bucket;
      valid := false;
      psize, csize := seq(HASH_SIZE, _ => ARRAY_SIZE), seq(HASH_SIZE, _ => ARRAY_SIZE);
      perms := MainSlots(ZERO_SLOT);
      chns := MainSlots(NO_CHAN);
      T := MainSlots(NO_PERM);
      new;
      Empty();
    }

    /** get_from_turn_permission_hashtable: the live permission of an IP. */
    method GetPermission(ip: Ip) returns (r: Option<Ref>)
      requires Valid()
      ensures r.Some? ==> LivePerm(T, r.value) && T[r.value].ip == ip != NoIp
      ensures r.None? ==> forall q :: LivePerm(T, q) ==> !(T[q].ip == ip != NoIp)
    {
      var b := bucket(ip);
      r := SearchBucket(perms, b, psize[b], ip);
      forall q | r.None? && LivePerm(T, q) && T[q].ip == ip
        ensures ip == NoIp
      {
        assert q == Ref(b, q.i);
      }
    }

    /**
     allocation_add_permission.  It is refused only when every slot of the IP's bucket
     is in use and the allocation holds MAX_PERMISSIONS or more; the bucket grows only
     when every slot is in use and the allocation holds less.
     */
    method AddPermission(ip: Ip) returns (r: Option<Ref>)
      requires Valid() && forall q :: LivePerm(T, q) ==> !(T[q].ip == ip != NoIp)
      modifies this`perms, this`psize, this`T
      ensures Valid()
      ensures r.None? <==> Refuses(old(T), old(psize), bucket(ip))
      ensures r.None? ==> T == old(T) && psize == old(psize)
      ensures r.Some? ==> !LivePerm(old(T), r.value) && T == old(T)[r.value := NO_PERM.(live := true, ip := ip)]
      ensures r.Some? && r.value in old(T) ==> psize == old(psize)
      ensures r.Some? && r.value !in old(T) ==>
                |LiveSet(old(T))| < MAX_PERMISSIONS && Full(old(T), bucket(ip), old(psize)[bucket(ip)])
      ensures |LiveSet(T)| == |LiveSet(old(T))| + if r.Some? then 1 else 0
      ensures |LiveSet(old(T))| <= MAX_PERMISSIONS ==>
                (|LiveSet(T)| <= MAX_PERMISSIONS <==>
                 |LiveSet(old(T))| < MAX_PERMISSIONS || Full(old(T), bucket(ip), old(psize)[bucket(ip)]))
    {
      hide Consistent, Stored, Addressed;
      var b := bucket(ip);
      StoredLive(perms, psize, T, b);
      var slot, size := PermissionSlot(perms, psize, b);
      if slot.None? {
        return None;
      }
      var p, s := slot.value, ZERO_SLOT.(live := true, ip := ip);
      StoredWrite(perms, psize, T, p, s, size);
      InstallKeeps(bucket, T, chns, p, ip);
      LiveAdd(T, p, ViewOf(s));
      perms, psize, T := perms[p := s], size, T[p := ViewOf(s)];
      return Some(p);
    }

    /** ch_map_get: the live channel of a number. */
    method FindChannel(chnum: nat) returns (r: Option<Ref>)
      requires Valid()
      ensures r.Some? ==> LiveChan(chns, r.value) && chns[r.value].chnum == chnum
      ensures forall d :: LiveChan(chns, d) && chns[d].chnum == chnum ==> r == Some(d)
    {
      hide Owned, Backed, Stored;
      var b := chnum % HASH_SIZE;
      r := SearchChannels(chns, b, csize[b], chnum);
      forall d | LiveChan(chns, d) && chns[d].chnum == chnum
        ensures r == Some(d)
      {
        assert ChanOk(chns[d], d.b) && d == Ref(d.b, d.i);
      }
    }

    /** get_turn_channel: the channel a permission has for a port. */
    method PortChannel(p: Ref, port: nat) returns (r: Option<Ref>)
      requires Valid() && LivePerm(T, p)
      ensures r == Lookup(T[p].ports, port)
      ensures r.Some? ==> LiveChan(chns, r.value) && chns[r.value].owner == Some(p)
    {
      var t := Get(perms[p].chns, port);
      if t.Some? && ValidChannel(chns[t.value].chnum) {
        return t;
      }
      return None;
    }

    /** Replacing the port map of a live permission. */
    method SetPorts(p: Ref, m: LmMap<Ref>)
      requires Stored(perms, psize, T) && LivePerm(T, p) && WellFormed(m)
      modifies this`perms, this`T
      ensures Stored(perms, psize, T) && T == old(T)[p := old(T)[p].(ports := Ports(m))]
    {
      StoredLive(perms, psize, T, 0);
      var s := perms[p].(chns := m);
      StoredWrite(perms, psize, T, p, s, psize);
      perms, T := perms[p := s], T[p := ViewOf(s)];
    }

    /** The part of allocation_get_new_ch_info after the permission is at hand. */
    method AttachChannel(chnum: nat, peer: Addr, p: Ref) returns (c: Ref)
      requires Valid() && LivePerm(T, p) && T[p].ip == peer.ip != NoIp
      requires ValidChannel(chnum) && PortOf(peer) != 0 && PortOf(peer) !in T[p].ports
      requires forall d :: LiveChan(chns, d) ==> chns[d].chnum != chnum
      modifies this`perms, this`T, this`chns, this`csize
      ensures Valid() && !LiveChan(old(chns), c)
      ensures chns == old(chns)[c := Chan(true, chnum, PortOf(peer), peer, 0, Some(p))]
      ensures T == BindPort(old(T), p, PortOf(peer), c)
    {
      hide Consistent, Stored, Addressed;
      var size;
      c, size := ChannelSlot(chns, csize, chnum % HASH_SIZE);
      var ch := Chan(true, chnum, PortOf(peer), peer, 0, Some(p));
      BindKeeps(bucket, T, chns, c, ch, p);
      AddressedKeys(chns[c := NO_CHAN], chns[c := ch], size);
      PermMap(p);
      var m, ok := Put(perms[p].chns, PortOf(peer), c);
      chns, csize := chns[c := ch], size;
      SetPorts(p, m);
    }

    /** The lm_map of a permission stands for its ports. */
    lemma PermMap(p: Ref)
      requires Stored(perms, psize, T) && p in T
      ensures p in perms && WellFormed(perms[p].chns) && Ports(perms[p].chns) == T[p].ports
    {
    }

    /** turn_channel_delete */
    method ChannelDelete(c: Ref)
      requires Valid() && LiveChan(chns, c)
      modifies this`perms, this`T, this`chns
      ensures Valid() && chns == old(chns)[c := NO_CHAN]
      ensures var p := old(chns)[c].owner;
              p.Some? && LivePerm(old(T), p.value) && T == UnbindPort(old(T), p.value, old(chns)[c].port)
    {
      hide Consistent, Stored, Addressed;
      OwnerIsLive(c);
      var p, port := chns[c].owner.value, PortOf(chns[c].peer);
      UnbindKeeps(bucket, T, chns, c, p);
      AddressedKeys(chns, chns[c := NO_CHAN], csize);
      PermMap(p);
      var m, ok := LocalMap.Del(perms[p].chns, port);
      SetPorts(p, m);
      chns := chns[c := NO_CHAN];
    }

    lemma OwnerIsLive(c: Ref)
      requires Valid() && LiveChan(chns, c)
      ensures chns[c].owner.Some? && LivePerm(T, chns[c].owner.value) && chns[c].port == PortOf(chns[c].peer)
      ensures chns[c].peer.ip == T[chns[c].owner.value].ip != NoIp
      ensures chns[c].port in T[chns[c].owner.value].ports && T[chns[c].owner.value].ports[chns[c].port] == c
    {
    }

    /** turn_permission_clean: the permission and exactly its own channels are zeroed. */
    method PermissionClean(p: Ref)
      requires Valid() && LivePerm(T, p)
      modifies this`perms, this`T, this`chns
      ensures Valid() && T == old(T)[p := NO_PERM] && chns == WithoutOwner(old(chns), p)
    {
      hide Consistent, Stored, Addressed;
      PermMap(p);
      PortsAreOwned(p);
      var cs := CleanPorts(perms[p].chns, chns);
      assert cs == WithoutOwner(chns, p);
      CleanKeeps(bucket, T, chns, p);
      AddressedKeys(chns, cs, csize);
      StoredZero(p);
      perms, T, chns := perms[p := ZERO_SLOT], T[p := NO_PERM], cs;
    }

    /** The channels in a permission's port map are the live channels that name it as owner. */
    lemma PortsAreOwned(p: Ref)
      requires Valid() && LivePerm(T, p)
      ensures forall k :: k in T[p].ports ==> T[p].ports[k] in chns
      ensures forall c :: c in chns ==> (c in T[p].ports.Values <==> chns[c].live && chns[c].owner == Some(p))
    {
      assert forall k :: k in T[p].ports ==> BackedBy(chns, p, k, T[p].ports[k]);
      forall c | LiveChan(chns, c) && chns[c].owner == Some(p)
        ensures c in T[p].ports.Values
      {
        assert OwnedBy(T, chns[c], c);
      }
    }

    lemma StoredZero(p: Ref)
      requires Stored(perms, psize, T) && p in T
      ensures Stored(perms[p := ZERO_SLOT], psize, T[p := NO_PERM])
    {
      StoredLive(perms, psize, T, 0);
      StoredWrite(perms, psize, T, p, ZERO_SLOT, psize);
    }

    /** tinfo->expiration_time = t */
    method TouchPermission(p: Ref, t: Time)
      requires Valid() && LivePerm(T, p)
      modifies this`perms, this`T
      ensures Valid() && T == old(T)[p := old(T)[p].(expires := t)]
    {
      hide Consistent, Stored;
      StoredLive(perms, psize, T, 0);
      PermMap(p);
      var s := perms[p].(expires := t);
      StoredWrite(perms, psize, T, p, s, psize);
      TouchPermKeeps(bucket, T, chns, p, t);
      SlotView(p);
      perms, T := perms[p := s], T[p := T[p].(expires := t)];
    }

    lemma SlotView(p: Ref)
      requires Stored(perms, psize, T) && p in T
      ensures p in perms && |perms[p].chns| == LM_HASH_SIZE && T[p] == ViewOf(perms[p])
    {
    }

    /** chn->expiration_time = t */
    method TouchChannel(c: Ref, t: Time)
      requires Valid() && LiveChan(chns, c)
      modifies this`chns
      ensures Valid() && chns == old(chns)[c := old(chns)[c].(expires := t)]
    {
      hide Consistent, Stored, Addressed;
      TouchChanKeeps(bucket, T, chns, c, t);
      AddressedKeys(chns, chns[c := chns[c].(expires := t)], csize);
      chns := chns[c := chns[c].(expires := t)];
    }

    /** allocation_get_ch_info_by_peer_addr: the live channel of a peer address. */
    method ChannelOfPeer(peer: Addr) returns (r: Option<Ref>)
      requires Valid()
      ensures r.Some? ==> LiveChan(chns, r.value) && Eq(chns[r.value].peer, peer)
      ensures r.None? ==> forall c :: LiveChan(chns, c) ==> !Eq(chns[c].peer, peer)
      ensures r.None? ==> forall p :: LivePerm(T, p) && T[p].ip == peer.ip != NoIp ==> PortOf(peer) !in T[p].ports
    {
      hide Consistent, Stored;
      var tinfo := GetPermission(peer.ip);
      r := None;
      if tinfo.Some? {
        r := PortChannel(tinfo.value, PortOf(peer));
      }
      PeerChannels(peer, tinfo, r);
    }

    /** The permission of the peer's IP and its port map lead to the peer's channel, if there is one. */
    lemma PeerChannels(peer: Addr, tinfo: Option<Ref>, r: Option<Ref>)
      requires Valid()
      requires tinfo.Some? ==> LivePerm(T, tinfo.value) && T[tinfo.value].ip == peer.ip != NoIp &&
                               r == Lookup(T[tinfo.value].ports, PortOf(peer))
      requires tinfo.None? ==> r.None? && forall q :: LivePerm(T, q) ==> !(T[q].ip == peer.ip != NoIp)
      ensures r.Some? ==> LiveChan(chns, r.value) && Eq(chns[r.value].peer, peer)
      ensures r.None? ==> forall c :: LiveChan(chns, c) ==> !Eq(chns[c].peer, peer)
      ensures r.None? ==> forall p :: LivePerm(T, p) && T[p].ip == peer.ip != NoIp ==> PortOf(peer) !in T[p].ports
    {
      if r.Some? {
        assert BackedBy(chns, tinfo.value, PortOf(peer), r.value);
        assert OwnedBy(T, chns[r.value], r.value);
      }
      forall c | r.None? && LiveChan(chns, c)
        ensures !Eq(chns[c].peer, peer)
      {
        assert OwnedBy(T, chns[c], c);
      }
    }

    /** No channel is ever bound to port 0. */
    lemma NoPortZero(p: Ref)
      requires Valid() && LivePerm(T, p)
      ensures 0 !in T[p].ports
    {
    }

    /** One IP has at most one live permission. */
    lemma OnePermPerIp()
      requires Valid()
      ensures forall q, r :: LivePerm(T, q) && LivePerm(T, r) && T[q].ip == T[r].ip != NoIp ==> q == r
    {
    }

    /** The slots of a bucket, and no others, are in the tables. */
    lemma Shape(b: nat)
      requires Valid() && b < HASH_SIZE
      ensures |psize| == |csize| == HASH_SIZE
      ensures forall i: nat :: Ref(b, i) in T <==> i < psize[b]
      ensures forall i: nat :: Ref(b, i) in chns <==> i < csize[b]
      ensures forall r :: r in T || r in chns ==> r.b < HASH_SIZE
    {
    }

    lemma Owners()
      requires Valid()
      ensures forall c :: LiveChan(chns, c) ==> chns[c].owner.Some? && LivePerm(T, chns[c].owner.value)
    {
    }

    lemma Buckets()
      requires Valid()
      ensures forall r :: r in T || r in chns ==> r.b < HASH_SIZE
    {
    }

    /** An allocation never holds more than eight full buckets of permissions. */
    lemma PermissionBound()
      requires Valid()
      ensures |LiveSet(T)| <= HASH_SIZE * MAX_PERMISSIONS
    {
      hide Consistent;
      TableBound(LiveSet(T), HASH_SIZE);
    }

    /** clear_allocation: permissions first, each with its channels, then the channel table. */
    method Clear()
      requires Valid()
      modifies this
      ensures Valid() && !valid
      ensures (forall p :: !LivePerm(T, p)) && (forall c :: !LiveChan(chns, c))
    {
      hide Consistent, Stored, Addressed;
      for b := 0 to HASH_SIZE
        invariant Valid()
        invariant forall p :: LivePerm(T, p) ==> p.b >= b
      {
        CleanBucket(b);
      }
      Buckets();
      Owners();
      Empty();
      perms, psize, T := MainSlots(ZERO_SLOT), seq(HASH_SIZE, _ => ARRAY_SIZE), MainSlots(NO_PERM);
      chns, csize := MainSlots(NO_CHAN), seq(HASH_SIZE, _ => ARRAY_SIZE);
      valid := false;
    }

    method CleanBucket(b: nat)
      requires Valid() && b < HASH_SIZE
      modifies this`perms, this`T, this`chns
      ensures Valid()
      ensures forall p :: LivePerm(T, p) ==> LivePerm(old(T), p) && p.b != b
    {
      hide Consistent, Stored, Addressed;
      Shape(b);
      var n := psize[b];
      for i := 0 to n
        invariant Valid()
        invariant forall p :: LivePerm(T, p) ==> LivePerm(old(T), p) && (p.b == b ==> p.i >= i)
      {
        Shape(b);
        SlotView(Ref(b, i));
        if perms[Ref(b, i)].live {
          PermissionClean(Ref(b, i));
        }
        assert forall p: Ref :: p.b == b && p.i == i ==> p == Ref(b, i);
      }
      Shape(b);
      assert forall p :: LivePerm(T, p) && p.b == b ==> p == Ref(b, p.i) && p.i < n;
    }

    /** Tables without a live slot are valid ones. */
    lemma Empty()
      requires forall ip :: bucket(ip) < HASH_SIZE
      ensures Stored(MainSlots(ZERO_SLOT), seq(HASH_SIZE, _ => ARRAY_SIZE), MainSlots(NO_PERM))
      ensures Addressed(MainSlots(NO_CHAN), seq(HASH_SIZE, _ => ARRAY_SIZE))
      ensures Consistent(bucket, MainSlots(NO_PERM), MainSlots(NO_CHAN))
      ensures forall p :: !LivePerm(MainSlots(NO_PERM), p)
      ensures forall c :: !LiveChan(MainSlots(NO_CHAN), c)
    {
      var perms := MainSlots(ZERO_SLOT);
      assert View(perms) == MainSlots(NO_PERM);
    }

    /** A live permission is in the bucket of its IP, and every bucket has its main slots. */
    lemma LiveHome()
      requires Valid()
      ensures forall p :: LivePerm(T, p) ==> bucket(T[p].ip) == p.b
      ensures forall b :: 0 <= b < |psize| ==> psize[b] >= ARRAY_SIZE
    {
    }
  }
}

