/**
 The once-a-second expiry sweep of one allocation, sweep_allocation_timed_events in
 src/server/ns_turn_server.c.  A sweep is a pure filter of the two tables.
 */
module Sweeping {
  import opened Basics
  import opened Addresses
  import opened AllocState
  import opened Allocations

  /** The permission is past its deadline. */
  predicate Stale(t: Perms, q: Ref, now: Time) {
    LivePerm(t, q) && Before(t[q].expires, now)
  }

  /** The slot comes before position i of bucket b in the order of the sweep. */
  predicate Visited(q: Ref, b: nat, i: nat) {
    q.b < b || (q.b == b && q.i < i)
  }

  /** The permission pass up to position (b, i). */
  function PermsSwept(t: Perms, now: Time, b: nat, i: nat): Perms {
    map q | q in t :: if Stale(t, q, now) && Visited(q, b, i) then NO_PERM else t[q]
  }

  /** The channels that pass has left: an expired permission takes its channels with it. */
  function OwnersSwept(t: Perms, chns: Chans, now: Time, b: nat, i: nat): Chans {
    map c | c in chns ::
      if chns[c].live && chns[c].owner.Some? && Stale(t, chns[c].owner.value, now) && Visited(chns[c].owner.value, b, i)
      then NO_CHAN else chns[c]
  }

  /** The channel pass up to position (b, i). */
  function ChansSwept(chns: Chans, now: Time, b: nat, i: nat): Chans {
    map c | c in chns :: if chns[c].live && Before(chns[c].expires, now) && Visited(c, b, i) then NO_CHAN else chns[c]
  }

  /** The channel survives: it is live, its own deadline has not passed, and neither has its owner's. */
  predicate Survives(t: Perms, chns: Chans, now: Time, c: Ref) {
    && LiveChan(chns, c) && !Before(chns[c].expires, now)
    && chns[c].owner.Some? && !Stale(t, chns[c].owner.value, now)
  }

  /** What a sweep leaves of the channels, */
  function SurvivingChans(t: Perms, chns: Chans, now: Time): Chans {
    map c | c in chns :: if Survives(t, chns, now, c) then chns[c] else NO_CHAN
  }

  /** and of the permissions: the unexpired ones, with the ports of their surviving channels. */
  function SurvivingPerms(t: Perms, chns: Chans, now: Time): Perms {
    map q | q in t :: if LivePerm(t, q) && !Stale(t, q, now)
                      then t[q].(ports := map k | k in t[q].ports && Survives(t, chns, now, t[q].ports[k])
                                            :: t[q].ports[k])
                      else NO_PERM
  }

  /** The end of one bucket is the start of the next. */
  lemma NextBucket(t: Perms, chns: Chans, now: Time, b: nat, n: nat)
    requires forall q :: q in t && q.b == b ==> q.i < n
    ensures PermsSwept(t, now, b, n) == PermsSwept(t, now, b + 1, 0)
    ensures (forall c :: LiveChan(chns, c) && chns[c].owner.Some? ==> chns[c].owner.value in t) ==>
              OwnersSwept(t, chns, now, b, n) == OwnersSwept(t, chns, now, b + 1, 0)
  {
  }

  lemma NextChanBucket(chns: Chans, now: Time, b: nat, n: nat)
    requires forall q :: q in chns && q.b == b ==> q.i < n
    ensures ChansSwept(chns, now, b, n) == ChansSwept(chns, now, b + 1, 0)
  {
  }

  /** One more slot of the permission pass. */
  lemma PermStep(t: Perms, chns: Chans, now: Time, b: nat, i: nat)
    requires Ref(b, i) in t
    ensures var r := Ref(b, i);
            if Stale(t, r, now) then
              && PermsSwept(t, now, b, i + 1) == PermsSwept(t, now, b, i)[r := NO_PERM]
              && OwnersSwept(t, chns, now, b, i + 1) == WithoutOwner(OwnersSwept(t, chns, now, b, i), r)
            else
              && PermsSwept(t, now, b, i + 1) == PermsSwept(t, now, b, i)
              && OwnersSwept(t, chns, now, b, i + 1) == OwnersSwept(t, chns, now, b, i)
  {
  }

  lemma ChanStep(chns: Chans, now: Time, b: nat, i: nat)
    requires Ref(b, i) in chns
    ensures var r := Ref(b, i);
            ChansSwept(chns, now, b, i + 1)
            == if chns[r].live && Before(chns[r].expires, now) then ChansSwept(chns, now, b, i)[r := NO_CHAN]
               else ChansSwept(chns, now, b, i)
  {
  }

  /** One slot of the first loop. */
  method SweepPermSlot(a: Allocation, now: Time, r: Ref, ghost t: Perms, ghost chns: Chans)
    requires a.Valid() && r in a.T && r in t
    requires a.T == PermsSwept(t, now, r.b, r.i) && a.chns == OwnersSwept(t, chns, now, r.b, r.i)
    modifies a`perms, a`T, a`chns
    ensures a.Valid()
    ensures a.T == PermsSwept(t, now, r.b, r.i + 1) && a.chns == OwnersSwept(t, chns, now, r.b, r.i + 1)
  {
    hide Consistent, Stored, Addressed, OwnersSwept, WithoutOwner;
    a.SlotView(r);
    PermStep(t, chns, now, r.b, r.i);
    assert a.T[r] == t[r];
    if a.perms[r].live && Before(a.perms[r].expires, now) {
      a.PermissionClean(r);
    }
  }

  /** One bucket of the first loop. */
  method SweepPermBucket(a: Allocation, now: Time, b: nat, ghost t: Perms, ghost chns: Chans)
    requires a.Valid() && b < HASH_SIZE
    requires a.T == PermsSwept(t, now, b, 0) && a.chns == OwnersSwept(t, chns, now, b, 0)
    requires forall c :: LiveChan(chns, c) && chns[c].owner.Some? ==> chns[c].owner.value in t
    modifies a`perms, a`T, a`chns
    ensures a.Valid()
    ensures a.T == PermsSwept(t, now, b + 1, 0) && a.chns == OwnersSwept(t, chns, now, b + 1, 0)
  {
    hide Consistent, Stored, Addressed, PermsSwept, OwnersSwept;
    a.Shape(b);
    PermsSweptKeys(t, now, b, 0);
    var n := a.psize[b];
    for i := 0 to n
      invariant a.Valid()
      invariant a.T == PermsSwept(t, now, b, i) && a.chns == OwnersSwept(t, chns, now, b, i)
    {
      PermsSweptKeys(t, now, b, i);
      SweepPermSlot(a, now, Ref(b, i), t, chns);
    }
    assert forall q :: q in t && q.b == b ==> q == Ref(b, q.i) && q.i < n;
    NextBucket(t, chns, now, b, n);
  }

  /** The first loop: expired permissions, with their channels. */
  method SweepPermissions(a: Allocation, now: Time)
    requires a.Valid()
    modifies a`perms, a`T, a`chns
    ensures a.Valid()
    ensures a.T == PermsSwept(old(a.T), now, HASH_SIZE, 0)
    ensures a.chns == OwnersSwept(old(a.T), old(a.chns), now, HASH_SIZE, 0)
  {
    hide Consistent, Stored, Addressed;
    ghost var t, chns := a.T, a.chns;
    a.Owners();
    assert PermsSwept(t, now, 0, 0) == t && OwnersSwept(t, chns, now, 0, 0) == chns;
    for b := 0 to HASH_SIZE
      invariant a.Valid()
      invariant a.T == PermsSwept(t, now, b, 0) && a.chns == OwnersSwept(t, chns, now, b, 0)
    {
      SweepPermBucket(a, now, b, t, chns);
    }
  }

  lemma PermsSweptKeys(t: Perms, now: Time, b: nat, i: nat)
    ensures PermsSwept(t, now, b, i).Keys == t.Keys
  {
  }

  /** Two tables that differ in their port maps only. */
  ghost predicate PortsOnly(t: Perms, t': Perms) {
    t'.Keys == t.Keys && forall q :: q in t ==> t'[q] == t[q].(ports := t'[q].ports)
  }

  /** One slot of the second loop. */
  method SweepChanSlot(a: Allocation, now: Time, c: Ref, ghost t: Perms, ghost chns: Chans)
    requires a.Valid() && c in a.chns && c in chns
    requires a.chns == ChansSwept(chns, now, c.b, c.i) && PortsOnly(t, a.T)
    modifies a`perms, a`T, a`chns
    ensures a.Valid()
    ensures a.chns == ChansSwept(chns, now, c.b, c.i + 1) && PortsOnly(t, a.T)
  {
    hide Consistent, Stored, Addressed;
    ChanStep(chns, now, c.b, c.i);
    assert a.chns[c] == chns[c];
    if a.chns[c].live && Before(a.chns[c].expires, now) {
      a.ChannelDelete(c);
    }
  }

  /** One bucket of the second loop. */
  method SweepChanBucket(a: Allocation, now: Time, b: nat, ghost t: Perms, ghost chns: Chans)
    requires a.Valid() && b < HASH_SIZE
    requires a.chns == ChansSwept(chns, now, b, 0) && PortsOnly(t, a.T)
    modifies a`perms, a`T, a`chns
    ensures a.Valid()
    ensures a.chns == ChansSwept(chns, now, b + 1, 0) && PortsOnly(t, a.T)
  {
    hide Consistent, Stored, Addressed, ChansSwept, PortsOnly;
    a.Shape(b);
    ChansSweptKeys(chns, now, b, 0);
    var n := a.csize[b];
    for i := 0 to n
      invariant a.Valid()
      invariant a.chns == ChansSwept(chns, now, b, i) && PortsOnly(t, a.T)
    {
      ChansSweptKeys(chns, now, b, i);
      SweepChanSlot(a, now, Ref(b, i), t, chns);
    }
    assert forall q :: q in chns && q.b == b ==> q == Ref(b, q.i) && q.i < n;
    NextChanBucket(chns, now, b, n);
  }

  lemma ChansSweptKeys(chns: Chans, now: Time, b: nat, i: nat)
    ensures ChansSwept(chns, now, b, i).Keys == chns.Keys
  {
  }

  /** The second loop: channels past their own deadline. */
  method SweepChannels(a: Allocation, now: Time)
    requires a.Valid()
    modifies a`perms, a`T, a`chns
    ensures a.Valid()
    ensures a.chns == ChansSwept(old(a.chns), now, HASH_SIZE, 0)
    ensures PortsOnly(old(a.T), a.T)
  {
    hide Consistent, Stored, Addressed;
    ghost var t, chns := a.T, a.chns;
    assert ChansSwept(chns, now, 0, 0) == chns;
    for b := 0 to HASH_SIZE
      invariant a.Valid()
      invariant a.chns == ChansSwept(chns, now, b, 0) && PortsOnly(t, a.T)
    {
      SweepChanBucket(a, now, b, t, chns);
    }
  }

  /** The two passes together leave exactly the surviving channels, */
  lemma PassesFilterChans(t: Perms, chns: Chans, now: Time)
    requires forall c :: LiveChan(chns, c) ==> chns[c].owner.Some? && LivePerm(t, chns[c].owner.value)
    requires forall r :: r in t || r in chns ==> r.b < HASH_SIZE
    requires forall c :: c in chns && !chns[c].live ==> chns[c] == NO_CHAN
    ensures ChansSwept(OwnersSwept(t, chns, now, HASH_SIZE, 0), now, HASH_SIZE, 0) == SurvivingChans(t, chns, now)
  {
  }

  /** and a consistent table over those channels has exactly the ports of the survivors. */
  lemma PortsFollow(bucket: Ip -> nat, t: Perms, chns: Chans, now: Time, t': Perms, q: Ref, k: nat)
    requires Consistent(bucket, t, chns) && Consistent(bucket, t', SurvivingChans(t, chns, now))
    requires LivePerm(t, q) && LivePerm(t', q)
    ensures k in t'[q].ports <==> k in t[q].ports && Survives(t, chns, now, t[q].ports[k])
    ensures k in t'[q].ports ==> t'[q].ports[k] == t[q].ports[k]
  {
    var chns' := SurvivingChans(t, chns, now);
    if k in t'[q].ports {
      var c := t'[q].ports[k];
      assert BackedBy(chns', q, k, c);
      assert OwnedBy(t, chns[c], c);
    }
    if k in t[q].ports && Survives(t, chns, now, t[q].ports[k]) {
      var c := t[q].ports[k];
      assert BackedBy(chns, q, k, c);
      assert OwnedBy(t', chns'[c], c);
    }
  }

  lemma SurvivorPorts(bucket: Ip -> nat, t: Perms, chns: Chans, now: Time, t': Perms, q: Ref)
    requires Consistent(bucket, t, chns) && Consistent(bucket, t', SurvivingChans(t, chns, now))
    requires LivePerm(t, q) && LivePerm(t', q)
    ensures t'[q].ports == map k | k in t[q].ports && Survives(t, chns, now, t[q].ports[k]) :: t[q].ports[k]
  {
    hide Consistent, SurvivingChans, Survives;
    forall k: nat
      ensures k in t'[q].ports <==> k in t[q].ports && Survives(t, chns, now, t[q].ports[k])
      ensures k in t'[q].ports ==> t'[q].ports[k] == t[q].ports[k]
    {
      PortsFollow(bucket, t, chns, now, t', q, k);
    }
  }

  lemma SlotSwept(bucket: Ip -> nat, t: Perms, chns: Chans, now: Time, t': Perms, q: Ref)
    requires Consistent(bucket, t, chns) && Consistent(bucket, t', SurvivingChans(t, chns, now))
    requires PortsOnly(PermsSwept(t, now, HASH_SIZE, 0), t') && q in t && q.b < HASH_SIZE
    ensures q in t' && t'[q] == SurvivingPerms(t, chns, now)[q]
  {
    hide Consistent, SurvivingChans, Survives;
    if LivePerm(t, q) && !Stale(t, q, now) {
      SurvivorPorts(bucket, t, chns, now, t', q);
    } else {
      DeadSlot(bucket, t', SurvivingChans(t, chns, now), q);
    }
  }

  lemma DeadSlot(bucket: Ip -> nat, t: Perms, chns: Chans, q: Ref)
    requires Consistent(bucket, t, chns) && q in t && !t[q].live
    ensures t[q] == NO_PERM
  {
  }

  lemma PassesFilterPerms(bucket: Ip -> nat, t: Perms, chns: Chans, now: Time, t': Perms)
    requires Consistent(bucket, t, chns) && Consistent(bucket, t', SurvivingChans(t, chns, now))
    requires PortsOnly(PermsSwept(t, now, HASH_SIZE, 0), t') && forall r :: r in t ==> r.b < HASH_SIZE
    ensures t' == SurvivingPerms(t, chns, now)
  {
    hide Consistent, SurvivingChans;
    forall q | q in t
      ensures q in t' && t'[q] == SurvivingPerms(t, chns, now)[q]
    {
      SlotSwept(bucket, t, chns, now, t', q);
    }
  }

  /**
   sweep_allocation_timed_events: exactly the permissions not past their deadline
   survive, and exactly the channels neither past their own nor their owner's.
   */
  method Sweep(a: Allocation, now: Time)
    requires a.Valid()
    modifies a`perms, a`T, a`chns
    ensures a.Valid()
    ensures a.valid ==> a.chns == SurvivingChans(old(a.T), old(a.chns), now)
    ensures a.valid ==> a.T == SurvivingPerms(old(a.T), old(a.chns), now)
    ensures !a.valid ==> a.T == old(a.T) && a.chns == old(a.chns)
  {
    hide Stored, Addressed, PermsSwept, OwnersSwept, ChansSwept, SurvivingChans, SurvivingPerms, PortsOnly;
    if a.valid {
      ghost var t, chns := a.T, a.chns;
      a.Buckets();
      a.Owners();
      SweepPermissions(a, now);
      SweepChannels(a, now);
      PassesFilterChans(t, chns, now);
      PassesFilterPerms(a.bucket, t, chns, now, a.T);
    }
  }

  // ---- the sweep in numbers ----

  /** A permission is live after a sweep exactly up to its deadline, and keeps its IP. */
  lemma PermissionLasts(t: Perms, chns: Chans, now: Time, p: Ref)
    requires LivePerm(t, p) && t[p].expires < 0x8000_0000 && now < 0x8000_0000
    ensures var t' := SurvivingPerms(t, chns, now);
            && (LivePerm(t', p) <==> now <= t[p].expires)
            && (LivePerm(t', p) ==> t'[p].ip == t[p].ip && t'[p].expires == t[p].expires)
  {
  }

  /** A channel exactly up to its own deadline and its owner's, and keeps its number and peer. */
  lemma ChannelLasts(t: Perms, chns: Chans, now: Time, c: Ref)
    requires LiveChan(chns, c) && chns[c].owner.Some? && LivePerm(t, chns[c].owner.value)
    requires chns[c].expires < 0x8000_0000 && t[chns[c].owner.value].expires < 0x8000_0000 && now < 0x8000_0000
    ensures var chns' := SurvivingChans(t, chns, now);
            && (LiveChan(chns', c) <==> now <= chns[c].expires && now <= t[chns[c].owner.value].expires)
            && (LiveChan(chns', c) ==> chns'[c] == chns[c])
  {
  }
}
