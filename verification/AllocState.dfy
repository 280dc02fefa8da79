/**
 The tables of one TURN allocation (src/server/ns_turn_allocation.c) as values:
 permissions hashed by peer IP, channels hashed by channel number, and each
 permission's map from port to channel.  Consistent is what every step of the
 server keeps; the lemmas say that each elementary table write keeps it.
 */
module AllocState {
  import opened Basics
  import opened Addresses

  /**
   The address of a slot: its bucket, and its place there among the main slots and
   then the extra slots.  Buckets grow by pointers to new slots, so a slot never
   moves and its address stands for the C pointer to it.
   */
  datatype Ref = Ref(b: nat, i: nat)

  type Time = Word32

  type Perms = map<Ref, Perm>
  type Chans = map<Ref, Chan>

  /** turn_permission_info; `ports` is what its lm_map stands for, `owner` always is the allocation. */
  datatype Perm = Perm(live: bool, ip: Ip, expires: Time, ports: map<nat, Ref>)

  /** ch_info; `owner` is the permission slot the channel belongs to. */
  datatype Chan = Chan(live: bool, chnum: nat, port: Port, peer: Addr, expires: Time, owner: Option<Ref>)

  /** A slot after memset(.., 0, ..). */
  const NO_PERM: Perm := Perm(false, NoIp, 0, map[])
  const NO_CHAN: Chan := Chan(false, 0, 0, UNSPEC, 0, None)

  const HASH_SIZE := 8
  const ARRAY_SIZE := 3
  const MAX_PERMISSIONS := 1024

  /** turn_time_before: the two 32-bit times compared as signed numbers. */
  predicate Before(t1: Time, t2: Time) {
    Signed(t1) < Signed(t2)
  }

  function Signed(t: Time): int {
    if t < 0x8000_0000 then t else t - 0x1_0000_0000
  }

  /** ctime + delta in 32 bits. */
  function Later(now: Time, delta: Time): Time {
    (now + delta) % 0x1_0000_0000
  }

  /** Below 2^31 the comparison is that of numbers, and a deadline is the sum while it fits in 32 bits. */
  lemma TimesAreNumbers(t1: Time, t2: Time)
    ensures t1 < 0x8000_0000 && t2 < 0x8000_0000 ==> (Before(t1, t2) <==> t1 < t2)
    ensures t1 + t2 < 0x1_0000_0000 ==> Later(t1, t2) == t1 + t2
  {
  }

  predicate LivePerm(perms: Perms, p: Ref) {
    p in perms && perms[p].live
  }

  predicate LiveChan(chns: Chans, c: Ref) {
    c in chns && chns[c].live
  }

  /** A slot that is not in use is all zero. */
  ghost predicate Zeroed(perms: Perms, chns: Chans) {
    && (forall p :: p in perms && !perms[p].live ==> perms[p] == NO_PERM)
    && (forall c :: c in chns && !chns[c].live ==> chns[c] == NO_CHAN)
  }

  /** Live permissions are in the bucket of their IP, and one IP has at most one. */
  ghost predicate PermsIndexed(bucket: Ip -> nat, perms: Perms) {
    && (forall p :: LivePerm(perms, p) ==> bucket(perms[p].ip) == p.b)
    && (forall p, q :: LivePerm(perms, p) && LivePerm(perms, q) && perms[p].ip == perms[q].ip != NoIp ==> p == q)
  }

  /** Live channels are in the bucket of their number, and one number has at most one. */
  ghost predicate ChansIndexed(chns: Chans) {
    && (forall c :: LiveChan(chns, c) ==> ChanOk(chns[c], c.b))
    && (forall c, d :: LiveChan(chns, c) && LiveChan(chns, d) && chns[c].chnum == chns[d].chnum ==> c == d)
  }

  predicate ChanOk(ch: Chan, b: nat) {
    ValidChannel(ch.chnum) && ch.chnum % HASH_SIZE == b && ch.port == PortOf(ch.peer) != 0
  }

  /** A live channel's owner is the live permission of its IP, whose port map points back to it. */
  ghost predicate Owned(perms: Perms, chns: Chans) {
    forall c :: LiveChan(chns, c) ==> OwnedBy(perms, chns[c], c)
  }

  predicate OwnedBy(perms: Perms, ch: Chan, c: Ref) {
    && ch.owner.Some? && LivePerm(perms, ch.owner.value)
    && ch.peer.ip == perms[ch.owner.value].ip != NoIp
    && ch.port in perms[ch.owner.value].ports && perms[ch.owner.value].ports[ch.port] == c
  }

  /** A permission's port map points to its own live channels and to nothing else. */
  ghost predicate Backed(perms: Perms, chns: Chans) {
    forall p, k :: p in perms && k in perms[p].ports ==> BackedBy(chns, p, k, perms[p].ports[k])
  }

  predicate BackedBy(chns: Chans, p: Ref, k: nat, c: Ref) {
    LiveChan(chns, c) && chns[c].owner == Some(p) && chns[c].port == k
  }

  ghost predicate Consistent(bucket: Ip -> nat, perms: Perms, chns: Chans) {
    && Zeroed(perms, chns)
    && PermsIndexed(bucket, perms)
    && ChansIndexed(chns)
    && Owned(perms, chns)
    && Backed(perms, chns)
  }

  // ---- what consistency gives ----

  /** No two live channels lead to the same peer: channel number to peer is one to one. */
  lemma OneChannelPerPeer(bucket: Ip -> nat, perms: Perms, chns: Chans, c: Ref, d: Ref)
    requires Consistent(bucket, perms, chns) && LiveChan(chns, c) && LiveChan(chns, d)
    requires Eq(chns[c].peer, chns[d].peer)
    ensures c == d
  {
  }

  // ---- elementary writes ----

  lemma PutPerm(bucket: Ip -> nat, perms: Perms, p: Ref, pm: Perm)
    requires PermsIndexed(bucket, perms)
    requires pm.live ==> bucket(pm.ip) == p.b
    requires pm.live ==> forall q :: q != p && LivePerm(perms, q) ==> !(perms[q].ip == pm.ip != NoIp)
    ensures PermsIndexed(bucket, perms[p := pm])
  {
  }

  lemma PutChan(chns: Chans, c: Ref, ch: Chan)
    requires ChansIndexed(chns)
    requires ch.live ==> ChanOk(ch, c.b) && forall d :: d != c && LiveChan(chns, d) ==> chns[d].chnum != ch.chnum
    ensures ChansIndexed(chns[c := ch])
  {
  }

  // Owned and Backed lead from channels to permissions and back, so each is shown
  // to survive a write from itself alone.

  /** A permission slot may change where no channel looks. */
  lemma OwnedIfPerm(perms: Perms, chns: Chans, p: Ref, pm: Perm)
    requires Owned(perms, chns)
    requires LivePerm(perms, p) ==> pm == perms[p].(expires := pm.expires)
    ensures Owned(perms[p := pm], chns)
  {
  }

  lemma BackedIfPerm(perms: Perms, chns: Chans, p: Ref, pm: Perm)
    requires Backed(perms, chns)
    requires pm.ports == if p in perms then perms[p].ports else map[]
    ensures Backed(perms[p := pm], chns)
  {
  }

  /** Installing a permission for a new IP in a free slot of its bucket, or in a new one. */
  lemma InstallKeeps(bucket: Ip -> nat, perms: Perms, chns: Chans, p: Ref, ip: Ip)
    requires Consistent(bucket, perms, chns)
    requires forall q :: LivePerm(perms, q) ==> !(perms[q].ip == ip != NoIp)
    requires p.b == bucket(ip) && !LivePerm(perms, p)
    ensures Consistent(bucket, perms[p := NO_PERM.(live := true, ip := ip)], chns)
  {
    var pm := NO_PERM.(live := true, ip := ip);
    PutPerm(bucket, perms, p, pm);
    OwnedIfPerm(perms, chns, p, pm);
    BackedIfPerm(perms, chns, p, pm);
  }

  /** Refreshing the deadline of a live permission. */
  lemma TouchPermKeeps(bucket: Ip -> nat, perms: Perms, chns: Chans, p: Ref, t: Time)
    requires Consistent(bucket, perms, chns) && LivePerm(perms, p)
    ensures Consistent(bucket, perms[p := perms[p].(expires := t)], chns)
  {
    var pm := perms[p].(expires := t);
    PutPerm(bucket, perms, p, pm);
    OwnedIfPerm(perms, chns, p, pm);
    BackedIfPerm(perms, chns, p, pm);
  }

  lemma TouchChanOwned(perms: Perms, chns: Chans, c: Ref, t: Time)
    requires Owned(perms, chns) && LiveChan(chns, c)
    ensures Owned(perms, chns[c := chns[c].(expires := t)])
  {
  }

  lemma TouchChanBacked(perms: Perms, chns: Chans, c: Ref, t: Time)
    requires Backed(perms, chns) && LiveChan(chns, c)
    ensures Backed(perms, chns[c := chns[c].(expires := t)])
  {
  }

  /** Refreshing the deadline of a live channel. */
  lemma TouchChanKeeps(bucket: Ip -> nat, perms: Perms, chns: Chans, c: Ref, t: Time)
    requires Consistent(bucket, perms, chns) && LiveChan(chns, c)
    ensures Consistent(bucket, perms, chns[c := chns[c].(expires := t)])
  {
    PutChan(chns, c, chns[c].(expires := t));
    TouchChanOwned(perms, chns, c, t);
    TouchChanBacked(perms, chns, c, t);
  }

  function BindPort(perms: Perms, p: Ref, k: nat, c: Ref): Perms
    requires p in perms
  {
    perms[p := perms[p].(ports := perms[p].ports[k := c])]
  }

  lemma BindOwned(perms: Perms, chns: Chans, c: Ref, ch: Chan, p: Ref)
    requires Owned(perms, chns) && p in perms && ch.port !in perms[p].ports
    requires OwnedBy(BindPort(perms, p, ch.port, c), ch, c)
    ensures Owned(BindPort(perms, p, ch.port, c), chns[c := ch])
  {
  }

  lemma BindBacked(perms: Perms, chns: Chans, c: Ref, ch: Chan, p: Ref)
    requires Backed(perms, chns) && p in perms && !LiveChan(chns, c) && ch.live && ch.owner == Some(p)
    ensures Backed(BindPort(perms, p, ch.port, c), chns[c := ch])
  {
  }

  /** A channel slot taken for a new channel: ch_map_get(.., 1) and allocation_get_new_ch_info. */
  lemma BindKeeps(bucket: Ip -> nat, perms: Perms, chns: Chans, c: Ref, ch: Chan, p: Ref)
    requires Consistent(bucket, perms, chns)
    requires ch.live && ChanOk(ch, c.b) && !LiveChan(chns, c)
    requires forall d :: LiveChan(chns, d) ==> chns[d].chnum != ch.chnum
    requires ch.owner == Some(p) && LivePerm(perms, p) && ch.peer.ip == perms[p].ip != NoIp
    requires ch.port !in perms[p].ports
    ensures Consistent(bucket, BindPort(perms, p, ch.port, c), chns[c := ch])
  {
    PutChan(chns, c, ch);
    PutPerm(bucket, perms, p, perms[p].(ports := perms[p].ports[ch.port := c]));
    BindOwned(perms, chns, c, ch, p);
    BindBacked(perms, chns, c, ch, p);
  }

  function UnbindPort(perms: Perms, p: Ref, k: nat): Perms
    requires p in perms
  {
    perms[p := perms[p].(ports := perms[p].ports - {k})]
  }

  lemma UnbindOwned(perms: Perms, chns: Chans, c: Ref, p: Ref)
    requires Owned(perms, chns) && LiveChan(chns, c) && OwnedBy(perms, chns[c], c) && chns[c].owner == Some(p)
    ensures Owned(UnbindPort(perms, p, chns[c].port), chns[c := NO_CHAN])
  {
  }

  lemma UnbindBacked(perms: Perms, chns: Chans, c: Ref, p: Ref)
    requires Backed(perms, chns) && p in perms && LiveChan(chns, c) && chns[c].owner == Some(p)
    ensures Backed(UnbindPort(perms, p, chns[c].port), chns[c := NO_CHAN])
  {
  }

  /** turn_channel_delete: the channel leaves its owner's port map and its slot is zeroed. */
  lemma UnbindKeeps(bucket: Ip -> nat, perms: Perms, chns: Chans, c: Ref, p: Ref)
    requires Consistent(bucket, perms, chns) && LiveChan(chns, c) && chns[c].owner == Some(p)
    ensures LivePerm(perms, p)
    ensures Consistent(bucket, UnbindPort(perms, p, chns[c].port), chns[c := NO_CHAN])
  {
    assert OwnedBy(perms, chns[c], c);
    PutChan(chns, c, NO_CHAN);
    PutPerm(bucket, perms, p, perms[p].(ports := perms[p].ports - {chns[c].port}));
    UnbindOwned(perms, chns, c, p);
    UnbindBacked(perms, chns, c, p);
  }

  /** The channel table with every channel of permission p zeroed. */
  function WithoutOwner(chns: Chans, p: Ref): Chans {
    map c | c in chns :: if chns[c].live && chns[c].owner == Some(p) then NO_CHAN else chns[c]
  }

  lemma CleanChans(chns: Chans, p: Ref)
    requires ChansIndexed(chns)
    ensures ChansIndexed(WithoutOwner(chns, p))
  {
  }

  lemma CleanOwned(perms: Perms, chns: Chans, p: Ref)
    requires Owned(perms, chns)
    ensures Owned(perms[p := NO_PERM], WithoutOwner(chns, p))
  {
  }

  lemma CleanBacked(perms: Perms, chns: Chans, p: Ref)
    requires Backed(perms, chns)
    ensures Backed(perms[p := NO_PERM], WithoutOwner(chns, p))
  {
  }

  /** turn_permission_clean: the permission and all its channels are zeroed. */
  lemma CleanKeeps(bucket: Ip -> nat, perms: Perms, chns: Chans, p: Ref)
    requires Consistent(bucket, perms, chns) && p in perms
    ensures Consistent(bucket, perms[p := NO_PERM], WithoutOwner(chns, p))
  {
    PutPerm(bucket, perms, p, NO_PERM);
    CleanChans(chns, p);
    CleanOwned(perms, chns, p);
    CleanBacked(perms, chns, p);
  }
}

