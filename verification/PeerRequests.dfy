/**
 What src/server/ns_turn_server.c does to an allocation's permissions and channels:
 ChannelBind and CreatePermission (sections 11.2 and 9.2 of RFC 5766) and the
 lifetime refreshes they make.
 */
module PeerRequests {
  import opened Basics
  import opened Addresses
  import opened LocalMap
  import opened AllocState
  import opened Allocations

  /** The clock and the configured lifetimes, in seconds. */
  datatype Server = Server(ctime: Time, channelLifetime: Time, permissionLifetime: Time)

  /** Which relay sockets the allocation has. */
  datatype Relays = Relays(v4: bool, v6: bool)

  /** get_relay_socket: any family that is not IPv6 uses the IPv4 slot. */
  predicate HasRelay(r: Relays, ip: Ip) {
    if ip.Ip6? then r.v6 else r.v4
  }

  datatype Why =
    | OtherPeer | WrongPermission | WrongCombination | WrongPort
    | OtherChannel | Forbidden | NoChannelData | MultiplexTaken
    | TcpRelay | UnknownAttributes | DuplicateNumber | ZeroNumber | FamilyMismatch | EmptyPort
    | BadRequest | BadNumber | NoAddress | CannotUpdate

  /** Silent: no error code and no response from the handler itself. */
  datatype Reply = Silent | Success | Error(code: nat, why: Why)

  // ---- lifetimes ----

  /** update_turn_permission_lifetime: a zero delta means the configured permission lifetime. */
  function PermDeadline(srv: Server, delta: Time): Time {
    Later(srv.ctime, if delta == 0 then srv.permissionLifetime else delta)
  }

  /** update_channel_lifetime: the owner's deadline is pushed along with the channel's. */
  method UpdateChannelLifetime(a: Allocation, srv: Server, c: Ref)
    requires a.Valid() && LiveChan(a.chns, c)
    modifies a`perms, a`T, a`chns
    ensures a.Valid()
    ensures a.chns == old(a.chns)[c := old(a.chns)[c].(expires := Later(srv.ctime, srv.channelLifetime))]
    ensures var p := old(a.chns)[c].owner;
            p.Some? && LivePerm(old(a.T), p.value) &&
            a.T == old(a.T)[p.value := old(a.T)[p.value].(expires := PermDeadline(srv, srv.channelLifetime))]
  {
    hide Consistent, Stored, Addressed;
    a.OwnerIsLive(c);
    a.TouchPermission(a.chns[c].owner.value, PermDeadline(srv, srv.channelLifetime));
    a.TouchChannel(c, Later(srv.ctime, srv.channelLifetime));
  }

  // ---- ChannelBind ----

  /** The checks on a channel number that is already bound; the last three are internal errors. */
  function ExistingChannel(ch: Chan, ownerIp: Option<Ip>, peer: Addr): Reply {
    if !Eq(peer, ch.peer) then Error(400, OtherPeer)
    else if ownerIp.None? then Error(500, WrongPermission)
    else if !EqNoPort(peer, Addr(ownerIp.value, 0)) then Error(500, WrongCombination)
    else if ch.port != PortOf(peer) then Error(500, WrongPort)
    else Success
  }

  /** The IP of the permission a channel points to, if it points to one. */
  function OwnerIp(perms: map<Ref, PermSlot>, ch: Chan): Option<Ip> {
    if ch.owner.Some? && ch.owner.value in perms then Some(perms[ch.owner.value].ip) else None
  }

  /** In a valid allocation the internal errors cannot happen. */
  lemma NoInternalError(a: Allocation, c: Ref, peer: Addr)
    requires a.Valid() && LiveChan(a.chns, c)
    ensures ExistingChannel(a.chns[c], OwnerIp(a.perms, a.chns[c]), peer)
            == if Eq(peer, a.chns[c].peer) then Success else Error(400, OtherPeer)
  {
  }

  /** The state after chnum is bound to peer in slot c under permission p. */
  ghost predicate Bound(t: Perms, chns: Chans, srv: Server, chnum: nat, peer: Addr, c: Ref, p: Ref, t': Perms,
                        chns': Chans) {
    && chns' == chns[c := Chan(true, chnum, PortOf(peer), peer, Later(srv.ctime, srv.channelLifetime), Some(p))]
    && t' == t[p := Perm(true, peer.ip, PermDeadline(srv, srv.channelLifetime),
                         (if LivePerm(t, p) then t[p].ports else map[])[PortOf(peer) := c])]
    && (LivePerm(t, p) ==> t[p].ip == peer.ip)
    && (LiveChan(chns, c) ==> chns[c].chnum == chnum && chns[c].peer == peer)
  }

  /** A refresh of an existing binding, */
  lemma BoundExisting(t: Perms, chns: Chans, srv: Server, peer: Addr, c: Ref, p: Ref)
    requires LiveChan(chns, c) && Eq(peer, chns[c].peer) && chns[c].port == PortOf(peer) && chns[c].owner == Some(p)
    requires LivePerm(t, p) && t[p].ip == peer.ip && PortOf(peer) in t[p].ports && t[p].ports[PortOf(peer)] == c
    ensures Bound(t, chns, srv, chns[c].chnum, peer, c, p,
                  t[p := t[p].(expires := PermDeadline(srv, srv.channelLifetime))],
                  chns[c := chns[c].(expires := Later(srv.ctime, srv.channelLifetime))])
  {
    assert t[p].ports[PortOf(peer) := c] == t[p].ports;
  }

  /** and the refresh that completes a new one. */
  lemma BoundNew(t: Perms, chns: Chans, srv: Server, chnum: nat, peer: Addr, c: Ref, p: Ref, t1: Perms, chns1: Chans)
    requires !LiveChan(chns, c) && (LivePerm(t, p) ==> t[p].ip == peer.ip)
    requires chns1 == chns[c := Chan(true, chnum, PortOf(peer), peer, 0, Some(p))]
    requires t1 == BindPort(if LivePerm(t, p) then t
                            else t[p := NO_PERM.(live := true, ip := peer.ip)], p, PortOf(peer), c)
    ensures Bound(t, chns, srv, chnum, peer, c, p,
                  t1[p := t1[p].(expires := PermDeadline(srv, srv.channelLifetime))],
                  chns1[c := chns1[c].(expires := Later(srv.ctime, srv.channelLifetime))])
  {
  }

  /** allocation_get_new_ch_info: the permission is found or added, then the channel attached. */
  method NewChannel(a: Allocation, chnum: nat, peer: Addr) returns (c: Option<Ref>, ghost p: Ref)
    requires a.Valid() && peer.ip != NoIp
    requires ValidChannel(chnum) && PortOf(peer) != 0
    requires forall d :: LiveChan(a.chns, d) ==> a.chns[d].chnum != chnum
    requires forall q :: LivePerm(a.T, q) && a.T[q].ip == peer.ip != NoIp ==> PortOf(peer) !in a.T[q].ports
    modifies a`perms, a`psize, a`T, a`chns, a`csize
    ensures a.Valid()
    ensures c.None? <==> !Permitted(old(a.T), peer.ip) && Refuses(old(a.T), old(a.psize), a.bucket(peer.ip))
    ensures c.None? ==> a.Now() == old(a.Now())
    ensures c.Some? ==> !LiveChan(old(a.chns), c.value) && (LivePerm(old(a.T), p) ==> old(a.T)[p].ip == peer.ip)
    ensures c.Some? ==> a.chns == old(a.chns)[c.value := Chan(true, chnum, PortOf(peer), peer, 0, Some(p))]
    ensures c.Some? ==> a.T == BindPort(if LivePerm(old(a.T), p) then old(a.T)
                                        else old(a.T)[p := NO_PERM.(live := true, ip := peer.ip)], p, PortOf(peer),
                                        c.value)
  {
    hide Consistent, Stored, Addressed;
    var tinfo := a.GetPermission(peer.ip);
    if tinfo.None? {
      tinfo := a.AddPermission(peer.ip);
      if tinfo.None? {
        return None, Ref(0, 0);
      }
    }
    p := tinfo.value;
    var chn := a.AttachChannel(chnum, peer, tinfo.value);
    c := Some(chn);
  }

  ghost predicate NumberBound(chns: Chans, chnum: nat) {
    exists d :: LiveChan(chns, d) && chns[d].chnum == chnum
  }

  ghost predicate NumberElsewhere(chns: Chans, chnum: nat, peer: Addr) {
    exists d :: LiveChan(chns, d) && chns[d].chnum == chnum && !Eq(chns[d].peer, peer)
  }

  ghost predicate PeerBound(chns: Chans, peer: Addr) {
    exists d :: LiveChan(chns, d) && Eq(chns[d].peer, peer)
  }

  /** What a well-formed request to bind chnum to peer is answered, by the state of the tables before it. */
  ghost function BindReply(t: Perms, size: seq<nat>, b: nat, chns: Chans, good: bool, multiplexOk: bool, chnum: nat,
                           peer: Addr): Reply
    requires b < |size|
  {
    if NumberElsewhere(chns, chnum, peer) then Error(400, OtherPeer)
    else if !NumberBound(chns, chnum) && PeerBound(chns, peer) then Error(400, OtherChannel)
    else if !NumberBound(chns, chnum) && !good then Error(403, Forbidden)
    else if !NumberBound(chns, chnum) && !Permitted(t, peer.ip) && Refuses(t, size, b) then Error(500, NoChannelData)
    else if !multiplexOk then Error(400, MultiplexTaken)
    else Success
  }

  /**
   What decides the answer to a well-formed request, by the tables before it: a number in use for
   another peer, then a peer in use under another number, the filter, the room, the registry.
   */
  lemma BindAnswers(t: Perms, size: seq<nat>, b: nat, chns: Chans, good: bool, multiplexOk: bool, chnum: nat,
                    peer: Addr)
    requires b < |size| && peer.ip != NoIp
    ensures var reply := BindReply(t, size, b, chns, good, multiplexOk, chnum, peer);
            var elsewhere := exists d :: LiveChan(chns, d) && chns[d].chnum == chnum && chns[d].peer != peer;
            var known := exists d :: LiveChan(chns, d) && chns[d].chnum == chnum;
            var bound := exists d :: LiveChan(chns, d) && chns[d].peer == peer;
            var unknown := forall q :: LivePerm(t, q) ==> t[q].ip != peer.ip;
            var full := unknown && |LiveSet(t)| >= 1024 && Full(t, b, size[b]);
            && (reply == Error(400, OtherPeer) <==> elsewhere)
            && (reply == Error(400, OtherChannel) <==> !known && bound)
            && (reply == Error(403, Forbidden) <==> !known && !bound && !good)
            && (reply == Error(500, NoChannelData) <==> !known && !bound && good && full)
            && (reply == Error(400, MultiplexTaken) <==>
                !multiplexOk && !elsewhere && (known || (!bound && good && !full)))
            && (reply == Success <==> multiplexOk && !elsewhere && (known || (!bound && good && !full)))
  {
    hide LiveSet, Full;
    assert NumberElsewhere(chns, chnum, peer) <==>
           exists d :: LiveChan(chns, d) && chns[d].chnum == chnum && chns[d].peer != peer;
    assert PeerBound(chns, peer) <==> exists d :: LiveChan(chns, d) && chns[d].peer == peer;
  }

  /**
   Permissions that become live are for IPs of the request that its own filter accepts; those that
   were live keep their IP.
   */
  ghost predicate Installs(t: Perms, ips: set<Ip>, good: Ip -> bool, t': Perms) {
    && (forall q :: LivePerm(t', q) && !LivePerm(t, q) ==> t'[q].ip in ips && good(t'[q].ip))
    && (forall q :: LivePerm(t, q) ==> LivePerm(t', q) && t'[q].ip == t[q].ip)
  }

  /**
   The body of handle_turn_channel_bind once number and peer are known.  A reply with
   an error leaves the tables alone, except that a peer another allocation already
   holds in multiplex mode is refused only after the binding is made.
   */
  method BindChannel(a: Allocation, srv: Server, good: Ip -> bool, multiplexOk: bool, chnum: nat, peer: Addr)
    returns (reply: Reply, c: Option<Ref>, ghost p: Ref)
    requires a.Valid() && ValidChannel(chnum) && PortOf(peer) != 0
    modifies a`perms, a`psize, a`T, a`chns, a`csize
    ensures a.Valid()
    ensures |old(a.psize)| == HASH_SIZE && a.bucket(peer.ip) < HASH_SIZE
    ensures reply == BindReply(old(a.T), old(a.psize), a.bucket(peer.ip), old(a.chns), good(peer.ip), multiplexOk,
                               chnum, peer)
    ensures c.Some? <==> reply.Success? || reply == Error(400, MultiplexTaken)
    ensures c.Some? ==> Bound(old(a.T), old(a.chns), srv, chnum, peer, c.value, p, a.T, a.chns)
    ensures c.None? ==> a.Now() == old(a.Now())
    ensures Installs(old(a.T), {peer.ip}, good, a.T)
  {
    hide Consistent, Stored, Addressed, Bound, Refuses, Permitted, Installs;
    a.Shape(0);
    c, p := None, Ref(0, 0);
    var chn := a.FindChannel(chnum);
    if chn.Some? {
      InstallsNone(a.T, {peer.ip}, good);
      NoInternalError(a, chn.value, peer);
      reply := ExistingChannel(a.chns[chn.value], OwnerIp(a.perms, a.chns[chn.value]), peer);
      if reply.Error? {
        return;
      }
      a.OwnerIsLive(chn.value);
      p := a.chns[chn.value].owner.value;
      BoundExisting(a.T, a.chns, srv, peer, chn.value, p);
      UpdateChannelLifetime(a, srv, chn.value);
      InstallsBound(old(a.T), old(a.chns), srv, chnum, peer, chn.value, p, a.T, a.chns, good);
    } else {
      reply, chn, p := BindNewChannel(a, srv, good, chnum, peer);
      if reply.Error? {
        return;
      }
    }
    c := chn;
    reply := if multiplexOk then Success else Error(400, MultiplexTaken);
  }

  /** The branch for a number that is not in use. */
  method BindNewChannel(a: Allocation, srv: Server, good: Ip -> bool, chnum: nat, peer: Addr)
    returns (reply: Reply, c: Option<Ref>, ghost p: Ref)
    requires a.Valid() && ValidChannel(chnum) && PortOf(peer) != 0 && !NumberBound(a.chns, chnum)
    modifies a`perms, a`psize, a`T, a`chns, a`csize
    ensures a.Valid()
    ensures |old(a.psize)| == HASH_SIZE && a.bucket(peer.ip) < HASH_SIZE
    ensures reply == BindReply(old(a.T), old(a.psize), a.bucket(peer.ip), old(a.chns), good(peer.ip), true, chnum, peer)
    ensures c.Some? <==> reply.Success?
    ensures c.Some? ==> Bound(old(a.T), old(a.chns), srv, chnum, peer, c.value, p, a.T, a.chns)
    ensures c.None? ==> a.Now() == old(a.Now())
    ensures Installs(old(a.T), {peer.ip}, good, a.T)
  {
    hide Consistent, Stored, Addressed, Bound, Refuses, Permitted, Installs;
    a.Shape(0);
    p := Ref(0, 0);
    InstallsNone(a.T, {peer.ip}, good);
    var chn := a.ChannelOfPeer(peer);
    if chn.Some? {
      return Error(400, OtherChannel), None, p;
    }
    if !good(peer.ip) {
      return Error(403, Forbidden), None, p;
    }
    chn, p := NewChannel(a, chnum, peer);
    if chn.None? {
      return Error(500, NoChannelData), None, p;
    }
    BoundNew(old(a.T), old(a.chns), srv, chnum, peer, chn.value, p, a.T, a.chns);
    UpdateChannelLifetime(a, srv, chn.value);
    InstallsBound(old(a.T), old(a.chns), srv, chnum, peer, chn.value, p, a.T, a.chns, good);
    return Success, chn, p;
  }

  lemma InstallsNone(t: Perms, ips: set<Ip>, good: Ip -> bool)
    ensures Installs(t, ips, good, t)
  {
  }

  /** A binding installs at most the permission of its peer. */
  lemma InstallsBound(t: Perms, chns: Chans, srv: Server, chnum: nat, peer: Addr, c: Ref, p: Ref, t': Perms,
                      chns': Chans,
                      good: Ip -> bool)
    requires Bound(t, chns, srv, chnum, peer, c, p, t', chns') && (LivePerm(t, p) || good(peer.ip))
    ensures Installs(t, {peer.ip}, good, t')
  {
  }

  // ---- the requests ----

  /**
   A request attribute as the handlers see it: ChannelNumber carries 0 when the value
   is not a channel number, PeerAddress carries UNSPEC when it does not decode, and
   Unknown says whether its type is comprehension-required.
   */
  datatype Attr = Skipped | ChannelNumber(n: nat) | PeerAddress(a: Addr) | Unknown(required: bool)

  const MAX_UNKNOWN_ATTRS := 128

  /** A ChannelBind request the server acts on: one number, and peers it can relay to, the last of which counts. */
  predicate BindRequest(attrs: seq<Attr>, relays: Relays) {
    && Unknown(true) !in attrs
    && (exists i :: 0 <= i < |attrs| && attrs[i].ChannelNumber?)
    && (exists i :: 0 <= i < |attrs| && attrs[i].PeerAddress?)
    && Acceptable(attrs, relays)
    && (forall i :: 0 <= i < |attrs| && attrs[i].ChannelNumber? ==> ValidChannel(attrs[i].n))
  }

  ghost predicate NoPeerAfter(attrs: seq<Attr>, i: nat) {
    forall j :: i < j < |attrs| ==> !attrs[j].PeerAddress?
  }

  /** The last peer address of the request. */
  ghost predicate LastPeer(attrs: seq<Attr>, peer: Addr) {
    exists i :: 0 <= i < |attrs| && attrs[i] == PeerAddress(peer) && NoPeerAfter(attrs, i)
  }

  /** Nothing in these attributes stops the loop: one number at most, not zero, and only peers to relay to. */
  predicate Acceptable(attrs: seq<Attr>, relays: Relays) {
    && (forall i, j :: 0 <= i < |attrs| && 0 <= j < |attrs| && attrs[i].ChannelNumber? && attrs[j].ChannelNumber? ==>
          i == j)
    && (forall i :: 0 <= i < |attrs| && attrs[i].ChannelNumber? ==> attrs[i].n != 0)
    && (forall i :: 0 <= i < |attrs| && attrs[i].PeerAddress? ==>
          HasRelay(relays, attrs[i].a.ip) && PortOf(attrs[i].a) != 0)
  }

  /** A refusal that the request's own attributes earn it. */
  predicate Malformed(r: Reply) {
    r in {Error(420, UnknownAttributes), Error(400, DuplicateNumber), Error(400, ZeroNumber),
          Error(443, FamilyMismatch),
          Error(400, EmptyPort), Error(400, BadRequest), Error(400, BadNumber)}
  }

  /** The variables of the attribute loop; Success while there is no error code. */
  datatype BindLoop = BindLoop(chnum: nat, peer: Addr, found: bool, unknown: nat, err: Reply)

  /** One attribute of the loop. */
  function BindStep(s: BindLoop, t: Attr, relays: Relays): BindLoop {
    match t
    case Skipped => s
    case ChannelNumber(n) =>
      if s.chnum != 0 then s.(chnum := 0, err := Error(400, DuplicateNumber))
      else s.(chnum := n, err := if n == 0 then Error(400, ZeroNumber) else s.err)
    case PeerAddress(a) =>
      if PortOf(a) == 0 then s.(peer := a, err := Error(400, EmptyPort))
      else s.(peer := a, found := true, err := if HasRelay(relays, a.ip) then s.err else Error(443, FamilyMismatch))
    case Unknown(required) => if required then s.(unknown := s.unknown + 1) else s
  }

  /** What the loop variables say about the attributes seen so far. */
  ghost predicate BindSeen(attrs: seq<Attr>, relays: Relays, s: BindLoop) {
    && (s.unknown > 0 <==> Unknown(true) in attrs)
    && (if s.err.Success? then
          && Acceptable(attrs, relays)
          && (if s.chnum == 0 then forall i :: 0 <= i < |attrs| ==> !attrs[i].ChannelNumber?
              else ChannelNumber(s.chnum) in attrs)
          && (if s.found then LastPeer(attrs, s.peer) else forall i :: 0 <= i < |attrs| ==> !attrs[i].PeerAddress?)
        else Malformed(s.err) && !Acceptable(attrs, relays))
  }

  lemma BindSeenStep(attrs: seq<Attr>, relays: Relays, s: BindLoop, t: Attr)
    requires BindSeen(attrs, relays, s) && s.err.Success?
    ensures BindSeen(attrs + [t], relays, BindStep(s, t, relays))
  {
    var more := attrs + [t];
    assert more[|attrs|] == t && forall i :: 0 <= i < |attrs| ==> more[i] == attrs[i];
  }

  /** What is wrong with attribute i of a ChannelBind request, in the order of the tests. */
  function BindFault(attrs: seq<Attr>, relays: Relays, i: nat): Reply
    requires i < |attrs|
  {
    match attrs[i]
    case ChannelNumber(n) =>
      if exists j :: 0 <= j < i && attrs[j].ChannelNumber? then Error(400, DuplicateNumber)
      else if n == 0 then Error(400, ZeroNumber) else Success
    case PeerAddress(a) =>
      if PortOf(a) == 0 then Error(400, EmptyPort)
      else if !HasRelay(relays, a.ip) then Error(443, FamilyMismatch) else Success
    case _ => Success
  }

  /** The first attribute at fault, or the end. */
  function FirstBindFault(attrs: seq<Attr>, relays: Relays, i: nat): (n: nat)
    requires i <= |attrs|
    ensures i <= n <= |attrs|
    ensures forall j :: i <= j < n ==> BindFault(attrs, relays, j).Success?
    ensures n < |attrs| ==> !BindFault(attrs, relays, n).Success?
    decreases |attrs| - i
  {
    if i == |attrs| || !BindFault(attrs, relays, i).Success? then i else FirstBindFault(attrs, relays, i + 1)
  }

  /**
   The reply to the attributes of a ChannelBind: an attribute it must understand and does not, before
   the first one at fault, comes before that fault, then a missing number or peer, then a bad number.
   */
  function ParseReply(attrs: seq<Attr>, relays: Relays): Reply {
    var n := FirstBindFault(attrs, relays, 0);
    if Unknown(true) in attrs[..n] then Error(420, UnknownAttributes)
    else if n < |attrs| then BindFault(attrs, relays, n)
    else if forall j :: 0 <= j < |attrs| ==> !attrs[j].ChannelNumber? then Error(400, BadRequest)
    else if forall j :: 0 <= j < |attrs| ==> !attrs[j].PeerAddress? then Error(400, BadRequest)
    else if exists j :: 0 <= j < |attrs| && attrs[j].ChannelNumber? && !ValidChannel(attrs[j].n)
    then Error(400, BadNumber)
    else Success
  }

  /** The attribute of a ChannelBind is in order behind the first i ones. */
  predicate InOrder(attrs: seq<Attr>, relays: Relays, i: nat)
    requires i < |attrs|
  {
    match attrs[i]
    case ChannelNumber(n) => n != 0 && forall j :: 0 <= j < i ==> !attrs[j].ChannelNumber?
    case PeerAddress(a) => !a.ip.NoIp? && a.port != 0 && (if a.ip.Ip6? then relays.v6 else relays.v4)
    case Unknown(required) => !required
    case Skipped => true
  }

  /** The reply to the attributes, when those before i are in order and i is the end or not in order. */
  lemma BindCodes(attrs: seq<Attr>, relays: Relays, i: nat)
    requires i <= |attrs| && forall j :: 0 <= j < i ==> InOrder(attrs, relays, j)
    requires i < |attrs| ==> !InOrder(attrs, relays, i)
    ensures ParseReply(attrs, relays) ==
            if i < |attrs| then
              match attrs[i]
              case Unknown(_) => Error(420, UnknownAttributes)
              case PeerAddress(a) => if a.ip.NoIp? || a.port == 0 then Error(400, EmptyPort)
                                     else Error(443, FamilyMismatch)
              case _ => Error(400, if exists j :: 0 <= j < i && attrs[j].ChannelNumber? then DuplicateNumber
                                   else ZeroNumber)
            else if forall j :: 0 <= j < i ==> !attrs[j].ChannelNumber? then Error(400, BadRequest)
            else if forall j :: 0 <= j < i ==> !attrs[j].PeerAddress? then Error(400, BadRequest)
            else if exists j :: 0 <= j < i && attrs[j].ChannelNumber? && !(0x4000 <= attrs[j].n <= 0x7FFF)
            then Error(400, BadNumber) else Success
  {
    var n := FirstBindFault(attrs, relays, 0);
    assert forall j :: 0 <= j < n ==> attrs[..n][j] == attrs[j];
    forall j | 0 <= j < i
      ensures attrs[j] != Unknown(true) && BindFault(attrs, relays, j).Success?
    {
      assert InOrder(attrs, relays, j);
    }
    if n > i {
      assert BindFault(attrs, relays, i).Success?;
      assert attrs[i] == Unknown(true) && attrs[..n][i] == attrs[i];
    }
  }

  /** One more attribute: whether it is at fault, and what the loop says then. */
  lemma FaultStep(attrs: seq<Attr>, relays: Relays, i: nat, s: BindLoop)
    requires i < |attrs| && BindSeen(attrs[..i], relays, s) && s.err.Success?
    ensures BindStep(s, attrs[i], relays).err == BindFault(attrs, relays, i)
  {
    var seen := attrs[..i];
    assert forall j :: 0 <= j < i ==> seen[j] == attrs[j];
    if s.chnum != 0 {
      var k :| 0 <= k < |seen| && seen[k] == ChannelNumber(s.chnum);
      assert attrs[k].ChannelNumber?;
    }
  }

  /** The attribute loop of handle_turn_channel_bind and the checks that follow it. */
  method ParseBind(attrs: seq<Attr>, relays: Relays) returns (reply: Reply, chnum: nat, peer: Addr)
    ensures reply == ParseReply(attrs, relays) && (reply.Success? || Malformed(reply))
    ensures reply.Success? <==> BindRequest(attrs, relays)
    ensures reply.Success? ==> ChannelNumber(chnum) in attrs && LastPeer(attrs, peer)
    ensures reply.Success? ==> ValidChannel(chnum) && PortOf(peer) != 0 && HasRelay(relays, peer.ip)
  {
    hide BindFault, BindSeen, LastPeer, HasRelay, ParseReply, BindRequest;
    var s, i := BindLoop(0, UNSPEC, false, 0, Success), 0;
    BindSeenNone(attrs, relays, s);
    while i < |attrs| && s.err.Success? && s.unknown < MAX_UNKNOWN_ATTRS
      invariant 0 <= i <= |attrs| && BindSeen(attrs[..i], relays, s)
      invariant s.err.Success? ==> FirstBindFault(attrs, relays, 0) == FirstBindFault(attrs, relays, i)
      invariant !s.err.Success? ==>
                  i > 0 && FirstBindFault(attrs, relays, 0) == i - 1 && s.err == BindFault(attrs, relays, i - 1)
    {
      BindSeenStep(attrs[..i], relays, s, attrs[i]);
      FaultStep(attrs, relays, i, s);
      s := BindStep(s, attrs[i], relays);
      assert attrs[..i + 1] == attrs[..i] + [attrs[i]];
      i := i + 1;
    }
    chnum, peer := s.chnum, s.peer;
    reply := if s.unknown > 0 then Error(420, UnknownAttributes)
             else if s.err.Error? then s.err
             else if chnum == 0 || Any(peer) || !s.found then Error(400, BadRequest)
             else if !ValidChannel(chnum) then Error(400, BadNumber)
             else Success;
    ParseVerdict(attrs, relays, i, s);
    ParseAnswer(attrs, relays, i, s);
  }

  lemma BindSeenNone(attrs: seq<Attr>, relays: Relays, s: BindLoop)
    requires s == BindLoop(0, UNSPEC, false, 0, Success)
    ensures BindSeen(attrs[..0], relays, s)
  {
  }

  /** The reply that the loop variables give is that of the attributes. */
  lemma ParseAnswer(attrs: seq<Attr>, relays: Relays, i: nat, s: BindLoop)
    requires i <= |attrs| && BindSeen(attrs[..i], relays, s)
    requires i == |attrs| || !s.err.Success? || s.unknown > 0
    requires s.err.Success? ==> FirstBindFault(attrs, relays, 0) == FirstBindFault(attrs, relays, i)
    requires !s.err.Success? ==>
               i > 0 && FirstBindFault(attrs, relays, 0) == i - 1 && s.err == BindFault(attrs, relays, i - 1)
    ensures ParseReply(attrs, relays) == if s.unknown > 0 then Error(420, UnknownAttributes)
                                         else if s.err.Error? then s.err
                                         else if s.chnum == 0 || Any(s.peer) || !s.found then Error(400, BadRequest)
                                         else if !ValidChannel(s.chnum) then Error(400, BadNumber)
                                         else Success
    ensures ParseReply(attrs, relays).Success? || Malformed(ParseReply(attrs, relays))
    ensures s.err.Success? || s.err.Error?
  {
    var n := FirstBindFault(attrs, relays, 0);
    assert forall j :: 0 <= j < i ==> attrs[..i][j] == attrs[j];
    assert forall j :: 0 <= j < n ==> attrs[..n][j] == attrs[j];
  }

  /** When the loop stops, its variables decide the request. */
  lemma ParseVerdict(attrs: seq<Attr>, relays: Relays, i: nat, s: BindLoop)
    requires i <= |attrs| && BindSeen(attrs[..i], relays, s)
    requires i == |attrs| || !s.err.Success? || s.unknown > 0
    ensures BindRequest(attrs, relays) <==>
            s.unknown == 0 && s.err.Success? && s.chnum != 0 && !Any(s.peer) && s.found && ValidChannel(s.chnum)
    ensures BindRequest(attrs, relays) ==>
            ChannelNumber(s.chnum) in attrs && LastPeer(attrs, s.peer) && PortOf(s.peer) != 0 &&
            HasRelay(relays, s.peer.ip)
  {
    if !s.err.Success? || s.unknown > 0 {
      hide LastPeer, HasRelay;
      StoppedEarly(attrs, relays, i, s);
    } else {
      assert attrs[..i] == attrs;
      VerdictAtEnd(attrs, relays, s);
    }
  }

  /** A loop that stopped at an error, or at an attribute it does not know, saw no request to act on. */
  lemma StoppedEarly(attrs: seq<Attr>, relays: Relays, i: nat, s: BindLoop)
    requires i <= |attrs| && BindSeen(attrs[..i], relays, s) && (!s.err.Success? || s.unknown > 0)
    ensures !BindRequest(attrs, relays)
  {
    var seen := attrs[..i];
    assert forall j :: 0 <= j < i ==> seen[j] == attrs[j];
    if Acceptable(attrs, relays) {
      AcceptablePrefix(attrs, relays, i);
    }
  }

  lemma AcceptablePrefix(attrs: seq<Attr>, relays: Relays, i: nat)
    requires i <= |attrs| && Acceptable(attrs, relays)
    ensures Acceptable(attrs[..i], relays)
  {
  }

  lemma VerdictAtEnd(attrs: seq<Attr>, relays: Relays, s: BindLoop)
    requires BindSeen(attrs, relays, s) && s.err.Success? && s.unknown == 0
    ensures BindRequest(attrs, relays) <==> s.chnum != 0 && !Any(s.peer) && s.found && ValidChannel(s.chnum)
    ensures BindRequest(attrs, relays) ==>
            ChannelNumber(s.chnum) in attrs && LastPeer(attrs, s.peer) && PortOf(s.peer) != 0 &&
            HasRelay(relays, s.peer.ip)
  {
    if s.found {
      var i :| 0 <= i < |attrs| && attrs[i] == PeerAddress(s.peer) && NoPeerAfter(attrs, i);
      assert PortOf(s.peer) != 0;
    }
    if s.chnum != 0 {
      var k :| 0 <= k < |attrs| && attrs[k] == ChannelNumber(s.chnum);
    }
  }

  /** The request's number is bound to its last peer, or refused, by the state of the tables. */
  ghost predicate BindsTo(bucket: Ip -> nat, x: Tables, r: BindArgs, chnum: nat, peer: Addr, reply: Reply, y: Tables) {
    && ChannelNumber(chnum) in r.attrs && LastPeer(r.attrs, peer)
    && bucket(peer.ip) < |x.size|
    && reply == BindReply(x.t, x.size, bucket(peer.ip), x.chns, r.good(peer.ip), r.multiplexOk, chnum, peer)
    && if reply.Success? || reply == Error(400, MultiplexTaken)
       then y.valid == x.valid && Installs(x.t, {peer.ip}, r.good, y.t)
            && exists c, p :: Bound(x.t, x.chns, r.srv, chnum, peer, c, p, y.t, y.chns)
       else y == x
  }

  /** What a ChannelBind request does. */
  ghost predicate BindEffect(bucket: Ip -> nat, x: Tables, r: BindArgs, reply: Reply, y: Tables) {
    if r.tcpRelay then reply == Error(403, TcpRelay) && y == x
    else if !x.valid then reply == Silent && y == x
    else if !BindRequest(r.attrs, r.relays) then
      reply == ParseReply(r.attrs, r.relays) && Malformed(reply) && y == x
    else exists chnum, peer :: BindsTo(bucket, x, r, chnum, peer, reply, y)
  }

  /** A ChannelBind request with the settings, the peer filter and the relay sockets of its moment. */
  datatype BindArgs = BindArgs(srv: Server, good: Ip -> bool, multiplexOk: bool, tcpRelay: bool, relays: Relays,
                               attrs: seq<Attr>)

  /** handle_turn_channel_bind */
  method ChannelBind(a: Allocation, r: BindArgs) returns (reply: Reply)
    requires a.Valid()
    modifies a`perms, a`psize, a`T, a`chns, a`csize
    ensures a.Valid()
    ensures BindEffect(a.bucket, old(a.Now()), r, reply, a.Now())
  {
    hide Consistent, Stored, Addressed, BindRequest, Bound, BindReply, LastPeer, Installs, ParseReply;
    if r.tcpRelay {
      return Error(403, TcpRelay);
    }
    if !a.valid {
      return Silent;
    }
    var chnum, peer;
    reply, chnum, peer := ParseBind(r.attrs, r.relays);
    if reply.Success? {
      var c: Option<Ref>;
      ghost var p: Ref;
      reply, c, p := BindChannel(a, r.srv, r.good, r.multiplexOk, chnum, peer);
      assert BindsTo(a.bucket, old(a.Now()), r, chnum, peer, reply, a.Now());
    }
  }

  // ---- CreatePermission ----

  /** The table after a permission of this IP was found, or installed, and given its deadline. */
  ghost predicate Refreshed1(t: Perms, ip: Ip, deadline: Time, p: Ref, t': Perms) {
    if LivePerm(t, p) then t[p].ip == ip != NoIp && t' == t[p := t[p].(expires := deadline)]
    else t' == t[p := Perm(true, ip, deadline, map[])]
  }

  /**
   update_permission: the permission of the IP gets the permission lifetime; if the
   exact peer has a channel, that is refreshed too and its lifetime decides.
   */
  method UpdatePermission(a: Allocation, srv: Server, peer: Addr) returns (ok: bool, chn: Option<Ref>, ghost p: Ref)
    requires a.Valid()
    modifies a`perms, a`psize, a`T, a`chns
    ensures a.Valid()
    ensures a.psize == old(a.psize) || |LiveSet(old(a.T))| < MAX_PERMISSIONS
    ensures ok ==> LivePerm(a.T, p) && chn == Lookup(a.T[p].ports, PortOf(peer))
    ensures ok ==>
              Refreshed1(old(a.T), peer.ip, PermDeadline(srv, if chn.Some? then srv.channelLifetime else 0), p, a.T)
    ensures chn.Some? ==> LiveChan(old(a.chns), chn.value)
    ensures a.chns == if chn.None? then old(a.chns) else
              old(a.chns)[chn.value := old(a.chns)[chn.value].(expires := Later(srv.ctime, srv.channelLifetime))]
    ensures ok && !LivePerm(old(a.T), p) ==> forall q :: LivePerm(old(a.T), q) ==> !(old(a.T)[q].ip == peer.ip != NoIp)
    ensures |a.psize| == |old(a.psize)| == HASH_SIZE && a.bucket(peer.ip) < HASH_SIZE
    ensures ok && !LivePerm(old(a.T), p) ==> !Refuses(old(a.T), old(a.psize), a.bucket(peer.ip))
    ensures !ok ==> chn.None? && a.T == old(a.T) && a.psize == old(a.psize) && Refuses(a.T, a.psize, a.bucket(peer.ip))
    ensures !ok ==> forall q :: LivePerm(a.T, q) ==> !(a.T[q].ip == peer.ip != NoIp)
  {
    hide Consistent, Stored, Addressed;
    a.Shape(0);
    var tinfo := a.GetPermission(peer.ip);
    if tinfo.None? {
      tinfo := a.AddPermission(peer.ip);
    }
    if tinfo.None? {
      return false, None, Ref(0, 0);
    }
    p := tinfo.value;
    a.TouchPermission(tinfo.value, PermDeadline(srv, 0));
    chn := a.PortChannel(tinfo.value, PortOf(peer));
    if chn.Some? {
      UpdateChannelLifetime(a, srv, chn.value);
    }
    a.Shape(0);
    ok := true;
  }

  /** The IPs a request lists. */
  function Listed(attrs: seq<Attr>): set<Ip> {
    set i | 0 <= i < |attrs| && attrs[i].PeerAddress? :: attrs[i].a.ip
  }

  /** A CreatePermission request that passes validation. */
  predicate CreateRequest(attrs: seq<Attr>, relays: Relays, good: Ip -> bool) {
    && (forall i :: 0 <= i < |attrs| ==> !Foreign(attrs[i]))
    && (exists i :: 0 <= i < |attrs| && attrs[i].PeerAddress?)
    && (forall i :: 0 <= i < |attrs| && attrs[i].PeerAddress? ==>
          HasRelay(relays, attrs[i].a.ip) && good(attrs[i].a.ip))
  }

  /** An attribute CreatePermission must understand and does not; CHANNEL-NUMBER is one. */
  predicate Foreign(t: Attr) {
    t == Unknown(true) || t.ChannelNumber?
  }

  /** What is wrong with a listed peer, in the order of the tests. */
  function PeerFault(ip: Ip, relays: Relays, good: Ip -> bool): Reply {
    if !HasRelay(relays, ip) then Error(443, FamilyMismatch) else if !good(ip) then Error(403, Forbidden) else Success
  }

  /** The first attribute at which validation stops for a peer, or the end. */
  function FirstFault(attrs: seq<Attr>, relays: Relays, good: Ip -> bool, i: nat): (n: nat)
    requires i <= |attrs|
    ensures i <= n <= |attrs|
    ensures forall j :: i <= j < n && attrs[j].PeerAddress? ==> PeerFault(attrs[j].a.ip, relays, good).Success?
    ensures n < |attrs| ==> attrs[n].PeerAddress? && !PeerFault(attrs[n].a.ip, relays, good).Success?
    decreases |attrs| - i
  {
    if i == |attrs| || (attrs[i].PeerAddress? && !PeerFault(attrs[i].a.ip, relays, good).Success?) then i
    else FirstFault(attrs, relays, good, i + 1)
  }

  /**
   The reply of validation: an attribute it must understand and does not, before the first peer it
   refuses, comes before that refusal, and both before a request without a peer.
   */
  function CheckReply(attrs: seq<Attr>, relays: Relays, good: Ip -> bool): Reply {
    var n := FirstFault(attrs, relays, good, 0);
    if exists j :: 0 <= j < n && Foreign(attrs[j]) then Error(420, UnknownAttributes)
    else if n < |attrs| then PeerFault(attrs[n].a.ip, relays, good)
    else if forall j :: 0 <= j < |attrs| ==> !attrs[j].PeerAddress? then Error(400, NoAddress)
    else Success
  }

  /** The listed peer can be relayed to and passes the filter. */
  predicate GoodPeer(t: Attr, relays: Relays, good: Ip -> bool) {
    t.PeerAddress? ==> (if t.a.ip.Ip6? then relays.v6 else relays.v4) && good(t.a.ip)
  }

  /** An attribute that the request must not have. */
  predicate Odd(t: Attr) {
    t == Unknown(true) || t.ChannelNumber?
  }

  /** The reply of validation, when the attributes before i are in order and i is the end or not in order. */
  lemma CreateCodes(attrs: seq<Attr>, relays: Relays, good: Ip -> bool, i: nat)
    requires i <= |attrs| && forall j :: 0 <= j < i ==> GoodPeer(attrs[j], relays, good) && !Odd(attrs[j])
    requires i < |attrs| ==> Odd(attrs[i]) || !GoodPeer(attrs[i], relays, good)
    ensures CheckReply(attrs, relays, good) ==
            if i == |attrs| then
              if exists j :: 0 <= j < i && attrs[j].PeerAddress? then Success else Error(400, NoAddress)
            else if Odd(attrs[i]) then Error(420, UnknownAttributes)
            else if !(if attrs[i].a.ip.Ip6? then relays.v6 else relays.v4) then Error(443, FamilyMismatch)
            else Error(403, Forbidden)
  {
    forall j | 0 <= j < i
      ensures attrs[j].PeerAddress? ==> PeerFault(attrs[j].a.ip, relays, good).Success?
    {
      assert GoodPeer(attrs[j], relays, good);
    }
  }

  /** The first pass of handle_turn_create_permission: nothing is changed yet. */
  method CheckPeers(attrs: seq<Attr>, relays: Relays, good: Ip -> bool) returns (reply: Reply)
    ensures reply == CheckReply(attrs, relays, good)
    ensures reply.Success? <==> CreateRequest(attrs, relays, good)
    ensures !reply.Success? ==> reply.Error?
  {
    var i, found, unknown := 0, 0, 0;
    var err: Option<Reply> := None;
    while i < |attrs| && err.None? && unknown < MAX_UNKNOWN_ATTRS
      invariant 0 <= i <= |attrs| && unknown >= 0 && found >= 0
      invariant unknown > 0 <==> exists j :: 0 <= j < i && Foreign(attrs[j])
      invariant err.Some? ==> i > 0 && FirstFault(attrs, relays, good, 0) == i - 1 && attrs[i - 1].PeerAddress?
                              && err.value == PeerFault(attrs[i - 1].a.ip, relays, good)
      invariant err.None? ==> FirstFault(attrs, relays, good, 0) == FirstFault(attrs, relays, good, i)
      invariant err.None? ==> (found > 0 <==> exists j :: 0 <= j < i && attrs[j].PeerAddress?)
    {
      match attrs[i] {
        case Skipped =>
        case PeerAddress(peer) =>
          if !HasRelay(relays, peer.ip) {
            err := Some(Error(443, FamilyMismatch));
          } else if !good(peer.ip) {
            err := Some(Error(403, Forbidden));
          } else {
            found := found + 1;
          }
        case ChannelNumber(_) =>
          unknown := unknown + 1;
        case Unknown(required) =>
          if required {
            unknown := unknown + 1;
          }
      }
      i := i + 1;
    }
    if unknown > 0 {
      reply := Error(420, UnknownAttributes);
    } else if err.Some? {
      reply := err.value;
    } else {
      reply := if found == 0 then Error(400, NoAddress) else Success;
    }
  }

  /** Exactly the permissions of the IPs in ips were installed or given the deadline. */
  ghost predicate Refreshed(t: Perms, ips: set<Ip>, deadline: Time, t': Perms) {
    && (forall q :: LivePerm(t, q) ==> Kept(t, ips, deadline, t', q))
    && (forall q :: LivePerm(t', q) && !LivePerm(t, q) ==>
          t'[q].ip in ips && t'[q] == Perm(true, t'[q].ip, deadline, map[]))
  }

  ghost predicate Kept(t: Perms, ips: set<Ip>, deadline: Time, t': Perms, q: Ref)
    requires q in t
  {
    && LivePerm(t', q)
    && t'[q] == if t[q].ip in ips && t[q].ip != NoIp then t[q].(expires := deadline) else t[q]
  }

  ghost predicate Permitted(t: Perms, ip: Ip) {
    exists q :: LivePerm(t, q) && t[q].ip == ip
  }

  lemma RefreshStep(t: Perms, ips: set<Ip>, deadline: Time, t1: Perms, ip: Ip, p: Ref, t2: Perms)
    requires Refreshed(t, ips, deadline, t1) && Refreshed1(t1, ip, deadline, p, t2)
    requires forall q, r :: LivePerm(t1, q) && LivePerm(t1, r) && t1[q].ip == t1[r].ip != NoIp ==> q == r
    requires !LivePerm(t1, p) ==> forall q :: LivePerm(t1, q) ==> !(t1[q].ip == ip != NoIp)
    ensures Refreshed(t, ips + {ip}, deadline, t2)
    ensures Permitted(t2, ip) && forall i :: Permitted(t1, i) ==> Permitted(t2, i)
  {
    assert LivePerm(t2, p) && t2[p].ip == ip;
    forall q | LivePerm(t, q)
      ensures Kept(t, ips + {ip}, deadline, t2, q)
    {
      assert Kept(t, ips, deadline, t1, q);
    }
    forall i | Permitted(t1, i)
      ensures Permitted(t2, i)
    {
      var q :| LivePerm(t1, q) && t1[q].ip == i;
      assert LivePerm(t2, q) && t2[q].ip == i;
    }
  }

  /** An IP that could not be installed had no permission to refresh. */
  lemma RefreshSkip(t: Perms, ips: set<Ip>, deadline: Time, t1: Perms, ip: Ip)
    requires Refreshed(t, ips, deadline, t1) && forall q :: LivePerm(t1, q) ==> !(t1[q].ip == ip != NoIp)
    ensures Refreshed(t, ips + {ip}, deadline, t1)
  {
  }

  lemma ListedStep(attrs: seq<Attr>, i: nat)
    requires i < |attrs|
    ensures Listed(attrs[..i + 1]) == if attrs[i].PeerAddress? then Listed(attrs[..i]) + {attrs[i].a.ip}
                                      else Listed(attrs[..i])
  {
  }

  lemma RefreshStart(t: Perms, deadline: Time)
    ensures Refreshed(t, {}, deadline, t)
  {
  }

  /** Each of these IPs has a permission, or no room is left for one. */
  ghost predicate Served(bucket: Ip -> nat, ips: set<Ip>, t: Perms, size: seq<nat>) {
    forall ip :: ip in ips ==> Permitted(t, ip) || (bucket(ip) < |size| && Refuses(t, size, bucket(ip)))
  }

  /** Room that is gone stays gone while permissions are only added. */
  lemma StillServed(bucket: Ip -> nat, ips: set<Ip>, t: Perms, size: seq<nat>, t': Perms, size': seq<nat>)
    requires Served(bucket, ips, t, size) && (size' == size || |LiveSet(t)| < MAX_PERMISSIONS)
    requires forall q :: LivePerm(t, q) ==> LivePerm(t', q) && t'[q].ip == t[q].ip
    ensures Served(bucket, ips, t', size')
  {
    forall ip | ip in ips
      ensures Permitted(t', ip) || (bucket(ip) < |size'| && Refuses(t', size', bucket(ip)))
    {
      if Permitted(t, ip) {
        var q :| LivePerm(t, q) && t[q].ip == ip;
        assert LivePerm(t', q) && t'[q].ip == ip;
      } else {
        assert LiveSet(t) <= LiveSet(t');
        SubsetSize(LiveSet(t), LiveSet(t'));
      }
    }
  }

  lemma Refreshed1Keeps(t: Perms, ip: Ip, deadline: Time, p: Ref, t': Perms)
    requires Refreshed1(t, ip, deadline, p, t')
    ensures forall q :: LivePerm(t, q) ==> LivePerm(t', q) && t'[q].ip == t[q].ip
  {
  }

  /** What the second pass does for one listed IP: its permission is found or added in slot p, or there is no room. */
  ghost predicate Steps(bucket: Ip -> nat, t: Perms, size: seq<nat>, ip: Ip, deadline: Time, ok: bool, p: Ref,
                        t': Perms)
  {
    && bucket(ip) < |size|
    && (if ok then Refreshed1(t, ip, deadline, p, t') && (!LivePerm(t, p) ==> !Refuses(t, size, bucket(ip)))
        else t' == t && Refuses(t, size, bucket(ip)))
    && (!ok || !LivePerm(t, p) ==> forall q :: LivePerm(t, q) ==> !(t[q].ip == ip != NoIp))
  }

  // ---- the reply of the second pass ----

  /** What one listed peer makes of the reply. */
  function InstallFault(noRoom: bool, registered: bool): Reply {
    if noRoom then Error(500, CannotUpdate) else if !registered then Error(400, MultiplexTaken) else Success
  }

  /** The permissions of addresses that did not decode. */
  function Nameless(t: Perms): set<Ref> {
    set q | q in t && LivePerm(t, q) && t[q].ip == NoIp
  }

  /** How many of the first n attributes list such an address. */
  function NamelessIn(attrs: seq<Attr>, n: nat): nat
    requires n <= |attrs|
  {
    if n == 0 then 0
    else NamelessIn(attrs, n - 1) + if attrs[n - 1].PeerAddress? && attrs[n - 1].a.ip == NoIp then 1 else 0
  }

  lemma {:induction false} NamelessBefore(attrs: seq<Attr>, j: nat, n: nat)
    requires j < n <= |attrs| && attrs[j].PeerAddress? && attrs[j].a.ip == NoIp
    ensures NamelessIn(attrs, j) < NamelessIn(attrs, n)
    decreases n
  {
    if j < n - 1 {
      NamelessBefore(attrs, j, n - 1);
    }
  }

  /**
   The second pass from x to y found no room for listed peer i: its IP has no permission afterwards;
   of the addresses that did not decode, each of which takes a slot of its own, the last ones had none.
   */
  ghost predicate NoRoom(x: Perms, attrs: seq<Attr>, y: Perms, i: nat)
    requires i < |attrs| && attrs[i].PeerAddress?
  {
    if attrs[i].a.ip != NoIp then !Permitted(y, attrs[i].a.ip)
    else NamelessIn(attrs, i) >= |Nameless(y)| - |Nameless(x)|
  }

  /** The reply of the second pass over the first n attributes: that of the last peer at fault. */
  ghost function InstallReply(x: Perms, attrs: seq<Attr>, multiplexOk: Addr -> bool, y: Perms, n: nat): Reply
    requires n <= |attrs|
  {
    if n == 0 then Success else
      var fault := if attrs[n - 1].PeerAddress?
                   then InstallFault(NoRoom(x, attrs, y, n - 1), multiplexOk(attrs[n - 1].a)) else Success;
      if fault.Success? then InstallReply(x, attrs, multiplexOk, y, n - 1) else fault
  }

  /** The second pass succeeds exactly when there was room for every listed peer and none was held elsewhere. */
  lemma {:induction false} SuccessExactly(x: Perms, attrs: seq<Attr>, multiplexOk: Addr -> bool, y: Perms, n: nat)
    requires n <= |attrs|
    ensures InstallReply(x, attrs, multiplexOk, y, n).Success? <==>
            forall j :: 0 <= j < n && attrs[j].PeerAddress? ==> !NoRoom(x, attrs, y, j) && multiplexOk(attrs[j].a)
  {
    hide NoRoom;
    if n > 0 {
      SuccessExactly(x, attrs, multiplexOk, y, n - 1);
    }
  }

  /** Which code a peer without room, and one held elsewhere, earns when it is the last one at fault. */
  lemma {:induction false} InstallCodes(x: Perms, attrs: seq<Attr>, multiplexOk: Addr -> bool, y: Perms, n: nat, i: nat)
    requires i < n <= |attrs| && attrs[i].PeerAddress? && (NoRoom(x, attrs, y, i) || !multiplexOk(attrs[i].a))
    requires forall j :: i < j < n && attrs[j].PeerAddress? ==> !NoRoom(x, attrs, y, j) && multiplexOk(attrs[j].a)
    ensures InstallReply(x, attrs, multiplexOk, y, n) ==
            if NoRoom(x, attrs, y, i) then Error(500, CannotUpdate) else Error(400, MultiplexTaken)
    decreases n
  {
    hide NoRoom;
    if i < n - 1 {
      InstallCodes(x, attrs, multiplexOk, y, n - 1, i);
    }
  }

  lemma {:induction false} SameReply(x: Perms, attrs: seq<Attr>, multiplexOk: Addr -> bool, y: Perms, y': Perms, n: nat)
    requires n <= |attrs|
    requires forall j :: 0 <= j < n && attrs[j].PeerAddress? ==> (NoRoom(x, attrs, y', j) <==> NoRoom(x, attrs, y, j))
    ensures InstallReply(x, attrs, multiplexOk, y', n) == InstallReply(x, attrs, multiplexOk, y, n)
  {
    hide NoRoom;
    if n > 0 {
      SameReply(x, attrs, multiplexOk, y, y', n - 1);
    }
  }

  /** As many nameless permissions came as were listed, unless their bucket has no room left. */
  ghost predicate NamelessServed(bucket: Ip -> nat, x: Perms, attrs: seq<Attr>, i: nat, t: Perms, size: seq<nat>)
    requires i <= |attrs|
  {
    && bucket(NoIp) < |size|
    && |Nameless(x)| <= |Nameless(t)| <= |Nameless(x)| + NamelessIn(attrs, i)
    && (|Nameless(t)| < |Nameless(x)| + NamelessIn(attrs, i) ==> Refuses(t, size, bucket(NoIp)))
  }

  lemma NamelessAdds(t: Perms, ip: Ip, deadline: Time, p: Ref, t': Perms)
    requires Refreshed1(t, ip, deadline, p, t')
    ensures |Nameless(t')| == |Nameless(t)| + if ip == NoIp then 1 else 0
  {
    assert Nameless(t') == if ip == NoIp then Nameless(t) + {p} else Nameless(t);
  }

  lemma PermittedAdds(t: Perms, ip: Ip, deadline: Time, p: Ref, t': Perms, i: Ip)
    requires Refreshed1(t, ip, deadline, p, t')
    ensures Permitted(t', i) <==> Permitted(t, i) || i == ip
  {
    assert LivePerm(t', p) && t'[p].ip == ip;
    if Permitted(t, i) {
      var q :| LivePerm(t, q) && t[q].ip == i;
      assert LivePerm(t', q) && t'[q].ip == i;
    }
    if Permitted(t', i) && i != ip {
      var q :| LivePerm(t', q) && t'[q].ip == i;
      assert LivePerm(t, q) && t[q].ip == i;
    }
  }

  lemma FoundPermitted(t: Perms, ip: Ip, deadline: Time, p: Ref, t': Perms)
    requires Refreshed1(t, ip, deadline, p, t') && LivePerm(t, p)
    ensures ip != NoIp && Permitted(t, ip)
  {
  }

  lemma NotPermitted(t: Perms, ip: Ip)
    requires forall q :: LivePerm(t, q) ==> !(t[q].ip == ip != NoIp)
    ensures ip != NoIp ==> !Permitted(t, ip)
  {
  }

  /** One more peer: the verdict on the earlier ones stands, and its own is whether there was room. */
  lemma RoomStep(bucket: Ip -> nat, x: Perms, attrs: seq<Attr>, i: nat, t: Perms, size: seq<nat>, deadline: Time,
                 ok: bool, p: Ref, t': Perms, j: nat)
    requires j <= i < |attrs| && attrs[i].PeerAddress? && attrs[j].PeerAddress?
    requires Steps(bucket, t, size, attrs[i].a.ip, deadline, ok, p, t')
    requires Served(bucket, Listed(attrs[..i]), t, size) && NamelessServed(bucket, x, attrs, i, t, size)
    ensures NoRoom(x, attrs, t', j) <==> if j == i then !ok else NoRoom(x, attrs, t, j)
  {
    hide Permitted, Refuses, Nameless, Refreshed1;
    var ip := attrs[i].a.ip;
    if ok {
      NamelessAdds(t, ip, deadline, p, t');
      PermittedAdds(t, ip, deadline, p, t', attrs[j].a.ip);
      if LivePerm(t, p) {
        FoundPermitted(t, ip, deadline, p, t');
      }
    }
    if !ok || !LivePerm(t, p) {
      NotPermitted(t, ip);
    }
    if attrs[j].a.ip == NoIp && j < i {
      NamelessBefore(attrs, j, i);
    }
    if j < i {
      assert attrs[..i][j] == attrs[j] && attrs[j].a.ip in Listed(attrs[..i]);
    }
  }

  /** The reply so far, one more peer, and the reply then. */
  lemma ReplyStep(bucket: Ip -> nat, x: Perms, attrs: seq<Attr>, multiplexOk: Addr -> bool, i: nat, t: Perms,
                  size: seq<nat>, deadline: Time, ok: bool, p: Ref, t': Perms)
    requires i < |attrs| && attrs[i].PeerAddress?
    requires Steps(bucket, t, size, attrs[i].a.ip, deadline, ok, p, t')
    requires Served(bucket, Listed(attrs[..i]), t, size) && NamelessServed(bucket, x, attrs, i, t, size)
    ensures InstallReply(x, attrs, multiplexOk, t', i + 1) ==
            var fault := InstallFault(!ok, multiplexOk(attrs[i].a));
            if fault.Success? then InstallReply(x, attrs, multiplexOk, t, i) else fault
  {
    hide NoRoom, Steps, Served, NamelessServed;
    forall j | 0 <= j <= i && attrs[j].PeerAddress?
      ensures NoRoom(x, attrs, t', j) <==> if j == i then !ok else NoRoom(x, attrs, t, j)
    {
      RoomStep(bucket, x, attrs, i, t, size, deadline, ok, p, t', j);
    }
    SameReply(x, attrs, multiplexOk, t, t', i);
  }

  lemma NamelessStep(bucket: Ip -> nat, x: Perms, attrs: seq<Attr>, i: nat, t: Perms, size: seq<nat>, deadline: Time,
                     ok: bool, p: Ref, t': Perms, size': seq<nat>)
    requires i < |attrs| && attrs[i].PeerAddress?
    requires Steps(bucket, t, size, attrs[i].a.ip, deadline, ok, p, t') && NamelessServed(bucket, x, attrs, i, t, size)
    requires forall b :: 0 <= b < |size| && Refuses(t, size, b) ==> b < |size'| && Refuses(t', size', b)
    requires |size'| == |size|
    ensures NamelessServed(bucket, x, attrs, i + 1, t', size')
  {
    hide Refuses, Nameless, Refreshed1;
    if ok {
      NamelessAdds(t, attrs[i].a.ip, deadline, p, t');
      if LivePerm(t, p) {
        FoundPermitted(t, attrs[i].a.ip, deadline, p, t');
      }
    }
  }

  /** One address of the second pass: update_permission and the multiplex registration. */
  method InstallPeer(a: Allocation, srv: Server, multiplexOk: Addr -> bool, exact: Addr, ghost t: Perms,
                     ghost ips: set<Ip>, err: Reply) returns (reply: Reply, ok: bool, ghost p: Ref)
    requires a.Valid() && Refreshed(t, ips, PermDeadline(srv, 0), a.T) && Served(a.bucket, ips, a.T, a.psize)
    modifies a`perms, a`psize, a`T, a`chns
    ensures a.Valid() && a.chns == old(a.chns) && Refreshed(t, ips + {exact.ip}, PermDeadline(srv, 0), a.T)
    ensures Served(a.bucket, ips + {exact.ip}, a.T, a.psize)
    ensures forall ip :: Permitted(old(a.T), ip) ==> Permitted(a.T, ip)
    ensures forall b :: 0 <= b < |old(a.psize)| && Refuses(old(a.T), old(a.psize), b) ==>
              b < |a.psize| && Refuses(a.T, a.psize, b)
    ensures |a.psize| == |old(a.psize)| == HASH_SIZE
    ensures Steps(a.bucket, old(a.T), old(a.psize), exact.ip, PermDeadline(srv, 0), ok, p, a.T)
    ensures reply == var fault := InstallFault(!ok, multiplexOk(exact)); if fault.Success? then err else fault
    ensures reply.Success? ==> err.Success? && Permitted(a.T, exact.ip) && multiplexOk(exact)
    ensures !reply.Success? ==> !err.Success? || !multiplexOk(exact)
                                || (a.bucket(exact.ip) < |a.psize| && Refuses(a.T, a.psize, a.bucket(exact.ip)))
  {
    hide Consistent, Stored, Addressed, Refreshed, Permitted, Refuses, Served;
    a.OnePermPerIp();
    var chn: Option<Ref>;
    ok, chn, p := UpdatePermission(a, srv, WithPort(exact, 0));
    reply := err;
    if ok {
      a.NoPortZero(p);
      RefreshStep(t, ips, PermDeadline(srv, 0), old(a.T), exact.ip, p, a.T);
      Refreshed1Keeps(old(a.T), exact.ip, PermDeadline(srv, 0), p, a.T);
      StillServed(a.bucket, ips, old(a.T), old(a.psize), a.T, a.psize);
      StillRefuses(old(a.T), old(a.psize), a.T, a.psize);
      if !multiplexOk(exact) {
        reply := Error(400, MultiplexTaken);
      }
    } else {
      RefreshSkip(t, ips, PermDeadline(srv, 0), a.T, exact.ip);
      reply := Error(500, CannotUpdate);
    }
    ServedOneMore(a.bucket, ips, exact.ip, a.T, a.psize);
  }

  lemma ServedOneMore(bucket: Ip -> nat, ips: set<Ip>, ip: Ip, t: Perms, size: seq<nat>)
    requires Served(bucket, ips, t, size) && (Permitted(t, ip) || (bucket(ip) < |size| && Refuses(t, size, bucket(ip))))
    ensures Served(bucket, ips + {ip}, t, size)
  {
  }

  lemma StillRefuses(t: Perms, size: seq<nat>, t': Perms, size': seq<nat>)
    requires size' == size || |LiveSet(t)| < MAX_PERMISSIONS
    requires forall q :: LivePerm(t, q) ==> LivePerm(t', q) && t'[q].ip == t[q].ip
    ensures forall b :: 0 <= b < |size| && Refuses(t, size, b) ==> b < |size'| && Refuses(t', size', b)
  {
    assert LiveSet(t) <= LiveSet(t');
    SubsetSize(LiveSet(t), LiveSet(t'));
  }

  /** What stopped the second pass short: a peer another allocation holds, or a full table. */
  ghost predicate Hindered(bucket: Ip -> nat, attrs: seq<Attr>, multiplexOk: Addr -> bool, t: Perms, size: seq<nat>) {
    exists i :: 0 <= i < |attrs| && attrs[i].PeerAddress? &&
                (!multiplexOk(attrs[i].a) ||
                 (bucket(attrs[i].a.ip) < |size| && Refuses(t, size, bucket(attrs[i].a.ip))))
  }

  /** No other allocation holds a listed peer. */
  ghost predicate Registered(attrs: seq<Attr>, multiplexOk: Addr -> bool) {
    forall i :: 0 <= i < |attrs| && attrs[i].PeerAddress? ==> multiplexOk(attrs[i].a)
  }

  /** A CreatePermission request with the settings, the peer filter and the relay sockets of its moment. */
  datatype CreateArgs = CreateArgs(srv: Server, good: Ip -> bool, multiplexOk: Addr -> bool, relays: Relays,
                                   attrs: seq<Attr>)

  /**
   What a CreatePermission request does.  One refused in validation changes no table.
   An accepted one installs or refreshes exactly the listed IPs that there is room for, and its
   reply is that of the last listed peer without room or held by another allocation.
   */
  ghost predicate CreateEffect(bucket: Ip -> nat, x: Tables, r: CreateArgs, reply: Reply, y: Tables) {
    if !x.valid then reply == Silent && y == x
    else if !CreateRequest(r.attrs, r.relays, r.good) then
      reply == CheckReply(r.attrs, r.relays, r.good) && reply.Error? && y == x
    else
      && y.valid && y.chns == x.chns
      && Refreshed(x.t, Listed(r.attrs), PermDeadline(r.srv, 0), y.t) && Installs(x.t, Listed(r.attrs), r.good, y.t)
      && Served(bucket, Listed(r.attrs), y.t, y.size)
      && reply == InstallReply(x.t, r.attrs, r.multiplexOk, y.t, |r.attrs|)
      && (if reply.Success?
          then Registered(r.attrs, r.multiplexOk) && (forall ip :: ip in Listed(r.attrs) ==> Permitted(y.t, ip))
          else Hindered(bucket, r.attrs, r.multiplexOk, y.t, y.size))
  }

  lemma RefreshedInstalls(t: Perms, ips: set<Ip>, deadline: Time, good: Ip -> bool, t': Perms)
    requires Refreshed(t, ips, deadline, t') && forall ip :: ip in ips ==> good(ip)
    ensures Installs(t, ips, good, t')
  {
    forall q | LivePerm(t, q)
      ensures LivePerm(t', q) && t'[q].ip == t[q].ip
    {
      assert Kept(t, ips, deadline, t', q);
    }
  }

  /**
   handle_turn_create_permission.  An address that did not decode (NoIp) is the one kind
   whose permission no lookup will ever find.
   */
  method CreatePermission(a: Allocation, r: CreateArgs) returns (reply: Reply)
    requires a.Valid()
    modifies a`perms, a`psize, a`T, a`chns
    ensures a.Valid()
    ensures CreateEffect(a.bucket, old(a.Now()), r, reply, a.Now())
  {
    hide Consistent, Stored, Addressed, Refreshed, Permitted, Installs;
    if !a.valid {
      return Silent;
    }
    reply := CheckPeers(r.attrs, r.relays, r.good);
    if !reply.Success? {
      return;
    }
    reply := InstallPeers(a, r);
    assert forall ip :: ip in Listed(r.attrs) ==> r.good(ip);
    RefreshedInstalls(old(a.T), Listed(r.attrs), PermDeadline(r.srv, 0), r.good, a.T);
  }

  /** The second pass of handle_turn_create_permission. */
  method InstallPeers(a: Allocation, r: CreateArgs) returns (reply: Reply)
    requires a.Valid()
    modifies a`perms, a`psize, a`T, a`chns
    ensures a.Valid() && a.chns == old(a.chns)
    ensures Refreshed(old(a.T), Listed(r.attrs), PermDeadline(r.srv, 0), a.T) &&
            Served(a.bucket, Listed(r.attrs), a.T, a.psize)
    ensures if reply.Success?
            then Registered(r.attrs, r.multiplexOk) && (forall ip :: ip in Listed(r.attrs) ==> Permitted(a.T, ip))
            else Hindered(a.bucket, r.attrs, r.multiplexOk, a.T, a.psize)
    ensures reply == InstallReply(old(a.T), r.attrs, r.multiplexOk, a.T, |r.attrs|) && (reply.Success? || reply.Error?)
  {
    hide Consistent, Stored, Addressed, Refreshed, Permitted, Served, Refuses, NamelessServed, InstallReply, Steps;
    RefreshStart(a.T, PermDeadline(r.srv, 0));
    assert Listed(r.attrs[..0]) == {};
    ServedNone(a.bucket, a.T, a.psize);
    a.Shape(0);
    NamelessNone(a.bucket, a.T, r.attrs, r.multiplexOk, a.psize);
    reply := Success;
    var i := 0;
    while i < |r.attrs|
      invariant 0 <= i <= |r.attrs| && a.Valid() && a.chns == old(a.chns)
      invariant Refreshed(old(a.T), Listed(r.attrs[..i]), PermDeadline(r.srv, 0), a.T)
      invariant Served(a.bucket, Listed(r.attrs[..i]), a.T, a.psize)
      invariant |a.psize| == HASH_SIZE && NamelessServed(a.bucket, old(a.T), r.attrs, i, a.T, a.psize)
      invariant reply == InstallReply(old(a.T), r.attrs, r.multiplexOk, a.T, i) && (reply.Success? || reply.Error?)
      invariant reply.Success? ==> forall ip :: ip in Listed(r.attrs[..i]) ==> Permitted(a.T, ip)
      invariant reply.Success? ==> Registered(r.attrs[..i], r.multiplexOk)
      invariant !reply.Success? ==> Hindered(a.bucket, r.attrs, r.multiplexOk, a.T, a.psize)
    {
      ListedStep(r.attrs, i);
      match r.attrs[i] {
        case PeerAddress(exact) =>
          ghost var t, size := a.T, a.psize;
          var ok;
          ghost var p;
          reply, ok, p := InstallPeer(a, r.srv, r.multiplexOk, exact, old(a.T), Listed(r.attrs[..i]), reply);
          ReplyStep(a.bucket, old(a.T), r.attrs, r.multiplexOk, i, t, size, PermDeadline(r.srv, 0), ok, p, a.T);
          NamelessStep(a.bucket, old(a.T), r.attrs, i, t, size, PermDeadline(r.srv, 0), ok, p, a.T, a.psize);
        case _ =>
          NoPeerStep(a.bucket, old(a.T), r.attrs, r.multiplexOk, i, a.T, a.psize);
      }
      i := i + 1;
    }
    assert r.attrs[..i] == r.attrs;
  }

  lemma NamelessNone(bucket: Ip -> nat, x: Perms, attrs: seq<Attr>, multiplexOk: Addr -> bool, size: seq<nat>)
    requires bucket(NoIp) < |size|
    ensures NamelessServed(bucket, x, attrs, 0, x, size) && InstallReply(x, attrs, multiplexOk, x, 0) == Success
  {
  }

  lemma NoPeerStep(bucket: Ip -> nat, x: Perms, attrs: seq<Attr>, multiplexOk: Addr -> bool, i: nat, t: Perms,
                   size: seq<nat>)
    requires i < |attrs| && !attrs[i].PeerAddress? && NamelessServed(bucket, x, attrs, i, t, size)
    ensures NamelessServed(bucket, x, attrs, i + 1, t, size)
    ensures InstallReply(x, attrs, multiplexOk, t, i + 1) == InstallReply(x, attrs, multiplexOk, t, i)
  {
  }

  lemma ServedNone(bucket: Ip -> nat, t: Perms, size: seq<nat>)
    ensures Served(bucket, {}, t, size)
  {
  }
}
