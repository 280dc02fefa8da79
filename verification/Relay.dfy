/**
 The two directions of relayed data over an allocation's channels, its teardown, and
 whole runs of an allocation under any sequence of requests, sweeps and teardowns.
 */
module Relay {
  import opened Basics
  import opened Addresses
  import opened LocalMap
  import opened AllocState
  import opened Allocations
  import opened PeerRequests
  import opened Sweeping

  /** The channel number that data from this peer travels under; 0 for none. */
  ghost function NumberFor(chns: Chans, peer: Addr): nat {
    if c :| LiveChan(chns, c) && Eq(chns[c].peer, peer) then chns[c].chnum else 0
  }

  /** The peer that data on this channel number goes to. */
  ghost function PeerFor(chns: Chans, chnum: nat): Option<Addr> {
    if c :| LiveChan(chns, c) && chns[c].chnum == chnum then Some(chns[c].peer) else None
  }

  /** write_to_peerchannel: where client data on a channel is sent. */
  method PeerOfChannel(a: Allocation, chnum: nat) returns (r: Option<Addr>)
    requires a.Valid()
    ensures r == PeerFor(a.chns, chnum)
  {
    var chn := a.FindChannel(chnum);
    if chn.None? {
      return None;
    }
    return Some(a.chns[chn.value].peer);
  }

  /** peer_input_handler: whether a peer may send at all, and under which channel. */
  method ChannelOfData(a: Allocation, src: Addr) returns (permitted: bool, chnum: nat)
    requires a.Valid()
    ensures permitted <==> src.ip != NoIp && Permitted(a.T, src.ip)
    ensures chnum == NumberFor(a.chns, src)
    ensures chnum != 0 ==> permitted
  {
    hide Consistent, Stored, Addressed;
    var tinfo := a.GetPermission(src.ip);
    var r := None;
    if tinfo.Some? {
      r := a.PortChannel(tinfo.value, PortOf(src));
    }
    a.PeerChannels(src, tinfo, r);
    permitted := tinfo.Some?;
    chnum := if r.Some? then a.chns[r.value].chnum else 0;
    NumberIs(a, src, r);
  }

  /** Live channels are told apart by their number, and by their peer. */
  ghost predicate OneToOne(chns: Chans) {
    && (forall c, d :: LiveChan(chns, c) && LiveChan(chns, d) && chns[c].chnum == chns[d].chnum ==> c == d)
    && (forall c, d :: LiveChan(chns, c) && LiveChan(chns, d) && Eq(chns[c].peer, chns[d].peer) ==> c == d)
    && (forall c :: LiveChan(chns, c) ==> chns[c].chnum != 0 && Eq(chns[c].peer, chns[c].peer))
  }

  /** In a valid allocation, channel number to peer is one to one. */
  lemma ChannelsOneToOne(a: Allocation)
    requires a.Valid()
    ensures OneToOne(a.chns)
  {
    forall c, d | LiveChan(a.chns, c) && LiveChan(a.chns, d) && Eq(a.chns[c].peer, a.chns[d].peer)
      ensures c == d
    {
      OneChannelPerPeer(a.bucket, a.T, a.chns, c, d);
    }
    forall c | LiveChan(a.chns, c)
      ensures a.chns[c].chnum != 0 && Eq(a.chns[c].peer, a.chns[c].peer)
    {
      a.OwnerIsLive(c);
    }
  }

  lemma NumberIs(a: Allocation, src: Addr, r: Option<Ref>)
    requires a.Valid()
    requires r.Some? ==> LiveChan(a.chns, r.value) && Eq(a.chns[r.value].peer, src)
    requires r.None? ==> forall c :: LiveChan(a.chns, c) ==> !Eq(a.chns[c].peer, src)
    ensures NumberFor(a.chns, src) == if r.Some? then a.chns[r.value].chnum else 0
    ensures r.Some? ==> a.chns[r.value].chnum != 0
  {
  }

  /** Data from a peer travels under channel n exactly when data on channel n goes to that peer. */
  lemma DirectionsAgree(a: Allocation, peer: Addr, n: nat)
    requires a.Valid() && n != 0
    ensures NumberFor(a.chns, peer) == n <==> PeerFor(a.chns, n) == Some(peer)
  {
    hide Consistent, Stored, Addressed;
    ChannelsOneToOne(a);
  }

  // ---- whole runs ----

  /** What can happen to an allocation; each request comes with the peer filter of its moment. */
  datatype Event =
    | Established
    | BindEvent(bind: BindArgs)
    | CreateEvent(create: CreateArgs)
    | TickEvent(now: Time)
    | TeardownEvent

  /** The event is a request that lists this IP, and its own peer filter lets the IP through. */
  predicate LetsThrough(e: Event, ip: Ip) {
    match e
    case BindEvent(r) => ip in Listed(r.attrs) && r.good(ip)
    case CreateEvent(r) => ip in Listed(r.attrs) && r.good(ip)
    case _ => false
  }

  /** What an event makes of the tables. */
  ghost predicate Effect(bucket: Ip -> nat, x: Tables, e: Event, y: Tables) {
    match e
    case Established => y == x.(valid := true)
    case BindEvent(r) => exists reply :: BindEffect(bucket, x, r, reply, y)
    case CreateEvent(r) => exists reply :: CreateEffect(bucket, x, r, reply, y)
    case TickEvent(now) =>
      y == if x.valid then x.(t := SurvivingPerms(x.t, x.chns, now), chns := SurvivingChans(x.t, x.chns, now)) else x
    case TeardownEvent => !y.valid && (forall p :: !LivePerm(y.t, p)) && (forall c :: !LiveChan(y.chns, c))
  }

  method Happen(a: Allocation, e: Event)
    requires a.Valid()
    modifies a
    ensures a.Valid() && Effect(a.bucket, old(a.Now()), e, a.Now())
  {
    hide Consistent, Stored, Addressed, BindEffect, CreateEffect, SurvivingPerms, SurvivingChans;
    match e {
      case Established =>
        a.valid := true;
      case BindEvent(r) =>
        var reply := ChannelBind(a, r);
      case CreateEvent(r) =>
        var reply := CreatePermission(a, r);
      case TickEvent(now) =>
        Sweep(a, now);
      case TeardownEvent =>
        a.Clear();
    }
  }

  /**
   A permission that an event makes live is for an IP that this event lists and lets through; one
   that stays keeps its IP.
   */
  lemma EventInstalls(bucket: Ip -> nat, x: Tables, e: Event, y: Tables, p: Ref)
    requires Effect(bucket, x, e, y) && LivePerm(y.t, p)
    ensures if LivePerm(x.t, p) then y.t[p].ip == x.t[p].ip else LetsThrough(e, y.t[p].ip)
  {
    hide Refreshed, Served, Hindered, Bound, BindReply, BindRequest, CreateRequest, SurvivingChans;
    match e {
      case BindEvent(r) =>
        var reply :| BindEffect(bucket, x, r, reply, y);
        if y != x {
          var chnum, peer :| BindsTo(bucket, x, r, chnum, peer, reply, y);
          assert peer.ip in Listed(r.attrs);
        }
      case _ =>
    }
  }

  /** The tables before and after each event of a run. */
  ghost predicate IsRun(bucket: Ip -> nat, trace: seq<Tables>, events: seq<Event>) {
    && |trace| == |events| + 1
    && (forall p :: !LivePerm(trace[0].t, p)) && !trace[0].valid
    && forall i :: 0 <= i < |events| ==> Effect(bucket, trace[i], events[i], trace[i + 1])
  }

  /** The permission in slot p became live by event i of the run, and has been live with its IP ever since. */
  ghost predicate InstalledBy(trace: seq<Tables>, events: seq<Event>, p: Ref, i: nat)
    requires |trace| == |events| + 1
  {
    && i < |events| && !LivePerm(trace[i].t, p) && LivePerm(trace[|events|].t, p)
    && (forall j :: i < j <= |events| ==> LivePerm(trace[j].t, p) && trace[j].t[p].ip == trace[|events|].t[p].ip)
    && LetsThrough(events[i], trace[|events|].t[p].ip)
  }

  /**
   Every live permission was installed by a request of the run that lists its IP and whose own
   filter let it through.
   */
  lemma {:induction false} Installed(bucket: Ip -> nat, trace: seq<Tables>, events: seq<Event>, p: Ref) returns (i: nat)
    requires IsRun(bucket, trace, events) && LivePerm(trace[|events|].t, p)
    ensures InstalledBy(trace, events, p, i)
    decreases |events|
  {
    hide Effect, LetsThrough;
    var last := |events| - 1;
    EventInstalls(bucket, trace[last], events[last], trace[last + 1], p);
    if LivePerm(trace[last].t, p) {
      i := Installed(bucket, trace[..last + 1], events[..last], p);
    } else {
      i := last;
    }
  }

  /**
   Every run of an allocation, under any sequence of requests, sweeps and teardowns: each
   event has its effect on the tables; in the end they are consistent, channels are one to
   one, no more than eight full buckets of permissions are held, and every live permission
   was installed by a request that lists its IP and whose own filter let it through.
   */
  method Reach(bucket: Ip -> nat, events: seq<Event>) returns (a: Allocation, ghost trace: seq<Tables>)
    requires forall ip :: bucket(ip) < HASH_SIZE
    ensures fresh(a) && a.Valid() && a.bucket == bucket && OneToOne(a.chns)
    ensures |LiveSet(a.T)| <= HASH_SIZE * MAX_PERMISSIONS
    ensures IsRun(bucket, trace, events) && trace[|events|] == a.Now()
    ensures forall p :: LivePerm(a.T, p) ==> exists i :: InstalledBy(trace, events, p, i)
  {
    hide Consistent, Stored, Addressed, Effect, OneToOne, LetsThrough;
    a := new Allocation(bucket);
    trace := [a.Now()];
    for n := 0 to |events|
      invariant a.Valid() && fresh(a) && a.bucket == bucket
      invariant |trace| == n + 1 && trace[n] == a.Now() && IsRun(bucket, trace, events[..n])
    {
      Happen(a, events[n]);
      trace := trace + [a.Now()];
    }
    assert events[..|events|] == events;
    ChannelsOneToOne(a);
    a.PermissionBound();
    forall p | LivePerm(a.T, p)
      ensures exists i :: InstalledBy(trace, events, p, i)
    {
      var i := Installed(bucket, trace, events, p);
    }
  }
}
