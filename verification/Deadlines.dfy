/**
 How long permissions and channels last, in numbers: what ChannelBind and CreatePermission
 make of the two lifetimes, what the sweep does with the deadlines, and what a binding is
 good for while it lasts.
 */
module Deadlines {
  import opened Basics
  import opened Addresses
  import opened AllocState
  import opened Allocations
  import opened PeerRequests
  import opened Sweeping
  import opened Relay

  /** A successful ChannelBind at c leaves the channel and its owning permission with one deadline: c + lifetime. */
  lemma BindDeadlines(bucket: Ip -> nat, x: Tables, r: BindArgs, y: Tables)
    returns (n: nat, peer: Addr, c: Ref, p: Ref)
    requires BindEffect(bucket, x, r, Success, y)
    requires r.srv.channelLifetime > 0 && r.srv.ctime + r.srv.channelLifetime < 0x1_0000_0000
    ensures ChannelNumber(n) in r.attrs && LastPeer(r.attrs, peer)
    ensures LiveChan(y.chns, c) && y.chns[c].chnum == n && y.chns[c].peer == peer && y.chns[c].owner == Some(p)
    ensures LivePerm(y.t, p) && y.t[p].ip == peer.ip
    ensures y.chns[c].expires == y.t[p].expires == r.srv.ctime + r.srv.channelLifetime
  {
    hide BindRequest, BindReply, LastPeer, Installs, ParseReply;
    n, peer :| BindsTo(bucket, x, r, n, peer, Success, y);
    c, p :| Bound(x.t, x.chns, r.srv, n, peer, c, p, y.t, y.chns);
  }

  /** An accepted CreatePermission at c leaves every permission of a listed IP with the deadline c + lifetime. */
  lemma CreateDeadlines(bucket: Ip -> nat, x: Tables, r: CreateArgs, reply: Reply, y: Tables, q: Ref)
    requires x.valid && CreateRequest(r.attrs, r.relays, r.good) && CreateEffect(bucket, x, r, reply, y)
    requires r.srv.ctime + r.srv.permissionLifetime < 0x1_0000_0000
    requires LivePerm(y.t, q) && y.t[q].ip in Listed(r.attrs) && y.t[q].ip != NoIp
    ensures y.t[q].expires == r.srv.ctime + r.srv.permissionLifetime
  {
    hide CreateRequest, Installs, Served, InstallReply, Listed;
    if LivePerm(x.t, q) {
      assert Kept(x.t, Listed(r.attrs), PermDeadline(r.srv, 0), y.t, q);
    }
  }

  /** The IPs a CreatePermission found room for are permitted after a sweep exactly up to c + lifetime. */
  lemma CreatedUntil(bucket: Ip -> nat, x: Tables, r: CreateArgs, reply: Reply, y: Tables, now: Time, z: Tables, ip: Ip)
    requires x.valid && CreateRequest(r.attrs, r.relays, r.good) && CreateEffect(bucket, x, r, reply, y)
    requires Effect(bucket, y, TickEvent(now), z)
    requires r.srv.ctime + r.srv.permissionLifetime < 0x8000_0000 && now < 0x8000_0000
    requires ip in Listed(r.attrs) && ip != NoIp && Permitted(y.t, ip)
    ensures Permitted(z.t, ip) <==> now <= r.srv.ctime + r.srv.permissionLifetime
  {
    hide CreateRequest, CreateEffect, Listed, SurvivingPerms, SurvivingChans;
    assert y.valid by { StillValid(bucket, x, r, reply, y); }
    var q :| LivePerm(y.t, q) && y.t[q].ip == ip;
    CreateDeadlines(bucket, x, r, reply, y, q);
    PermissionLasts(y.t, y.chns, now, q);
    if Permitted(z.t, ip) {
      var s :| LivePerm(z.t, s) && z.t[s].ip == ip;
      SweptFrom(y.t, y.chns, now, s);
      CreateDeadlines(bucket, x, r, reply, y, s);
      PermissionLasts(y.t, y.chns, now, s);
    }
  }

  lemma StillValid(bucket: Ip -> nat, x: Tables, r: CreateArgs, reply: Reply, y: Tables)
    requires x.valid && CreateEffect(bucket, x, r, reply, y)
    ensures y.valid
  {
    hide CreateRequest, Refreshed, Installs, Served, InstallReply;
  }

  lemma SweptFrom(t: Perms, chns: Chans, now: Time, p: Ref)
    requires LivePerm(SurvivingPerms(t, chns, now), p)
    ensures LivePerm(t, p) && SurvivingPerms(t, chns, now)[p].ip == t[p].ip
  {
  }

  /**
   After a successful ChannelBind at c, data on the number goes to the peer and data from the peer
   travels under the number; a sweep leaves channel and permission exactly up to c + lifetime.
   */
  lemma BoundUntil(bucket: Ip -> nat, x: Tables, r: BindArgs, y: Tables, now: Time, z: Tables)
    returns (n: nat, peer: Addr, c: Ref, p: Ref)
    requires BindEffect(bucket, x, r, Success, y) && OneToOne(y.chns) && y.valid
    requires Effect(bucket, y, TickEvent(now), z)
    requires r.srv.channelLifetime > 0 && r.srv.ctime + r.srv.channelLifetime < 0x8000_0000 && now < 0x8000_0000
    ensures ChannelNumber(n) in r.attrs && LastPeer(r.attrs, peer)
    ensures PeerFor(y.chns, n) == Some(peer) && NumberFor(y.chns, peer) == n
    ensures LiveChan(y.chns, c) && y.chns[c].chnum == n && LivePerm(y.t, p) && y.t[p].ip == peer.ip
    ensures LiveChan(z.chns, c) <==> now <= r.srv.ctime + r.srv.channelLifetime
    ensures LivePerm(z.t, p) <==> now <= r.srv.ctime + r.srv.channelLifetime
  {
    hide BindEffect, SurvivingPerms, SurvivingChans, LastPeer;
    n, peer, c, p := BindDeadlines(bucket, x, r, y);
    PermissionLasts(y.t, y.chns, now, p);
    ChannelLasts(y.t, y.chns, now, c);
  }
}
