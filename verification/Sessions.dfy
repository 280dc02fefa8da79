/**
 The sessions of one relay server and what they hold (src/server/ns_turn_server.c): a
 unit of the user's quota, a share of the bandwidth, an entry in the session map and one
 in the map of mobility tickets.
 */
module Sessions {
  import opened AllocState
  import opened Crc32
  import opened StunBytes

  /** The address of a ts_ur_super_session. */
  type Ptr = nat

  /** Whose quota a unit is taken from. */
  datatype Name = Name(user: Bytes, oauth: bool, realm: Bytes)

  /** The part of a session that copy_auth_parameters copies; an empty nonce, name or password is none. */
  datatype Auth = Auth(nonce: Bytes, nonceExpires: Time, username: Bytes, realm: Bytes, oauth: bool,
                       keySet: bool, key: Bytes, pwd: Bytes, originSet: bool)

  datatype Session = Session(id: nat, mobileId: nat, oldMobileId: nat, isMobile: bool, quotaUsed: bool, bps: nat,
                             auth: Auth)
  {
    function Holder(): Name {
      NameOf(auth)
    }
  }

  function NameOf(a: Auth): Name {
    Name(a.username, a.oauth, a.realm)
  }

  type Table = map<Ptr, Session>

  const FACTOR := 1_000_000_000_000_000
  const LOW56 := 0x100_0000_0000_0000

  // ---- sums over the live sessions ----

  ghost function Total(t: Table, f: Session -> nat): nat
    decreases |t|
  {
    if t == map[] then 0 else
      var p :| p in t;
      f(t[p]) + Total(t - {p}, f)
  }

  /** The sum does not depend on the order. */
  lemma {:induction false} TotalSplit(t: Table, f: Session -> nat, p: Ptr)
    requires p in t
    ensures Total(t, f) == f(t[p]) + Total(t - {p}, f)
    decreases |t|
  {
    var q :| q in t && Total(t, f) == f(t[q]) + Total(t - {q}, f);
    if q != p {
      TotalSplit(t - {q}, f, p);
      TotalSplit(t - {p}, f, q);
      assert t - {q} - {p} == t - {p} - {q};
    }
  }

  lemma TotalPut(t: Table, f: Session -> nat, p: Ptr, s: Session)
    ensures Total(t[p := s], f) == f(s) + Total(t - {p}, f)
    ensures Total(t[p := s], f) == f(s) + Total(t, f) - if p in t then f(t[p]) else 0
  {
    TotalSplit(t[p := s], f, p);
    assert t[p := s] - {p} == t - {p};
    if p in t {
      TotalSplit(t, f, p);
    } else {
      assert t - {p} == t;
    }
  }

  function Unit(s: Session): nat {
    if s.quotaUsed then 1 else 0
  }

  function Bps(s: Session): nat {
    s.bps
  }

  /** A unit held in this name. */
  function UnitOf(k: Name): Session -> nat {
    (s: Session) => if s.quotaUsed && s.Holder() == k then 1 else 0
  }

  // ---- the books ----

  /** Units and bandwidth that went out and did not come back are with the live sessions. */
  ghost predicate Balanced(t: Table, grants: multiset<Name>, releases: multiset<Name>, bpsOut: nat, bpsBack: nat) {
    |grants| == |releases| + Total(t, Unit) && bpsOut == bpsBack + Total(t, Bps)
  }

  /** The same for every single name: what it still owes is what the sessions of that name hold. */
  ghost predicate PerName(t: Table, grants: multiset<Name>, releases: multiset<Name>) {
    forall k :: grants[k] == releases[k] + Total(t, UnitOf(k))
  }

  /** A change of one session that touches neither its unit nor its share. */
  lemma TouchBooks(t: Table, p: Ptr, s: Session, grants: multiset<Name>, releases: multiset<Name>, bpsOut: nat,
                   bpsBack: nat)
    requires p in t && s.quotaUsed == t[p].quotaUsed && s.bps == t[p].bps
    requires Balanced(t, grants, releases, bpsOut, bpsBack)
    ensures Balanced(t[p := s], grants, releases, bpsOut, bpsBack)
    ensures PerName(t, grants, releases) ==>
              (PerName(t[p := s], grants, releases) <==> (s.quotaUsed ==> s.Holder() == t[p].Holder()))
  {
    TotalPut(t, Unit, p, s);
    TotalPut(t, Bps, p, s);
    if PerName(t, grants, releases) {
      forall k
        ensures Total(t[p := s], UnitOf(k)) == UnitOf(k)(s) + Total(t, UnitOf(k)) - UnitOf(k)(t[p])
      {
        TotalPut(t, UnitOf(k), p, s);
      }
      var k := s.Holder();
      assert PerName(t[p := s], grants, releases) ==> grants[k] == releases[k] + Total(t[p := s], UnitOf(k));
    }
  }

  lemma GrantBooks(t: Table, p: Ptr, s: Session, grants: multiset<Name>, releases: multiset<Name>, bpsOut: nat,
                   bpsBack: nat)
    requires p in t && !t[p].quotaUsed && s.quotaUsed && s.bps == t[p].bps
    requires Balanced(t, grants, releases, bpsOut, bpsBack)
    ensures Balanced(t[p := s], grants + multiset{s.Holder()}, releases, bpsOut, bpsBack)
    ensures PerName(t, grants, releases) ==> PerName(t[p := s], grants + multiset{s.Holder()}, releases)
  {
    TotalPut(t, Unit, p, s);
    TotalPut(t, Bps, p, s);
    forall k | PerName(t, grants, releases)
      ensures (grants + multiset{s.Holder()})[k] == releases[k] + Total(t[p := s], UnitOf(k))
    {
      TotalPut(t, UnitOf(k), p, s);
    }
  }

  lemma ReleaseBooks(t: Table, p: Ptr, grants: multiset<Name>, releases: multiset<Name>, bpsOut: nat, bpsBack: nat)
    requires p in t && t[p].quotaUsed
    requires Balanced(t, grants, releases, bpsOut, bpsBack)
    ensures var s := t[p].(quotaUsed := false);
            && Balanced(t[p := s], grants, releases + multiset{s.Holder()}, bpsOut, bpsBack)
            && (PerName(t, grants, releases) ==> PerName(t[p := s], grants, releases + multiset{s.Holder()}))
  {
    var s := t[p].(quotaUsed := false);
    TotalPut(t, Unit, p, s);
    TotalPut(t, Bps, p, s);
    forall k | PerName(t, grants, releases)
      ensures grants[k] == (releases + multiset{s.Holder()})[k] + Total(t[p := s], UnitOf(k))
    {
      TotalPut(t, UnitOf(k), p, s);
    }
  }

  /** Bandwidth given to, or taken from, one session. */
  lemma BpsBooks(t: Table, p: Ptr, s: Session, grants: multiset<Name>, releases: multiset<Name>, bpsOut: nat,
                 bpsBack: nat)
    requires p in t && s == t[p].(bps := s.bps) && (t[p].bps == 0 || s.bps == 0)
    requires Balanced(t, grants, releases, bpsOut, bpsBack)
    ensures Balanced(t[p := s], grants, releases, bpsOut + s.bps, bpsBack + t[p].bps)
    ensures PerName(t, grants, releases) ==> PerName(t[p := s], grants, releases)
  {
    TotalPut(t, Unit, p, s);
    TotalPut(t, Bps, p, s);
    forall k | PerName(t, grants, releases)
      ensures grants[k] == releases[k] + Total(t[p := s], UnitOf(k))
    {
      TotalPut(t, UnitOf(k), p, s);
    }
  }

  /** A session that holds nothing comes or goes. */
  lemma EmptyBooks(t: Table, p: Ptr, s: Session, grants: multiset<Name>, releases: multiset<Name>, bpsOut: nat,
                   bpsBack: nat)
    requires p !in t && !s.quotaUsed && s.bps == 0
    ensures Balanced(t[p := s], grants, releases, bpsOut, bpsBack) <==> Balanced(t, grants, releases, bpsOut, bpsBack)
    ensures PerName(t[p := s], grants, releases) <==> PerName(t, grants, releases)
  {
    TotalPut(t, Unit, p, s);
    TotalPut(t, Bps, p, s);
    forall k
      ensures Total(t[p := s], UnitOf(k)) == Total(t, UnitOf(k))
    {
      TotalPut(t, UnitOf(k), p, s);
    }
  }

  // ---- the two maps ----

  /** sessions_map: every live session under its id, ids being drawn from the counter. */
  ghost predicate Indexed(server: Byte, counter: nat, t: Table, sessions: map<nat, Ptr>) {
    && (forall p :: p in t ==> t[p].id in sessions && sessions[t[p].id] == p)
    && (forall i :: i in sessions ==> sessions[i] in t && t[sessions[i]].id == i)
    && (forall p :: p in t ==> SessionId(server, 0) < t[p].id <= SessionId(server, counter))
  }

  /** mobile_connections_map is exactly { mobile id -> session | live, mobile id not 0 }, each id naming the server. */
  ghost predicate MobileIndexed(server: Byte, t: Table, mobile: map<nat, Ptr>) {
    && (forall p :: p in t && t[p].mobileId != 0 ==> t[p].mobileId in mobile && mobile[t[p].mobileId] == p)
    && (forall m :: m in mobile ==> mobile[m] in t && t[mobile[m]].mobileId == m && Ticket(server, m))
  }

  /** A ticket of this server: its id in the top byte, and not 0 below. */
  predicate Ticket(server: Byte, m: nat) {
    m / LOW56 == server && m % LOW56 != 0
  }

  /** A pinned origin was vouched for; in long-term mode only pinned sessions hold a unit. */
  ghost predicate Pinned(longTerm: bool, t: Table, vouched: set<Ptr>) {
    forall p :: p in t ==> PinnedOne(longTerm, t[p], p in vouched)
  }

  predicate PinnedOne(longTerm: bool, s: Session, vouched: bool) {
    (s.auth.originSet ==> vouched) && (s.quotaUsed && longTerm ==> s.auth.originSet)
  }

  /** A change of one session that touches neither its id nor its ticket. */
  lemma TouchMaps(server: Byte, counter: nat, t: Table, sessions: map<nat, Ptr>, mobile: map<nat, Ptr>, p: Ptr,
                  s: Session)
    requires p in t && s.id == t[p].id && s.mobileId == t[p].mobileId
    requires Indexed(server, counter, t, sessions) && MobileIndexed(server, t, mobile)
    ensures Indexed(server, counter, t[p := s], sessions) && MobileIndexed(server, t[p := s], mobile)
  {
  }

  lemma TouchPinned(longTerm: bool, t: Table, vouched: set<Ptr>, p: Ptr, s: Session)
    requires Pinned(longTerm, t, vouched) && PinnedOne(longTerm, s, p in vouched)
    ensures Pinned(longTerm, t[p := s], vouched)
  {
  }

  lemma UnitPinned(longTerm: bool, t: Table, vouched: set<Ptr>, p: Ptr, s: Session)
    requires Pinned(longTerm, t, vouched) && p in t && s.auth.originSet == t[p].auth.originSet
    requires s.quotaUsed && longTerm ==> t[p].quotaUsed || s.auth.originSet
    ensures Pinned(longTerm, t[p := s], vouched)
  {
  }

  lemma NewPinned(longTerm: bool, t: Table, vouched: set<Ptr>, p: Ptr, s: Session)
    requires Pinned(longTerm, t, vouched) && !s.auth.originSet && !s.quotaUsed
    ensures Pinned(longTerm, t[p := s], vouched)
  {
  }

  lemma TicketKnown(server: Byte, t: Table, mobile: map<nat, Ptr>, p: Ptr)
    requires MobileIndexed(server, t, mobile) && p in t && t[p].mobileId != 0
    ensures t[p].mobileId in mobile && mobile[t[p].mobileId := p] == mobile
  {
  }

  lemma NoTicketZero(server: Byte, t: Table, mobile: map<nat, Ptr>)
    requires MobileIndexed(server, t, mobile)
    ensures 0 !in mobile
  {
  }

  /** Copying the credentials of o to p, whoever vouched for o vouches for p. */
  lemma CopyPinned(longTerm: bool, t: Table, vouched: set<Ptr>, o: Ptr, p: Ptr, s: Session)
    requires Pinned(longTerm, t, vouched) && o in t && s.auth.originSet == t[o].auth.originSet && !s.quotaUsed
    ensures PinnedOne(longTerm, s, p in if o in vouched then vouched + {p} else vouched)
  {
  }

  lemma NowPinned(longTerm: bool, s: Session)
    requires s.auth.originSet
    ensures PinnedOne(longTerm, s, true)
  {
  }

  lemma MorePinned(longTerm: bool, t: Table, vouched: set<Ptr>, p: Ptr)
    requires Pinned(longTerm, t, vouched)
    ensures Pinned(longTerm, t, vouched + {p})
  {
  }

  /** Taking a session's ticket away. */
  lemma DropTicket(server: Byte, counter: nat, t: Table, sessions: map<nat, Ptr>, mobile: map<nat, Ptr>, p: Ptr)
    requires p in t && t[p].mobileId != 0
    requires Indexed(server, counter, t, sessions) && MobileIndexed(server, t, mobile)
    ensures var t' := t[p := t[p].(mobileId := 0)];
            Indexed(server, counter, t', sessions) && MobileIndexed(server, t', mobile - {t[p].mobileId})
  {
  }

  /** Giving a new one to a session that has none. */
  lemma AddTicket(server: Byte, counter: nat, t: Table, sessions: map<nat, Ptr>, mobile: map<nat, Ptr>, p: Ptr, m: nat)
    requires p in t && t[p].mobileId == 0 && Ticket(server, m) && m !in mobile
    requires Indexed(server, counter, t, sessions) && MobileIndexed(server, t, mobile)
    ensures var t' := t[p := t[p].(mobileId := m)];
            Indexed(server, counter, t', sessions) && MobileIndexed(server, t', mobile[m := p])
  {
  }

  lemma AddSession(server: Byte, counter: nat, t: Table, sessions: map<nat, Ptr>, mobile: map<nat, Ptr>, p: Ptr,
                   s: Session)
    requires p !in t && s.mobileId == 0 && s.id == SessionId(server, counter + 1)
    requires Indexed(server, counter, t, sessions) && MobileIndexed(server, t, mobile)
    ensures s.id !in sessions
    ensures Indexed(server, counter + 1, t[p := s], sessions[s.id := p]) && MobileIndexed(server, t[p := s], mobile)
  {
  }

  lemma RemoveSession(server: Byte, counter: nat, t: Table, sessions: map<nat, Ptr>, mobile: map<nat, Ptr>, p: Ptr)
    requires p in t && t[p].mobileId == 0
    requires Indexed(server, counter, t, sessions) && MobileIndexed(server, t, mobile)
    ensures Indexed(server, counter, t - {p}, sessions - {t[p].id}) && MobileIndexed(server, t - {p}, mobile)
  {
  }

  lemma RemovePinned(longTerm: bool, t: Table, vouched: set<Ptr>, p: Ptr)
    requires Pinned(longTerm, t, vouched)
    ensures Pinned(longTerm, t - {p}, vouched - {p})
  {
  }

  /** The session id of a server's c-th session. */
  function SessionId(server: Byte, c: nat): nat {
    server * FACTOR + c
  }

  /** A session id leads back to its server exactly while the counter is below the factor. */
  lemma SessionIdDividesBack(server: Byte, c: nat)
    ensures SessionId(server, c) / FACTOR == server <==> c < FACTOR
  {
  }
}

