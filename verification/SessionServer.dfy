/**
 A relay server's bookkeeping over whole runs (src/server/ns_turn_server.c): creating and
 shutting down sessions, the authentication gate in front of the request handlers, the
 quota and bandwidth an Allocate takes, key lookups that are answered later, and the
 transfer of a session to a new client address by mobility ticket (RFC 8016).
 Callback answers, random draws and the outcome of I/O are parameters.
 */
module Servers {
  import opened Basics
  import opened Crc32
  import opened StunBytes
  import opened StunBuild
  import opened Sessions
  import opened Authentication
  import opened SessionSteps
  import opened Outcomes
  import opened ServerEvents

  lemma Vouching(cfg: Config, h: Handled)
    requires h.kind == Dispatched(false) && cfg.longTerm && Vetted(cfg, h) && IsRequest(h.msg) &&
             Method(h.msg) == ALLOCATE
    ensures Vouches(cfg, h)
  {
  }

  /** What the gate leaves to the handler of a refresh by ticket. */
  lemma TicketHandled(cfg: Config, i: nat, t: Table, mobile: map<nat, Ptr>, p: Ptr, msg: Bytes, c: CommandEnv,
                      canResume: bool)
    requires p in t && IsRequest(msg) && ByTicket(Method(msg), c)
    ensures Blocked(Method(msg), c, t[p].auth.originSet) ==>
              && AfterCommand(cfg, t, mobile, p, msg, c, canResume) == Same(t, mobile)
              && Entries(cfg, i, t, mobile, p, msg, c, canResume) == []
              && !CommandRenames(cfg, t, mobile, p, msg, c, canResume)
    ensures !Blocked(Method(msg), c, t[p].auth.originSet) ==>
              var out := Refreshed(cfg, t, mobile, p, msg, c.refresh, c.auth, canResume);
              var o := Target(t, mobile, p, c.refresh);
              && AfterCommand(cfg, t, mobile, p, msg, c, canResume) == out && p in out.table
              && out.lent == out.back == 0
              && Entries(cfg, i, t, mobile, p, msg, c, canResume) ==
                 [Entry(i, p, Dispatched(true), msg, t[p].auth)] +
                 (if o.Some? && Moves(cfg, t[p], t[o.value], c.refresh, msg, c.auth)
                  then [Entry(i, p, Moved, msg, out.table[p].auth)] else [])
              && (CommandRenames(cfg, t, mobile, p, msg, c, canResume) <==>
                  o.Some? && RefreshRenames(cfg, t[p], t[o.value], c.refresh, msg, c.auth, canResume))
  {
    hide GateRenames, RefreshRenames, Checked, Adopted, Moves, Blocked, SessionSteps.Gated, Passes, IsRequest, Settled,
         Handed;
    TicketGate(cfg, t[p], msg, c, canResume);
  }

  /** What the gate leaves to the handlers of other requests. */
  lemma PlainHandled(cfg: Config, i: nat, t: Table, mobile: map<nat, Ptr>, p: Ptr, msg: Bytes, c: CommandEnv,
                     canResume: bool)
    requires p in t && IsRequest(msg) && !ByTicket(Method(msg), c)
    ensures var what := Method(msg);
            var g := t[p].(auth := SessionSteps.Gated(cfg, t[p].auth, msg, what, c, canResume));
            var pass := Passes(cfg, t[p].auth, msg, what, c);
            var s := if pass && what == ALLOCATE then Allocated(cfg, g, c.mobility, c.alloc) else g;
            var tickets := if pass && what == ALLOCATE then AllocateTickets(g, c.mobility, c.alloc, mobile) else mobile;
            var lent := if pass && what == ALLOCATE then AllocateLends(cfg, g, c.mobility, c.alloc) else 0;
            && AfterCommand(cfg, t, mobile, p, msg, c, canResume) ==
               Outcome(t[p := s], tickets, Taken(g, s), multiset{}, lent, 0)
            && Entries(cfg, i, t, mobile, p, msg, c, canResume) ==
               (if pass then [Entry(i, p, Dispatched(Exempt(what, c)), msg, g.auth)] else [])
            && (CommandRenames(cfg, t, mobile, p, msg, c, canResume) <==>
                GateRenames(cfg, t[p], msg, what, c, canResume))
  {
    hide SessionSteps.Gated, Passes, GateRenames, RefreshRenames, Allocated, AllocateLends, Exempt, Moves, Target,
         IsRequest;
  }

  lemma NotRequest(cfg: Config, i: nat, t: Table, mobile: map<nat, Ptr>, p: Ptr, msg: Bytes, c: CommandEnv,
                   canResume: bool)
    requires p in t && !IsRequest(msg)
    ensures Entries(cfg, i, t, mobile, p, msg, c, canResume) == [] &&
            !CommandRenames(cfg, t, mobile, p, msg, c, canResume)
    ensures AfterCommand(cfg, t, mobile, p, msg, c, canResume) == Same(t, mobile)
  {
    assert t[p := t[p]] == t;
  }

  lemma Vetting(cfg: Config, h: Handled)
    requires h.kind.Dispatched? ==> IsRequest(h.msg)
    requires h.kind == Dispatched(true) ==> Method(h.msg) in {BINDING, CONNECTION_BIND, REFRESH}
    requires cfg.longTerm && h.kind != Dispatched(true) ==> Verified(cfg, h.msg, h.nonce, h.key)
    ensures Vetted(cfg, h)
  {
  }

  /** What a session does with a key that was found: it takes it, and may move to another realm. */
  lemma LearnedStages(cfg: Config, s: Session, k: KeyAnswer)
    requires k.success
    ensures var s1 := Keyed(s, k);
            && s1 == s.(auth := s1.auth) && s1.auth.originSet == s.auth.originSet
            && (s1.Holder() != s.Holder() <==> k.oauth != s.auth.oauth)
            && Learned(cfg, s, k) == if !ChangesRealm(s, k) then s1 else
                 var s2 := s1.(quotaUsed := false, auth := s1.auth.(realm := cfg.realmNamed(k.realm)));
                 Inc(cfg, s2, s2.auth.username, k.answer)
  {
  }

  lemma LearningTable(cfg: Config, t: Table, mobile: map<nat, Ptr>, p: Ptr, k: KeyAnswer)
    requires p in t
    ensures var out := Learning(cfg, t, mobile, p, k);
            out.table == t[p := Learned(cfg, t[p], k)] && out.lent == out.back == 0
  {
  }

  /** What an accepted Allocate does, stage by stage. */
  lemma SuppliedStages(cfg: Config, s: Session, mobility: bool, a: AllocateEnv)
    ensures var s1 := Unticketed(s, mobility);
            var s2 := Inc(cfg, s1, a.username, a.quota);
            && s1.quotaUsed == s.quotaUsed && Taken(s, Supplied(cfg, s, mobility, a)) == Taken(s1, s2)
            && Shared(s2, a).quotaUsed == s2.quotaUsed && (!s2.quotaUsed ==> Shared(s2, a) == s2 && Lent(s2, a) == 0)
  {
  }

  /** What a transfer does, stage by stage: credentials, tickets, units. */
  lemma TransferStages(cfg: Config, t: Table, mobile: map<nat, Ptr>, p: Ptr, o: Ptr, r: RefreshEnv)
    requires p in t && o in t && p != o
    ensures var out := Transferred(cfg, t, mobile, p, o, r);
            var t1 := t[o := Handed(cfg, t[o], t[p].auth, r.answers.1)];
            var left := Fewer(mobile, t1[p], t1[o]);
            var m := Drawn(cfg.id, left, r.draws);
            var t2 := t1[p := t1[p].(mobileId := 0)][o := t1[o].(mobileId := m)];
            var t3 := t2[p := t2[p].(quotaUsed := false)]
                        [o := Inc(cfg, t2[o], t2[o].auth.username, r.answers.2).(oldMobileId := r.mid)];
            && out.table == t3 && out.mobile == left[m := o]
            && out.took == (if t[p].auth.keySet then Units(t1[o]) else multiset{}) + Taken(t2[o], t3[o])
            && out.gave == (if t[p].auth.keySet then Units(t[o]) else multiset{}) + Units(t2[p])
  {
    hide Drawn, Handed, Inc, Units;
    var o1 := Handed(cfg, t[o], t[p].auth, r.answers.1);
    HandedTicket(cfg, t[o], t[p].auth, r.answers.1);
    UnitsTicket(t[p]);
    var m := Drawn(cfg.id, Fewer(mobile, t[p], o1), r.draws);
    var o2 := Settled(cfg, o1, m, r.answers.2, r.mid);
    var q := t[p].(mobileId := 0);
    SettledTable(t, p, o, o1, q, o1.(mobileId := m), q.(quotaUsed := false), o2);
  }

  lemma SettledStages(cfg: Config, o: Session, r: RefreshEnv)
    ensures var o1 := Inc(cfg, o, o.auth.username, r.answers.2);
            var o2 := Settled(cfg, o, o.mobileId, r.answers.2, r.mid);
            o2 == o1.(oldMobileId := r.mid) && Taken(o, o2) == Taken(o, o1)
  {
  }

  lemma CopiedStages(cfg: Config, s: Session, from: Auth, answer: bool)
    ensures var s1 := s.(quotaUsed := false, auth := from);
            var s2 := Inc(cfg, s1, from.username, answer);
            Copied(cfg, s, from, answer) == s2 && Taken(s1, s2) == Units(s2)
  {
  }

  lemma PutTwice(t: Table, p: Ptr, s: Session, s': Session)
    ensures t[p := s][p := s'] == t[p := s']
  {
  }

  lemma ExaminationKeys(cfg: Config, t: Table, mobile: map<nat, Ptr>, p: Ptr, o: Ptr, msg: Bytes, r: RefreshEnv,
                        env: Env, canResume: bool)
    requires p in t && o in t
    ensures var out := Examination(cfg, t, mobile, p, o, msg, r, env, canResume);
            out.table.Keys == t.Keys && out.mobile == mobile
  {
  }

  lemma TransferredAuth(cfg: Config, t: Table, mobile: map<nat, Ptr>, p: Ptr, o: Ptr, r: RefreshEnv)
    requires p in t && o in t && p != o
    ensures var out := Transferred(cfg, t, mobile, p, o, r); p in out.table && out.table[p].auth == t[p].auth
  {
  }

  lemma SettledTable(t: Table, p: Ptr, o: Ptr, o1: Session, p2: Session, o2: Session, p3: Session, o3: Session)
    requires p in t && o in t && p != o
    ensures t[o := o1][p := p2][o := o2][p := p3][o := o3] == t[p := p3][o := o3]
  {
  }

  lemma HandedTicket(cfg: Config, o: Session, from: Auth, answer: bool)
    ensures Handed(cfg, o, from, answer).mobileId == o.mobileId
  {
  }

  lemma UnitsTicket(s: Session)
    ensures Units(s.(mobileId := 0)) == Units(s)
  {
  }

  lemma AddUp(a: multiset<Name>, b: multiset<Name>, c: multiset<Name>)
    ensures a + b + c == a + (b + c)
  {
  }

  class Server {
    const cfg: Config
    var counter: nat
    var table: Table
    var sessions: map<nat, Ptr>
    var mobile: map<nat, Ptr>
    ghost var grants: multiset<Name>
    ghost var releases: multiset<Name>
    ghost var bpsOut: nat
    ghost var bpsBack: nat
    ghost var renamed: bool
    ghost var vouched: map<Ptr, Handled>
    ghost var clock: nat  // the event at work
    ghost var handled: seq<Handled>  // the messages let in
    ghost var ran: seq<Handled>  // those of them whose guarded handlers ran

    /** What every step keeps. */
    ghost predicate Valid()
      reads this
    {
      && Indexed(cfg.id, counter, table, sessions)
      && MobileIndexed(cfg.id, table, mobile)
      && Books()
      && Pinned(cfg.longTerm, table, vouched.Keys)
      && (forall h :: h in handled ==> Vetted(cfg, h))
      && (forall p :: p in vouched ==> vouched[p] in handled && Vouches(cfg, vouched[p]))
    }

    /** The last message let in is this one, for this session, with its nonce and key of now. */
    ghost predicate LetIn(p: Ptr, msg: Bytes, exempt: bool)
      requires p in table
      reads this
    {
      handled != [] && handled[|handled| - 1] == Entry(clock, p, Dispatched(exempt), msg, table[p].auth) &&
      IsRequest(msg)
    }

    ghost predicate Books()
      reads this
    {
      && Balanced(table, grants, releases, bpsOut, bpsBack)
      && (!renamed ==> PerName(table, grants, releases))
    }

    constructor (cfg: Config)
      ensures Valid() && this.cfg == cfg && table == map[] && handled == [] && ran == [] && clock == 0 && !renamed
      ensures counter == 0 && sessions == map[] && mobile == map[] && grants == releases == multiset{}
      ensures bpsOut == bpsBack == 0
    {
      this.cfg := cfg;
      counter, table, sessions, mobile := 0, map[], map[], map[];
      grants, releases, bpsOut, bpsBack, renamed := multiset{}, multiset{}, 0, 0, false;
      vouched, clock, handled, ran := map[], 0, [], [];
    }

    /** Writes fields of a session other than its unit, its share, its id and its ticket. */
    method Store(p: Ptr, s: Session)
      requires Valid() && p in table
      requires s == table[p].(auth := s.auth, isMobile := s.isMobile, oldMobileId := s.oldMobileId)
      requires s.auth.originSet == table[p].auth.originSet || PinnedOne(cfg.longTerm, s, p in vouched)
      modifies `table, `renamed
      ensures Valid() && table == old(table)[p := s]
      ensures renamed <==> old(renamed) || (s.quotaUsed && s.Holder() != old(table)[p].Holder())
    {
      hide Indexed, MobileIndexed, Balanced, PerName, Pinned, PinnedOne, Vetted, Vouches;
      TouchMaps(cfg.id, counter, table, sessions, mobile, p, s);
      if s.auth.originSet == table[p].auth.originSet {
        UnitPinned(cfg.longTerm, table, vouched.Keys, p, s);
      } else {
        TouchPinned(cfg.longTerm, table, vouched.Keys, p, s);
      }
      TouchBooks(table, p, s, grants, releases, bpsOut, bpsBack);
      renamed := renamed || (s.quotaUsed && s.Holder() != table[p].Holder());
      table := table[p := s];
    }

    // ---- quota and bandwidth ----

    /** dec_quota: the unit goes back in the name the session has now. */
    method DecQuota(p: Ptr)
      requires Valid() && p in table
      modifies `table, `releases
      ensures Valid() && table == old(table)[p := old(table)[p].(quotaUsed := false)]
      ensures releases == old(releases) + Units(old(table)[p])
    {
      hide Indexed, MobileIndexed, Balanced, PerName, Pinned, PinnedOne, Vetted, Vouches;
      if table[p].quotaUsed {
        var s := table[p].(quotaUsed := false);
        ReleaseBooks(table, p, grants, releases, bpsOut, bpsBack);
        TouchMaps(cfg.id, counter, table, sessions, mobile, p, s);
        UnitPinned(cfg.longTerm, table, vouched.Keys, p, s);
        table := table[p := s];
        releases := releases + multiset{s.Holder()};
      } else {
        assert table[p].(quotaUsed := false) == table[p];
        assert table[p := table[p]] == table;
      }
    }

    /** inc_quota: at most one unit, and in long-term mode only once the origin is pinned. */
    method IncQuota(p: Ptr, username: Bytes, answer: bool) returns (ok: bool)
      requires Valid() && p in table
      modifies `table, `grants
      ensures Valid()
      ensures ok <==> old(table)[p].quotaUsed || (answer && (cfg.longTerm ==> table[p].auth.originSet))
      ensures table == old(table)[p := Inc(cfg, old(table)[p], username, answer)]
      ensures ok <==> table[p].quotaUsed
      ensures grants == old(grants) + Taken(old(table)[p], table[p])
    {
      hide Indexed, MobileIndexed, Balanced, PerName, Pinned, PinnedOne, Vetted, Vouches;
      assert table[p := table[p]] == table;
      if table[p].quotaUsed {
        return true;
      }
      if (cfg.longTerm && !table[p].auth.originSet) || !answer {
        return false;
      }
      var s := table[p].(quotaUsed := true, auth := table[p].auth.(username := username));
      GrantBooks(table, p, s, grants, releases, bpsOut, bpsBack);
      TouchMaps(cfg.id, counter, table, sessions, mobile, p, s);
      UnitPinned(cfg.longTerm, table, vouched.Keys, p, s);
      table := table[p := s];
      grants := grants + multiset{s.Holder()};
      return true;
    }

    /** Sets ss->bps, from or to 0, against the bandwidth pool. */
    method SetBps(p: Ptr, bps: nat)
      requires Valid() && p in table && (table[p].bps == 0 || bps == 0)
      modifies `table, `bpsOut, `bpsBack
      ensures Valid() && table == old(table)[p := old(table)[p].(bps := bps)]
      ensures bpsOut == old(bpsOut) + bps && bpsBack == old(bpsBack) + old(table)[p].bps
    {
      hide Indexed, MobileIndexed, Balanced, PerName, Pinned, PinnedOne, Vetted, Vouches;
      var s := table[p].(bps := bps);
      BpsBooks(table, p, s, grants, releases, bpsOut, bpsBack);
      TouchMaps(cfg.id, counter, table, sessions, mobile, p, s);
      UnitPinned(cfg.longTerm, table, vouched.Keys, p, s);
      bpsOut, bpsBack := bpsOut + bps, bpsBack + table[p].bps;
      table := table[p := s];
    }

    // ---- mobility tickets ----

    /** get_new_mobile_id: random draws until one makes a ticket not in use. */
    method NewMobileId(draws: seq<nat>) returns (m: nat)
      requires Draws(cfg.id, mobile, draws)
      ensures m == Drawn(cfg.id, mobile, draws) && Ticket(cfg.id, m) && m !in mobile
    {
      var i := 0;
      while !Unused(cfg.id, mobile, draws[i])
        invariant i < |draws| && forall j :: 0 <= j < i ==> !Unused(cfg.id, mobile, draws[j])
        invariant Drawn(cfg.id, mobile, draws) == Drawn(cfg.id, mobile, draws[i..])
        decreases |draws| - i
      {
        i := i + 1;
      }
      m := cfg.id * LOW56 + draws[i] % LOW56;
    }

    /** put_session_into_mobile_map */
    method PutMobile(p: Ptr, mobility: bool, draws: seq<nat>)
      requires Valid() && p in table && Draws(cfg.id, mobile, draws)
      modifies `table, `mobile
      ensures Valid()
      ensures mobility && old(table)[p].mobileId == 0 ==>
                && table == old(table)[p := old(table)[p].(mobileId := Drawn(cfg.id, old(mobile), draws))]
                && mobile == old(mobile)[Drawn(cfg.id, old(mobile), draws) := p]
      ensures !mobility || old(table)[p].mobileId != 0 ==> table == old(table) && mobile == old(mobile)
    {
      hide Indexed, MobileIndexed, Balanced, PerName, Pinned, PinnedOne, Vetted, Vouches, Drawn;
      if mobility {
        if table[p].mobileId == 0 {
          var m := NewMobileId(draws);
          var s := table[p].(mobileId := m);
          AddTicket(cfg.id, counter, table, sessions, mobile, p, m);
          TouchBooks(table, p, s, grants, releases, bpsOut, bpsBack);
          UnitPinned(cfg.longTerm, table, vouched.Keys, p, s);
          table := table[p := s];
          mobile := mobile[m := p];
        } else {
          TicketKnown(cfg.id, table, mobile, p);
          mobile := mobile[table[p].mobileId := p];
        }
      }
    }

    /** delete_session_from_mobile_map */
    method DropMobile(p: Ptr)
      requires Valid() && p in table
      modifies `table, `mobile
      ensures Valid() && table == old(table)[p := old(table)[p].(mobileId := 0)]
      ensures mobile == old(mobile) - {old(table)[p].mobileId}
    {
      hide Indexed, MobileIndexed, Balanced, PerName, Pinned, PinnedOne, Vetted, Vouches;
      if table[p].mobileId != 0 {
        var s := table[p].(mobileId := 0);
        DropTicket(cfg.id, counter, table, sessions, mobile, p);
        TouchBooks(table, p, s, grants, releases, bpsOut, bpsBack);
        UnitPinned(cfg.longTerm, table, vouched.Keys, p, s);
        mobile := mobile - {table[p].mobileId};
        table := table[p := s];
      } else {
        NoTicketZero(cfg.id, table, mobile);
        assert mobile - {0} == mobile;
        assert table[p := table[p]] == table;
      }
    }

    // ---- sessions come and go ----

    /** create_new_ss: a new id, and a ticket where mobility is on. */
    method Create(p: Ptr, realm: Bytes, mobility: bool, draws: seq<nat>)
      requires Valid() && p !in table && Draws(cfg.id, mobile, draws)
      modifies `table, `sessions, `counter, `mobile
      ensures Valid() && counter == old(counter) + 1 && SessionId(cfg.id, counter) !in old(sessions)
      ensures sessions == old(sessions)[SessionId(cfg.id, counter) := p]
      ensures var m := if mobility then Drawn(cfg.id, old(mobile), draws) else 0;
              && table == old(table)[p := NewSession(cfg, counter, m, realm)]
              && mobile == if mobility then old(mobile)[m := p] else old(mobile)
    {
      hide Indexed, MobileIndexed, Balanced, PerName, Pinned, PinnedOne, Vetted, Vouches;
      var s := NewSession(cfg, counter + 1, 0, realm);
      AddSession(cfg.id, counter, table, sessions, mobile, p, s);
      EmptyBooks(table, p, s, grants, releases, bpsOut, bpsBack);
      NewPinned(cfg.longTerm, table, vouched.Keys, p, s);
      counter := counter + 1;
      table := table[p := s];
      sessions := sessions[s.id := p];
      PutMobile(p, mobility, draws);
    }

    /** delete_ur_map_ss of a session that holds nothing any more. */
    method Remove(p: Ptr)
      requires Valid() && p in table && !table[p].quotaUsed && table[p].bps == 0
      modifies `table, `sessions, `mobile, `vouched
      ensures Valid() && table == old(table) - {p}
      ensures sessions == old(sessions) - {old(table)[p].id} && mobile == old(mobile) - {old(table)[p].mobileId}
    {
      hide Indexed, MobileIndexed, Balanced, PerName, Pinned, PinnedOne, Vetted, Vouches;
      DropMobile(p);
      RemoveSession(cfg.id, counter, table, sessions, mobile, p);
      assert (table - {p})[p := table[p]] == table;
      EmptyBooks(table - {p}, p, table[p], grants, releases, bpsOut, bpsBack);
      RemovePinned(cfg.longTerm, table, vouched.Keys, p);
      sessions := sessions - {table[p].id};
      table := table - {p};
      vouched := vouched - {p};
      assert table == old(table) - {p};
    }

    /** shutdown_client_connection: unit and share go back; a mobile session stays for its owner to come back. */
    method Shutdown(p: Ptr, force: bool, allocValid: bool)
      requires Valid() && p in table
      modifies `table, `sessions, `mobile, `vouched, `releases, `bpsOut, `bpsBack
      ensures Valid()
      ensures if !force && allocValid && old(table)[p].isMobile
              then && table == old(table)[p := old(table)[p].(quotaUsed := false, bps := 0)]
                   && sessions == old(sessions) && mobile == old(mobile)
              else && table == old(table) - {p} && sessions == old(sessions) - {old(table)[p].id}
                   && mobile == old(mobile) - {old(table)[p].mobileId}
      ensures releases == old(releases) + Units(old(table)[p])
      ensures bpsOut == old(bpsOut) && bpsBack == old(bpsBack) + old(table)[p].bps
    {
      hide Valid;
      DecQuota(p);
      SetBps(p, 0);
      if !force && allocValid && table[p].isMobile {
        return;
      }
      Remove(p);
      assert table == old(table) - {p};
    }

    // ---- credentials ----

    /** The copying itself: whoever vouched for o's origin now vouches for p's. */
    method TakeOver(o: Ptr, p: Ptr)
      requires Valid() && o in table && p in table && !table[p].quotaUsed
      modifies `table, `vouched, `renamed
      ensures Valid() && renamed == old(renamed)
      ensures table == old(table)[p := old(table)[p].(auth := old(table)[o].auth)]
      ensures vouched == if o in old(vouched) then old(vouched)[p := old(vouched)[o]] else old(vouched)
    {
      hide Indexed, MobileIndexed, Balanced, PerName, Pinned, PinnedOne, Vetted, Vouches;
      var s := table[p].(auth := table[o].auth);
      CopyPinned(cfg.longTerm, table, vouched.Keys, o, p, s);
      MorePinned(cfg.longTerm, table, vouched.Keys, p);
      if o in vouched {
        assert vouched[p := vouched[o]].Keys == vouched.Keys + {p};
        vouched := vouched[p := vouched[o]];
      }
      Store(p, s);
    }

    /** copy_auth_parameters: p gives its unit back, takes over o's credentials and asks again in that name. */
    method CopyAuth(o: Ptr, p: Ptr, answer: bool)
      requires Valid() && o in table && p in table && o != p
      modifies `table, `releases, `grants, `vouched, `renamed
      ensures Valid() && renamed == old(renamed)
      ensures table == old(table)[p := Copied(cfg, old(table)[p], old(table)[o].auth, answer)]
      ensures grants == old(grants) + Units(table[p]) && releases == old(releases) + Units(old(table)[p])
      ensures vouched == if o in old(vouched) then old(vouched)[p := old(vouched)[o]] else old(vouched)
    {
      hide Valid, Inc, Units;
      CopiedStages(cfg, table[p], table[o].auth, answer);
      DecQuota(p);
      TakeOver(o, p);
      var _ := IncQuota(p, table[p].auth.username, answer);
    }

    // ---- the gate and the handlers ----

    /** check_stun_auth on a session of the table. */
    method CheckSession(p: Ptr, msg: Bytes, what: nat, env: Env, canResume: bool) returns (v: Verdict)
      requires Valid() && p in table
      modifies `table, `renamed
      ensures Valid() &&
              var s := old(table)[p];
              table == old(table)[p := s.(auth := Checked(cfg, s.auth, msg, what, env, canResume))]
      ensures v.integrity <==> cfg.longTerm && Credible(cfg, old(table)[p].auth, msg, what, env)
      ensures v.integrity ==> Verified(cfg, msg, table[p].auth.nonce, table[p].auth.key)
      ensures v.err == 0 && !v.postponed <==> !cfg.longTerm || v.integrity
      ensures renamed <==> old(renamed) || CheckRenames(cfg, old(table)[p], msg, what, env, canResume)
    {
      hide Valid, Credible, Verified, PinnedOne, Checked, Renames, LacksKey;
      CheckedNames(cfg, table[p].auth, msg, what, env, canResume);
      var auth: Auth;
      auth, v := CheckStunAuth(cfg, table[p].auth, msg, what, env, canResume);
      Store(p, table[p].(auth := auth));
    }

    /** Notes that a message is let in for the session, with its nonce and key of this moment. */
    ghost method Note(p: Ptr, kind: Kind, msg: Bytes)
      requires Valid() && p in table && Vetted(cfg, Entry(clock, p, kind, msg, table[p].auth))
      modifies `handled
      ensures Valid() && handled == old(handled) + [Entry(clock, p, kind, msg, table[p].auth)]
    {
      hide Indexed, MobileIndexed, Balanced, PerName, Pinned, Vetted, Vouches;
      handled := handled + [Entry(clock, p, kind, msg, table[p].auth)];
    }

    /** Pins the origin of a session whose verified Allocate has just been let in. */
    method PinOrigin(p: Ptr, msg: Bytes)
      requires Valid() && p in table && cfg.longTerm && LetIn(p, msg, false) && Method(msg) == ALLOCATE
      modifies `table, `vouched, `renamed
      ensures Valid() && table == old(table)[p := old(table)[p].(auth := old(table)[p].auth.(originSet := true))]
      ensures vouched == old(vouched)[p := handled[|handled| - 1]] && LetIn(p, msg, false)
      ensures renamed == old(renamed)
    {
      hide Indexed, MobileIndexed, Balanced, PerName, Pinned, PinnedOne, Vetted, Vouches;
      MorePinned(cfg.longTerm, table, vouched.Keys, p);
      Vouching(cfg, handled[|handled| - 1]);
      vouched := vouched[p := handled[|handled| - 1]];
      assert vouched.Keys == old(vouched).Keys + {p};
      var s := table[p].(auth := table[p].auth.(originSet := true));
      NowPinned(cfg.longTerm, s);
      Store(p, s);
    }

    /** The origin of an Allocate names the realm as long as none is pinned. */
    method ReadOrigin(p: Ptr, what: nat, c: CommandEnv)
      requires Valid() && p in table
      modifies `table, `renamed
      ensures Valid() && table == old(table)[p := old(table)[p].(auth := Asked(old(table)[p].auth, what, c))]
      ensures renamed <==> old(renamed) || OriginRenames(old(table)[p], what, c)
    {
      hide Valid, PinnedOne;
      assert table[p := table[p]] == table;
      if what == ALLOCATE && !table[p].auth.originSet && c.originRealm.Some? {
        Store(p, table[p].(auth := table[p].auth.(realm := c.originRealm.value)));
      }
    }

    /** The check, after which the message is let in, and a verified Allocate pins the origin. */
    method CheckAndPin(p: Ptr, msg: Bytes, env: Env, canResume: bool) returns (pass: bool)
      requires Valid() && p in table && IsRequest(msg)
      modifies `table, `vouched, `renamed, `handled
      ensures Valid()
      ensures var s := old(table)[p];
              table == old(table)[p := s.(auth := Admitted(cfg, s.auth, msg, Method(msg), env, canResume))]
      ensures pass <==> !cfg.longTerm || Credible(cfg, old(table)[p].auth, msg, Method(msg), env)
      ensures if pass then handled == old(handled) + [Entry(clock, p, Dispatched(false), msg, table[p].auth)]
                           && LetIn(p, msg, false)
              else handled == old(handled)
      ensures renamed <==> old(renamed) || CheckRenames(cfg, old(table)[p], msg, Method(msg), env, canResume)
    {
      hide Valid, Verified, Credible, Checked, Renames, Vetted;
      var v := CheckSession(p, msg, Method(msg), env, canResume);
      if v.err != 0 || v.postponed {
        return false;
      }
      Vetting(cfg, Entry(clock, p, Dispatched(false), msg, table[p].auth));
      Note(p, Dispatched(false), msg);
      if v.integrity && Method(msg) == ALLOCATE {
        PinOrigin(p, msg);
      }
      return true;
    }

    /**
     The gate of handle_turn_command: true when the request may go to its handler.  In
     long-term mode it then is verified, or of a kind that its own handler checks.
     */
    method Gate(p: Ptr, msg: Bytes, c: CommandEnv, canResume: bool) returns (pass: bool)
      requires Valid() && p in table && IsRequest(msg)
      modifies `table, `vouched, `renamed, `handled
      ensures Valid()
      ensures var s := old(table)[p];
              table == old(table)[p := s.(auth := SessionSteps.Gated(cfg, s.auth, msg, Method(msg), c, canResume))]
      ensures pass <==> Passes(cfg, old(table)[p].auth, msg, Method(msg), c)
      ensures if pass then handled == old(handled) + [Entry(clock, p, Dispatched(Exempt(Method(msg), c)), msg,
                                                            table[p].auth)]
                           && LetIn(p, msg, Exempt(Method(msg), c))
              else handled == old(handled)
      ensures renamed <==> old(renamed) || GateRenames(cfg, old(table)[p], msg, Method(msg), c, canResume)
    {
      hide Valid, PinnedOne, Verified, Credible, Admitted, CheckRenames, OriginRenames, Asked, Blocked, Vetted;
      var what := Method(msg);
      assert table[p := table[p]] == table;
      if Blocked(what, c, table[p].auth.originSet) {
        return false;
      }
      ReadOrigin(p, what, c);
      if !Exempt(what, c) {
        pass := CheckAndPin(p, msg, c.auth, canResume);
      } else {
        Vetting(cfg, Entry(clock, p, Dispatched(true), msg, table[p].auth));
        Note(p, Dispatched(true), msg);
        pass := true;
      }
    }

    /** Notes that the guarded handler of the message let in last runs. */
    ghost method Enter(p: Ptr, msg: Bytes)
      requires Valid() && p in table && LetIn(p, msg, false) && Method(msg) in GUARDED
      modifies `ran
      ensures Valid() && ran == old(ran) + [handled[|handled| - 1]]
    {
      hide Indexed, MobileIndexed, Balanced, PerName, Pinned, Vetted, Vouches;
      ran := ran + [handled[|handled| - 1]];
    }

    /** handle_turn_create_permission, handle_turn_channel_bind and handle_turn_connect, which act on the allocation. */
    method OnAllocation(p: Ptr, msg: Bytes)
      requires Valid() && p in table && LetIn(p, msg, false) &&
               Method(msg) in {CREATE_PERMISSION, CHANNEL_BIND, CONNECT}
      modifies `ran
      ensures Valid() && ran == old(ran) + [handled[|handled| - 1]]
    {
      hide Valid;
      Enter(p, msg);
    }

    /** The part of handle_turn_allocate that takes resources, after its attributes have been read. */
    method Allocate(p: Ptr, msg: Bytes, mobility: bool, a: AllocateEnv) returns (err: nat)
      requires Valid() && p in table && LetIn(p, msg, false) && Method(msg) == ALLOCATE
      modifies `table, `mobile, `grants, `bpsOut, `bpsBack, `renamed, `ran
      ensures Valid() && renamed == old(renamed) && ran == old(ran) + [handled[|handled| - 1]]
      ensures mobile == AllocateTickets(old(table)[p], mobility, a, old(mobile))
      ensures bpsOut == old(bpsOut) + AllocateLends(cfg, old(table)[p], mobility, a) && bpsBack == old(bpsBack)
      ensures var s := Allocated(cfg, old(table)[p], mobility, a);
              && table == old(table)[p := s] && grants == old(grants) + Taken(old(table)[p], s)
              && (err == 0 <==> a.accepted && s.quotaUsed && (Ask(a) == 0 || s.bps > 0))
    {
      hide Valid, Ask, Supplied, SupplyLends, IsRequest;
      Enter(p, msg);
      assert table[p := table[p]] == table;
      if a.ticket && mobility {
        Store(p, table[p].(isMobile := true));
      }
      if !a.accepted {
        return 400;
      }
      err := Supply(p, mobility, a);
    }

    /** What an accepted Allocate takes: the unit, then the bandwidth. */
    method Supply(p: Ptr, mobility: bool, a: AllocateEnv) returns (err: nat)
      requires Valid() && p in table
      modifies `table, `mobile, `grants, `bpsOut, `bpsBack
      ensures Valid()
      ensures mobile == if mobility && !old(table)[p].isMobile then old(mobile) - {old(table)[p].mobileId}
                        else old(mobile)
      ensures var s := Supplied(cfg, old(table)[p], mobility, a);
              && table == old(table)[p := s] && grants == old(grants) + Taken(old(table)[p], s)
              && (err == 0 <==> s.quotaUsed && (Ask(a) == 0 || s.bps > 0))
      ensures bpsOut == old(bpsOut) + SupplyLends(cfg, old(table)[p], mobility, a) && bpsBack == old(bpsBack)
    {
      hide Valid, Ask, Inc, Shared, Lent, Unticketed, Taken;
      SuppliedStages(cfg, table[p], mobility, a);
      Unticket(p, mobility);
      PutTwice(old(table), p, table[p], Inc(cfg, table[p], a.username, a.quota));
      var ok := IncQuota(p, a.username, a.quota);
      if !ok {
        return 486;
      }
      PutTwice(old(table), p, table[p], Shared(table[p], a));
      err := ShareOut(p, a);
    }

    /** A session that asked for no ticket loses the one it has. */
    method Unticket(p: Ptr, mobility: bool)
      requires Valid() && p in table
      modifies `table, `mobile
      ensures Valid() && table == old(table)[p := Unticketed(old(table)[p], mobility)]
      ensures mobile == if mobility && !old(table)[p].isMobile then old(mobile) - {old(table)[p].mobileId}
                        else old(mobile)
    {
      hide Valid;
      assert table[p := table[p]] == table;
      if mobility && !table[p].isMobile {
        DropMobile(p);
      }
    }

    /** The bandwidth of an Allocate that has its unit. */
    method ShareOut(p: Ptr, a: AllocateEnv) returns (err: nat)
      requires Valid() && p in table && table[p].quotaUsed
      modifies `table, `bpsOut, `bpsBack
      ensures Valid() && table == old(table)[p := Shared(old(table)[p], a)]
      ensures bpsOut == old(bpsOut) + Lent(old(table)[p], a) && bpsBack == old(bpsBack)
      ensures err == 0 <==> Ask(a) == 0 || table[p].bps > 0
    {
      hide Valid, Ask;
      assert table[p := table[p]] == table;
      if Ask(a) != 0 && table[p].bps == 0 {
        SetBps(p, a.pool(Ask(a)));
        if table[p].bps == 0 {
          return 486;
        }
      }
      return 0;
    }

    // ---- mobility ----

    /** The end of a transfer: o takes over p's credentials, and gets a new ticket in place of both old ones. */
    method Transfer(p: Ptr, o: Ptr, r: RefreshEnv)
      requires Valid() && p in table && o in table && p != o && Draws(cfg.id, mobile, r.draws)
      modifies `table, `mobile, `releases, `grants, `vouched, `renamed
      ensures Valid() && renamed == old(renamed)
      ensures var out := Transferred(cfg, old(table), old(mobile), p, o, r);
              && table == out.table && mobile == out.mobile
              && grants == old(grants) + out.took && releases == old(releases) + out.gave
    {
      hide Valid, Draws, Drawn, Handed, Inc, Units, Taken, Fewer, Transferred;
      TransferStages(cfg, table, mobile, p, o, r);
      HandOver(p, o, r.answers.1);
      ghost var taken := if table[p].auth.keySet then Units(table[o]) else multiset{};
      Reticket(p, o, r.draws);
      ghost var t := table;
      Settle(p, o, r);
      AddUp(old(grants), taken, Taken(t[o], table[o]));
      AddUp(old(releases), if old(table)[p].auth.keySet then Units(old(table)[o]) else multiset{}, Units(t[p]));
    }

    /** o takes over p's credentials if there is a key among them. */
    method HandOver(p: Ptr, o: Ptr, answer: bool)
      requires Valid() && p in table && o in table && p != o
      modifies `table, `releases, `grants, `vouched, `renamed
      ensures Valid() && renamed == old(renamed)
      ensures table == old(table)[o := Handed(cfg, old(table)[o], old(table)[p].auth, answer)]
      ensures grants == old(grants) + if old(table)[p].auth.keySet then Units(table[o]) else multiset{}
      ensures releases == old(releases) + if old(table)[p].auth.keySet then Units(old(table)[o]) else multiset{}
    {
      hide Valid, Copied, Units;
      assert table[o := table[o]] == table;
      if table[p].auth.keySet {
        CopyAuth(p, o, answer);
      }
    }

    /** p gives its unit back, o asks for one if it has none, and o remembers the ticket it was found by. */
    method Settle(p: Ptr, o: Ptr, r: RefreshEnv)
      requires Valid() && p in table && o in table && p != o
      modifies `table, `releases, `grants, `renamed
      ensures Valid() && renamed == old(renamed)
      ensures table == old(table)[p := old(table)[p].(quotaUsed := false)]
                                 [o := Settled(cfg, old(table)[o], old(table)[o].mobileId, r.answers.2, r.mid)]
      ensures grants == old(grants) + Taken(old(table)[o], table[o]) && releases == old(releases) + Units(old(table)[p])
    {
      hide Valid, PinnedOne, Inc, Units, Taken, Settled;
      SettledStages(cfg, table[o], r);
      DecQuota(p);
      ghost var t := table;
      var _ := IncQuota(o, table[o].auth.username, r.answers.2);
      PutTwice(t, o, table[o], table[o].(oldMobileId := r.mid));
      Store(o, table[o].(oldMobileId := r.mid));
    }

    /** Both tickets go, and o gets a new one. */
    method Reticket(p: Ptr, o: Ptr, draws: seq<nat>)
      requires Valid() && p in table && o in table && p != o && Draws(cfg.id, mobile, draws)
      modifies `table, `mobile
      ensures Valid()
      ensures var left := Fewer(old(mobile), old(table)[p], old(table)[o]);
              var m := Drawn(cfg.id, left, draws);
              && table == old(table)[p := old(table)[p].(mobileId := 0)][o := old(table)[o].(mobileId := m)]
              && mobile == left[m := o] && Ticket(cfg.id, m) && m !in left
    {
      hide Valid, Draws, Drawn;
      DropMobile(p);
      DropMobile(o);
      FewerTickets(cfg.id, old(mobile), mobile, draws);
      PutMobile(o, true, draws);
    }

    /** The realm of the ticket's session, and its credentials for a session without a key. */
    method Adopt(p: Ptr, o: Ptr, r: RefreshEnv)
      requires Valid() && p in table && o in table && p != o
      modifies `table, `releases, `grants, `vouched, `renamed
      ensures Valid() && table == old(table)[p := Adopted(cfg, old(table)[p], old(table)[o], r)]
      ensures renamed <==>
              old(renamed) ||
              (old(table)[p].quotaUsed && cfg.realmNamed(old(table)[o].auth.realm) != old(table)[p].auth.realm)
      ensures grants == old(grants) + if old(table)[p].auth.keySet then multiset{} else Units(table[p])
      ensures releases == old(releases) + if old(table)[p].auth.keySet then multiset{}
                                          else Units(InRealmOf(cfg, old(table)[p], old(table)[o]))
    {
      hide Valid, PinnedOne, Copied, Units;
      Store(p, InRealmOf(cfg, table[p], table[o]));
      if !table[p].auth.keySet {
        CopyAuth(o, p, r.answers.0);
      }
    }

    /** The security check of a refresh by ticket. */
    method AdoptAndCheck(p: Ptr, o: Ptr, msg: Bytes, r: RefreshEnv, env: Env, canResume: bool) returns (ok: bool)
      requires Valid() && p in table && o in table && p != o
      modifies `table, `releases, `grants, `vouched, `renamed
      ensures Valid()
      ensures var out := Examination(cfg, old(table), old(mobile), p, o, msg, r, env, canResume);
              table == out.table && grants == old(grants) + out.took && releases == old(releases) + out.gave
      ensures ok <==>
              !cfg.longTerm ||
              Credible(cfg, Adopted(cfg, old(table)[p], old(table)[o], r).auth, msg, REFRESH, env)
      ensures ok && cfg.longTerm ==> Verified(cfg, msg, table[p].auth.nonce, table[p].auth.key)
      ensures renamed <==> old(renamed) || RefreshRenames(cfg, old(table)[p], old(table)[o], r, msg, env, canResume)
    {
      hide Valid, PinnedOne, Verified, Credible, Checked, Adopted, Renames, Units;
      Adopt(p, o, r);
      var v := CheckSession(p, msg, REFRESH, env, canResume);
      ok := v.err == 0 && !v.postponed;
    }

    /** handle_turn_refresh for a session without an allocation that shows a ticket. */
    method MobileRefresh(p: Ptr, msg: Bytes, r: RefreshEnv, env: Env, canResume: bool) returns (moved: bool)
      requires Valid() && p in table && Draws(cfg.id, mobile, r.draws) && LetIn(p, msg, true)
      modifies `table, `mobile, `releases, `grants, `vouched, `renamed, `handled
      ensures Valid()
      ensures var out := Refreshed(cfg, old(table), old(mobile), p, msg, r, env, canResume);
              && table == out.table && mobile == out.mobile
              && grants == old(grants) + out.took && releases == old(releases) + out.gave
      ensures var o := Target(old(table), old(mobile), p, r);
              && (moved <==> o.Some? && Moves(cfg, old(table)[p], old(table)[o.value], r, msg, env))
              && (renamed <==>
                  old(renamed) ||
                  (o.Some? && RefreshRenames(cfg, old(table)[p], old(table)[o.value], r, msg, env, canResume)))
      ensures handled == old(handled) + if moved then [Entry(clock, p, Moved, msg, table[p].auth)] else []
    {
      hide Valid, Draws, Verified, Credible, Adopted, RefreshRenames, Vetted, IsRequest, Examination, Transferred;
      if r.mid == 0 || r.mid !in mobile {
        return false;
      }
      var o := mobile[r.mid];
      TicketOwner(r.mid);
      if !r.present || o == p || !table[o].isMobile {
        return false;
      }
      ExaminationKeys(cfg, table, mobile, p, o, msg, r, env, canResume);
      var ok := AdoptAndCheck(p, o, msg, r, env, canResume);
      if !ok || !r.attached {
        return false;
      }
      Vetting(cfg, Entry(clock, p, Moved, msg, table[p].auth));
      Note(p, Moved, msg);
      ghost var e := Examination(cfg, old(table), old(mobile), p, o, msg, r, env, canResume);
      ghost var m := Transferred(cfg, table, mobile, p, o, r);
      TransferredAuth(cfg, table, mobile, p, o, r);
      Transfer(p, o, r);
      AddUp(old(grants), e.took, m.took);
      AddUp(old(releases), e.gave, m.gave);
      return true;
    }

    lemma TicketOwner(m: nat)
      requires Valid() && m in mobile
      ensures mobile[m] in table && table[mobile[m]].mobileId == m
    {
    }

    // ---- requests ----

    /** The handlers, but for a refresh by ticket. */
    method Serve(p: Ptr, msg: Bytes, c: CommandEnv)
      requires Valid() && p in table && IsRequest(msg) && LetIn(p, msg, Exempt(Method(msg), c))
      modifies `table, `mobile, `grants, `bpsOut, `bpsBack, `renamed, `ran
      ensures ran == old(ran) + if Method(msg) in GUARDED then [handled[|handled| - 1]] else []
      ensures Valid() && renamed == old(renamed)
      ensures mobile == if Method(msg) == ALLOCATE
                        then AllocateTickets(old(table)[p], c.mobility, c.alloc, old(mobile)) else old(mobile)
      ensures var s := if Method(msg) == ALLOCATE then Allocated(cfg, old(table)[p], c.mobility, c.alloc)
                       else old(table)[p];
              table == old(table)[p := s] && grants == old(grants) + Taken(old(table)[p], s)
      ensures bpsOut == old(bpsOut) + if Method(msg) == ALLOCATE
                                      then AllocateLends(cfg, old(table)[p], c.mobility, c.alloc) else 0
      ensures bpsBack == old(bpsBack)
    {
      hide Valid, Allocated, AllocateLends;
      assert table[p := table[p]] == table;
      if Method(msg) == ALLOCATE {
        var _ := Allocate(p, msg, c.mobility, c.alloc);
      } else if Method(msg) in {CREATE_PERMISSION, CHANNEL_BIND, CONNECT} {
        OnAllocation(p, msg);
      }
    }

    /** A refresh by ticket: the gate lets it through unchecked, and its handler checks it. */
    method TicketCommand(p: Ptr, msg: Bytes, c: CommandEnv, canResume: bool) returns (pass: bool)
      requires Valid() && p in table && Draws(cfg.id, mobile, c.refresh.draws) && IsRequest(msg) &&
               ByTicket(Method(msg), c)
      modifies `table, `mobile, `releases, `grants, `vouched, `renamed, `handled
      ensures Valid()
      ensures var out := AfterCommand(cfg, old(table), old(mobile), p, msg, c, canResume);
              && table == out.table && mobile == out.mobile
              && grants == old(grants) + out.took && releases == old(releases) + out.gave
              && out.lent == out.back == 0
      ensures handled == old(handled) + Entries(cfg, clock, old(table), old(mobile), p, msg, c, canResume)
      ensures pass <==> Entries(cfg, clock, old(table), old(mobile), p, msg, c, canResume) != []
      ensures renamed <==> old(renamed) || CommandRenames(cfg, old(table), old(mobile), p, msg, c, canResume)
    {
      hide Valid, Draws, Passes, SessionSteps.Gated, GateRenames, RefreshRenames, Moves, Target, Blocked, IsRequest,
           Refreshed, AfterCommand, Entries, CommandRenames;
      TicketHandled(cfg, clock, table, mobile, p, msg, c, canResume);
      TicketGate(cfg, table[p], msg, c, canResume);
      assert table[p := table[p]] == table;
      pass := Gate(p, msg, c, canResume);
      if pass {
        assert table == old(table);
        var _ := MobileRefresh(p, msg, c.refresh, c.auth, canResume);
      }
    }

    /** Any other request: checked by the gate unless exempt, then handled. */
    method PlainCommand(p: Ptr, msg: Bytes, c: CommandEnv, canResume: bool) returns (pass: bool)
      requires Valid() && p in table && IsRequest(msg) && !ByTicket(Method(msg), c)
      modifies `table, `mobile, `grants, `bpsOut, `bpsBack, `vouched, `renamed, `handled, `ran
      ensures Valid()
      ensures var out := AfterCommand(cfg, old(table), old(mobile), p, msg, c, canResume);
              && table == out.table && mobile == out.mobile
              && grants == old(grants) + out.took && out.gave == multiset{}
              && bpsOut == old(bpsOut) + out.lent && bpsBack == old(bpsBack) + out.back
      ensures handled == old(handled) + Entries(cfg, clock, old(table), old(mobile), p, msg, c, canResume)
      ensures pass <==> Entries(cfg, clock, old(table), old(mobile), p, msg, c, canResume) != []
      ensures renamed <==> old(renamed) || CommandRenames(cfg, old(table), old(mobile), p, msg, c, canResume)
      ensures ran == old(ran) + if Method(msg) in GUARDED then handled[|old(handled)|..] else []
    {
      hide Valid, Passes, SessionSteps.Gated, GateRenames, IsRequest, Allocated, AllocateTickets, Exempt, AfterCommand,
           Entries, CommandRenames;
      PlainHandled(cfg, clock, table, mobile, p, msg, c, canResume);
      pass := Gate(p, msg, c, canResume);
      if pass {
        Serve(p, msg, c);
      }
    }

    /**
     handle_turn_command: a request that passes the gate goes to its handler; nothing else happens
     here.  True when it did, so that the handlers of peer requests may act on the allocation.
     */
    method HandleCommand(p: Ptr, msg: Bytes, c: CommandEnv, canResume: bool) returns (pass: bool)
      requires Valid() && p in table && Draws(cfg.id, mobile, c.refresh.draws)
      modifies `table, `mobile, `releases, `grants, `bpsOut, `bpsBack, `vouched, `renamed, `handled, `ran
      ensures Valid()
      ensures var out := AfterCommand(cfg, old(table), old(mobile), p, msg, c, canResume);
              && table == out.table && mobile == out.mobile
              && grants == old(grants) + out.took && releases == old(releases) + out.gave
              && bpsOut == old(bpsOut) + out.lent && bpsBack == old(bpsBack) + out.back
      ensures handled == old(handled) + Entries(cfg, clock, old(table), old(mobile), p, msg, c, canResume)
      ensures pass <==> Entries(cfg, clock, old(table), old(mobile), p, msg, c, canResume) != []
      ensures renamed <==> old(renamed) || CommandRenames(cfg, old(table), old(mobile), p, msg, c, canResume)
      ensures ran == old(ran) + if IsRequest(msg) && Method(msg) in GUARDED then handled[|old(handled)|..] else []
    {
      hide Valid, Draws, Entries, CommandRenames, AfterCommand, IsRequest;
      if !IsRequest(msg) {
        NotRequest(cfg, clock, table, mobile, p, msg, c, canResume);
        return false;
      }
      if ByTicket(Method(msg), c) {
        pass := TicketCommand(p, msg, c, canResume);
      } else {
        pass := PlainCommand(p, msg, c, canResume);
      }
    }

    /** The unit goes back in the old realm before a new one is asked for in the new realm. */
    method ChangeRealm(p: Ptr, realm: Bytes, answer: bool)
      requires Valid() && p in table
      modifies `table, `releases, `grants, `renamed
      ensures Valid() && renamed == old(renamed)
      ensures var s := old(table)[p].(quotaUsed := false, auth := old(table)[p].auth.(realm := realm));
              && table == old(table)[p := Inc(cfg, s, s.auth.username, answer)]
              && grants == old(grants) + Units(table[p]) && releases == old(releases) + Units(old(table)[p])
    {
      hide Valid, PinnedOne, Inc, Units, Taken;
      CopiedStages(cfg, table[p], table[p].auth.(realm := realm), answer);
      DecQuota(p);
      Store(p, table[p].(auth := table[p].auth.(realm := realm)));
      var _ := IncQuota(p, table[p].auth.username, answer);
    }

    /** The session takes the key; a new realm means giving the unit back and asking again in that realm. */
    method LearnKey(p: Ptr, k: KeyAnswer)
      requires Valid() && p in table && k.success
      modifies `table, `releases, `grants, `renamed
      ensures Valid()
      ensures var out := Learning(cfg, old(table), old(mobile), p, k);
              table == out.table && grants == old(grants) + out.took && releases == old(releases) + out.gave
      ensures renamed <==> old(renamed) || (old(table)[p].quotaUsed && k.oauth != old(table)[p].auth.oauth)
    {
      hide Valid, PinnedOne, Inc, Units, Learned, Keyed;
      var moves := ChangesRealm(table[p], k);
      LearnedStages(cfg, table[p], k);
      Store(p, Keyed(table[p], k));
      if moves {
        ChangeRealm(p, cfg.realmNamed(k.realm), k.answer);
      }
    }

    /** The answer of a lookup that found no key changes nothing. */
    method Learn(p: Ptr, k: KeyAnswer)
      requires Valid() && p in table
      modifies `table, `releases, `grants, `renamed
      ensures Valid()
      ensures var out := Learning(cfg, old(table), old(mobile), p, k);
              table == out.table && grants == old(grants) + out.took && releases == old(releases) + out.gave
      ensures renamed <==> old(renamed) || (k.success && old(table)[p].quotaUsed && k.oauth != old(table)[p].auth.oauth)
    {
      hide Valid, Units;
      assert table[p := table[p]] == table;
      if k.success {
        LearnKey(p, k);
      }
    }

    /** The answer, and the message again behind the same gate. */
    method Answer(p: Ptr, k: KeyAnswer, msg: Bytes, c: CommandEnv) returns (pass: bool)
      requires Valid() && p in table && Draws(cfg.id, mobile, c.refresh.draws)
      modifies `table, `mobile, `releases, `grants, `bpsOut, `bpsBack, `vouched, `renamed, `handled, `ran
      ensures Valid()
      ensures var out := AfterAnswer(cfg, old(table), old(mobile), p, k, msg, c);
              && table == out.table && mobile == out.mobile
              && grants == old(grants) + out.took && releases == old(releases) + out.gave
              && bpsOut == old(bpsOut) + out.lent && bpsBack == old(bpsBack) + out.back
      ensures var t := old(table)[p := Learned(cfg, old(table)[p], k)];
              && handled == old(handled) + Entries(cfg, clock, t, old(mobile), p, msg, c, false)
              && (pass <==> Entries(cfg, clock, t, old(mobile), p, msg, c, false) != [])
      ensures renamed <==> old(renamed) || AnswerRenames(cfg, old(table), old(mobile), p, k, msg, c)
      ensures ran == old(ran) + if IsRequest(msg) && Method(msg) in GUARDED then handled[|old(handled)|..] else []
    {
      hide Valid, Draws, Entries, CommandRenames, AfterCommand, IsRequest, Learned, Learning;
      LearningTable(cfg, table, mobile, p, k);
      ghost var l := Learning(cfg, table, mobile, p, k);
      ghost var out := AfterCommand(cfg, l.table, mobile, p, msg, c, false);
      Learn(p, k);
      pass := HandleCommand(p, msg, c, false);
      AddUp(old(grants), l.took, out.took);
      AddUp(old(releases), l.gave, out.gave);
    }

    /**
     resume_processing_after_username_check: the answer to a key lookup, for the session with
     the given id if it is still there.
     */
    method Resume(id: nat, k: KeyAnswer, msg: Bytes, c: CommandEnv) returns (pass: bool)
      requires Valid() && Draws(cfg.id, mobile, c.refresh.draws)
      modifies `table, `mobile, `releases, `grants, `bpsOut, `bpsBack, `vouched, `renamed, `handled, `ran
      ensures Valid()
      ensures id in sessions ==> sessions[id] in old(table)
      ensures id !in sessions ==>
                && table == old(table) && mobile == old(mobile) && grants == old(grants) && releases == old(releases)
                && bpsOut == old(bpsOut) && bpsBack == old(bpsBack)
                && handled == old(handled) && renamed == old(renamed) && ran == old(ran) && !pass
      ensures id in sessions ==>
                var p := sessions[id];
                var out := AfterAnswer(cfg, old(table), old(mobile), p, k, msg, c);
                && table == out.table && mobile == out.mobile
                && grants == old(grants) + out.took && releases == old(releases) + out.gave
                && bpsOut == old(bpsOut) + out.lent && bpsBack == old(bpsBack) + out.back
                && (var t := old(table)[p := Learned(cfg, old(table)[p], k)];
                    && handled == old(handled) + Entries(cfg, clock, t, old(mobile), p, msg, c, false)
                    && (pass <==> Entries(cfg, clock, t, old(mobile), p, msg, c, false) != []))
                && (renamed <==> old(renamed) || AnswerRenames(cfg, old(table), old(mobile), p, k, msg, c))
      ensures ran == old(ran) + if IsRequest(msg) && Method(msg) in GUARDED then handled[|old(handled)|..] else []
    {
      hide Valid, Draws, Entries, AnswerRenames, AfterAnswer, IsRequest, Learned;
      if id !in sessions {
        return false;
      }
      SessionOwner(id);
      pass := Answer(sessions[id], k, msg, c);
    }

    lemma SessionOwner(id: nat)
      requires Valid() && id in sessions
      ensures sessions[id] in table
    {
    }

    /**
     turnserver_accept_tcp_client_data_connection: a data connection joins p's session only for a
     message that passes.
     */
    method AcceptData(p: Ptr, msg: Bytes, env: Env, canResume: bool) returns (ok: bool)
      requires Valid() && p in table
      modifies `table, `renamed, `handled
      ensures Valid()
      ensures var s := old(table)[p];
              table == old(table)[p := s.(auth := Checked(cfg, s.auth, msg, CONNECTION_BIND, env, canResume))]
      ensures ok <==> !cfg.longTerm || Credible(cfg, old(table)[p].auth, msg, CONNECTION_BIND, env)
      ensures handled == old(handled) + JoinEntries(cfg, clock, old(table)[p], p, msg, env, canResume)
      ensures renamed <==> old(renamed) || CheckRenames(cfg, old(table)[p], msg, CONNECTION_BIND, env, canResume)
    {
      hide Valid, Verified, Credible, Checked, CheckRenames, Vetted;
      var v := CheckSession(p, msg, CONNECTION_BIND, env, canResume);
      if v.err != 0 || v.postponed {
        return false;
      }
      Vetting(cfg, Entry(clock, p, Joined, msg, table[p].auth));
      Note(p, Joined, msg);
      return true;
    }
  }
}
