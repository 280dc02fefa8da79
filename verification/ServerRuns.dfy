/**
 Whole runs of a relay server.  Run performs any sequence of events and says what holds at
 its end; the lemmas before it say what the trace of a run tells about the messages let in
 and the origins pinned.
 */
module ServerRuns {
  import opened Basics
  import opened Crc32
  import opened StunBytes
  import opened StunBuild
  import opened Sessions
  import opened Authentication
  import opened SessionSteps
  import opened Outcomes
  import opened ServerEvents
  import opened NameBooks
  import opened Servers

  ghost function Look(s: Server): World
    reads s
  {
    World(s.counter, s.table, s.sessions, s.mobile, s.grants, s.releases, s.bpsOut, s.bpsBack, s.handled,
          s.ran, s.renamed)
  }

  // ---- one event ----

  method HappenCommand(s: Server, p: Ptr, msg: Bytes, c: CommandEnv) returns (pass: bool)
    requires s.Valid() && p in s.table && Draws(s.cfg.id, s.mobile, c.refresh.draws)
    modifies s
    ensures s.Valid() && s.clock == old(s.clock)
    ensures Stepped(s.cfg, s.clock, old(Look(s)), Command(p, msg, c), Look(s))
    ensures pass <==> EventEntries(s.cfg, s.clock, old(Look(s)), Command(p, msg, c)) != []
  {
    hide Server.Valid, Draws, Entries, CommandRenames, AfterCommand, IsRequest;
    pass := s.HandleCommand(p, msg, c, true);
  }

  method HappenAnswer(s: Server, id: nat, k: KeyAnswer, msg: Bytes, c: CommandEnv) returns (pass: bool)
    requires s.Valid() && id in s.sessions && s.sessions[id] in s.table && Draws(s.cfg.id, s.mobile, c.refresh.draws)
    modifies s
    ensures s.Valid() && s.clock == old(s.clock)
    ensures Stepped(s.cfg, s.clock, old(Look(s)), KeyFound(id, k, msg, c), Look(s))
    ensures pass <==> EventEntries(s.cfg, s.clock, old(Look(s)), KeyFound(id, k, msg, c)) != []
  {
    hide Server.Valid, Draws, Entries, AnswerRenames, AfterAnswer, IsRequest, Learned;
    pass := s.Resume(id, k, msg, c);
  }

  method HappenNew(s: Server, p: Ptr, realm: Bytes, mobility: bool, draws: seq<nat>)
    requires s.Valid() && p !in s.table && Draws(s.cfg.id, s.mobile, draws)
    modifies s
    ensures s.Valid() && s.clock == old(s.clock)
    ensures Stepped(s.cfg, s.clock, old(Look(s)), New(p, realm, mobility, draws), Look(s))
  {
    hide Server.Valid, Draws, Drawn;
    s.Create(p, realm, mobility, draws);
  }

  method HappenData(s: Server, p: Ptr, msg: Bytes, env: Env, canResume: bool)
    requires s.Valid() && p in s.table
    modifies s
    ensures s.Valid() && s.clock == old(s.clock)
    ensures Stepped(s.cfg, s.clock, old(Look(s)), Data(p, msg, env, canResume), Look(s))
  {
    hide Server.Valid, JoinEntries, CheckRenames, Checked, Credible, Draws;
    var _ := s.AcceptData(p, msg, env, canResume);
  }

  method HappenClose(s: Server, p: Ptr, force: bool, allocValid: bool)
    requires s.Valid() && p in s.table
    modifies s
    ensures s.Valid() && s.clock == old(s.clock)
    ensures Stepped(s.cfg, s.clock, old(Look(s)), Close(p, force, allocValid), Look(s))
  {
    hide Server.Valid, Draws, Drawn, AfterCommand, AfterAnswer, Checked, Entries, JoinEntries, Units;
    s.Shutdown(p, force, allocValid);
  }

  lemma NothingHappens(cfg: Config, i: nat, x: World, e: Event)
    requires !Occurs(cfg, x, e)
    ensures Stepped(cfg, i, x, e, x)
  {
  }

  /** The event's message is a request that goes to its handler. */
  predicate Passed(cfg: Config, i: nat, x: World, e: Event) {
    (e.Command? || e.KeyFound?) && Occurs(cfg, x, e) && EventEntries(cfg, i, x, e) != []
  }

  method Happen(s: Server, e: Event) returns (pass: bool)
    requires s.Valid()
    modifies s
    ensures s.Valid() && s.clock == old(s.clock) + 1
    ensures Stepped(s.cfg, old(s.clock), old(Look(s)), e, Look(s))
    ensures pass <==> Passed(s.cfg, old(s.clock), old(Look(s)), e)
  {
    hide Server.Valid, Draws, Stepped, EventEntries;
    pass := false;
    if !Occurs(s.cfg, Look(s), e) {
      NothingHappens(s.cfg, s.clock, Look(s), e);
    }
    match e {
      case New(p, realm, mobility, draws) =>
        if p !in s.table && Draws(s.cfg.id, s.mobile, draws) {
          HappenNew(s, p, realm, mobility, draws);
        }
      case Command(p, msg, c) =>
        if p in s.table && Draws(s.cfg.id, s.mobile, c.refresh.draws) {
          pass := HappenCommand(s, p, msg, c);
        }
      case KeyFound(id, k, msg, c) =>
        if id in s.sessions && Draws(s.cfg.id, s.mobile, c.refresh.draws) {
          s.SessionOwner(id);
          pass := HappenAnswer(s, id, k, msg, c);
        }
      case Data(p, msg, env, canResume) =>
        if p in s.table {
          HappenData(s, p, msg, env, canResume);
        }
      case Close(p, force, allocValid) =>
        if p in s.table {
          HappenClose(s, p, force, allocValid);
        }
    }
    Tick(s);
  }

  ghost method Tick(s: Server)
    requires s.Valid()
    modifies s`clock
    ensures s.Valid() && s.clock == old(s.clock) + 1
  {
    s.clock := s.clock + 1;
  }

  // ---- what was let in ----

  /** The key of the session before its message is looked at: its own, or the one that has just been found. */
  function OwnKey(x: World, e: Event, p: Ptr): Bytes
    requires p in x.table
  {
    if e.KeyFound? && e.k.success then e.k.key else x.table[p].auth.key
  }

  /** The clock and the nonce drawn when a message is looked at. */
  function EnvOf(e: Event): Env
    requires e.Command? || e.KeyFound? || e.Data?
  {
    if e.Data? then e.env else e.c.auth
  }

  /** The key of the session that the ticket leads to. */
  predicate TicketKey(x: World, p: Ptr, r: RefreshEnv, key: Bytes) {
    var o := Target(x.table, x.mobile, p, r);
    o.Some? && key == x.table[o.value].auth.key
  }

  /**
   The entry is for the event's message and session.  Its nonce is the session's current one; its
   key is the session's own, or for a transfer that of the session the ticket leads to.
   */
  ghost predicate OfEvent(cfg: Config, x: World, e: Event, h: Handled) {
    && (e.Command? || e.KeyFound? || e.Data?) && h.msg == e.msg
    && h.p in x.table && (if e.KeyFound? then e.id in x.sessions && h.p == x.sessions[e.id] else h.p == e.p)
    && (h.kind.Moved? || h.key == OwnKey(x, e, h.p))
    && (h.kind.Moved? ==> !e.Data? && (h.key == OwnKey(x, e, h.p) || TicketKey(x, h.p, e.c.refresh, h.key)))
    && (cfg.longTerm && (h.kind == Dispatched(false) || h.kind.Joined?) ==>
          h.nonce == NonceNow(cfg, x.table[h.p].auth, EnvOf(e)))
    && Vetted(cfg, h)
    && (cfg.longTerm && NeedsCredentials(e, h) ==> Verified(cfg, h.msg, h.nonce, h.key))
  }

  /** The entry is not for a request that the settings of its event leave free. */
  predicate NeedsCredentials(e: Event, h: Handled)
    requires e.Command? || e.KeyFound? || e.Data?
    requires h.kind.Dispatched? ==> IsRequest(h.msg)
  {
    !(h.kind.Dispatched? && !e.Data? && Free(Method(h.msg), e.c))
  }

  lemma JoinVetted(cfg: Config, i: nat, x: World, e: Event, h: Handled)
    requires Occurs(cfg, x, e) && e.Data? && h in EventEntries(cfg, i, x, e)
    ensures h.event == i && OfEvent(cfg, x, e, h)
  {
    hide Renames, Text, CheckIntegrity, RealmFits, UserFits, SameUser, Checked, Free, IsRequest;
    CheckedNames(cfg, x.table[e.p].auth, e.msg, CONNECTION_BIND, e.env, e.canResume);
  }

  lemma SameTarget(cfg: Config, x: World, id: nat, k: KeyAnswer, r: RefreshEnv)
    requires id in x.sessions && x.sessions[id] in x.table
    ensures var p := x.sessions[id];
            var t := LearnedTable(cfg, x, id, k);
            && Target(t, x.mobile, p, r) == Target(x.table, x.mobile, p, r)
            && t[p].auth.key == (if k.success then k.key else x.table[p].auth.key)
            && t[p].auth.nonce == x.table[p].auth.nonce && t[p].auth.nonceExpires == x.table[p].auth.nonceExpires
  {
  }

  lemma EntryOfEvent(cfg: Config, i: nat, x: World, e: Event, h: Handled)
    requires Occurs(cfg, x, e) && h in EventEntries(cfg, i, x, e)
    ensures h.event == i && OfEvent(cfg, x, e, h)
  {
    hide Entries, Vetted, Target, Learned, Draws, Occurs, Free, Admissible, IsRequest, Verified, HasKey;
    OccursIn(cfg, x, e);
    EntryIsRequest(cfg, h);
    match e {
      case Command(p, msg, c) =>
        EntriesVetted(cfg, i, x.table, x.mobile, p, msg, c, true, h);
      case KeyFound(id, k, msg, c) =>
        SameTarget(cfg, x, id, k, c.refresh);
        var p, t := x.sessions[id], LearnedTable(cfg, x, id, k);
        EntriesVetted(cfg, i, t, x.mobile, p, msg, c, false, h);
        assert NonceNow(cfg, t[p].auth, c.auth) == NonceNow(cfg, x.table[p].auth, c.auth);
        if h.kind.Moved? {
          var o := Target(x.table, x.mobile, p, c.refresh).value;
          assert t[o] == x.table[o];
        }
      case Data(_, _, _, _) =>
        JoinVetted(cfg, i, x, e, h);
    }
  }

  lemma EntryIsRequest(cfg: Config, h: Handled)
    ensures Vetted(cfg, h) && h.kind.Dispatched? ==> IsRequest(h.msg)
    ensures Vetted(cfg, h) && cfg.longTerm && !h.kind.Dispatched? ==> Verified(cfg, h.msg, h.nonce, h.key)
  {
  }

  lemma OccursIn(cfg: Config, x: World, e: Event)
    requires Occurs(cfg, x, e)
    ensures e.Command? || e.Data? ==> e.p in x.table
    ensures e.KeyFound? ==> e.id in x.sessions && x.sessions[e.id] in x.table
  {
  }

  /** Every message let in during a run was let in by one of its events, for that event's session and under its key. */
  lemma {:induction false} LetInBy(cfg: Config, trace: seq<World>, events: seq<Event>, h: Handled)
    requires IsRun(cfg, trace, events) && h in trace[|events|].handled
    ensures h.event < |events| && OfEvent(cfg, trace[h.event], events[h.event], h)
    decreases |events|
  {
    hide OfEvent, EventOutcome, EventSessions, EventRenames, EventEntries;
    var last := |events| - 1;
    assert Stepped(cfg, last, trace[last], events[last], trace[last + 1]);
    if h in trace[last].handled {
      LetInBy(cfg, trace[..last + 1], events[..last], h);
    } else {
      EntryOfEvent(cfg, last, trace[last], events[last], h);
    }
  }

  /** The guarded handlers that ran did so for messages let in past the check. */
  lemma {:induction false} RanWasLetIn(cfg: Config, trace: seq<World>, events: seq<Event>, h: Handled)
    requires IsRun(cfg, trace, events) && h in trace[|events|].ran
    ensures h in trace[|events|].handled && h.kind == Dispatched(false) && IsRequest(h.msg) && Method(h.msg) in GUARDED
    decreases |events|
  {
    hide EventOutcome, EventSessions, EventRenames, EventEntries, IsRequest;
    var last := |events| - 1;
    assert Stepped(cfg, last, trace[last], events[last], trace[last + 1]);
    if h in trace[last].ran {
      RanWasLetIn(cfg, trace[..last + 1], events[..last], h);
    } else {
      GuardedEntry(cfg, last, trace[last], events[last], h);
    }
  }

  lemma GuardedEntry(cfg: Config, i: nat, x: World, e: Event, h: Handled)
    requires Occurs(cfg, x, e) && ForGuarded(e) && h in EventEntries(cfg, i, x, e)
    ensures h.kind == Dispatched(false) && h.msg == e.msg
  {
    hide SessionSteps.Gated, Passes, Target, Moves, Learned;
  }

  /** The flag is up exactly when some event of the run renamed a holder. */
  lemma {:induction false} RenamedBy(cfg: Config, trace: seq<World>, events: seq<Event>)
    requires IsRun(cfg, trace, events)
    ensures trace[|events|].renamed <==>
            exists i :: 0 <= i < |events| && Occurs(cfg, trace[i], events[i]) && EventRenames(cfg, trace[i], events[i])
    decreases |events|
  {
    hide EventOutcome, EventSessions, EventEntries, Occurs, EventRenames;
    if events != [] {
      var last := |events| - 1;
      var before, start := trace[..last + 1], events[..last];
      RenamedBy(cfg, before, start);
      assert Stepped(cfg, last, trace[last], events[last], trace[last + 1]);
      if trace[last].renamed {
        var i :| 0 <= i < |start| && Occurs(cfg, before[i], start[i]) && EventRenames(cfg, before[i], start[i]);
        assert Occurs(cfg, trace[i], events[i]) && EventRenames(cfg, trace[i], events[i]);
      }
      forall i | 0 <= i < last && Occurs(cfg, trace[i], events[i]) && EventRenames(cfg, trace[i], events[i])
        ensures trace[last].renamed
      {
        assert Occurs(cfg, before[i], start[i]) && EventRenames(cfg, before[i], start[i]);
      }
    }
  }

  // ---- where keys come from ----

  /** The event is the answer to a lookup that found this key. */
  predicate Brings(cfg: Config, x: World, e: Event, key: Bytes) {
    e.KeyFound? && Occurs(cfg, x, e) && e.k.success && e.k.key == key
  }

  ghost predicate HoldsKey(t: Table, key: Bytes) {
    exists r :: r in t && HasKey(t[r].auth) && t[r].auth.key == key
  }

  lemma GateKey(cfg: Config, s: Session, msg: Bytes, c: CommandEnv, canResume: bool)
    ensures var a := Commanded(cfg, s, msg, c, canResume).auth; a.key == s.auth.key && (HasKey(a) ==> HasKey(s.auth))
  {
    hide Renames, Credible, Checked, IsRequest, Blocked, Passes;
    if IsRequest(msg) {
      var what := Method(msg);
      CheckedNames(cfg, Asked(s.auth, what, c), msg, what, c.auth, canResume);
      AllocatedTakes(cfg, s.(auth := SessionSteps.Gated(cfg, s.auth, msg, what, c, canResume)), c.mobility, c.alloc);
    }
  }

  lemma ExaminedKey(cfg: Config, s: Session, o: Session, r: RefreshEnv, msg: Bytes, env: Env, canResume: bool)
    ensures var a := Examined(cfg, s, o, r, msg, env, canResume).auth;
            HasKey(a) ==> (HasKey(s.auth) && a.key == s.auth.key) || (HasKey(o.auth) && a.key == o.auth.key)
  {
    hide Renames, Checked;
    CheckedNames(cfg, Adopted(cfg, s, o, r).auth, msg, REFRESH, env, canResume);
  }

  lemma SettledKey(cfg: Config, o: Session, from: Auth, m: nat, r: RefreshEnv)
    ensures var a := Settled(cfg, Handed(cfg, o, from, r.answers.1), m, r.answers.2, r.mid).auth;
            if from.keySet then a == from else a.key == o.auth.key && (HasKey(a) <==> HasKey(o.auth))
  {
  }

  /** A refresh by ticket makes no key. */
  lemma RefreshKeys(cfg: Config, t: Table, mobile: map<nat, Ptr>, p: Ptr, msg: Bytes, r: RefreshEnv, env: Env,
                    canResume: bool, q: Ptr)
    requires p in t
    requires var t' := Refreshed(cfg, t, mobile, p, msg, r, env, canResume).table; q in t' && HasKey(t'[q].auth)
    ensures HoldsKey(t, Refreshed(cfg, t, mobile, p, msg, r, env, canResume).table[q].auth.key)
  {
    hide Target, Moves, Examination, Transferred, HasKey, HoldsKey;
    var o := Target(t, mobile, p, r);
    var t' := Refreshed(cfg, t, mobile, p, msg, r, env, canResume).table;
    if o.None? {
      Holds(t, q);
    } else {
      var e := Examination(cfg, t, mobile, p, o.value, msg, r, env, canResume);
      ExaminationKeys(cfg, t, mobile, p, o.value, msg, r, env, canResume);
      if Moves(cfg, t[p], t[o.value], r, msg, env) {
        TransferKeys(cfg, e.table, mobile, p, o.value, r, q);
      } else {
        Holds(t', q);
      }
      ExaminationMakesNone(cfg, t, mobile, p, o.value, msg, r, env, canResume, t'[q].auth.key);
    }
  }

  lemma Holds(t: Table, q: Ptr)
    requires q in t && HasKey(t[q].auth)
    ensures HoldsKey(t, t[q].auth.key)
  {
  }

  lemma ExaminationMakesNone(cfg: Config, t: Table, mobile: map<nat, Ptr>, p: Ptr, o: Ptr, msg: Bytes, r: RefreshEnv,
                             env: Env, canResume: bool, key: Bytes)
    requires p in t && o in t && HoldsKey(Examination(cfg, t, mobile, p, o, msg, r, env, canResume).table, key)
    ensures HoldsKey(t, key)
  {
    hide Examined, Units, Adopted, HasKey;
    ExaminedKey(cfg, t[p], t[o], r, msg, env, canResume);
    var t' := Examination(cfg, t, mobile, p, o, msg, r, env, canResume).table;
    var q :| q in t' && HasKey(t'[q].auth) && t'[q].auth.key == key;
    if q != p {
      assert t'[q] == t[q];
    }
  }

  lemma TransferKeys(cfg: Config, t: Table, mobile: map<nat, Ptr>, p: Ptr, o: Ptr, r: RefreshEnv, q: Ptr)
    requires p in t && o in t && p != o
    requires var t' := Transferred(cfg, t, mobile, p, o, r).table; q in t' && HasKey(t'[q].auth)
    ensures HoldsKey(t, Transferred(cfg, t, mobile, p, o, r).table[q].auth.key)
  {
    hide Drawn, Settled, Handed, Units, Taken, Fewer, HasKey;
    SettledKey(cfg, t[o], t[p].auth, Drawn(cfg.id, Fewer(mobile, t[p], t[o]), r.draws), r);
    KeyKept(t[p].auth);
  }

  lemma KeyKept(a: Auth)
    ensures a.keySet ==> HasKey(a)
  {
  }

  lemma CommandKeys(cfg: Config, t: Table, mobile: map<nat, Ptr>, p: Ptr, msg: Bytes, c: CommandEnv, canResume: bool,
                    q: Ptr)
    requires p in t
    requires var t' := AfterCommand(cfg, t, mobile, p, msg, c, canResume).table; q in t' && HasKey(t'[q].auth)
    ensures HoldsKey(t, AfterCommand(cfg, t, mobile, p, msg, c, canResume).table[q].auth.key)
  {
    hide Commanded, IsRequest, Refreshed, Target, CommandTickets, CommandLends, Blocked;
    if UsesTicket(msg, c) {
      if !Blocked(REFRESH, c, t[p].auth.originSet) {
        RefreshKeys(cfg, t, mobile, p, msg, c.refresh, c.auth, canResume, q);
      }
    } else {
      GateKey(cfg, t[p], msg, c, canResume);
    }
  }

  lemma LearnedKeys(cfg: Config, x: World, e: Event, key: Bytes)
    requires e.KeyFound? && Occurs(cfg, x, e) && HoldsKey(LearnedTable(cfg, x, e.id, e.k), key)
    ensures Brings(cfg, x, e, key) || HoldsKey(x.table, key)
  {
    hide Draws;
    var t, p := LearnedTable(cfg, x, e.id, e.k), x.sessions[e.id];
    var r :| r in t && HasKey(t[r].auth) && t[r].auth.key == key;
    if e.k.success {
      LearnedMeans(cfg, x.table[p], e.k);
    }
  }

  /** A session has a key after an event only if one had it before, or the event brought it. */
  lemma KeyStep(cfg: Config, i: nat, x: World, e: Event, q: Ptr)
    requires Occurs(cfg, x, e)
    requires var y := After(cfg, i, x, e); q in y.table && HasKey(y.table[q].auth)
    ensures var key := After(cfg, i, x, e).table[q].auth.key; Brings(cfg, x, e, key) || HoldsKey(x.table, key)
  {
    hide EventEntries, EventRenames, Checked, Draws, Drawn, AfterCommand, IsRequest, Renames, Learned, Units;
    match e {
      case Command(p, msg, c) => CommandKeys(cfg, x.table, x.mobile, p, msg, c, true, q);
      case KeyFound(id, k, msg, c) =>
        var t, p := LearnedTable(cfg, x, id, k), x.sessions[id];
        CommandKeys(cfg, t, x.mobile, p, msg, c, false, q);
        LearnedKeys(cfg, x, e, After(cfg, i, x, e).table[q].auth.key);
      case Data(p, msg, env, canResume) => CheckedNames(cfg, x.table[p].auth, msg, CONNECTION_BIND, env, canResume);
      case _ =>
    }
  }

  /** One of the first n events of the run brought this key. */
  ghost predicate Brought(cfg: Config, trace: seq<World>, events: seq<Event>, n: nat, key: Bytes)
    requires |trace| == |events| + 1 && n <= |events|
  {
    exists i :: 0 <= i < n && Brings(cfg, trace[i], events[i], key)
  }

  /** Every key that a session of a run has was found by a lookup of that run. */
  lemma {:induction false} KeysFound(cfg: Config, trace: seq<World>, events: seq<Event>, n: nat, key: Bytes)
    requires IsRun(cfg, trace, events) && n <= |events| && HoldsKey(trace[n].table, key)
    ensures Brought(cfg, trace, events, n, key)
    decreases n
  {
    hide Brings, HasKey, After, Occurs;
    var q :| q in trace[n].table && HasKey(trace[n].table[q].auth) && trace[n].table[q].auth.key == key;
    assert trace[0].table == map[];
    var x, e := trace[n - 1], events[n - 1];
    assert Stepped(cfg, n - 1, x, e, trace[n]);
    if Occurs(cfg, x, e) {
      KeyStep(cfg, n - 1, x, e, q);
    }
    if !Brings(cfg, x, e, key) {
      KeysFound(cfg, trace, events, n - 1, key);
    }
  }

  /** A message let in for its credentials carries an HMAC under a key that some session had, or that has just come. */
  lemma EntryKey(cfg: Config, i: nat, x: World, e: Event, h: Handled)
    requires Occurs(cfg, x, e) && h in EventEntries(cfg, i, x, e) && cfg.longTerm
    requires (e.Command? || e.KeyFound? || e.Data?) && (h.kind.Dispatched? ==> IsRequest(h.msg)) &&
             NeedsCredentials(e, h)
    ensures Brings(cfg, x, e, h.key) || HoldsKey(x.table, h.key)
  {
    hide Entries, Vetted, Target, Learned, Draws, Free, Admissible, IsRequest, Verified, HasKey, NonceNow, Checked;
    match e {
      case Command(p, msg, c) =>
        EntriesVetted(cfg, i, x.table, x.mobile, p, msg, c, true, h);
        KeyOfTarget(x.table, x.mobile, p, c.refresh);
      case KeyFound(id, k, msg, c) =>
        var t, p := LearnedTable(cfg, x, id, k), x.sessions[id];
        EntriesVetted(cfg, i, t, x.mobile, p, msg, c, false, h);
        KeyOfTarget(t, x.mobile, p, c.refresh);
        LearnedKeys(cfg, x, e, h.key);
      case Data(p, msg, env, canResume) =>
        CheckedNames(cfg, x.table[p].auth, msg, CONNECTION_BIND, env, canResume);
        CredibleKey(cfg, x.table[p].auth, msg, CONNECTION_BIND, env);
    }
  }

  lemma KindOfEvent(cfg: Config, x: World, e: Event, h: Handled)
    requires OfEvent(cfg, x, e, h)
    ensures (e.Command? || e.KeyFound? || e.Data?) && Vetted(cfg, h)
  {
    hide Vetted;
  }

  lemma CredibleKey(cfg: Config, a: Auth, msg: Bytes, what: nat, env: Env)
    ensures Credible(cfg, a, msg, what, env) ==> HasKey(a)
  {
  }

  lemma KeyOfTarget(t: Table, mobile: map<nat, Ptr>, p: Ptr, r: RefreshEnv)
    requires p in t
    ensures var o := Target(t, mobile, p, r);
            && (HasKey(t[p].auth) ==> HoldsKey(t, t[p].auth.key)) && (t[p].auth.keySet ==> HasKey(t[p].auth))
            && (o.Some? && HasKey(t[o.value].auth) ==> HoldsKey(t, t[o.value].auth.key))
  {
    hide Target;
  }

  /** Whatever was let in for its credentials was signed with a key that a lookup of the run had found by then. */
  lemma KeyWasFound(cfg: Config, trace: seq<World>, events: seq<Event>, h: Handled)
    requires IsRun(cfg, trace, events) && h in trace[|events|].handled && cfg.longTerm
    requires h.event < |events| && OfEvent(cfg, trace[h.event], events[h.event], h) &&
             NeedsCredentials(events[h.event], h)
    ensures Brought(cfg, trace, events, h.event + 1, h.key)
  {
    hide Brings, After, OfEvent, NeedsCredentials, HoldsKey, EventEntries, Occurs;
    EntryAt(cfg, trace, events, h);
    EntryIsRequest(cfg, h);
    KindOfEvent(cfg, trace[h.event], events[h.event], h);
    EntryKey(cfg, h.event, trace[h.event], events[h.event], h);
    if !Brings(cfg, trace[h.event], events[h.event], h.key) {
      KeysFound(cfg, trace, events, h.event, h.key);
    }
  }

  /** An entry of the log is among those that its event adds. */
  lemma {:induction false} EntryAt(cfg: Config, trace: seq<World>, events: seq<Event>, h: Handled)
    requires IsRun(cfg, trace, events) && h in trace[|events|].handled
    ensures h.event < |events| && Occurs(cfg, trace[h.event], events[h.event])
    ensures h in EventEntries(cfg, h.event, trace[h.event], events[h.event])
    decreases |events|
  {
    hide OfEvent, EventOutcome, EventSessions, EventRenames, EventEntries, Occurs;
    var last := |events| - 1;
    assert Stepped(cfg, last, trace[last], events[last], trace[last + 1]);
    if h in trace[last].handled {
      EntryAt(cfg, trace[..last + 1], events[..last], h);
    } else {
      EntryOfEvent(cfg, last, trace[last], events[last], h);
    }
  }

  /**
   The message was let in by an event of the run, for its session, with its nonce and key; unless the
   settings leave it free, in long-term mode it is signed with a key that a lookup had found by then.
   */
  ghost predicate RightlyIn(cfg: Config, trace: seq<World>, events: seq<Event>, h: Handled)
    requires |trace| == |events| + 1
  {
    && h.event < |events| && OfEvent(cfg, trace[h.event], events[h.event], h)
    && (cfg.longTerm && NeedsCredentials(events[h.event], h) ==>
          Verified(cfg, h.msg, h.nonce, h.key) && Brought(cfg, trace, events, h.event + 1, h.key))
  }

  lemma LetInRightly(cfg: Config, trace: seq<World>, events: seq<Event>, h: Handled)
    requires IsRun(cfg, trace, events) && h in trace[|events|].handled
    ensures RightlyIn(cfg, trace, events, h)
  {
    hide IsRun, Brought, Verified, Free;
    LetInBy(cfg, trace, events, h);
    if cfg.longTerm && NeedsCredentials(events[h.event], h) {
      KeyWasFound(cfg, trace, events, h);
    }
  }

  // ---- pinned origins ----

  ghost predicate IsPinned(x: World, q: Ptr) {
    q in x.table && x.table[q].auth.originSet
  }

  /** The session an event's message is for. */
  function Requester(x: World, e: Event): Ptr
    requires e.Command? || (e.KeyFound? && e.id in x.sessions)
  {
    if e.Command? then e.p else x.sessions[e.id]
  }

  /** A refresh by ticket copies a pinned origin from one of its two sessions to the other, which is q. */
  ghost predicate CopiesTo(x: World, p: Ptr, r: RefreshEnv, q: Ptr)
  {
    var o := Target(x.table, x.mobile, p, r);
    o.Some? && ((q == p && IsPinned(x, o.value)) || (q == o.value && IsPinned(x, p)))
  }

  /** The event pins the origin of q by a verified Allocate for q, or copies it between a ticket's two sessions. */
  ghost predicate PinsRightly(cfg: Config, i: nat, x: World, e: Event, q: Ptr)
    requires Occurs(cfg, x, e)
  {
    || (exists h :: h in EventEntries(cfg, i, x, e) && h.p == q && Vouches(cfg, h))
    || ((e.Command? || e.KeyFound?) && UsesTicket(e.msg, e.c) && CopiesTo(x, Requester(x, e), e.c.refresh, q))
  }

  /** A refresh by ticket pins only one of its two sessions, and only if the other was pinned. */
  lemma RefreshPins(cfg: Config, t: Table, mobile: map<nat, Ptr>, p: Ptr, msg: Bytes, r: RefreshEnv, env: Env,
                    canResume: bool, q: Ptr)
    requires p in t
    requires var t' := Refreshed(cfg, t, mobile, p, msg, r, env, canResume).table; q in t' && t'[q].auth.originSet
    requires !(q in t && t[q].auth.originSet)
    ensures var o := Target(t, mobile, p, r);
            o.Some? && ((q == p && t[o.value].auth.originSet) || (q == o.value && t[p].auth.originSet))
  {
    hide Checked, Renames, Target, Moves, Drawn, Adopted, Settled, Handed, Units, Taken, Examined, Fewer;
    var o := Target(t, mobile, p, r);
    if o.Some? {
      ExaminedOrigin(cfg, t[p], t[o.value], r, msg, env, canResume);
      var s := Examined(cfg, t[p], t[o.value], r, msg, env, canResume);
      var m := Drawn(cfg.id, Fewer(mobile, s, t[o.value]), r.draws);
      SettledOrigin(cfg, t[o.value], s.auth, m, r);
    }
  }

  lemma ExaminedOrigin(cfg: Config, s: Session, o: Session, r: RefreshEnv, msg: Bytes, env: Env, canResume: bool)
    ensures Examined(cfg, s, o, r, msg, env, canResume).auth.originSet ==
            if s.auth.keySet then s.auth.originSet else o.auth.originSet
  {
    hide Checked, Renames;
    CheckedNames(cfg, Adopted(cfg, s, o, r).auth, msg, REFRESH, env, canResume);
  }

  lemma SettledOrigin(cfg: Config, o: Session, from: Auth, m: nat, r: RefreshEnv)
    ensures Settled(cfg, Handed(cfg, o, from, r.answers.1), m, r.answers.2, r.mid).auth.originSet ==
            if from.keySet then from.originSet else o.auth.originSet
  {
  }

  lemma CommandPins(cfg: Config, i: nat, t: Table, mobile: map<nat, Ptr>, p: Ptr, msg: Bytes, c: CommandEnv,
                    canResume: bool, q: Ptr)
    requires p in t
    requires var t' := AfterCommand(cfg, t, mobile, p, msg, c, canResume).table; q in t' && t'[q].auth.originSet
    requires !(q in t && t[q].auth.originSet)
    ensures !UsesTicket(msg, c) ==>
              exists h :: h in Entries(cfg, i, t, mobile, p, msg, c, canResume) && h.p == q && Vouches(cfg, h)
    ensures UsesTicket(msg, c) ==>
              var o := Target(t, mobile, p, c.refresh);
              o.Some? && ((q == p && t[o.value].auth.originSet) || (q == o.value && t[p].auth.originSet))
  {
    hide Entries, Vouches, Commanded, IsRequest, Refreshed, Target, CommandTickets, Blocked;
    if UsesTicket(msg, c) {
      RefreshPins(cfg, t, mobile, p, msg, c.refresh, c.auth, canResume, q);
    } else {
      PinnedByAllocate(cfg, i, t, mobile, p, msg, c, canResume);
    }
  }

  lemma LearnedOrigin(cfg: Config, s: Session, k: KeyAnswer)
    ensures Learned(cfg, s, k).auth.originSet == s.auth.originSet
  {
  }

  lemma AnswerPins(cfg: Config, i: nat, x: World, e: Event, q: Ptr)
    requires e.KeyFound? && Occurs(cfg, x, e) && IsPinned(After(cfg, i, x, e), q) && !IsPinned(x, q)
    ensures PinsRightly(cfg, i, x, e, q)
  {
    hide Entries, Vouches, Draws, AfterCommand, IsRequest, Learned, AnswerRenames, Target;
    var t, p := LearnedTable(cfg, x, e.id, e.k), x.sessions[e.id];
    LearnedOrigin(cfg, x.table[p], e.k);
    SameTarget(cfg, x, e.id, e.k, e.c.refresh);
    CommandPins(cfg, i, t, x.mobile, p, e.msg, e.c, false, q);
  }

  /**
   An event pins the origin of a session only by a verified Allocate that it lets in for that very
   session, or, in a refresh by ticket, by copying it between the requester and the ticket's session.
   */
  lemma OriginStep(cfg: Config, i: nat, x: World, e: Event, y: World, q: Ptr)
    requires Stepped(cfg, i, x, e, y) && IsPinned(y, q) && !IsPinned(x, q)
    ensures Occurs(cfg, x, e) && PinsRightly(cfg, i, x, e, q)
  {
    hide EventEntries, EventRenames, Checked, Draws, Drawn, AfterCommand, AfterAnswer, IsRequest, Renames, PinsRightly;
    match e {
      case Command(_, _, _) => CommandEventPins(cfg, i, x, e, q);
      case KeyFound(_, _, _, _) => AnswerPins(cfg, i, x, e, q);
      case Data(p, msg, env, canResume) => CheckedNames(cfg, x.table[p].auth, msg, CONNECTION_BIND, env, canResume);
      case _ =>
    }
  }

  lemma CommandEventPins(cfg: Config, i: nat, x: World, e: Event, q: Ptr)
    requires e.Command? && Occurs(cfg, x, e) && IsPinned(After(cfg, i, x, e), q) && !IsPinned(x, q)
    ensures PinsRightly(cfg, i, x, e, q)
  {
    hide Entries, Vouches, Draws, AfterCommand, IsRequest, CommandRenames, Target;
    CommandPins(cfg, i, x.table, x.mobile, e.p, e.msg, e.c, true, q);
  }

  /** Event i of the run pinned the origin of q, which has been pinned ever since. */
  ghost predicate PinnedBy(cfg: Config, trace: seq<World>, events: seq<Event>, q: Ptr, i: nat)
    requires |trace| == |events| + 1
  {
    && i < |events| && Occurs(cfg, trace[i], events[i]) && !IsPinned(trace[i], q)
    && PinsRightly(cfg, i, trace[i], events[i], q)
    && forall j :: i < j <= |events| ==> IsPinned(trace[j], q)
  }

  /** Every pinned session has such an event. */
  lemma {:induction false} OriginOf(cfg: Config, trace: seq<World>, events: seq<Event>, q: Ptr) returns (i: nat)
    requires IsRun(cfg, trace, events) && IsPinned(trace[|events|], q)
    ensures PinnedBy(cfg, trace, events, q, i)
    decreases |events|
  {
    hide Occurs, PinsRightly, IsPinned;
    StartUnpinned(q);
    var last := |events| - 1;
    assert Stepped(cfg, last, trace[last], events[last], trace[last + 1]);
    if IsPinned(trace[last], q) {
      i := OriginOf(cfg, trace[..last + 1], events[..last], q);
    } else {
      OriginStep(cfg, last, trace[last], events[last], trace[last + 1], q);
      i := last;
    }
  }

  lemma StartUnpinned(q: Ptr)
    ensures !IsPinned(NOTHING, q)
  {
  }

  // ---- bandwidth ----

  /** The bandwidth that the pool lent in the events of a run. */
  ghost function LentIn(cfg: Config, trace: seq<World>, events: seq<Event>): nat
    requires |trace| == |events| + 1
    decreases |events|
  {
    if events == [] then 0 else
      var last := |events| - 1;
      LentIn(cfg, trace[..last + 1], events[..last]) +
      if Occurs(cfg, trace[last], events[last]) then EventOutcome(cfg, trace[last], events[last]).lent else 0
  }

  /** The bandwidth that it got back. */
  ghost function ReturnedIn(cfg: Config, trace: seq<World>, events: seq<Event>): nat
    requires |trace| == |events| + 1
    decreases |events|
  {
    if events == [] then 0 else
      var last := |events| - 1;
      ReturnedIn(cfg, trace[..last + 1], events[..last]) +
      if Occurs(cfg, trace[last], events[last]) then EventOutcome(cfg, trace[last], events[last]).back else 0
  }

  /** The server's two counters are these sums. */
  lemma {:induction false} BandwidthOf(cfg: Config, trace: seq<World>, events: seq<Event>)
    requires IsRun(cfg, trace, events)
    ensures trace[|events|].bpsOut == LentIn(cfg, trace, events)
    ensures trace[|events|].bpsBack == ReturnedIn(cfg, trace, events)
    decreases |events|
  {
    hide Occurs, EventOutcome, EventSessions, EventEntries, EventRenames;
    if events != [] {
      var last := |events| - 1;
      BandwidthOf(cfg, trace[..last + 1], events[..last]);
      assert Stepped(cfg, last, trace[last], events[last], trace[last + 1]);
    }
  }

  /** What was lent is with the requester, which had no share before. */
  predicate LendsTo(x: World, e: Event, out: Outcome) {
    && (e.Command? || (e.KeyFound? && e.id in x.sessions))
    && var p := Requester(x, e);
       p in x.table && p in out.table && x.table[p].bps == 0 && out.table[p].bps == out.lent
  }

  /** An event lends to one session at most, what the pool answers, and gets back only what a closed session had. */
  lemma LendsRightly(cfg: Config, x: World, e: Event)
    requires Occurs(cfg, x, e)
    ensures var out := EventOutcome(cfg, x, e);
            && (out.back > 0 ==> e.Close? && out.back == x.table[e.p].bps)
            && (e.Close? ==> out.back == x.table[e.p].bps)
            && (out.lent > 0 ==> (e.Command? || e.KeyFound?) && out.lent == e.c.alloc.pool(Ask(e.c.alloc)))
            && (out.lent > 0 ==> LendsTo(x, e, out))
  {
    hide Draws, Drawn, Commanded, Learned, Units, Taken, CommandLends, CommandTickets, Refreshed, IsRequest, Ask;
    match e {
      case Command(p, msg, c) => CommandLendsTo(cfg, x.table, x.mobile, p, msg, c, true);
      case KeyFound(id, k, msg, c) =>
        var p := x.sessions[id];
        CommandLendsTo(cfg, LearnedTable(cfg, x, id, k), x.mobile, p, msg, c, false);
        LearnedBps(cfg, x.table[p], k);
      case _ =>
    }
  }

  lemma LearnedBps(cfg: Config, s: Session, k: KeyAnswer)
    ensures Learned(cfg, s, k).bps == s.bps
  {
  }

  lemma CommandLendsTo(cfg: Config, t: Table, mobile: map<nat, Ptr>, p: Ptr, msg: Bytes, c: CommandEnv, canResume: bool)
    requires p in t
    ensures var out := AfterCommand(cfg, t, mobile, p, msg, c, canResume);
            && out.back == 0
            && (out.lent > 0 ==> out.lent == c.alloc.pool(Ask(c.alloc)) && t[p].bps == 0)
            && (out.lent > 0 ==> p in out.table && out.table[p].bps == out.lent)
  {
    hide SessionSteps.Gated, Passes, IsRequest, Blocked, Examined, Settled, Handed, Units, Taken, Target, Moves, Drawn,
         Inc, Unticketed, Ask;
    if !UsesTicket(msg, c) && IsRequest(msg) {
      var g := t[p].(auth := SessionSteps.Gated(cfg, t[p].auth, msg, Method(msg), c, canResume));
      AllocatedTakes(cfg, g, c.mobility, c.alloc);
      SupplyBps(cfg, g.(isMobile := g.isMobile || (c.alloc.ticket && c.mobility)), c.mobility, c.alloc);
    }
  }

  lemma SupplyBps(cfg: Config, s: Session, mobility: bool, a: AllocateEnv)
    ensures SupplyLends(cfg, s, mobility, a) > 0 ==> SupplyLends(cfg, s, mobility, a) == a.pool(Ask(a)) && s.bps == 0
  {
  }

  // ---- every run ----

  /**
   After any run of events: what was granted and not given back is with the live sessions, in
   total always, and name by name unless some event renamed a holder; what the events of the run
   lent in bandwidth and did not get back is with them too; the ticket map holds exactly
   the live sessions that have one; a pinned origin rests on a verified Allocate of the run; and the
   guarded handlers ran only for messages let in by an event of the run, which in long-term mode
   carry their session's nonce and verify under its key.
   */
  method Run(cfg: Config, events: seq<Event>) returns (s: Server, ghost trace: seq<World>)
    ensures fresh(s) && s.cfg == cfg && IsRun(cfg, trace, events) && trace[|events|] == Look(s)
    ensures |s.grants| == |s.releases| + Total(s.table, Unit)
    ensures s.bpsOut == LentIn(cfg, trace, events) && s.bpsBack == ReturnedIn(cfg, trace, events)
    ensures LentIn(cfg, trace, events) == ReturnedIn(cfg, trace, events) + Total(s.table, Bps)
    ensures (forall i :: 0 <= i < |events| && Occurs(cfg, trace[i], events[i]) ==>
               !EventRenames(cfg, trace[i], events[i])) ==>
              PerName(s.table, s.grants, s.releases)
    ensures PerName(s.table, s.grants, s.releases) <==> RunDrift(cfg, trace, events).Even()
    ensures forall i :: 0 <= i < |events| && Occurs(cfg, trace[i], events[i]) && Even(trace[i]) ==>
              (Even(trace[i + 1]) <==> !EventRenames(cfg, trace[i], events[i]))
    ensures MobileIndexed(cfg.id, s.table, s.mobile) && Indexed(cfg.id, s.counter, s.table, s.sessions)
    ensures forall p :: p in s.table && s.table[p].auth.originSet ==> exists h :: h in s.handled && Vouches(cfg, h)
    ensures forall p :: p in s.table && s.table[p].auth.originSet ==> exists i :: PinnedBy(cfg, trace, events, p, i)
    ensures forall h :: h in s.handled ==> RightlyIn(cfg, trace, events, h)
    ensures forall h :: h in s.ran ==>
              h in s.handled && h.kind == Dispatched(false) && IsRequest(h.msg) && Method(h.msg) in GUARDED
  {
    hide Stepped, OfEvent, Occurs, EventRenames, Vetted, Vouches, Indexed, MobileIndexed, PerName, IsRequest, PinnedBy,
         RunDrift, Drift.Even, LentIn, ReturnedIn, RightlyIn;
    s := new Server(cfg);
    trace := [Look(s)];
    for i := 0 to |events|
      invariant fresh(s) && s.Valid() && s.cfg == cfg && s.clock == i
      invariant |trace| == i + 1 && trace[i] == Look(s) && IsRun(cfg, trace, events[..i])
    {
      var _ := Happen(s, events[i]);
      trace := trace + [Look(s)];
    }
    assert events[..|events|] == events;
    RenamedBy(cfg, trace, events);
    RunEven(cfg, trace, events);
    BandwidthOf(cfg, trace, events);
    EvenSteps(cfg, trace, events);
    forall h | h in s.handled
      ensures RightlyIn(cfg, trace, events, h)
    {
      LetInRightly(cfg, trace, events, h);
    }
    forall h | h in s.ran
      ensures h in s.handled && h.kind == Dispatched(false) && IsRequest(h.msg) && Method(h.msg) in GUARDED
    {
      RanWasLetIn(cfg, trace, events, h);
    }
    forall p | p in s.table && s.table[p].auth.originSet
      ensures exists h :: h in s.handled && Vouches(cfg, h)
    {
      PinnedVouched(cfg.longTerm, s.table, s.vouched.Keys, p);
    }
    forall p | p in s.table && s.table[p].auth.originSet
      ensures exists i :: PinnedBy(cfg, trace, events, p, i)
    {
      var _ := OriginOf(cfg, trace, events, p);
    }
  }

  /** At every event of a run. */
  lemma EvenSteps(cfg: Config, trace: seq<World>, events: seq<Event>)
    requires IsRun(cfg, trace, events)
    ensures forall i :: 0 <= i < |events| && Occurs(cfg, trace[i], events[i]) && Even(trace[i]) ==>
              (Even(trace[i + 1]) <==> !EventRenames(cfg, trace[i], events[i]))
  {
    hide Even, Occurs, EventRenames, After;
    forall i | 0 <= i < |events| && Occurs(cfg, trace[i], events[i]) && Even(trace[i])
      ensures Even(trace[i + 1]) <==> !EventRenames(cfg, trace[i], events[i])
    {
      assert Stepped(cfg, i, trace[i], events[i], trace[i + 1]);
      EvenStep(cfg, i, trace[i], events[i]);
    }
  }

  lemma PinnedVouched(longTerm: bool, t: Table, vouched: set<Ptr>, p: Ptr)
    requires Pinned(longTerm, t, vouched) && p in t && t[p].auth.originSet
    ensures p in vouched
  {
  }

  // ---- a holder renamed ----

  /** A server without authentication. */
  const OPEN := Config(1, false, 0, (_, _) => true, (_, _) => Zeros(20), r => r)

  const USER: Bytes := [0x75]
  const REALM_A: Bytes := [0x61]
  const REALM_B: Bytes := [0x62]

  /** An Allocate request, as far as the gate looks at it. */
  const ALLOCATE_REQUEST: Bytes := [0, 3]

  /** An Allocate that is granted, its origin naming the given realm. */
  function Granted(originRealm: Option<Bytes>): CommandEnv {
    CommandEnv(Env(0, [1], false, false), false, false, false, false, false, false, false, originRealm,
               AllocateEnv(false, true, USER, true, 0, 0, _ => 0),
               RefreshEnv(0, false, false, (false, false, false), [1]))
  }

  /**
   Two Allocates on one session, of which the second names another realm by its origin, and the end
   of the session.
   */
  function RenamingEvents(): seq<Event> {
    [New(1, REALM_A, false, [1]), Command(1, ALLOCATE_REQUEST, Granted(None)),
     Command(1, ALLOCATE_REQUEST, Granted(Some(REALM_B))), Close(1, true, false)]
  }

  /** Without authentication an Allocate goes straight to its handler. */
  lemma OpenAllocate(s: Session, realm: Option<Bytes>)
    requires !s.auth.originSet
    ensures var g := s.(auth := if realm.Some? then s.auth.(realm := realm.value) else s.auth);
            Commanded(OPEN, s, ALLOCATE_REQUEST, Granted(realm), true) == Inc(OPEN, g, USER, true)
  {
    assert U16(ALLOCATE_REQUEST, 0) == 3 && Method(ALLOCATE_REQUEST) == ALLOCATE;
  }

  lemma AlwaysDraws(mobile: map<nat, Ptr>)
    requires mobile == map[]
    ensures Draws(OPEN.id, mobile, [1])
  {
    assert Unused(OPEN.id, mobile, [1][0]);
  }

  /** One of the two Allocates. */
  lemma OpenStep(i: nat, x: World, y: World, realm: Option<Bytes>)
    requires Stepped(OPEN, i, x, Command(1, ALLOCATE_REQUEST, Granted(realm)), y)
    requires x.table.Keys == {1} && x.mobile == map[] && !x.table[1].auth.originSet
    ensures var s := x.table[1];
            var g := s.(auth := if realm.Some? then s.auth.(realm := realm.value) else s.auth);
            var s' := Inc(OPEN, g, USER, true);
            && y.table == map[1 := s'] && y.mobile == map[] && y.releases == x.releases
            && y.grants == x.grants + Taken(s, s')
  {
    hide Commanded, Inc, EventEntries, EventRenames, Draws, IsRequest, Taken, Passes;
    AlwaysDraws(x.mobile);
    NoTicket(Granted(realm));
    OpenAllocate(x.table[1], realm);
  }

  /** The unit is taken in one realm and given back in the other. */
  lemma RenamedRun(trace: seq<World>)
    requires IsRun(OPEN, trace, RenamingEvents())
    ensures trace[4].table == map[]
    ensures trace[4].grants == multiset{Name(USER, false, REALM_A)} &&
            trace[4].releases == multiset{Name(USER, false, REALM_B)}
  {
    hide Stepped, Draws;
    var e := RenamingEvents();
    var x0, x1, x2, x3 := trace[0], trace[1], trace[2], trace[3];
    assert Stepped(OPEN, 0, x0, e[0], x1) && Stepped(OPEN, 1, x1, e[1], x2);
    assert Stepped(OPEN, 2, x2, e[2], x3) && Stepped(OPEN, 3, x3, e[3], trace[4]);
    OpenNew(x0, x1);
    OpenStep(1, x1, x2, None);
    OpenStep(2, x2, x3, Some(REALM_B));
    OpenClose(x3, trace[4]);
  }

  lemma OpenNew(x: World, y: World)
    requires Stepped(OPEN, 0, x, New(1, REALM_A, false, [1]), y) && x == NOTHING
    ensures y.table == map[1 := NewSession(OPEN, 1, 0, REALM_A)] && y.mobile == map[] &&
            y.grants == y.releases == multiset{}
  {
    hide Draws, After, EventOutcome;
    AlwaysDraws(x.mobile);
    var e := New(1, REALM_A, false, [1]);
    NewOutcome(x, e);
    AfterParts(OPEN, 0, x, e);
  }

  lemma AfterParts(cfg: Config, i: nat, x: World, e: Event)
    requires Occurs(cfg, x, e)
    ensures var y, out := After(cfg, i, x, e), EventOutcome(cfg, x, e);
            && y.table == out.table && y.mobile == out.mobile
            && y.grants == x.grants + out.took && y.releases == x.releases + out.gave
  {
    hide Occurs, EventOutcome, EventEntries, EventSessions, EventRenames;
  }

  lemma NewOutcome(x: World, e: Event)
    requires x == NOTHING && e == New(1, REALM_A, false, [1]) && Occurs(OPEN, x, e)
    ensures EventOutcome(OPEN, x, e) == Same(map[1 := NewSession(OPEN, 1, 0, REALM_A)], map[])
  {
    hide Draws, Drawn, AfterCommand, AfterAnswer, Checked;
    assert NOTHING.table[1 := NewSession(OPEN, 1, 0, REALM_A)] == map[1 := NewSession(OPEN, 1, 0, REALM_A)];
  }

  lemma OpenClose(x: World, y: World)
    requires Stepped(OPEN, 3, x, Close(1, true, false), y) && x.table.Keys == {1}
    ensures y.table == map[] && y.grants == x.grants && y.releases == x.releases + Units(x.table[1])
  {
  }

  lemma NoTicket(c: CommandEnv)
    ensures !UsesTicket(ALLOCATE_REQUEST, c)
  {
    assert U16(ALLOCATE_REQUEST, 0) == 3;
  }

  /** One name keeps owing a unit that nobody holds, though the totals agree. */
  lemma OwesForever(grants: multiset<Name>, releases: multiset<Name>)
    requires grants == multiset{Name(USER, false, REALM_A)} && releases == multiset{Name(USER, false, REALM_B)}
    ensures |grants| == |releases| && !PerName(map[], grants, releases)
  {
    var a := Name(USER, false, REALM_A);
    assert a != Name(USER, false, REALM_B) by { assert REALM_A[0] != REALM_B[0]; }
    assert grants[a] == 1 && releases[a] == 0 && Total(map[], UnitOf(a)) == 0;
  }

  /** A run after which the books of single names do not balance. */
  method RenameExample() returns (s: Server, ghost trace: seq<World>)
    ensures fresh(s) && IsRun(OPEN, trace, RenamingEvents()) && trace[4] == Look(s)
    ensures |s.grants| == |s.releases| && !PerName(s.table, s.grants, s.releases)
  {
    hide IsRun, PerName, Indexed, MobileIndexed, OfEvent, EventRenames, Occurs;
    s, trace := Run(OPEN, RenamingEvents());
    assert |RenamingEvents()| == 4;
    RenamedRun(trace);
    OwesForever(s.grants, s.releases);
  }
}
