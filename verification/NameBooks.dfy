/**
 The quota books of single names.  A unit is taken in the name a session has at the time and
 given back in the name it has later; the books of a name therefore balance exactly as long
 as no session that holds a unit has been renamed.  Drift collects, from the state before an
 event, the names that holders lose in it and the names they go on under.
 */
module NameBooks {
  import opened Basics
  import opened Crc32
  import opened StunBytes
  import opened StunBuild
  import opened Sessions
  import opened Authentication
  import opened SessionSteps
  import opened Outcomes
  import opened ServerEvents

  datatype Drift = Drift(lost: multiset<Name>, won: multiset<Name>) {
    predicate Even() {
      lost == won
    }
  }

  const NONE := Drift(multiset{}, multiset{})

  function Plus(a: Drift, b: Drift): Drift {
    Drift(a.lost + b.lost, a.won + b.won)
  }

  /** The session comes to have these credentials while it holds what it holds. */
  function Renaming(s: Session, a: Auth): Drift {
    if s.quotaUsed && NameOf(a) != s.Holder() then Drift(multiset{s.Holder()}, multiset{NameOf(a)}) else NONE
  }

  /** A refresh by the ticket of o: the realm is written, and the credentials that then hold are checked. */
  function RefreshDrift(cfg: Config, s: Session, o: Session, r: RefreshEnv, msg: Bytes, env: Env,
                        canResume: bool): Drift {
    Plus(Renaming(s, InRealmOf(cfg, s, o).auth),
         Renaming(Adopted(cfg, s, o, r), Examined(cfg, s, o, r, msg, env, canResume).auth))
  }

  function CommandDrift(cfg: Config, t: Table, mobile: map<nat, Ptr>, p: Ptr, msg: Bytes, c: CommandEnv,
                        canResume: bool): Drift
    requires p in t
  {
    var o := Target(t, mobile, p, c.refresh);
    if !IsRequest(msg) then NONE
    else if !UsesTicket(msg, c) then Renaming(t[p], SessionSteps.Gated(cfg, t[p].auth, msg, Method(msg), c, canResume))
    else if Blocked(REFRESH, c, t[p].auth.originSet) || o.None? then NONE
    else RefreshDrift(cfg, t[p], t[o.value], c.refresh, msg, c.auth, canResume)
  }

  function AnswerDrift(cfg: Config, t: Table, mobile: map<nat, Ptr>, p: Ptr, k: KeyAnswer, msg: Bytes,
                       c: CommandEnv): Drift
    requires p in t
  {
    Plus(Renaming(t[p], Keyed(t[p], k).auth),
         CommandDrift(cfg, t[p := Learned(cfg, t[p], k)], mobile, p, msg, c, false))
  }

  function EventDrift(cfg: Config, x: World, e: Event): Drift
    requires Occurs(cfg, x, e)
  {
    match e
    case Command(p, msg, c) => CommandDrift(cfg, x.table, x.mobile, p, msg, c, true)
    case KeyFound(id, k, msg, c) => AnswerDrift(cfg, x.table, x.mobile, x.sessions[id], k, msg, c)
    case Data(p, msg, env, canResume) =>
      Renaming(x.table[p], Checked(cfg, x.table[p].auth, msg, CONNECTION_BIND, env, canResume))
    case _ => NONE
  }

  // ---- what a step does to the books ----

  ghost predicate AccountsFor(t: Table, out: Outcome, d: Drift, k: Name) {
    Total(out.table, UnitOf(k)) + out.gave[k] + d.lost[k] == Total(t, UnitOf(k)) + out.took[k] + d.won[k]
  }

  /** The units held change by what is taken and given back, but for the names lost and won. */
  ghost predicate Accounts(t: Table, out: Outcome, d: Drift) {
    forall k :: AccountsFor(t, out, d, k)
  }

  lemma UnitsOf(s: Session, k: Name)
    ensures Units(s)[k] == UnitOf(k)(s)
  {
  }

  /** One session changes. */
  lemma OneSession(t: Table, p: Ptr, out: Outcome, s: Session, d: Drift)
    requires p in t && out.table == t[p := s]
    requires Units(s) + out.gave + d.lost == Units(t[p]) + out.took + d.won
    ensures Accounts(t, out, d)
  {
    hide Units, UnitOf;
    forall k
      ensures AccountsFor(t, out, d, k)
    {
      TotalPut(t, UnitOf(k), p, s);
      UnitsOf(s, k);
      UnitsOf(t[p], k);
      assert (Units(s) + out.gave + d.lost)[k] == (Units(t[p]) + out.took + d.won)[k];
    }
  }

  /** One step after another. */
  lemma ThenAccounts(t: Table, a: Outcome, b: Outcome, d: Drift, e: Drift)
    requires Accounts(t, a, d) && Accounts(a.table, b, e)
    ensures Accounts(t, Then(a, b), Plus(d, e))
  {
    forall k
      ensures AccountsFor(t, Then(a, b), Plus(d, e), k)
    {
      assert AccountsFor(t, a, d, k) && AccountsFor(a.table, b, e, k);
    }
  }

  lemma Idle(t: Table, mobile: map<nat, Ptr>)
    ensures Accounts(t, Same(t, mobile), NONE)
  {
  }

  /** The check of a refresh by ticket. */
  lemma ExaminationAccounts(cfg: Config, t: Table, mobile: map<nat, Ptr>, p: Ptr, o: Ptr, msg: Bytes, r: RefreshEnv,
                            env: Env, canResume: bool)
    requires p in t && o in t
    ensures Accounts(t, Examination(cfg, t, mobile, p, o, msg, r, env, canResume),
                     RefreshDrift(cfg, t[p], t[o], r, msg, env, canResume))
  {
    hide Checked, Copied, Units, Renaming, Accounts;
    var out := Examination(cfg, t, mobile, p, o, msg, r, env, canResume);
    var a, s := Adopted(cfg, t[p], t[o], r), Examined(cfg, t[p], t[o], r, msg, env, canResume);
    var d := RefreshDrift(cfg, t[p], t[o], r, msg, env, canResume);
    var w := InRealmOf(cfg, t[p], t[o]);
    RenamedUnits(t[p], w);
    RenamedUnits(a, s);
    TwoRenamings(Units(t[p]), Units(w), Units(a), Units(s), Renaming(t[p], w.auth), Renaming(a, s.auth), out);
    OneSession(t, p, out, s, d);
  }

  /** A session goes from u to w under one drift, perhaps moves its unit to a, and goes on to v under another. */
  lemma TwoRenamings(u: multiset<Name>, w: multiset<Name>, a: multiset<Name>, v: multiset<Name>, d: Drift, e: Drift,
                     out: Outcome)
    requires w + d.lost == u + d.won && v + e.lost == a + e.won
    requires (out.took == out.gave == multiset{} && a == w) || (out.took == a && out.gave == w)
    ensures v + out.gave + Plus(d, e).lost == u + out.took + Plus(d, e).won
  {
    var x, y := v + out.gave + Plus(d, e).lost, u + out.took + Plus(d, e).won;
    forall k
      ensures x[k] == y[k]
    {
      assert (w + d.lost)[k] == (u + d.won)[k] && (v + e.lost)[k] == (a + e.won)[k];
    }
  }

  lemma RenamedUnits(s: Session, s': Session)
    requires s'.quotaUsed == s.quotaUsed
    ensures var d := Renaming(s, s'.auth); Units(s') + d.lost == Units(s) + d.won
  {
  }

  /** The transfer itself renames nobody. */
  lemma TransferAccounts(cfg: Config, t: Table, mobile: map<nat, Ptr>, p: Ptr, o: Ptr, r: RefreshEnv)
    requires p in t && o in t && p != o
    ensures Accounts(t, Transferred(cfg, t, mobile, p, o, r), NONE)
  {
    hide Drawn, Units, Taken, Handed, Settled;
    var o1 := Handed(cfg, t[o], t[p].auth, r.answers.1);
    var m := Drawn(cfg.id, Fewer(mobile, t[p], t[o]), r.draws);
    var o2 := Settled(cfg, o1, m, r.answers.2, r.mid);
    var took := (if t[p].auth.keySet then Units(o1) else multiset{}) + Taken(o1, o2);
    var gave := if t[p].auth.keySet then Units(t[o]) else multiset{};
    var p1 := t[p].(mobileId := 0, quotaUsed := false);
    var t1 := t[p := p1];
    HandedUnits(cfg, t[o], t[p].auth, m, r);
    NoUnit(t[p]);
    var a, b := Outcome(t1, mobile, multiset{}, Units(t[p]), 0, 0), Outcome(t1[o := o2], mobile, took, gave, 0, 0);
    OneSession(t, p, a, p1, NONE);
    OneSession(t1, o, b, o2, NONE);
    ThenAccounts(t, a, b, NONE, NONE);
    var out := Transferred(cfg, t, mobile, p, o, r);
    assert Then(a, b).took == out.took && Then(a, b).gave == out.gave && Plus(NONE, NONE) == NONE;
    SameAccounts(t, Then(a, b), out, NONE);
  }

  lemma SameAccounts(t: Table, a: Outcome, b: Outcome, d: Drift)
    requires Accounts(t, a, d) && a.table == b.table && a.took == b.took && a.gave == b.gave
    ensures Accounts(t, b, d)
  {
    forall k
      ensures AccountsFor(t, b, d, k)
    {
      assert AccountsFor(t, a, d, k);
    }
  }

  lemma NoUnit(s: Session)
    ensures Units(s.(mobileId := 0, quotaUsed := false)) == multiset{}
  {
  }

  lemma HandedUnits(cfg: Config, o: Session, from: Auth, m: nat, r: RefreshEnv)
    ensures var o1 := Handed(cfg, o, from, r.answers.1);
            var o2 := Settled(cfg, o1, m, r.answers.2, r.mid);
            && Units(o2) == Units(o1) + Taken(o1, o2) && (!from.keySet ==> o1 == o)
  {
  }

  lemma RefreshAccounts(cfg: Config, t: Table, mobile: map<nat, Ptr>, p: Ptr, msg: Bytes, r: RefreshEnv, env: Env,
                        canResume: bool)
    requires p in t
    ensures var o := Target(t, mobile, p, r);
            Accounts(t, Refreshed(cfg, t, mobile, p, msg, r, env, canResume),
                     if o.None? then NONE else RefreshDrift(cfg, t[p], t[o.value], r, msg, env, canResume))
  {
    hide Accounts, Examination, Transferred, RefreshDrift, Moves, Target;
    var o := Target(t, mobile, p, r);
    if o.None? {
      Idle(t, mobile);
    } else {
      var e := Examination(cfg, t, mobile, p, o.value, msg, r, env, canResume);
      ExaminationTable(cfg, t, mobile, p, o.value, msg, r, env, canResume);
      ExaminationAccounts(cfg, t, mobile, p, o.value, msg, r, env, canResume);
      TransferAccounts(cfg, e.table, mobile, p, o.value, r);
      var d := RefreshDrift(cfg, t[p], t[o.value], r, msg, env, canResume);
      ThenAccounts(t, e, Transferred(cfg, e.table, mobile, p, o.value, r), d, NONE);
      assert Plus(d, NONE) == d;
    }
  }

  lemma ExaminationTable(cfg: Config, t: Table, mobile: map<nat, Ptr>, p: Ptr, o: Ptr, msg: Bytes, r: RefreshEnv,
                         env: Env, canResume: bool)
    requires p in t && o in t
    ensures var t' := Examination(cfg, t, mobile, p, o, msg, r, env, canResume).table; p in t' && o in t'
  {
  }

  /** Any message for a session. */
  lemma CommandAccounts(cfg: Config, t: Table, mobile: map<nat, Ptr>, p: Ptr, msg: Bytes, c: CommandEnv,
                        canResume: bool)
    requires p in t
    ensures Accounts(t, AfterCommand(cfg, t, mobile, p, msg, c, canResume),
                     CommandDrift(cfg, t, mobile, p, msg, c, canResume))
  {
    hide Accounts, Refreshed, RefreshDrift, Target, Blocked, IsRequest, Commanded, CommandTickets, Units, Taken,
         Renaming, SessionSteps.Gated;
    if UsesTicket(msg, c) {
      Idle(t, mobile);
      RefreshAccounts(cfg, t, mobile, p, msg, c.refresh, c.auth, canResume);
    } else {
      CommandedUnits(cfg, t[p], msg, c, canResume);
      OneSession(t, p, AfterCommand(cfg, t, mobile, p, msg, c, canResume), Commanded(cfg, t[p], msg, c, canResume),
                 CommandDrift(cfg, t, mobile, p, msg, c, canResume));
    }
  }

  lemma CommandedUnits(cfg: Config, s: Session, msg: Bytes, c: CommandEnv, canResume: bool)
    ensures var s' := Commanded(cfg, s, msg, c, canResume);
            var d := if IsRequest(msg)
                     then Renaming(s, SessionSteps.Gated(cfg, s.auth, msg, Method(msg), c, canResume)) else NONE;
            Units(s') + multiset{} + d.lost == Units(s) + Taken(s, s') + d.won
  {
    hide SessionSteps.Gated, IsRequest, Passes, Allocated;
    if IsRequest(msg) {
      var g := s.(auth := SessionSteps.Gated(cfg, s.auth, msg, Method(msg), c, canResume));
      AllocatedTakes(cfg, g, c.mobility, c.alloc);
    }
  }

  /** The session learns its key. */
  lemma LearningAccounts(cfg: Config, t: Table, mobile: map<nat, Ptr>, p: Ptr, k: KeyAnswer)
    requires p in t
    ensures Accounts(t, Learning(cfg, t, mobile, p, k), Renaming(t[p], Keyed(t[p], k).auth))
  {
    hide Accounts;
    RenamedUnits(t[p], Keyed(t[p], k));
    OneSession(t, p, Learning(cfg, t, mobile, p, k), Learned(cfg, t[p], k), Renaming(t[p], Keyed(t[p], k).auth));
  }

  lemma AnswerAccounts(cfg: Config, t: Table, mobile: map<nat, Ptr>, p: Ptr, k: KeyAnswer, msg: Bytes, c: CommandEnv)
    requires p in t
    ensures Accounts(t, AfterAnswer(cfg, t, mobile, p, k, msg, c), AnswerDrift(cfg, t, mobile, p, k, msg, c))
  {
    hide Accounts, AfterCommand, CommandDrift, Renaming, Learned, Keyed, Units;
    var l := Learning(cfg, t, mobile, p, k);
    LearningAccounts(cfg, t, mobile, p, k);
    CommandAccounts(cfg, l.table, mobile, p, msg, c, false);
    ThenAccounts(t, l, AfterCommand(cfg, l.table, mobile, p, msg, c, false), Renaming(t[p], Keyed(t[p], k).auth),
                 CommandDrift(cfg, l.table, mobile, p, msg, c, false));
  }

  lemma NewAccounts(t: Table, p: Ptr, s: Session, mobile: map<nat, Ptr>)
    requires p !in t && !s.quotaUsed
    ensures Accounts(t, Same(t[p := s], mobile), NONE)
  {
    var out := Same(t[p := s], mobile);
    forall k
      ensures AccountsFor(t, out, NONE, k)
    {
      TotalPut(t, UnitOf(k), p, s);
    }
  }

  lemma CloseAccounts(t: Table, p: Ptr, out: Outcome)
    requires p in t && out.table == t - {p} && out.took == multiset{} && out.gave == Units(t[p])
    ensures Accounts(t, out, NONE)
  {
    forall k
      ensures AccountsFor(t, out, NONE, k)
    {
      TotalSplit(t, UnitOf(k), p);
      UnitsOf(t[p], k);
    }
  }

  /** Every event accounts for the units of every name, but for its drift. */
  lemma EventAccounts(cfg: Config, x: World, e: Event)
    requires Occurs(cfg, x, e)
    ensures Accounts(x.table, EventOutcome(cfg, x, e), EventDrift(cfg, x, e))
  {
    hide Accounts, AfterCommand, AfterAnswer, CommandDrift, AnswerDrift, Draws, Drawn, Checked, Renaming, Units;
    match e {
      case New(p, realm, mobility, draws) =>
        var out := EventOutcome(cfg, x, e);
        NewAccounts(x.table, p, out.table[p], out.mobile);
      case Command(p, msg, c) => CommandAccounts(cfg, x.table, x.mobile, p, msg, c, true);
      case KeyFound(id, k, msg, c) => AnswerAccounts(cfg, x.table, x.mobile, x.sessions[id], k, msg, c);
      case Data(p, _, _, _) => DataAccounts(cfg, x, e);
      case Close(p, force, allocValid) => EndAccounts(cfg, x, e);
    }
  }

  lemma DataAccounts(cfg: Config, x: World, e: Event)
    requires Occurs(cfg, x, e) && e.Data?
    ensures Accounts(x.table, EventOutcome(cfg, x, e), EventDrift(cfg, x, e))
  {
    hide Accounts, Checked;
    var s := x.table[e.p].(auth := Checked(cfg, x.table[e.p].auth, e.msg, CONNECTION_BIND, e.env, e.canResume));
    OneSession(x.table, e.p, EventOutcome(cfg, x, e), s, EventDrift(cfg, x, e));
  }

  lemma EndAccounts(cfg: Config, x: World, e: Event)
    requires Occurs(cfg, x, e) && e.Close?
    ensures Accounts(x.table, EventOutcome(cfg, x, e), NONE)
  {
    hide Accounts;
    var s := x.table[e.p];
    if Stays(s, e.force, e.allocValid) {
      OneSession(x.table, e.p, EventOutcome(cfg, x, e), s.(quotaUsed := false, bps := 0), NONE);
    } else {
      CloseAccounts(x.table, e.p, EventOutcome(cfg, x, e));
    }
  }

  // ---- when a step renames ----

  lemma RenamingEven(s: Session, a: Auth)
    ensures Renaming(s, a).Even() <==> !(s.quotaUsed && NameOf(a) != s.Holder())
  {
    if s.quotaUsed && NameOf(a) != s.Holder() {
      assert Renaming(s, a).lost[s.Holder()] == 1 && Renaming(s, a).won[s.Holder()] == 0;
    }
  }

  /** The gate renames a holder exactly when GateRenames says so: its two writes do not undo each other. */
  lemma GateNames(cfg: Config, s: Session, msg: Bytes, what: nat, c: CommandEnv, canResume: bool)
    ensures s.quotaUsed && NameOf(SessionSteps.Gated(cfg, s.auth, msg, what, c, canResume)) != s.Holder() <==>
            GateRenames(cfg, s, msg, what, c, canResume)
  {
    hide Checked, Renames, Blocked, Credible;
    CheckedNames(cfg, Asked(s.auth, what, c), msg, what, c.auth, canResume);
  }

  /** A name lost for another realm is not won back by a session that keeps its realm. */
  lemma NotWonBack(a: Name, b: Name, d: Drift, m: Name, n: Name)
    requires a.realm != b.realm && n.realm == m.realm
    requires d == NONE || d == Drift(multiset{m}, multiset{n})
    ensures !Plus(Drift(multiset{a}, multiset{b}), d).Even()
  {
    var e := Plus(Drift(multiset{a}, multiset{b}), d);
    assert if d != NONE && n == a then e.lost[b] == 0 < e.won[b] else e.won[a] == 0 < e.lost[a];
  }

  /** A refresh by ticket renames exactly when RefreshRenames says so. */
  lemma RefreshEven(cfg: Config, s: Session, o: Session, r: RefreshEnv, msg: Bytes, env: Env, canResume: bool)
    ensures RefreshDrift(cfg, s, o, r, msg, env, canResume).Even() <==>
            !RefreshRenames(cfg, s, o, r, msg, env, canResume)
  {
    hide Checked, Renames, Adopted, Renaming, Drift.Even;
    var a, w := Adopted(cfg, s, o, r), InRealmOf(cfg, s, o).auth;
    var b := Checked(cfg, a.auth, msg, REFRESH, env, canResume);
    CheckedNames(cfg, a.auth, msg, REFRESH, env, canResume);
    RenamingEven(a, b);
    RenamingForm(a, b);
    RenamingForm(s, w);
    if s.quotaUsed && w.realm != s.auth.realm {
      NotWonBack(s.Holder(), NameOf(w), Renaming(a, b), a.Holder(), NameOf(b));
    } else {
      NoneFirst(Renaming(a, b));
    }
  }

  lemma RenamingForm(s: Session, a: Auth)
    ensures Renaming(s, a) == NONE || Renaming(s, a) == Drift(multiset{s.Holder()}, multiset{NameOf(a)})
    ensures Renaming(s, a) == NONE <==> !(s.quotaUsed && NameOf(a) != s.Holder())
  {
  }

  lemma NoneFirst(d: Drift)
    ensures Plus(NONE, d) == d
  {
  }

  /** A message renames a holder exactly when CommandRenames says so. */
  lemma CommandEven(cfg: Config, t: Table, mobile: map<nat, Ptr>, p: Ptr, msg: Bytes, c: CommandEnv, canResume: bool)
    requires p in t
    ensures CommandDrift(cfg, t, mobile, p, msg, c, canResume).Even() <==>
            !CommandRenames(cfg, t, mobile, p, msg, c, canResume)
  {
    hide IsRequest, Renaming, RefreshDrift, GateRenames, RefreshRenames, Target, Blocked, SessionSteps.Gated,
         Drift.Even;
    NoneEven();
    if IsRequest(msg) {
      TicketGate(cfg, t[p], msg, c, canResume);
      RenamingEven(t[p], SessionSteps.Gated(cfg, t[p].auth, msg, Method(msg), c, canResume));
      GateNames(cfg, t[p], msg, Method(msg), c, canResume);
      var o := Target(t, mobile, p, c.refresh);
      if o.Some? {
        RefreshEven(cfg, t[p], t[o.value], c.refresh, msg, c.auth, canResume);
      }
    }
  }

  lemma NoneEven()
    ensures NONE.Even()
  {
  }

  /** A resumed message leaves the flag of a session that has its key as it is. */
  lemma KeepsFlag(cfg: Config, t: Table, mobile: map<nat, Ptr>, p: Ptr, msg: Bytes, c: CommandEnv, n: Name)
    requires p in t && t[p].auth.keySet && n in CommandDrift(cfg, t, mobile, p, msg, c, false).won
    ensures n.oauth == t[p].auth.oauth
  {
    hide Renaming, Target, IsRequest, Blocked, SessionSteps.Gated, RefreshDrift;
    if UsesTicket(msg, c) {
      RefreshKeepsFlag(cfg, t[p], t[Target(t, mobile, p, c.refresh).value], c.refresh, msg, c.auth, n);
    } else {
      GateKeepsFlag(cfg, t[p].auth, msg, Method(msg), c);
      RenamingForm(t[p], SessionSteps.Gated(cfg, t[p].auth, msg, Method(msg), c, false));
    }
  }

  lemma GateKeepsFlag(cfg: Config, a: Auth, msg: Bytes, what: nat, c: CommandEnv)
    ensures SessionSteps.Gated(cfg, a, msg, what, c, false).oauth == a.oauth
  {
    hide Checked, Renames, Blocked, Credible;
    CheckedNames(cfg, Asked(a, what, c), msg, what, c.auth, false);
  }

  lemma RefreshKeepsFlag(cfg: Config, s: Session, o: Session, r: RefreshEnv, msg: Bytes, env: Env, n: Name)
    requires s.auth.keySet && n in RefreshDrift(cfg, s, o, r, msg, env, false).won
    ensures n.oauth == s.auth.oauth
  {
    hide Checked, Renames, Renaming;
    var a := Adopted(cfg, s, o, r);
    CheckedNames(cfg, a.auth, msg, REFRESH, env, false);
    RenamingForm(s, InRealmOf(cfg, s, o).auth);
    RenamingForm(a, Checked(cfg, a.auth, msg, REFRESH, env, false));
  }

  /** A late answer renames a holder exactly when AnswerRenames says so. */
  lemma AnswerEven(cfg: Config, t: Table, mobile: map<nat, Ptr>, p: Ptr, k: KeyAnswer, msg: Bytes, c: CommandEnv)
    requires p in t
    ensures AnswerDrift(cfg, t, mobile, p, k, msg, c).Even() <==> !AnswerRenames(cfg, t, mobile, p, k, msg, c)
  {
    hide CommandDrift, CommandRenames;
    var l := t[p := Learned(cfg, t[p], k)];
    var d := CommandDrift(cfg, l, mobile, p, msg, c, false);
    CommandEven(cfg, l, mobile, p, msg, c, false);
    if k.success && t[p].quotaUsed && k.oauth != t[p].auth.oauth {
      var e := AnswerDrift(cfg, t, mobile, p, k, msg, c);
      var a := t[p].Holder();
      if a in d.won {
        KeepsFlag(cfg, l, mobile, p, msg, c, a);
      }
      assert e.lost[a] >= 1 && e.won[a] == 0;
    } else {
      NoneFirst(d);
    }
  }

  /** An event has an even drift exactly when EventRenames, on the state before it, says that it renames no holder. */
  lemma EventEven(cfg: Config, x: World, e: Event)
    requires Occurs(cfg, x, e)
    ensures EventDrift(cfg, x, e).Even() <==> !EventRenames(cfg, x, e)
  {
    hide CommandDrift, CommandRenames, AnswerDrift, AnswerRenames, Checked, Renames, Renaming, Draws, Drift.Even;
    NoneEven();
    match e {
      case Command(p, msg, c) => CommandEven(cfg, x.table, x.mobile, p, msg, c, true);
      case KeyFound(id, k, msg, c) => AnswerEven(cfg, x.table, x.mobile, x.sessions[id], k, msg, c);
      case Data(p, msg, env, canResume) =>
        CheckedNames(cfg, x.table[p].auth, msg, CONNECTION_BIND, env, canResume);
        RenamingEven(x.table[p], Checked(cfg, x.table[p].auth, msg, CONNECTION_BIND, env, canResume));
      case _ =>
    }
  }

  // ---- the books over a run ----

  /** The books of single names balance. */
  ghost predicate Even(x: World) {
    PerName(x.table, x.grants, x.releases)
  }

  ghost predicate OwesFor(x: World, d: Drift, k: Name) {
    x.grants[k] + d.won[k] == x.releases[k] + Total(x.table, UnitOf(k)) + d.lost[k]
  }

  /** What a name owes is what its sessions hold, but for the units lost to other names and won from them. */
  ghost predicate Owes(x: World, d: Drift) {
    forall k :: OwesFor(x, d, k)
  }

  lemma OwesEven(x: World, d: Drift)
    requires Owes(x, d)
    ensures Even(x) <==> d.Even()
  {
    if Even(x) {
      forall k
        ensures d.won[k] == d.lost[k]
      {
        assert OwesFor(x, d, k);
      }
    }
    if d.Even() {
      forall k
        ensures x.grants[k] == x.releases[k] + Total(x.table, UnitOf(k))
      {
        assert OwesFor(x, d, k);
      }
    }
  }

  lemma EvenOwes(x: World)
    requires Even(x)
    ensures Owes(x, NONE)
  {
  }

  lemma OwesStep(cfg: Config, i: nat, x: World, e: Event, d: Drift)
    requires Occurs(cfg, x, e) && Owes(x, d)
    ensures Owes(After(cfg, i, x, e), Plus(d, EventDrift(cfg, x, e)))
  {
    hide Occurs, EventOutcome, EventDrift, EventEntries, EventSessions, EventRenames;
    EventAccounts(cfg, x, e);
    var y, f := After(cfg, i, x, e), EventDrift(cfg, x, e);
    forall k
      ensures OwesFor(y, Plus(d, f), k)
    {
      assert OwesFor(x, d, k) && AccountsFor(x.table, EventOutcome(cfg, x, e), f, k);
    }
  }

  /** Books that balance name by name before an event do so after it exactly when it renames no holder of a unit. */
  lemma EvenStep(cfg: Config, i: nat, x: World, e: Event)
    requires Occurs(cfg, x, e) && Even(x)
    ensures Even(After(cfg, i, x, e)) <==> !EventRenames(cfg, x, e)
  {
    hide Even, Owes, Occurs, EventDrift, EventRenames, After, Drift.Even;
    EvenOwes(x);
    OwesStep(cfg, i, x, e, NONE);
    NoneFirst(EventDrift(cfg, x, e));
    OwesEven(After(cfg, i, x, e), EventDrift(cfg, x, e));
    EventEven(cfg, x, e);
  }

  /** The names lost and won in all events of a run. */
  ghost function RunDrift(cfg: Config, trace: seq<World>, events: seq<Event>): Drift
    requires |trace| == |events| + 1
    decreases |events|
  {
    if events == [] then NONE else
      var last := |events| - 1;
      var before := RunDrift(cfg, trace[..last + 1], events[..last]);
      if Occurs(cfg, trace[last], events[last]) then Plus(before, EventDrift(cfg, trace[last], events[last]))
      else before
  }

  /** After any run the books balance name by name exactly when the names lost in it are, in number, the names won. */
  lemma {:induction false} RunEven(cfg: Config, trace: seq<World>, events: seq<Event>)
    requires IsRun(cfg, trace, events)
    ensures Owes(trace[|events|], RunDrift(cfg, trace, events))
    ensures Even(trace[|events|]) <==> RunDrift(cfg, trace, events).Even()
    decreases |events|
  {
    hide Even, Owes, Occurs, EventDrift, After, Drift.Even;
    if events == [] {
      StartOwes();
    } else {
      var last := |events| - 1;
      RunEven(cfg, trace[..last + 1], events[..last]);
      assert Stepped(cfg, last, trace[last], events[last], trace[last + 1]);
      if Occurs(cfg, trace[last], events[last]) {
        OwesStep(cfg, last, trace[last], events[last], RunDrift(cfg, trace[..last + 1], events[..last]));
      }
    }
    OwesEven(trace[|events|], RunDrift(cfg, trace, events));
  }

  lemma StartOwes()
    ensures Owes(NOTHING, NONE)
  {
  }
}
