/**
 What the events of src/server/ns_turn_server.c make of the table of sessions, of the map
 of mobility tickets and of the quota books, as functions of the state before: a refresh by
 ticket (RFC 8016), which changes two sessions, any other request, and the late answer to a
 key lookup.
 */
module Outcomes {
  import opened Basics
  import opened Crc32
  import opened StunBytes
  import opened StunBuild
  import opened Sessions
  import opened Authentication
  import opened SessionSteps

  /**
   Table and tickets after a step, the units taken and given back on the way, and the bandwidth
   that the pool lent and got back.
   */
  datatype Outcome = Outcome(table: Table, mobile: map<nat, Ptr>, took: multiset<Name>, gave: multiset<Name>,
                             lent: nat, back: nat)

  /** Nothing happens. */
  function Same(t: Table, mobile: map<nat, Ptr>): Outcome {
    Outcome(t, mobile, multiset{}, multiset{}, 0, 0)
  }

  // ---- tickets ----

  predicate Unused(server: Byte, mobile: map<nat, Ptr>, draw: nat) {
    draw % LOW56 != 0 && server * LOW56 + draw % LOW56 !in mobile
  }

  /** Some draw makes a ticket not in use. */
  predicate Draws(server: Byte, mobile: map<nat, Ptr>, draws: seq<nat>) {
    exists i :: 0 <= i < |draws| && Unused(server, mobile, draws[i])
  }

  /** The ticket that the first such draw makes. */
  function Drawn(server: Byte, mobile: map<nat, Ptr>, draws: seq<nat>): (m: nat)
    ensures Draws(server, mobile, draws) ==> Ticket(server, m) && m !in mobile
  {
    if draws == [] then 0
    else if Unused(server, mobile, draws[0]) then server * LOW56 + draws[0] % LOW56
    else Drawn(server, mobile, draws[1..])
  }

  /** Fewer tickets in use leave a draw usable. */
  lemma FewerTickets(server: Byte, mobile: map<nat, Ptr>, fewer: map<nat, Ptr>, draws: seq<nat>)
    requires Draws(server, mobile, draws) && fewer.Keys <= mobile.Keys
    ensures Draws(server, fewer, draws)
  {
  }

  // ---- a refresh by ticket ----

  /** The requester s of a refresh by o's ticket after its credentials have been checked. */
  function Examined(cfg: Config, s: Session, o: Session, r: RefreshEnv, msg: Bytes, env: Env,
                    canResume: bool): Session {
    var a := Adopted(cfg, s, o, r);
    a.(auth := Checked(cfg, a.auth, msg, REFRESH, env, canResume))
  }

  /** The session with o's realm written into it, before anything is copied. */
  function InRealmOf(cfg: Config, s: Session, o: Session): Session {
    s.(auth := s.auth.(realm := cfg.realmNamed(o.auth.realm)))
  }

  /** The ticket's session o takes over the credentials it was refreshed with, if there is a key among them. */
  function Handed(cfg: Config, o: Session, from: Auth, answer: bool): Session {
    if from.keySet then Copied(cfg, o, from, answer) else o
  }

  /** It gets a new ticket, asks for a unit if it has none and remembers the ticket it was found by. */
  function Settled(cfg: Config, o: Session, ticket: nat, answer: bool, mid: nat): Session {
    Inc(cfg, o.(mobileId := ticket), o.auth.username, answer).(oldMobileId := mid)
  }

  /** The tickets when both sessions have lost theirs. */
  function Fewer(mobile: map<nat, Ptr>, s: Session, o: Session): map<nat, Ptr> {
    mobile - {s.mobileId} - {o.mobileId}
  }

  /** The transfer of requester p to the ticket's session o. */
  function Transferred(cfg: Config, t: Table, mobile: map<nat, Ptr>, p: Ptr, o: Ptr, r: RefreshEnv): Outcome
    requires p in t && o in t
  {
    var o1 := Handed(cfg, t[o], t[p].auth, r.answers.1);
    var left := Fewer(mobile, t[p], t[o]);
    var m := Drawn(cfg.id, left, r.draws);
    var o2 := Settled(cfg, o1, m, r.answers.2, r.mid);
    Outcome(t[p := t[p].(mobileId := 0, quotaUsed := false)][o := o2], left[m := o],
            (if t[p].auth.keySet then Units(o1) else multiset{}) + Taken(o1, o2),
            (if t[p].auth.keySet then Units(t[o]) else multiset{}) + Units(t[p]), 0, 0)
  }

  /** The check of a refresh by o's ticket, with the unit that moves to o's name. */
  function Examination(cfg: Config, t: Table, mobile: map<nat, Ptr>, p: Ptr, o: Ptr, msg: Bytes, r: RefreshEnv,
                       env: Env, canResume: bool): Outcome
    requires p in t && o in t
  {
    Outcome(t[p := Examined(cfg, t[p], t[o], r, msg, env, canResume)], mobile,
            if t[p].auth.keySet then multiset{} else Units(Adopted(cfg, t[p], t[o], r)),
            if t[p].auth.keySet then multiset{} else Units(InRealmOf(cfg, t[p], t[o])), 0, 0)
  }

  /** One step after another. */
  function Then(a: Outcome, b: Outcome): Outcome {
    Outcome(b.table, b.mobile, a.took + b.took, a.gave + b.gave, a.lent + b.lent, a.back + b.back)
  }

  /** A whole refresh by ticket. */
  function Refreshed(cfg: Config, t: Table, mobile: map<nat, Ptr>, p: Ptr, msg: Bytes, r: RefreshEnv, env: Env,
                     canResume: bool): Outcome
    requires p in t
  {
    var o := Target(t, mobile, p, r);
    if o.None? then Same(t, mobile) else
      var e := Examination(cfg, t, mobile, p, o.value, msg, r, env, canResume);
      if Moves(cfg, t[p], t[o.value], r, msg, env) then Then(e, Transferred(cfg, e.table, mobile, p, o.value, r)) else e
  }

  /** A transfer takes place exactly for a ticket of an open mobile session of the server, other than the requester. */
  lemma TransferExactly(cfg: Config, t: Table, mobile: map<nat, Ptr>, p: Ptr, msg: Bytes, r: RefreshEnv, env: Env)
    requires p in t
    ensures var o := Target(t, mobile, p, r);
            o.Some? && Moves(cfg, t[p], t[o.value], r, msg, env) <==>
            && r.mid != 0 && r.mid in mobile && mobile[r.mid] in t && mobile[r.mid] != p && t[mobile[r.mid]].isMobile
            && r.present && r.attached
            && (cfg.longTerm ==> Credible(cfg, Adopted(cfg, t[p], t[mobile[r.mid]], r).auth, msg, REFRESH, env))
  {
    hide Credible, Adopted;
  }

  /**
   What a refresh by ticket amounts to.  Without a transfer only the requester is touched.  With one
   the requester ends without ticket and unit, the ticket's session has the credentials the refresh
   was checked with, and a ticket that leads to it takes the place of both old ones.
   */
  lemma RefreshMeans(cfg: Config, t: Table, mobile: map<nat, Ptr>, p: Ptr, msg: Bytes, r: RefreshEnv, env: Env,
                     canResume: bool)
    requires p in t && Draws(cfg.id, mobile, r.draws)
    ensures var out := Refreshed(cfg, t, mobile, p, msg, r, env, canResume);
            var o := Target(t, mobile, p, r);
            if o.Some? && Moves(cfg, t[p], t[o.value], r, msg, env)
            then HandsOver(cfg, t, mobile, p, o.value, r, out)
            else out.mobile == mobile && p in out.table && out.table == t[p := out.table[p]]
  {
    hide Examined, Transferred, Units, Moves, Draws;
    var o := Target(t, mobile, p, r);
    assert t[p := t[p]] == t;
    if o.Some? {
      ExaminedTicket(cfg, t[p], t[o.value], r, msg, env, canResume);
      var e := Examination(cfg, t, mobile, p, o.value, msg, r, env, canResume);
      TransferMeans(cfg, e.table, mobile, p, o.value, r);
    }
  }

  lemma TransferMeans(cfg: Config, t: Table, mobile: map<nat, Ptr>, p: Ptr, o: Ptr, r: RefreshEnv)
    requires p in t && o in t && p != o && Draws(cfg.id, mobile, r.draws)
    ensures HandsOver(cfg, t, mobile, p, o, r, Transferred(cfg, t, mobile, p, o, r))
  {
    hide Drawn, Settled, Handed, Units, Taken, Draws, Ticket;
    var left := Fewer(mobile, t[p], t[o]);
    FewerTickets(cfg.id, mobile, left, r.draws);
    SettledMeans(cfg, t[o], t[p].auth, Drawn(cfg.id, left, r.draws), r);
  }

  ghost predicate HandsOver(cfg: Config, t: Table, mobile: map<nat, Ptr>, p: Ptr, o: Ptr, r: RefreshEnv, out: Outcome)
    requires p in t && o in t
  {
    && out.table.Keys == t.Keys && (forall q :: q in t && q != p && q != o ==> out.table[q] == t[q])
    && out.table[p].mobileId == 0 && !out.table[p].quotaUsed
    && (out.table[p].auth.keySet ==> out.table[o].auth == out.table[p].auth)
    && var m := out.table[o].mobileId;
       && Ticket(cfg.id, m) && m in out.mobile && out.mobile[m] == o && out.table[o].oldMobileId == r.mid
       && out.mobile - {m} == mobile - {t[p].mobileId, t[o].mobileId}
  }

  lemma ExaminedTicket(cfg: Config, s: Session, o: Session, r: RefreshEnv, msg: Bytes, env: Env, canResume: bool)
    ensures Examined(cfg, s, o, r, msg, env, canResume).mobileId == s.mobileId
  {
    hide Checked;
  }

  lemma SettledMeans(cfg: Config, o: Session, from: Auth, m: nat, r: RefreshEnv)
    ensures var s := Settled(cfg, Handed(cfg, o, from, r.answers.1), m, r.answers.2, r.mid);
            s.mobileId == m && s.oldMobileId == r.mid && (from.keySet ==> s.auth == from)
  {
  }

  // ---- requests and answers ----

  predicate UsesTicket(msg: Bytes, c: CommandEnv) {
    IsRequest(msg) && ByTicket(Method(msg), c)
  }

  /** A message for session p. */
  function AfterCommand(cfg: Config, t: Table, mobile: map<nat, Ptr>, p: Ptr, msg: Bytes, c: CommandEnv,
                        canResume: bool): Outcome
    requires p in t
  {
    if !UsesTicket(msg, c) then
      var s := Commanded(cfg, t[p], msg, c, canResume);
      Outcome(t[p := s], CommandTickets(cfg, t[p], msg, c, mobile), Taken(t[p], s), multiset{},
              CommandLends(cfg, t[p], msg, c, canResume), 0)
    else if Blocked(REFRESH, c, t[p].auth.originSet) then Same(t, mobile)
    else Refreshed(cfg, t, mobile, p, msg, c.refresh, c.auth, canResume)
  }

  /** The tickets after a request that uses none: an Allocate may take one away. */
  function CommandTickets(cfg: Config, s: Session, msg: Bytes, c: CommandEnv, mobile: map<nat, Ptr>): map<nat, Ptr> {
    if IsRequest(msg) && Method(msg) == ALLOCATE && Passes(cfg, s.auth, msg, ALLOCATE, c)
    then AllocateTickets(s, c.mobility, c.alloc, mobile) else mobile
  }

  /** The bandwidth lent to such a request: an Allocate that passes may get some. */
  function CommandLends(cfg: Config, s: Session, msg: Bytes, c: CommandEnv, canResume: bool): nat {
    if IsRequest(msg) && Method(msg) == ALLOCATE && Passes(cfg, s.auth, msg, ALLOCATE, c) then
      AllocateLends(cfg, s.(auth := SessionSteps.Gated(cfg, s.auth, msg, ALLOCATE, c, canResume)), c.mobility, c.alloc)
    else 0
  }

  /** The session with the key and the flag that a lookup brings back, still in its old realm. */
  function Keyed(s: Session, k: KeyAnswer): Session {
    if k.success then s.(auth := s.auth.(key := k.key, keySet := true, oauth := k.oauth, pwd := k.pwd)) else s
  }

  /** The session moves to a new realm with the answer. */
  predicate ChangesRealm(s: Session, k: KeyAnswer) {
    k.success && k.realm != [] && k.realm != s.auth.realm
  }

  /** The session learns its key. */
  function Learning(cfg: Config, t: Table, mobile: map<nat, Ptr>, p: Ptr, k: KeyAnswer): Outcome
    requires p in t
  {
    var s := Learned(cfg, t[p], k);
    Outcome(t[p := s], mobile, if ChangesRealm(t[p], k) then Units(s) else multiset{},
            if ChangesRealm(t[p], k) then Units(Keyed(t[p], k)) else multiset{}, 0, 0)
  }

  /** The answer to a key lookup, after which the message is processed again. */
  function AfterAnswer(cfg: Config, t: Table, mobile: map<nat, Ptr>, p: Ptr, k: KeyAnswer, msg: Bytes,
                       c: CommandEnv): Outcome
    requires p in t
  {
    var l := Learning(cfg, t, mobile, p, k);
    Then(l, AfterCommand(cfg, l.table, mobile, p, msg, c, false))
  }
}
