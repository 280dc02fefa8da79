/**
 What the steps of src/server/ns_turn_server.c do to one session, as functions of the
 session before: taking and giving back quota, Allocate, the authentication gate, a key
 lookup's answer and a refresh by ticket.  Renames says, from the state and the message
 before a step, whether it changes the name of a session that holds a unit of quota.
 */
module SessionSteps {
  import opened Basics
  import opened Crc32
  import opened StunBytes
  import opened StunBuild
  import opened Sessions
  import opened Authentication

  /** calloc and create_new_ss. */
  function NewSession(cfg: Config, c: nat, mobileId: nat, realm: Bytes): Session {
    Session(SessionId(cfg.id, c), mobileId, 0, false, false, 0, Auth([], 0, [], realm, false, false, [], [], false))
  }

  /** The first message of a session never passes in long-term mode: there is no nonce yet that it could carry. */
  lemma FirstIsChallenged(cfg: Config, c: nat, mobileId: nat, realm: Bytes, msg: Bytes, what: nat, env: Env,
                          canResume: bool)
    requires cfg.longTerm
    ensures var a := NewSession(cfg, c, mobileId, realm).auth;
            && AuthCode(cfg, a, msg, what, env, canResume) in {400, 401, 437, 438, 441}
            && !Credible(cfg, a, msg, what, env) && !HasKey(a)
  {
    hide Text, HasIntegrity;
  }

  // ---- quota ----

  /** The unit a session holds, in its name of now. */
  function Units(s: Session): multiset<Name> {
    if s.quotaUsed then multiset{s.Holder()} else multiset{}
  }

  /** The unit a session has taken on its way from s to s'. */
  function Taken(s: Session, s': Session): multiset<Name> {
    if s'.quotaUsed && !s.quotaUsed then multiset{s'.Holder()} else multiset{}
  }

  /** inc_quota, with the answer of the quota callback. */
  function Inc(cfg: Config, s: Session, username: Bytes, answer: bool): Session {
    if s.quotaUsed || !answer || (cfg.longTerm && !s.auth.originSet) then s
    else s.(quotaUsed := true, auth := s.auth.(username := username))
  }

  /** copy_auth_parameters: the unit goes back, and one is asked for in the name of the copied credentials. */
  function Copied(cfg: Config, s: Session, from: Auth, answer: bool): Session {
    Inc(cfg, s.(quotaUsed := false, auth := from), from.username, answer)
  }

  // ---- Allocate ----

  /** What an Allocate request asks for and what the callbacks answer. */
  datatype AllocateEnv = AllocateEnv(ticket: bool, accepted: bool, username: Bytes, quota: bool,
                                     wanted: nat, maxBps: nat, pool: nat -> nat)

  /** The bandwidth an Allocate asks the pool for: the realm's limit caps it, and stands in for none. */
  function Ask(a: AllocateEnv): (bps: nat)
    ensures a.maxBps != 0 ==> 0 < bps <= a.maxBps
    ensures a.wanted != 0 ==> 0 < bps <= a.wanted
    ensures bps == a.wanted || bps == a.maxBps
    ensures bps != 0 <==> a.wanted != 0 || a.maxBps != 0
  {
    if a.maxBps != 0 && (a.wanted == 0 || a.wanted > a.maxBps) then a.maxBps else a.wanted
  }

  /** A session of a server with mobility that asked for no ticket loses the one it has. */
  function Unticketed(s: Session, mobility: bool): Session {
    if mobility && !s.isMobile then s.(mobileId := 0) else s
  }

  /** A session that has its unit gets a share of the bandwidth. */
  function Shared(s: Session, a: AllocateEnv): Session {
    if s.quotaUsed && Ask(a) != 0 && s.bps == 0 then s.(bps := a.pool(Ask(a))) else s
  }

  /** What the pool gives it. */
  function Lent(s: Session, a: AllocateEnv): nat {
    if s.quotaUsed && Ask(a) != 0 && s.bps == 0 then a.pool(Ask(a)) else 0
  }

  /** A session after an accepted Allocate has taken what it could get. */
  function Supplied(cfg: Config, s: Session, mobility: bool, a: AllocateEnv): Session {
    Shared(Inc(cfg, Unticketed(s, mobility), a.username, a.quota), a)
  }

  /** What the pool gives an accepted Allocate: nothing unless it has its unit. */
  function SupplyLends(cfg: Config, s: Session, mobility: bool, a: AllocateEnv): nat {
    Lent(Inc(cfg, Unticketed(s, mobility), a.username, a.quota), a)
  }

  /** A session after the part of handle_turn_allocate that takes resources. */
  function Allocated(cfg: Config, s: Session, mobility: bool, a: AllocateEnv): Session {
    var s1 := s.(isMobile := s.isMobile || (a.ticket && mobility));
    if a.accepted then Supplied(cfg, s1, mobility, a) else s1
  }

  function AllocateLends(cfg: Config, s: Session, mobility: bool, a: AllocateEnv): nat {
    if a.accepted then SupplyLends(cfg, s.(isMobile := s.isMobile || (a.ticket && mobility)), mobility, a) else 0
  }

  /** What that takes: at most one unit, and only when the callback agrees and the origin is pinned if it must be. */
  lemma AllocatedTakes(cfg: Config, s: Session, mobility: bool, a: AllocateEnv)
    ensures var s' := Allocated(cfg, s, mobility, a);
            && (s'.quotaUsed <==> s.quotaUsed || (a.accepted && a.quota && (cfg.longTerm ==> s.auth.originSet)))
            && (s'.quotaUsed && !s.quotaUsed ==> s'.auth.username == a.username)
            && (s.quotaUsed ==> s'.auth == s.auth) && s'.auth == s.auth.(username := s'.auth.username)
            && (s'.bps == s.bps || (s.bps == 0 && s'.quotaUsed && s'.bps == a.pool(Ask(a))))
            && s'.bps == s.bps + AllocateLends(cfg, s, mobility, a)
            && (a.accepted && s'.quotaUsed && s.bps == 0 && Ask(a) != 0 ==> s'.bps == a.pool(Ask(a)))
            && (s'.isMobile <==> s.isMobile || (a.ticket && mobility))
            && (a.accepted && mobility && !s'.isMobile ==> s'.mobileId == 0)
            && s'.id == s.id && (s'.mobileId == s.mobileId || s'.mobileId == 0)
  {
  }

  /** The tickets after it. */
  function AllocateTickets(s: Session, mobility: bool, a: AllocateEnv, mobile: map<nat, Ptr>): map<nat, Ptr> {
    if a.accepted && mobility && !s.isMobile && !a.ticket then mobile - {s.mobileId} else mobile
  }

  // ---- the gate ----

  /**
   A refresh by ticket: the ticket, whether its session is still open, whether the socket
   could be handed over, the quota answers and the random draws.
   */
  datatype RefreshEnv = RefreshEnv(mid: nat, present: bool, attached: bool, answers: (bool, bool, bool),
                                   draws: seq<nat>)

  /** The settings and the state of the session's allocation when a request arrives. */
  datatype CommandEnv = CommandEnv(auth: Env, noStun: bool, stunOnly: bool, secureStun: bool, mobility: bool,
                                   allocValid: bool,
                                   refused: bool, originRefused: bool, originRealm: Option<Bytes>,
                                   alloc: AllocateEnv, refresh: RefreshEnv)

  /** A Refresh that may carry a ticket: mobility is on and the session has no allocation. */
  predicate ByTicket(what: nat, c: CommandEnv) {
    what == REFRESH && c.mobility && !c.allocValid
  }

  /** Requests the gate does not check: plain Binding, ConnectionBind, and a Refresh by ticket. */
  predicate Exempt(what: nat, c: CommandEnv) {
    (what == BINDING && !c.secureStun) || what == CONNECTION_BIND || ByTicket(what, c)
  }

  /** Requests that are dropped or answered with an error before any credentials are looked at. */
  predicate Blocked(what: nat, c: CommandEnv, originSet: bool) {
    || (what == BINDING && c.noStun)
    || (what != BINDING && c.stunOnly)
    || ((what != BINDING || c.secureStun) && ((what == ALLOCATE && c.refused) || (originSet && c.originRefused)))
  }

  /** The credentials a request is held against; a first Allocate may name the realm by its origin. */
  function Asked(auth: Auth, what: nat, c: CommandEnv): Auth {
    if what == ALLOCATE && !auth.originSet && c.originRealm.Some? then auth.(realm := c.originRealm.value) else auth
  }

  /** Exactly these requests reach their handlers. */
  predicate Passes(cfg: Config, auth: Auth, msg: Bytes, what: nat, c: CommandEnv) {
    && !Blocked(what, c, auth.originSet)
    && (Exempt(what, c) || !cfg.longTerm || Credible(cfg, Asked(auth, what, c), msg, what, c.auth))
  }

  /** The credentials after the check, which pins the origin of a verified Allocate. */
  function Admitted(cfg: Config, auth: Auth, msg: Bytes, what: nat, env: Env, canResume: bool): Auth {
    var a := Checked(cfg, auth, msg, what, env, canResume);
    if cfg.longTerm && what == ALLOCATE && Credible(cfg, auth, msg, what, env) then a.(originSet := true) else a
  }

  /** The session's credentials behind the gate. */
  function Gated(cfg: Config, auth: Auth, msg: Bytes, what: nat, c: CommandEnv, canResume: bool): Auth {
    if Blocked(what, c, auth.originSet) then auth
    else if Exempt(what, c) then Asked(auth, what, c)
    else Admitted(cfg, Asked(auth, what, c), msg, what, c.auth, canResume)
  }

  /** A session after a request that is no refresh by ticket. */
  function Commanded(cfg: Config, s: Session, msg: Bytes, c: CommandEnv, canResume: bool): Session {
    if !IsRequest(msg) then s else
      var what := Method(msg);
      var g := s.(auth := Gated(cfg, s.auth, msg, what, c, canResume));
      if what == ALLOCATE && Passes(cfg, s.auth, msg, what, c) then Allocated(cfg, g, c.mobility, c.alloc) else g
  }

  // ---- key lookups and tickets ----

  /** What a key lookup brings back. */
  datatype KeyAnswer = KeyAnswer(success: bool, oauth: bool, key: Bytes, pwd: Bytes, realm: Bytes, answer: bool)

  /** A session that has learned its key; a new realm means a unit in that realm instead of the old one. */
  function Learned(cfg: Config, s: Session, k: KeyAnswer): Session {
    if !k.success then s else
      var s1 := s.(auth := s.auth.(key := k.key, keySet := true, oauth := k.oauth, pwd := k.pwd));
      if k.realm == [] || k.realm == s.auth.realm then s1
      else Inc(cfg, s1.(quotaUsed := false, auth := s1.auth.(realm := cfg.realmNamed(k.realm))), s1.auth.username,
               k.answer)
  }

  /** The session a ticket leads to, if the refresh of p by it can go on. */
  function Target(t: Table, mobile: map<nat, Ptr>, p: Ptr, r: RefreshEnv): (o: Option<Ptr>)
    ensures o.Some? ==> o.value in t && o.value != p && t[o.value].isMobile
  {
    if r.mid != 0 && r.mid in mobile && mobile[r.mid] in t && r.present && mobile[r.mid] != p &&
       t[mobile[r.mid]].isMobile
    then Some(mobile[r.mid]) else None
  }

  /** Session s when its refresh by o's ticket is checked: o's realm, and o's credentials if s has no key. */
  function Adopted(cfg: Config, s: Session, o: Session, r: RefreshEnv): (s': Session)
    ensures s' == s.(auth := s'.auth, quotaUsed := s'.quotaUsed)
  {
    var s1 := s.(auth := s.auth.(realm := cfg.realmNamed(o.auth.realm)));
    if s1.auth.keySet then s1 else Copied(cfg, s1, o.auth, r.answers.0)
  }

  /** What a key that was found makes of the session: key, password and flag, and the realm it came with. */
  lemma LearnedMeans(cfg: Config, s: Session, k: KeyAnswer)
    requires k.success
    ensures var a := Learned(cfg, s, k).auth;
            && a.key == k.key && a.keySet && a.pwd == k.pwd && a.oauth == k.oauth
            && a.nonce == s.auth.nonce && a.username == s.auth.username && a.originSet == s.auth.originSet
            && a.realm == if k.realm in {[], s.auth.realm} then s.auth.realm else cfg.realmNamed(k.realm)
  {
  }

  // ---- renaming a holder ----

  /** The check renames a session that holds a unit. */
  predicate CheckRenames(cfg: Config, s: Session, msg: Bytes, what: nat, env: Env, canResume: bool) {
    s.quotaUsed && Renames(cfg, s.auth, msg, what, env, canResume)
  }

  /** An Allocate names another realm by its origin while a unit is held and no origin is pinned. */
  predicate OriginRenames(s: Session, what: nat, c: CommandEnv) {
    s.quotaUsed && what == ALLOCATE && !s.auth.originSet && c.originRealm.Some? && c.originRealm.value != s.auth.realm
  }

  predicate GateRenames(cfg: Config, s: Session, msg: Bytes, what: nat, c: CommandEnv, canResume: bool) {
    && !Blocked(what, c, s.auth.originSet)
    && (OriginRenames(s, what, c)
        || (!Exempt(what, c) && CheckRenames(cfg, s.(auth := Asked(s.auth, what, c)), msg, what, c.auth, canResume)))
  }

  /** A refresh by ticket is neither checked nor changed by the gate. */
  lemma TicketGate(cfg: Config, s: Session, msg: Bytes, c: CommandEnv, canResume: bool)
    requires IsRequest(msg)
    ensures ByTicket(Method(msg), c) ==>
              && Gated(cfg, s.auth, msg, Method(msg), c, canResume) == s.auth
              && (Passes(cfg, s.auth, msg, Method(msg), c) <==> !Blocked(Method(msg), c, s.auth.originSet))
              && !GateRenames(cfg, s, msg, Method(msg), c, canResume)
  {
  }

  /** A refresh by the ticket of o writes o's realm, and then is checked. */
  predicate RefreshRenames(cfg: Config, s: Session, o: Session, r: RefreshEnv, msg: Bytes, env: Env, canResume: bool) {
    || (s.quotaUsed && cfg.realmNamed(o.auth.realm) != s.auth.realm)
    || CheckRenames(cfg, Adopted(cfg, s, o, r), msg, REFRESH, env, canResume)
  }

  predicate CommandRenames(cfg: Config, t: Table, mobile: map<nat, Ptr>, p: Ptr, msg: Bytes, c: CommandEnv,
                           canResume: bool)
    requires p in t
  {
    IsRequest(msg) &&
    var what := Method(msg);
    var o := Target(t, mobile, p, c.refresh);
    || GateRenames(cfg, t[p], msg, what, c, canResume)
    || (ByTicket(what, c) && !Blocked(what, c, t[p].auth.originSet) && o.Some?
        && RefreshRenames(cfg, t[p], t[o.value], c.refresh, msg, c.auth, canResume))
  }

  /** The answer to a lookup sets the flag of a session that holds a unit, or the message processed again renames it. */
  predicate AnswerRenames(cfg: Config, t: Table, mobile: map<nat, Ptr>, p: Ptr, k: KeyAnswer, msg: Bytes, c: CommandEnv)
    requires p in t
  {
    || (k.success && t[p].quotaUsed && k.oauth != t[p].auth.oauth)
    || CommandRenames(cfg, t[p := Learned(cfg, t[p], k)], mobile, p, msg, c, false)
  }

  // ---- the log of requests that were let in ----

  /** To a handler, past the check or exempt from it; a data connection that joined; a transfer by ticket. */
  datatype Kind = Dispatched(exempt: bool) | Joined | Moved

  /** In which event a message was let in for which session, with the nonce and key of that session. */
  datatype Handled = Handled(event: nat, p: Ptr, kind: Kind, msg: Bytes, nonce: Bytes, key: Bytes)

  function Entry(event: nat, p: Ptr, kind: Kind, msg: Bytes, a: Auth): Handled {
    Handled(event, p, kind, msg, a.nonce, a.key)
  }

  /** The transfer of s to o goes through. */
  predicate Moves(cfg: Config, s: Session, o: Session, r: RefreshEnv, msg: Bytes, env: Env) {
    r.attached && (!cfg.longTerm || Credible(cfg, Adopted(cfg, s, o, r).auth, msg, REFRESH, env))
  }

  /** What a request adds to the log. */
  function Entries(cfg: Config, i: nat, t: Table, mobile: map<nat, Ptr>, p: Ptr, msg: Bytes, c: CommandEnv,
                   canResume: bool): seq<Handled>
    requires p in t
  {
    if !IsRequest(msg) || !Passes(cfg, t[p].auth, msg, Method(msg), c) then [] else
      var what := Method(msg);
      var o := Target(t, mobile, p, c.refresh);
      [Entry(i, p, Dispatched(Exempt(what, c)), msg, Gated(cfg, t[p].auth, msg, what, c, canResume))] +
      if ByTicket(what, c) && o.Some? && Moves(cfg, t[p], t[o.value], c.refresh, msg, c.auth)
      then [Entry(i, p, Moved, msg,
                  Checked(cfg, Adopted(cfg, t[p], t[o.value], c.refresh).auth, msg, REFRESH, c.auth, canResume))]
      else []
  }

  /** What a data connection adds to it. */
  function JoinEntries(cfg: Config, i: nat, s: Session, p: Ptr, msg: Bytes, env: Env, canResume: bool): seq<Handled> {
    if !cfg.longTerm || Credible(cfg, s.auth, msg, CONNECTION_BIND, env)
    then [Entry(i, p, Joined, msg, Checked(cfg, s.auth, msg, CONNECTION_BIND, env, canResume))] else []
  }

  /** In long-term mode what is let in, unless exempt, carries the nonce noted and verifies under the key noted. */
  predicate Vetted(cfg: Config, h: Handled) {
    && (h.kind.Dispatched? ==> IsRequest(h.msg))
    && (h.kind == Dispatched(true) ==> Method(h.msg) in {BINDING, CONNECTION_BIND, REFRESH})
    && (cfg.longTerm && h.kind != Dispatched(true) ==> Verified(cfg, h.msg, h.nonce, h.key))
  }

  /** A verified Allocate: what a pinned origin rests on, here or in the session it was copied from. */
  predicate Vouches(cfg: Config, h: Handled) {
    h.kind == Dispatched(false) && cfg.longTerm && Vetted(cfg, h) && Method(h.msg) == ALLOCATE
  }

  /**
   The requests that a server with these settings answers without credentials: Binding unless
   secure-stun is on, ConnectionBind, and with mobility a Refresh without a valid allocation.
   */
  predicate Free(what: nat, c: CommandEnv) {
    || (what == BINDING && !c.secureStun)
    || what == CONNECTION_BIND
    || (what == REFRESH && c.mobility && !c.allocValid)
  }

  /** The request is of a kind that is turned on, not redirected or mismatched, and from the pinned origin. */
  predicate Admissible(what: nat, c: CommandEnv, originSet: bool) {
    && (c.noStun ==> what != BINDING) && (c.stunOnly ==> what == BINDING)
    && (what == ALLOCATE ==> !c.refused)
    && (originSet && (what != BINDING || c.secureStun) ==> !c.originRefused)
  }

  /** The gate opens for exactly these requests. */
  lemma GateOpens(cfg: Config, i: nat, t: Table, mobile: map<nat, Ptr>, p: Ptr, msg: Bytes, c: CommandEnv,
                  canResume: bool)
    requires p in t
    ensures Entries(cfg, i, t, mobile, p, msg, c, canResume) != [] <==>
            && IsRequest(msg) && Admissible(Method(msg), c, t[p].auth.originSet)
            && (Free(Method(msg), c) || !cfg.longTerm ||
                Credible(cfg, Asked(t[p].auth, Method(msg), c), msg, Method(msg), c.auth))
  {
    hide Credible, Asked, Gated, Checked, Moves, Target, Adopted, IsRequest;
  }

  /**
   A request that has none of the credentials yet, given the user name, the session's nonce and realm
   and then MESSAGE-INTEGRITY under its key, reaches its handler where the settings let it.
   */
  lemma ClientServed(cfg: Config, i: nat, t: Table, mobile: map<nat, Ptr>, p: Ptr, c: CommandEnv, canResume: bool,
                     m: Bytes, user: Bytes, signed: Bytes)
    requires p in t && IsRequest(signed) && Admissible(Method(signed), c, t[p].auth.originSet)
    requires WellFormed(m) && NoCredentials(Attributes(m)) && CommandLen(m).Some?
    requires IsMac(MacOf(cfg, t[p].auth.key), Sha1) && t[p].auth.keySet
    requires c.originRealm == None || t[p].auth.originSet || Method(signed) != ALLOCATE
    requires var a := t[p].auth;
             && AddIntegrityByKey(m, user, a.nonce, a.realm, MacOf(cfg, a.key)) == Some(signed)
             && 0 !in user && |user| <= 512 && cfg.secure(user, true) && (a.username == [] || a.username == user)
             && 0 !in a.nonce && 0 < |a.nonce| <= 127 && NonceNow(cfg, a, c.auth) == a.nonce
             && 0 !in a.realm && |a.realm| <= 127 && cfg.secure(a.realm, false)
    ensures Entries(cfg, i, t, mobile, p, signed, c, canResume) != []
  {
    hide AddIntegrityByKey, WellFormed, Attributes, CommandLen, IsMac, Credible, NonceNow, IsRequest, Entries, Free,
         Admissible;
    var a := t[p].auth;
    if cfg.longTerm {
      SignedAnswer(cfg, a, Method(signed), c.auth, canResume, m, user, a.nonce, a.realm, a.key, signed);
    }
    GateOpens(cfg, i, t, mobile, p, signed, c, canResume);
  }

  /**
   Every entry is for this session and this message, which the settings do not shut out.  In
   long-term mode a dispatched message is verified, unless it is one that the settings leave free.
   The key is the one the session had before, or for a transfer that of the ticket's session; the
   nonce is the session's current one.
   */
  lemma EntriesVetted(cfg: Config, i: nat, t: Table, mobile: map<nat, Ptr>, p: Ptr, msg: Bytes, c: CommandEnv,
                      canResume: bool, h: Handled)
    requires p in t && h in Entries(cfg, i, t, mobile, p, msg, c, canResume)
    ensures h.event == i && h.p == p && h.msg == msg && Vetted(cfg, h) && !h.kind.Joined?
    ensures h.kind.Dispatched? ==> h.key == t[p].auth.key
    ensures IsRequest(msg) && Admissible(Method(msg), c, t[p].auth.originSet)
    ensures h.kind.Dispatched? && cfg.longTerm && !Free(Method(msg), c) ==>
              h.kind == Dispatched(false) && Verified(cfg, msg, h.nonce, h.key) && HasKey(t[p].auth)
    ensures h.kind == Dispatched(false) && cfg.longTerm ==> h.nonce == NonceNow(cfg, t[p].auth, c.auth)
    ensures h.kind.Moved? ==> var o := Target(t, mobile, p, c.refresh);
                              && o.Some? && h.key == (if t[p].auth.keySet then t[p].auth.key else t[o.value].auth.key)
                              && (cfg.longTerm ==> HasKey(if t[p].auth.keySet then t[p].auth else t[o.value].auth))
  {
    hide IsRequest, Passes, Gated, Exempt, Target, Moves, Checked, Adopted, Vetted, NonceNow, Free, Admissible,
         Verified;
    var o := Target(t, mobile, p, c.refresh);
    GateOpens(cfg, i, t, mobile, p, msg, c, canResume);
    if h.kind.Moved? {
      MovedVetted(cfg, t[p], t[o.value], msg, c.refresh, c.auth, canResume, h);
    } else {
      DispatchVetted(cfg, t[p], msg, c, canResume, h);
    }
  }

  /** The entry of a request that passes the gate. */
  lemma DispatchVetted(cfg: Config, s: Session, msg: Bytes, c: CommandEnv, canResume: bool, h: Handled)
    requires IsRequest(msg) && Passes(cfg, s.auth, msg, Method(msg), c)
    requires var a := Gated(cfg, s.auth, msg, Method(msg), c, canResume);
             h == Entry(h.event, h.p, Dispatched(Exempt(Method(msg), c)), msg, a)
    ensures Vetted(cfg, h) && h.key == s.auth.key && Admissible(Method(msg), c, s.auth.originSet)
    ensures cfg.longTerm && !Free(Method(msg), c) ==>
              h.kind == Dispatched(false) && Verified(cfg, msg, h.nonce, h.key) && HasKey(s.auth)
    ensures h.kind == Dispatched(false) && cfg.longTerm ==> h.nonce == NonceNow(cfg, s.auth, c.auth)
  {
    hide Renames, Text, CheckIntegrity, RealmFits, UserFits, SameUser, Checked;
    CheckedNames(cfg, Asked(s.auth, Method(msg), c), msg, Method(msg), c.auth, canResume);
  }

  /** The entry of a transfer. */
  lemma MovedVetted(cfg: Config, s: Session, o: Session, msg: Bytes, r: RefreshEnv, env: Env, canResume: bool,
                    h: Handled)
    requires Moves(cfg, s, o, r, msg, env)
    requires var a := Checked(cfg, Adopted(cfg, s, o, r).auth, msg, REFRESH, env, canResume);
             h == Entry(h.event, h.p, Moved, msg, a)
    ensures Vetted(cfg, h) && h.key == if s.auth.keySet then s.auth.key else o.auth.key
    ensures cfg.longTerm ==> HasKey(if s.auth.keySet then s.auth else o.auth)
  {
    hide Renames, Text, CheckIntegrity, RealmFits, UserFits, SameUser, Checked;
    CheckedNames(cfg, Adopted(cfg, s, o, r).auth, msg, REFRESH, env, canResume);
  }

  // ---- pinned origins ----

  /** Refreshes by ticket aside, exactly an Allocate that passes in long-term mode pins an origin. */
  lemma PinsExactly(cfg: Config, s: Session, msg: Bytes, c: CommandEnv, canResume: bool)
    requires !s.auth.originSet
    ensures Commanded(cfg, s, msg, c, canResume).auth.originSet <==>
            cfg.longTerm && IsRequest(msg) && Method(msg) == ALLOCATE && Passes(cfg, s.auth, msg, ALLOCATE, c)
  {
    hide Renames, Credible, Checked, IsRequest;
    if IsRequest(msg) {
      var what := Method(msg);
      CheckedNames(cfg, Asked(s.auth, what, c), msg, what, c.auth, canResume);
      AllocatedTakes(cfg, s.(auth := Gated(cfg, s.auth, msg, what, c, canResume)), c.mobility, c.alloc);
    }
  }

  /** A request that is no refresh by ticket pins an origin exactly as a verified Allocate that is let in. */
  lemma PinnedByAllocate(cfg: Config, i: nat, t: Table, mobile: map<nat, Ptr>, p: Ptr, msg: Bytes, c: CommandEnv,
                         canResume: bool)
    requires p in t && !t[p].auth.originSet && Commanded(cfg, t[p], msg, c, canResume).auth.originSet
    ensures exists h :: h in Entries(cfg, i, t, mobile, p, msg, c, canResume) && h.p == p && Vouches(cfg, h)
  {
    hide Renames, Credible, Checked, Target, Vetted, Moves, Exempt, Blocked;
    var what := Method(msg);
    CheckedNames(cfg, Asked(t[p].auth, what, c), msg, what, c.auth, canResume);
    AllocatedTakes(cfg, t[p].(auth := Gated(cfg, t[p].auth, msg, what, c, canResume)), c.mobility, c.alloc);
    var h := Entries(cfg, i, t, mobile, p, msg, c, canResume)[0];
    EntriesVetted(cfg, i, t, mobile, p, msg, c, canResume, h);
  }
}
