/**
 The events of a relay server: new sessions, requests, late answers to key lookups, data
 connections and shutdowns.  After gives the server's tables, books and logs after an event
 as a function of what they were before it, and a run is a trace of such steps.
 */
module ServerEvents {
  import opened Crc32
  import opened StunBytes
  import opened StunBuild
  import opened Sessions
  import opened Authentication
  import opened SessionSteps
  import opened Outcomes

  datatype Event =
    | New(p: Ptr, realm: Bytes, mobility: bool, draws: seq<nat>)
    | Command(p: Ptr, msg: Bytes, c: CommandEnv)
    | KeyFound(id: nat, k: KeyAnswer, msg: Bytes, c: CommandEnv)
    | Data(p: Ptr, msg: Bytes, env: Env, canResume: bool)
    | Close(p: Ptr, force: bool, allocValid: bool)

  datatype World = World(counter: nat, table: Table, sessions: map<nat, Ptr>, mobile: map<nat, Ptr>,
                         grants: multiset<Name>, releases: multiset<Name>, bpsOut: nat, bpsBack: nat,
                         handled: seq<Handled>, ran: seq<Handled>, renamed: bool)

  /** The requests whose handlers take resources or act for the session on its allocation. */
  const GUARDED: set<nat> := {ALLOCATE, CREATE_PERMISSION, CHANNEL_BIND, CONNECT}

  /** Events that name no session do not happen, nor those for which the random draws never make a ticket. */
  predicate Occurs(cfg: Config, x: World, e: Event) {
    match e
    case New(p, _, _, draws) => p !in x.table && Draws(cfg.id, x.mobile, draws)
    case Command(p, _, c) => p in x.table && Draws(cfg.id, x.mobile, c.refresh.draws)
    case KeyFound(id, _, _, c) =>
      id in x.sessions && x.sessions[id] in x.table && Draws(cfg.id, x.mobile, c.refresh.draws)
    case Data(p, _, _, _) => p in x.table
    case Close(p, _, _) => p in x.table
  }

  /** The table a late answer leaves for its message to be processed again. */
  function LearnedTable(cfg: Config, x: World, id: nat, k: KeyAnswer): Table
    requires id in x.sessions && x.sessions[id] in x.table
  {
    x.table[x.sessions[id] := Learned(cfg, x.table[x.sessions[id]], k)]
  }

  /** The messages an event lets in. */
  function EventEntries(cfg: Config, i: nat, x: World, e: Event): seq<Handled>
    requires Occurs(cfg, x, e)
  {
    match e
    case Command(p, msg, c) => Entries(cfg, i, x.table, x.mobile, p, msg, c, true)
    case KeyFound(id, k, msg, c) =>
      Entries(cfg, i, LearnedTable(cfg, x, id, k), x.mobile, x.sessions[id], msg, c, false)
    case Data(p, msg, env, canResume) => JoinEntries(cfg, i, x.table[p], p, msg, env, canResume)
    case _ => []
  }

  /** The event renames a session that holds a unit of quota. */
  predicate EventRenames(cfg: Config, x: World, e: Event)
    requires Occurs(cfg, x, e)
  {
    match e
    case Command(p, msg, c) => CommandRenames(cfg, x.table, x.mobile, p, msg, c, true)
    case KeyFound(id, k, msg, c) => AnswerRenames(cfg, x.table, x.mobile, x.sessions[id], k, msg, c)
    case Data(p, msg, env, canResume) => CheckRenames(cfg, x.table[p], msg, CONNECTION_BIND, env, canResume)
    case _ => false
  }

  /** The event is a request with a guarded handler. */
  predicate ForGuarded(e: Event) {
    (e.Command? || e.KeyFound?) && IsRequest(e.msg) && Method(e.msg) in GUARDED
  }

  /** A mobile session whose connection is closed stays for its owner to come back. */
  predicate Stays(s: Session, force: bool, allocValid: bool) {
    !force && allocValid && s.isMobile
  }

  /** What an event makes of table and tickets, and the units and the bandwidth it takes and gives back. */
  function EventOutcome(cfg: Config, x: World, e: Event): Outcome
    requires Occurs(cfg, x, e)
  {
    match e
    case New(p, realm, mobility, draws) =>
      var m := if mobility then Drawn(cfg.id, x.mobile, draws) else 0;
      Same(x.table[p := NewSession(cfg, x.counter + 1, m, realm)], if mobility then x.mobile[m := p] else x.mobile)
    case Command(p, msg, c) => AfterCommand(cfg, x.table, x.mobile, p, msg, c, true)
    case KeyFound(id, k, msg, c) => AfterAnswer(cfg, x.table, x.mobile, x.sessions[id], k, msg, c)
    case Data(p, msg, env, canResume) =>
      var s := x.table[p];
      Same(x.table[p := s.(auth := Checked(cfg, s.auth, msg, CONNECTION_BIND, env, canResume))], x.mobile)
    case Close(p, force, allocValid) =>
      var s := x.table[p];
      if Stays(s, force, allocValid)
      then Outcome(x.table[p := s.(quotaUsed := false, bps := 0)], x.mobile, multiset{}, Units(s), 0, s.bps)
      else Outcome(x.table - {p}, x.mobile - {s.mobileId}, multiset{}, Units(s), 0, s.bps)
  }

  /** The session map after an event. */
  function EventSessions(cfg: Config, x: World, e: Event): map<nat, Ptr>
    requires Occurs(cfg, x, e)
  {
    match e
    case New(p, _, _, _) => x.sessions[SessionId(cfg.id, x.counter + 1) := p]
    case Close(p, force, allocValid) =>
      if Stays(x.table[p], force, allocValid) then x.sessions else x.sessions - {x.table[p].id}
    case _ => x.sessions
  }

  /** The whole state after event i of a run. */
  function After(cfg: Config, i: nat, x: World, e: Event): World
    requires Occurs(cfg, x, e)
  {
    var out := EventOutcome(cfg, x, e);
    var entries := EventEntries(cfg, i, x, e);
    World(if e.New? then x.counter + 1 else x.counter, out.table, EventSessions(cfg, x, e), out.mobile,
          x.grants + out.took, x.releases + out.gave, x.bpsOut + out.lent, x.bpsBack + out.back,
          x.handled + entries, x.ran + (if ForGuarded(e) then entries else []), x.renamed || EventRenames(cfg, x, e))
  }

  /** Event i of a run takes the server from x to y. */
  predicate Stepped(cfg: Config, i: nat, x: World, e: Event, y: World) {
    y == if Occurs(cfg, x, e) then After(cfg, i, x, e) else x
  }

  const NOTHING := World(0, map[], map[], map[], multiset{}, multiset{}, 0, 0, [], [], false)

  ghost predicate IsRun(cfg: Config, trace: seq<World>, events: seq<Event>) {
    && |trace| == |events| + 1 && trace[0] == NOTHING
    && forall i :: 0 <= i < |events| ==> Stepped(cfg, i, trace[i], events[i], trace[i + 1])
  }
}
