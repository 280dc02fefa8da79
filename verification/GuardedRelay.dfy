/**
 A session together with its allocation.  The server handles events for any sessions; the
 CreatePermission and ChannelBind requests of one session that pass the gate act on that
 session's allocation, whose own timers and teardown run in between.  Every permission the
 allocation holds then goes back to a verified message of its session.
 */
module GuardedRelay {
  import opened Basics
  import opened Addresses
  import opened AllocState
  import opened Allocations
  import opened StunBytes
  import opened StunBuild
  import opened Sessions
  import opened Authentication
  import opened SessionSteps
  import opened ServerEvents
  import opened Servers
  import P = PeerRequests
  import R = Relay
  import S = ServerRuns

  /**
   An event of the server, with what the handlers of peer requests read from its message and find
   at that moment; or something that happens to the allocation by itself.
   */
  datatype Step =
    | Handle(e: Event, bind: P.BindArgs, create: P.CreateArgs)
    | Own(own: R.Event)

  /** The server before event n, and the allocation. */
  datatype View = View(n: nat, x: World, a: Tables)

  /** The event's message is a request of session p that goes to its handler. */
  predicate Reaches(cfg: Config, p: Ptr, v: View, e: Event) {
    S.Passed(cfg, v.n, v.x, e) && S.Requester(v.x, e) == p && IsRequest(e.msg)
  }

  /** Session p goes, and its allocation with it. */
  predicate Ends(p: Ptr, v: View, e: Event) {
    e.Close? && e.p == p && p in v.x.table && !Stays(v.x.table[p], e.force, e.allocValid)
  }

  /** What a step does to the allocation of session p. */
  function Acts(cfg: Config, p: Ptr, v: View, step: Step): Option<R.Event> {
    match step
    case Own(e) => if e.BindEvent? || e.CreateEvent? then None else Some(e)
    case Handle(e, bind, create) =>
      if Ends(p, v, e) then Some(R.TeardownEvent)
      else if Reaches(cfg, p, v, e) && Method(e.msg) == CREATE_PERMISSION then Some(R.CreateEvent(create))
      else if Reaches(cfg, p, v, e) && Method(e.msg) == CHANNEL_BIND then Some(R.BindEvent(bind))
      else None
  }

  ghost predicate Goes(cfg: Config, bucket: Ip -> nat, p: Ptr, v: View, step: Step, w: View) {
    && (if step.Own? then w.n == v.n && w.x == v.x else w.n == v.n + 1 && Stepped(cfg, v.n, v.x, step.e, w.x))
    && var act := Acts(cfg, p, v, step);
       if act.Some? then R.Effect(bucket, v.a, act.value, w.a) else w.a == v.a
  }

  ghost function Look(s: Server, a: Allocation): View
    reads s, a
  {
    View(s.clock, S.Look(s), a.Now())
  }

  /** One step: the server first, then the handler on the allocation if the gate let the request through. */
  method Happen(s: Server, a: Allocation, p: Ptr, step: Step)
    requires s.Valid() && a.Valid()
    modifies s, a
    ensures s.Valid() && a.Valid() && Goes(s.cfg, a.bucket, p, old(Look(s, a)), step, Look(s, a))
  {
    hide Server.Valid, Stepped, R.Effect, Occurs, EventEntries, IsRequest, Consistent, Stored, Addressed;
    match step {
      case Own(e) =>
        if !e.BindEvent? && !e.CreateEvent? {
          R.Happen(a, e);
        }
      case Handle(e, bind, create) =>
        var ends := e.Close? && e.p == p && p in s.table && !Stays(s.table[p], e.force, e.allocValid);
        var own := (e.Command? && e.p == p) || (e.KeyFound? && e.id in s.sessions && s.sessions[e.id] == p);
        var pass := S.Happen(s, e);
        if pass {
          S.OccursIn(s.cfg, old(S.Look(s)), e);
        }
        if ends {
          R.Happen(a, R.TeardownEvent);
        } else if pass && own && IsRequest(e.msg) && Method(e.msg) == CREATE_PERMISSION {
          R.Happen(a, R.CreateEvent(create));
        } else if pass && own && IsRequest(e.msg) && Method(e.msg) == CHANNEL_BIND {
          R.Happen(a, R.BindEvent(bind));
        }
    }
  }

  ghost predicate IsRun(cfg: Config, bucket: Ip -> nat, p: Ptr, trace: seq<View>, steps: seq<Step>) {
    && |trace| == |steps| + 1 && trace[0].n == 0 && trace[0].x == NOTHING && (forall r :: !LivePerm(trace[0].a.t, r))
    && forall i :: 0 <= i < |steps| ==> Goes(cfg, bucket, p, trace[i], steps[i], trace[i + 1])
  }

  /** The message was let in for session p past the check: in long-term mode verified with its nonce and key. */
  ghost predicate Vouched(cfg: Config, p: Ptr, v: View, e: Event) {
    Occurs(cfg, v.x, e) &&
    exists h :: h in EventEntries(cfg, v.n, v.x, e) &&
                h.kind == Dispatched(false) && h.p == p && S.OfEvent(cfg, v.x, e, h)
  }

  /** The step is such a request of session p, which lists the IP and whose own filter lets it through. */
  ghost predicate Permits(cfg: Config, p: Ptr, v: View, step: Step, ip: Ip) {
    && step.Handle? && Reaches(cfg, p, v, step.e) && Method(step.e.msg) in {CREATE_PERMISSION, CHANNEL_BIND}
    && Vouched(cfg, p, v, step.e)
    && var act := Acts(cfg, p, v, step); act.Some? && R.LetsThrough(act.value, ip)
  }

  lemma ReachesVouched(cfg: Config, p: Ptr, v: View, e: Event)
    requires Reaches(cfg, p, v, e) && Method(e.msg) in {CREATE_PERMISSION, CHANNEL_BIND}
    ensures Vouched(cfg, p, v, e)
  {
    hide EventEntries, Occurs, IsRequest, S.OfEvent;
    var h := EventEntries(cfg, v.n, v.x, e)[0];
    S.GuardedEntry(cfg, v.n, v.x, e, h);
    S.EntryOfEvent(cfg, v.n, v.x, e, h);
    OfRequester(cfg, v.x, e, h);
  }

  lemma OfRequester(cfg: Config, x: World, e: Event, h: Handled)
    requires (e.Command? || e.KeyFound?) && S.OfEvent(cfg, x, e, h)
    ensures (e.Command? || e.id in x.sessions) && h.p == S.Requester(x, e)
  {
    hide Vetted;
  }

  /** A permission that becomes live is permitted by that very step; one that stays keeps its IP. */
  lemma StepInstalls(cfg: Config, bucket: Ip -> nat, p: Ptr, v: View, step: Step, w: View, r: Ref)
    requires Goes(cfg, bucket, p, v, step, w) && LivePerm(w.a.t, r)
    ensures if LivePerm(v.a.t, r) then w.a.t[r].ip == v.a.t[r].ip else Permits(cfg, p, v, step, w.a.t[r].ip)
  {
    hide R.Effect, Stepped, S.Passed, IsRequest, Stays, Vouched;
    var act := Acts(cfg, p, v, step);
    if act.Some? {
      R.EventInstalls(bucket, v.a, act.value, w.a, r);
      if !LivePerm(v.a.t, r) {
        ReachesVouched(cfg, p, v, step.e);
      }
    }
  }

  ghost predicate Accepted(r: P.CreateArgs) {
    P.CreateRequest(r.attrs, r.relays, r.good)
  }

  /**
   A CreatePermission of session p that passes the gate and validation gives every listed IP its
   permission while there is room, and a ChannelBind that is answered with success binds its channel.
   */
  lemma RequestActs(cfg: Config, bucket: Ip -> nat, p: Ptr, v: View, step: Step, w: View)
    requires Goes(cfg, bucket, p, v, step, w) && step.Handle? && S.Passed(cfg, v.n, v.x, step.e) && v.a.valid
    requires S.Requester(v.x, step.e) == p && IsRequest(step.e.msg)
    ensures Method(step.e.msg) == CREATE_PERMISSION && Accepted(step.create) ==>
              forall ip :: ip in P.Listed(step.create.attrs) ==>
                P.Permitted(w.a.t, ip) || (bucket(ip) < |w.a.size| && Refuses(w.a.t, w.a.size, bucket(ip)))
    ensures Method(step.e.msg) == CHANNEL_BIND ==> exists reply :: P.BindEffect(bucket, v.a, step.bind, reply, w.a)
  {
    hide Stepped, EventEntries, Occurs, IsRequest, P.BindEffect, P.CreateRequest, P.Refreshed, P.Installs,
         P.InstallReply;
    var act := Acts(cfg, p, v, step);
    if Method(step.e.msg) == CREATE_PERMISSION && Accepted(step.create) {
      assert act == Some(R.CreateEvent(step.create));
      var reply :| P.CreateEffect(bucket, v.a, step.create, reply, w.a);
    }
  }

  /** The permission in slot r became live by step i of the run, and has been live with its IP ever since. */
  ghost predicate PermittedBy(cfg: Config, p: Ptr, trace: seq<View>, steps: seq<Step>, r: Ref, i: nat)
    requires |trace| == |steps| + 1
  {
    && i < |steps| && !LivePerm(trace[i].a.t, r) && LivePerm(trace[|steps|].a.t, r)
    && (forall j :: i < j <= |steps| ==> LivePerm(trace[j].a.t, r) && trace[j].a.t[r].ip == trace[|steps|].a.t[r].ip)
    && Permits(cfg, p, trace[i], steps[i], trace[|steps|].a.t[r].ip)
  }

  /** Every live permission goes back to a verified request of its session. */
  lemma {:induction false} Permitted(cfg: Config, bucket: Ip -> nat, p: Ptr, trace: seq<View>, steps: seq<Step>, r: Ref)
    returns (i: nat)
    requires IsRun(cfg, bucket, p, trace, steps) && LivePerm(trace[|steps|].a.t, r)
    ensures PermittedBy(cfg, p, trace, steps, r, i)
    decreases |steps|
  {
    hide Goes, Permits;
    var last := |steps| - 1;
    StepInstalls(cfg, bucket, p, trace[last], steps[last], trace[last + 1], r);
    if LivePerm(trace[last].a.t, r) {
      i := Permitted(cfg, bucket, p, trace[..last + 1], steps[..last], r);
    } else {
      i := last;
    }
  }

  /**
   Every run of a server and the allocation of one of its sessions: each live permission of the
   allocation was installed by a CreatePermission or ChannelBind request of that session which was
   let in past the check, carries the session's nonce and verifies under its key in long-term mode,
   lists the IP, and whose own filter let the IP through.
   */
  method Run(cfg: Config, bucket: Ip -> nat, p: Ptr, steps: seq<Step>)
    returns (s: Server, a: Allocation, ghost trace: seq<View>)
    requires forall ip :: bucket(ip) < HASH_SIZE
    ensures fresh(s) && fresh(a) && s.Valid() && a.Valid() && s.cfg == cfg && a.bucket == bucket
    ensures IsRun(cfg, bucket, p, trace, steps) && trace[|steps|] == Look(s, a)
    ensures forall r :: LivePerm(a.T, r) ==> exists i :: PermittedBy(cfg, p, trace, steps, r, i)
  {
    hide Server.Valid, Goes, Permits, Consistent, Stored, Addressed;
    s := new Server(cfg);
    a := new Allocation(bucket);
    trace := [Look(s, a)];
    for i := 0 to |steps|
      invariant fresh(s) && fresh(a) && s.Valid() && a.Valid() && s.cfg == cfg && a.bucket == bucket
      invariant |trace| == i + 1 && trace[i] == Look(s, a) && IsRun(cfg, bucket, p, trace, steps[..i])
    {
      Happen(s, a, p, steps[i]);
      trace := trace + [Look(s, a)];
    }
    assert steps[..|steps|] == steps;
    forall r | LivePerm(a.T, r)
      ensures exists i :: PermittedBy(cfg, p, trace, steps, r, i)
    {
      var _ := Permitted(cfg, bucket, p, trace, steps, r);
    }
  }
}
