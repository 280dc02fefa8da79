/**
 rtcp_map of src/server/ns_turn_maps_rtcp.c over the ur_map it uses.  Each method is one
 stretch of code under the mutex and makes one step of Reservations.Moves.  The clock and
 the outcome of the allocations are parameters.
 */
module RtcpMaps {
  import opened Basics
  import opened AllocState
  import opened Probing
  import opened UrMaps
  import opened Reservations

  class RtcpMap {
    const entries: UrMap<Reserved>
    var valid: bool
    var tokens: seq<Key>
    var at: Time
    ghost var handed: set<Socket>
    ghost var closed: seq<Socket>
    ghost var lost: set<Socket>

    ghost predicate Valid()
      reads this, entries.h, entries.h.keys, entries.h.used
    {
      entries.Valid()
    }

    ghost function State(): State
      reads this, entries.h
    {
      Reservations.State.State(valid, if valid then entries.Contents() else map[], tokens, at, handed, closed, lost)
    }

    /** rtcp_map_create */
    constructor ()
      ensures Valid() && State() == INIT
      ensures fresh(entries.h) && fresh(entries.h.keys) && fresh(entries.h.used)
    {
      entries := new UrMap();
      valid, tokens, at := true, [], 0;
      handed, closed, lost := {}, [], {};
    }

    /** rtcp_map_put */
    method Put(token: Key, s: Socket, now: Time, memory: bool) returns (ok: bool)
      requires Valid()
      modifies this, entries.h, entries.h.keys, entries.h.used
      ensures Valid()
      ensures entries.h.keys == old(entries.h.keys) || fresh(entries.h.keys)
      ensures entries.h.used == old(entries.h.used) || fresh(entries.h.used)
      ensures Moves(old(State()), Step.Put(token, s, now, ok), State())
      ensures memory && valid && |old(State()).held| < CAPACITY ==> ok
      ensures ok ==> memory
    {
      if !valid || !memory {
        return false;
      }
      ghost var held := entries.Contents();
      ok := entries.Put(token, Reserved(s, Later(now, RTCP_TIMEOUT)), memory);
      if ok && token in held {
        lost := lost + {held[token].s};
      }
    }

    /** rtcp_map_get, with rtcp_map_del_savefd: the caller gets the socket and the entry goes. */
    method Take(token: Key) returns (r: Option<Socket>)
      requires Valid()
      modifies this, entries.h, entries.h.keys, entries.h.used
      ensures Valid() && entries.h.keys == old(entries.h.keys) && entries.h.used == old(entries.h.used)
      ensures Moves(old(State()), Step.Take(token, r), State())
    {
      r := None;
      if valid {
        var value := entries.Get(token);
        if value.Some? {
          r := Some(value.value.s);
          var _ := entries.Del(token);
          handed := handed + {value.value.s};
        }
      }
    }

    /** The first part of rtcp_map_timeout_handler: timeout_check on each entry, under the mutex. */
    method Scan(now: Time)
      requires Valid() && tokens == []
      modifies this
      ensures Valid()
      ensures Moves(old(State()), Step.Scan(now), State())
    {
      if valid {
        var items := entries.Foreach();
        tokens := Expired(items, now, entries.Contents());
        at := now;
      }
    }

    /** One round of its second part: rtcp_map_del of the next token, which closes the socket. */
    method Reap()
      requires Valid() && tokens != []
      modifies this, entries.h, entries.h.keys, entries.h.used
      ensures Valid() && entries.h.keys == old(entries.h.keys) && entries.h.used == old(entries.h.used)
      ensures Moves(old(State()), Step.Reap, State())
    {
      hide Places, Chained, Holds;
      if valid {
        var value := entries.Del(tokens[0]);
        if value.Some? {
          closed := closed + [value.value.s];
        }
      }
      tokens := tokens[1..];
    }

    /** rtcp_map_free: foreachcb_free closes what is left. */
    method Free()
      requires Valid()
      modifies this
      ensures Valid()
      ensures Moves(old(State()), Step.Free, State())
    {
      hide Places, Chained, Holds, ClosesAll, Enumerates;
      if valid {
        var items := entries.Foreach();
        var log := Close(items, entries.Contents());
        closed := closed + log;
        valid := false;
        assert closed[|old(closed)|..] == log;
      }
    }
  }

  /** What timeout_check has noted of the first i entries. */
  ghost predicate Noted(items: seq<Entry<Key, Reserved>>, i: nat, now: Time, tokens: seq<Key>)
    requires i <= |items|
  {
    && |tokens| <= MAX_TOKEN_DEL
    && (forall k :: k in tokens ==> exists j :: 0 <= j < i && items[j].key == k && Before(items[j].val.t, now))
    && (forall a, b :: 0 <= a < b < |tokens| ==> tokens[a] != tokens[b])
    && (|tokens| < MAX_TOKEN_DEL ==> forall j :: 0 <= j < i && Before(items[j].val.t, now) ==> items[j].key in tokens)
  }

  lemma NotedSkip(items: seq<Entry<Key, Reserved>>, i: nat, now: Time, tokens: seq<Key>)
    requires i < |items| && Noted(items, i, now, tokens)
    requires !Before(items[i].val.t, now) || |tokens| == MAX_TOKEN_DEL
    ensures Noted(items, i + 1, now, tokens)
  {
  }

  lemma NotedNext(items: seq<Entry<Key, Reserved>>, i: nat, now: Time, tokens: seq<Key>)
    requires i < |items| && Noted(items, i, now, tokens) && Before(items[i].val.t, now) && |tokens| < MAX_TOKEN_DEL
    requires forall a, b :: 0 <= a < b < |items| ==> items[a].key != items[b].key
    ensures Noted(items, i + 1, now, tokens + [items[i].key])
  {
    var more := tokens + [items[i].key];
    assert more[|tokens|] == items[i].key;
    forall j | 0 <= j < i + 1 && Before(items[j].val.t, now)
      ensures items[j].key in more
    {
      if j < i {
        assert items[j].key in tokens;
      }
    }
    forall k | k in more
      ensures exists j :: 0 <= j < i + 1 && items[j].key == k && Before(items[j].val.t, now)
    {
      if k in tokens {
        var j :| 0 <= j < i && items[j].key == k && Before(items[j].val.t, now);
      }
    }
    assert items[i].key !in tokens;
  }

  /** timeout_check on each entry: its token is noted when its deadline has passed and there is room. */
  method Expired(items: seq<Entry<Key, Reserved>>, now: Time, ghost held: map<Key, Reserved>) returns (tokens: seq<Key>)
    requires Enumerates(items, held)
    ensures Listed(held, now, tokens)
  {
    hide Noted;
    tokens := [];
    assert Noted(items, 0, now, []) by { NotedNone(items, now); }
    for i := 0 to |items|
      invariant Noted(items, i, now, tokens) && |tokens| <= MAX_TOKEN_DEL
    {
      if Before(items[i].val.t, now) && |tokens| < MAX_TOKEN_DEL {
        NotedNext(items, i, now, tokens);
        tokens := tokens + [items[i].key];
      } else {
        NotedSkip(items, i, now, tokens);
      }
    }
    NotedAll(items, now, held, tokens);
  }

  lemma NotedNone(items: seq<Entry<Key, Reserved>>, now: Time)
    ensures Noted(items, 0, now, [])
  {
  }

  lemma NotedAll(items: seq<Entry<Key, Reserved>>, now: Time, held: map<Key, Reserved>, tokens: seq<Key>)
    requires Enumerates(items, held) && Noted(items, |items|, now, tokens)
    ensures Listed(held, now, tokens)
  {
  }

  /** foreachcb_free on each entry, in order. */
  method Close(items: seq<Entry<Key, Reserved>>, ghost held: map<Key, Reserved>) returns (log: seq<Socket>)
    requires Enumerates(items, held)
    ensures ClosesAll(held, log)
  {
    log := [];
    for i := 0 to |items|
      invariant log == seq(i, j requires 0 <= j < i => items[j].val.s)
    {
      log := log + [items[i].val.s];
    }
    LogCloses(items, held, log);
  }

  lemma LogCloses(items: seq<Entry<Key, Reserved>>, held: map<Key, Reserved>, log: seq<Socket>)
    requires Enumerates(items, held) && |log| == |items| && forall i :: 0 <= i < |items| ==> log[i] == items[i].val.s
    ensures ClosesAll(held, log)
  {
  }

  datatype Call =
    | PutCall(token: Key, s: Socket, now: Time, memory: bool)
    | TakeCall(token: Key)
    | ScanCall(now: Time)
    | ReapCall
    | FreeCall

  /**
   The step a call makes in state x, if it makes one: the timer scans only when it has deleted
   what it listed, and deletes only what it has listed.
   */
  ghost predicate Makes(x: State, call: Call, step: Option<Step>) {
    match call
    case PutCall(token, s, now, memory) =>
      && step.Some? && step.value.Put? && step.value == Step.Put(token, s, now, step.value.ok)
      && (memory && x.open && |x.held| < CAPACITY ==> step.value.ok) && (step.value.ok ==> memory)
    case TakeCall(token) => step.Some? && step.value.Take? && step.value.token == token
    case ScanCall(now) => step == if x.pending == [] then Some(Step.Scan(now)) else None
    case ReapCall => step == if x.pending != [] then Some(Step.Reap) else None
    case FreeCall => step == Some(Step.Free)
  }

  /** A call takes the map from x to y by the step it makes. */
  ghost predicate Calls(x: State, call: Call, step: Option<Step>, y: State) {
    Makes(x, call, step) && if step.Some? then Moves(x, step.value, y) else y == x
  }

  /** One call. */
  method Perform(m: RtcpMap, call: Call) returns (ghost step: Option<Step>)
    requires m.Valid()
    modifies m, m.entries.h, m.entries.h.keys, m.entries.h.used
    ensures m.Valid()
    ensures m.entries.h.keys == old(m.entries.h.keys) || fresh(m.entries.h.keys)
    ensures m.entries.h.used == old(m.entries.h.used) || fresh(m.entries.h.used)
    ensures Calls(old(m.State()), call, step, m.State())
  {
    hide Moves, UrMap.Valid;
    step := None;
    match call {
      case PutCall(token, s, now, memory) =>
        var ok := m.Put(token, s, now, memory);
        step := Some(Step.Put(token, s, now, ok));
      case TakeCall(token) =>
        var r := m.Take(token);
        step := Some(Step.Take(token, r));
      case ScanCall(now) =>
        if m.tokens == [] {
          m.Scan(now);
          step := Some(Step.Scan(now));
        }
      case ReapCall =>
        if m.tokens != [] {
          m.Reap();
          step := Some(Step.Reap);
        }
      case FreeCall =>
        m.Free();
        step := Some(Step.Free);
    }
  }

  /** The steps that were made, in order. */
  ghost function StepsOf(made: seq<Option<Step>>): seq<Step> {
    if made == [] then [] else
      var last := made[|made| - 1];
      StepsOf(made[..|made| - 1]) + if last.Some? then [last.value] else []
  }

  /** The calls took a new map through these states, each by the step made for it. */
  ghost predicate AreCalls(zs: seq<State>, calls: seq<Call>, made: seq<Option<Step>>) {
    && |zs| == |calls| + 1 == |made| + 1 && zs[0] == INIT
    && forall i :: 0 <= i < |calls| ==> Calls(zs[i], calls[i], made[i], zs[i + 1])
  }

  lemma AreCallsExtend(zs: seq<State>, calls: seq<Call>, i: nat, made: seq<Option<Step>>, step: Option<Step>, z: State)
    requires i < |calls| && AreCalls(zs, calls[..i], made) && Calls(zs[i], calls[i], step, z)
    ensures AreCalls(zs + [z], calls[..i + 1], made + [step])
    ensures StepsOf(made + [step]) == StepsOf(made) + if step.Some? then [step.value] else []
  {
    hide Calls;
    assert (made + [step])[..|made|] == made;
  }

  /**
   Any sequence of calls on a new map is a run of the steps that these calls make, so what holds of
   every run holds of it.
   */
  method Run(calls: seq<Call>)
    returns (m: RtcpMap, ghost zs: seq<State>, ghost made: seq<Option<Step>>, ghost xs: seq<State>,
             ghost steps: seq<Step>)
    ensures AreCalls(zs, calls, made) && steps == StepsOf(made)
    ensures IsRun(xs, steps) && xs[|steps|] == zs[|calls|] == m.State()
    ensures DistinctSockets(steps) ==> Accounted(m.State(), ReservedIn(steps))
    ensures FreshTokens(xs, steps) ==> m.lost == {} && forall i :: 0 <= i < |steps| ==> !ClosesEarly(xs[i], steps[i])
  {
    hide Makes, Moves, Accounted, FreshToken, ClosesEarly, UrMap.Valid, StepsOf;
    m := new RtcpMap();
    zs, made, xs, steps := [m.State()], [], [m.State()], [];
    NoSteps();
    for i := 0 to |calls|
      invariant m.Valid() && fresh(m) && fresh(m.entries.h) && fresh(m.entries.h.keys) && fresh(m.entries.h.used)
      invariant AreCalls(zs, calls[..i], made) && zs[i] == m.State() && steps == StepsOf(made)
      invariant IsRun(xs, steps) && xs[|steps|] == m.State()
    {
      ghost var step := Perform(m, calls[i]);
      AreCallsExtend(zs, calls, i, made, step, m.State());
      zs, made := zs + [m.State()], made + [step];
      if step.Some? {
        xs, steps := xs + [m.State()], steps + [step.value];
      }
    }
    assert calls[..|calls|] == calls;
    if DistinctSockets(steps) {
      RunAccounted(xs, steps);
    }
    if FreshTokens(xs, steps) {
      RunTimely(xs, steps);
    }
  }

  lemma NoSteps()
    ensures StepsOf([]) == []
  {
  }
}
