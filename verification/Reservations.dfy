/**
 Reserved sockets (src/server/ns_turn_maps_rtcp.c): a map from reservation token to
 socket and deadline, and a timer that first lists the tokens past their deadline and
 then deletes them one by one.  The mutex is held for one step at a time, so a run is
 any interleaving of the steps below; the other threads may act between two deletions.
 */
module Reservations {
  import opened Basics
  import opened AllocState
  import opened UrMaps

  datatype Socket = Socket(fd: nat)

  /** rtcp_alloc_type */
  datatype Reserved = Reserved(s: Socket, t: Time)

  const RTCP_TIMEOUT := 300
  const MAX_TOKEN_DEL := 1024

  /**
   What became of every socket: still held under a token, handed out to a caller,
   closed, or lost because another put overwrote its token.  `pending` is what the timer
   has listed, reading the clock `at`, and not yet deleted.
   */
  datatype State = State(open: bool, held: map<Key, Reserved>, pending: seq<Key>, at: Time,
                         handed: set<Socket>, closed: seq<Socket>, lost: set<Socket>)

  datatype Step = Put(token: Key, s: Socket, now: Time, ok: bool)
                | Take(token: Key, r: Option<Socket>)
                | Scan(now: Time)
                | Reap
                | Free

  /** Tokens that a scan at `now` lists: past their deadline, each once, all of them if they fit. */
  ghost predicate Listed(held: map<Key, Reserved>, now: Time, tokens: seq<Key>) {
    && |tokens| <= MAX_TOKEN_DEL
    && (forall k :: k in tokens ==> k in held && Before(held[k].t, now))
    && (forall i, j :: 0 <= i < j < |tokens| ==> tokens[i] != tokens[j])
    && (|tokens| < MAX_TOKEN_DEL ==> forall k :: k in held && Before(held[k].t, now) ==> k in tokens)
  }

  /** Every held socket is in the log, once. */
  ghost predicate ClosesAll(held: map<Key, Reserved>, log: seq<Socket>) {
    && (forall k :: k in held ==> held[k].s in log)
    && (forall s :: s in log ==> exists k :: k in held && held[k].s == s)
    && (OneToken(held) ==> forall i, j :: 0 <= i < j < |log| ==> log[i] != log[j])
  }

  /** No socket is held under two tokens. */
  ghost predicate OneToken(held: map<Key, Reserved>) {
    forall a, b :: a in held && b in held && held[a].s == held[b].s ==> a == b
  }

  ghost predicate Moves(x: State, step: Step, y: State) {
    match step
    case Put(token, s, now, ok) =>
      && (ok ==> x.open)
      && y == if !ok then x else
                x.(held := x.held[token := Reserved(s, Later(now, RTCP_TIMEOUT))],
                   lost := if token in x.held then x.lost + {x.held[token].s} else x.lost)
    case Take(token, r) =>
      && r == (if x.open && token in x.held then Some(x.held[token].s) else None)
      && y == if r.None? then x else x.(held := x.held - {token}, handed := x.handed + {r.value})
    case Scan(now) =>
      if x.open then x.pending == [] && Listed(x.held, now, y.pending) && y == x.(pending := y.pending, at := now)
      else y == x
    case Reap =>
      && x.pending != []
      && var token := x.pending[0];
         y == if x.open && token in x.held
              then x.(pending := x.pending[1..], held := x.held - {token}, closed := x.closed + [x.held[token].s])
              else x.(pending := x.pending[1..])
    case Free =>
      if x.open then
        && x.closed <= y.closed && ClosesAll(x.held, y.closed[|x.closed|..])
        && y == x.(open := false, held := map[], closed := y.closed)
      else y == x
  }

  const INIT := State(true, map[], [], 0, {}, [], {})

  // ---- where every socket is ----

  ghost predicate Held(x: State, s: Socket) {
    exists k :: k in x.held && x.held[k].s == s
  }

  /** Exactly one of four. */
  ghost predicate InOnePlace(x: State, s: Socket) {
    || (Held(x, s) && s !in x.handed && s !in x.closed && s !in x.lost)
    || (!Held(x, s) && s in x.handed && s !in x.closed && s !in x.lost)
    || (!Held(x, s) && s !in x.handed && s in x.closed && s !in x.lost)
    || (!Held(x, s) && s !in x.handed && s !in x.closed && s in x.lost)
  }

  ghost predicate Nowhere(x: State, s: Socket) {
    !Held(x, s) && s !in x.handed && s !in x.closed && s !in x.lost
  }

  /** Each socket reserved so far is in exactly one place, none was closed twice, and there are no others. */
  ghost predicate Accounted(x: State, reserved: set<Socket>) {
    && (forall s :: s in reserved ==> InOnePlace(x, s))
    && (forall s :: s !in reserved ==> Nowhere(x, s))
    && (forall i, j :: 0 <= i < j < |x.closed| ==> x.closed[i] != x.closed[j])
    && OneToken(x.held)
  }

  /** The sockets a step reserves. */
  function Reserves(step: Step): set<Socket> {
    if step.Put? && step.ok then {step.s} else {}
  }

  lemma PutAccounted(x: State, step: Step, y: State, reserved: set<Socket>)
    requires step.Put? && step.ok && Moves(x, step, y) && Accounted(x, reserved) && step.s !in reserved
    ensures Accounted(y, reserved + {step.s})
  {
    assert y.held[step.token].s == step.s;
    forall s
      ensures s in reserved ==> InOnePlace(y, s)
      ensures s !in reserved + {step.s} ==> Nowhere(y, s)
      ensures s == step.s ==> InOnePlace(y, s)
    {
      assert s in reserved ==> InOnePlace(x, s);
      assert s !in reserved ==> Nowhere(x, s);
      if Held(x, s) {
        var k :| k in x.held && x.held[k].s == s;
        assert k != step.token ==> k in y.held && y.held[k].s == s;
      }
      if Held(y, s) {
        var k :| k in y.held && y.held[k].s == s;
        assert k != step.token ==> k in x.held && x.held[k].s == s;
      }
    }
    forall a, b | a in y.held && b in y.held && y.held[a].s == y.held[b].s
      ensures a == b
    {
      assert a in x.held ==> Held(x, x.held[a].s);
      assert b in x.held ==> Held(x, x.held[b].s);
    }
  }

  /** Taking a token off moves its socket, and only it. */
  lemma Dropped(x: State, token: Key, y: State)
    requires OneToken(x.held) && token in x.held && y.held == x.held - {token}
    ensures OneToken(y.held) && Held(x, x.held[token].s)
    ensures forall s :: Held(y, s) <==> Held(x, s) && s != x.held[token].s
  {
    forall s
      ensures Held(y, s) <==> Held(x, s) && s != x.held[token].s
    {
      if Held(x, s) && s != x.held[token].s {
        var k :| k in x.held && x.held[k].s == s;
        assert k in y.held && y.held[k].s == s;
      }
    }
  }

  lemma TakeAccounted(x: State, step: Step, y: State, reserved: set<Socket>)
    requires step.Take? && Moves(x, step, y) && Accounted(x, reserved)
    ensures Accounted(y, reserved)
  {
    if step.r.Some? {
      Dropped(x, step.token, y);
      MovedOne(x, y, reserved, step.r.value);
    }
  }

  /** A held socket that moves to another place leaves all others where they are. */
  lemma MovedOne(x: State, y: State, reserved: set<Socket>, t: Socket)
    requires Accounted(x, reserved) && Held(x, t) && OneToken(y.held) && y.lost == x.lost
    requires forall s :: Held(y, s) <==> Held(x, s) && s != t
    requires (y.handed == x.handed + {t} && y.closed == x.closed) ||
             (y.handed == x.handed && y.closed == x.closed + [t])
    ensures Accounted(y, reserved)
  {
    hide Held, OneToken;
    assert t in reserved;
    forall s
      ensures s in reserved ==> InOnePlace(y, s)
      ensures s !in reserved ==> Nowhere(y, s)
    {
      assert s in reserved ==> InOnePlace(x, s);
      assert s !in reserved ==> Nowhere(x, s);
    }
    assert InOnePlace(x, t);
  }

  lemma ReapAccounted(x: State, step: Step, y: State, reserved: set<Socket>)
    requires step.Reap? && Moves(x, step, y) && Accounted(x, reserved)
    ensures Accounted(y, reserved)
  {
    var token := x.pending[0];
    if x.open && token in x.held {
      Dropped(x, token, y);
      MovedOne(x, y, reserved, x.held[token].s);
    } else {
      SamePlaces(x, y, reserved);
    }
  }

  lemma SamePlaces(x: State, y: State, reserved: set<Socket>)
    requires Accounted(x, reserved)
    requires y.held == x.held && y.handed == x.handed && y.closed == x.closed && y.lost == x.lost
    ensures Accounted(y, reserved)
  {
  }

  lemma FreeAccounted(x: State, step: Step, y: State, reserved: set<Socket>)
    requires step.Free? && Moves(x, step, y) && Accounted(x, reserved) && x.open
    ensures Accounted(y, reserved)
  {
    var log := y.closed[|x.closed|..];
    assert y.closed == x.closed + log;
    forall s
      ensures s in reserved ==> InOnePlace(y, s)
      ensures s !in reserved ==> Nowhere(y, s)
    {
      assert s in reserved ==> InOnePlace(x, s);
      assert s !in reserved ==> Nowhere(x, s);
      assert s in log <==> Held(x, s);
    }
    forall i, j | 0 <= i < j < |y.closed|
      ensures y.closed[i] != y.closed[j]
    {
      if i < |x.closed| <= j {
        assert log[j - |x.closed|] in log;
        assert Held(x, y.closed[j]) && y.closed[i] in x.closed;
        assert y.closed[i] in reserved;
        assert InOnePlace(x, y.closed[i]);
      } else if |x.closed| <= i {
        assert log[i - |x.closed|] != log[j - |x.closed|];
      }
    }
  }

  /** Every step keeps each reserved socket in exactly one place. */
  lemma StepAccounted(x: State, step: Step, y: State, reserved: set<Socket>)
    requires Moves(x, step, y) && Accounted(x, reserved) && Reserves(step) !! reserved
    ensures Accounted(y, reserved + Reserves(step))
  {
    hide Accounted;
    assert Reserves(step) == {} ==> reserved + Reserves(step) == reserved;
    match step
    case Put(_, _, _, ok) => if ok { PutAccounted(x, step, y, reserved); }
    case Take(_, _) => TakeAccounted(x, step, y, reserved);
    case Scan(_) => SamePlaces(x, y, reserved);
    case Reap => ReapAccounted(x, step, y, reserved);
    case Free => if x.open { FreeAccounted(x, step, y, reserved); }
  }

  // ---- the timer closes nothing early ----

  /** Whatever the timer still has to delete is past its deadline by the clock it read. */
  ghost predicate Timely(x: State) {
    forall k :: k in x.pending && k in x.held ==> Before(x.held[k].t, x.at)
  }

  /** The token is neither in the map nor about to be deleted. */
  predicate FreshToken(x: State, step: Step) {
    step.Put? && step.ok ==> step.token !in x.held && step.token !in x.pending
  }

  /** This step is the timer closing a socket whose deadline had not passed when it listed the token. */
  predicate ClosesEarly(x: State, step: Step) {
    step.Reap? && x.open && x.pending != [] && x.pending[0] in x.held && !Before(x.held[x.pending[0]].t, x.at)
  }

  lemma StepTimely(x: State, step: Step, y: State)
    requires Moves(x, step, y) && Timely(x) && FreshToken(x, step)
    ensures Timely(y) && !ClosesEarly(x, step) && (x.lost == {} ==> y.lost == {})
  {
  }

  /**
   Putting under a held token loses the socket that was there, and no other step loses
   one.  Putting under a listed token leaves the timer due to close the new socket, unless
   its deadline too is before the clock the timer read.
   */
  lemma ReusedToken(x: State, step: Step, y: State)
    requires Moves(x, step, y) && Timely(x)
    ensures y.lost == x.lost <==> !(step.Put? && step.ok && step.token in x.held && x.held[step.token].s !in x.lost)
    ensures Timely(y) <==>
              !(step.Put? && step.ok && step.token in x.pending && !Before(Later(step.now, RTCP_TIMEOUT), x.at))
  {
  }

  // ---- whole runs ----

  ghost predicate IsRun(xs: seq<State>, steps: seq<Step>) {
    |xs| == |steps| + 1 && xs[0] == INIT && forall i :: 0 <= i < |steps| ==> Moves(xs[i], steps[i], xs[i + 1])
  }

  function ReservedIn(steps: seq<Step>): set<Socket> {
    if steps == [] then {} else ReservedIn(steps[..|steps| - 1]) + Reserves(steps[|steps| - 1])
  }

  /** Callers reserve each socket once. */
  ghost predicate DistinctSockets(steps: seq<Step>) {
    forall i, j :: 0 <= i < j < |steps| ==> Reserves(steps[i]) !! Reserves(steps[j])
  }

  ghost predicate FreshTokens(xs: seq<State>, steps: seq<Step>)
    requires |xs| == |steps| + 1
  {
    forall i :: 0 <= i < |steps| ==> FreshToken(xs[i], steps[i])
  }

  lemma {:induction false} ReservedApart(steps: seq<Step>, t: set<Socket>)
    requires forall i :: 0 <= i < |steps| ==> Reserves(steps[i]) !! t
    ensures ReservedIn(steps) !! t
    decreases |steps|
  {
    if steps != [] {
      ReservedApart(steps[..|steps| - 1], t);
    }
  }

  /**
   Under every interleaving, each reserved socket is in exactly one place and none is
   closed twice.
   */
  lemma {:induction false} RunAccounted(xs: seq<State>, steps: seq<Step>)
    requires IsRun(xs, steps) && DistinctSockets(steps)
    ensures Accounted(xs[|steps|], ReservedIn(steps))
    decreases |steps|
  {
    if steps == [] {
      assert forall s :: Nowhere(INIT, s);
    } else {
      var last := |steps| - 1;
      RunAccounted(xs[..last + 1], steps[..last]);
      ReservedApart(steps[..last], Reserves(steps[last]));
      StepAccounted(xs[last], steps[last], xs[last + 1], ReservedIn(steps[..last]));
    }
  }

  /** With fresh tokens nothing is lost and the timer closes nothing before its deadline, in every run. */
  lemma {:induction false} RunTimely(xs: seq<State>, steps: seq<Step>)
    requires IsRun(xs, steps) && FreshTokens(xs, steps)
    ensures Timely(xs[|steps|]) && xs[|steps|].lost == {}
    ensures forall i :: 0 <= i < |steps| ==> !ClosesEarly(xs[i], steps[i])
    decreases |steps|
  {
    if steps != [] {
      var last := |steps| - 1;
      RunTimely(xs[..last + 1], steps[..last]);
      StepTimely(xs[last], steps[last], xs[last + 1]);
    }
  }

  /** What has been handed out, closed or lost stays so. */
  lemma {:induction false} RunGrows(xs: seq<State>, steps: seq<Step>, i: nat)
    requires IsRun(xs, steps) && i <= |steps|
    ensures xs[i].handed <= xs[|steps|].handed && xs[i].closed <= xs[|steps|].closed
    decreases |steps|
  {
    if i < |steps| {
      var last := |steps| - 1;
      RunGrows(xs[..last + 1], steps[..last], i);
      assert Moves(xs[last], steps[last], xs[last + 1]);
    }
  }

  /** A socket given to a caller is never closed here, at any later time of any run. */
  lemma HandedNeverClosed(xs: seq<State>, steps: seq<Step>, i: nat, s: Socket)
    requires IsRun(xs, steps) && DistinctSockets(steps) && i <= |steps| && s in xs[i].handed
    ensures s !in xs[|steps|].closed && s in xs[|steps|].handed
  {
    hide Moves;
    RunGrows(xs, steps, i);
    RunAccounted(xs, steps);
    assert s in ReservedIn(steps);
    assert InOnePlace(xs[|steps|], s);
  }

  /**
   With a token used again while the timer has it listed, a socket is closed in the
   second it is reserved, long before its deadline.
   */
  lemma ReusedTokenExample() returns (xs: seq<State>, steps: seq<Step>)
    ensures IsRun(xs, steps) && DistinctSockets(steps) && |steps| == 5
    ensures steps[3] == Put(7, Socket(2), 400, true) && ClosesEarly(xs[4], steps[4]) && xs[5].closed == [Socket(2)]
  {
    var a, b := Reserved(Socket(1), 300), Reserved(Socket(2), 700);
    steps := [Put(7, a.s, 0, true), Scan(400), Take(7, Some(a.s)), Put(7, b.s, 400, true), Reap];
    var x1 := INIT.(held := map[7 := a]);
    var x2 := x1.(pending := [7], at := 400);
    var x3 := x2.(held := map[], handed := {a.s});
    var x4 := x3.(held := map[7 := b]);
    var x5 := x4.(pending := [], held := map[], closed := [b.s]);
    xs := [INIT, x1, x2, x3, x4, x5];
    assert x1.held[7] == a;
    assert x1.held - {7 as Key} == map[];
    assert map[7 as Key := b] - {7 as Key} == map[];
    assert x2.pending[1..] == [];
  }

  // ---- a whole round of the timer ----

  function Tokens(pending: seq<Key>): set<Key> {
    set k | k in pending
  }

  /** The sockets of these tokens, in order. */
  function SocketsOf(held: map<Key, Reserved>, pending: seq<Key>): seq<Socket>
    requires forall k :: k in pending ==> k in held
  {
    seq(|pending|, i requires 0 <= i < |pending| => held[pending[i]].s)
  }

  /** The states of a round: one deletion after the other until no token is left. */
  ghost predicate ReapsAll(xs: seq<State>) {
    && xs != [] && |xs| == |xs[0].pending| + 1
    && forall i :: 0 <= i < |xs| - 1 ==> Moves(xs[i], Reap, xs[i + 1])
  }

  /** Undisturbed, the deletions take exactly the listed entries, and close their sockets in order. */
  lemma {:induction false} ReapAll(xs: seq<State>)
    requires ReapsAll(xs) && xs[0].open && forall k :: k in xs[0].pending ==> k in xs[0].held
    requires forall i, j :: 0 <= i < j < |xs[0].pending| ==> xs[0].pending[i] != xs[0].pending[j]
    ensures var x, y := xs[0], xs[|xs| - 1];
            && y.pending == [] && y.open && y.held == x.held - Tokens(x.pending)
            && y.closed == x.closed + SocketsOf(x.held, x.pending)
    decreases |xs|
  {
    var x := xs[0];
    if x.pending == [] {
      assert Tokens(x.pending) == {} && x.held - {} == x.held && SocketsOf(x.held, x.pending) == [];
    } else {
      var y, rest := xs[1], xs[1..];
      assert Moves(x, Reap, y);
      var k := x.pending[0];
      assert y.pending == x.pending[1..];
      assert forall i :: 0 <= i < |rest| ==> rest[i] == xs[i + 1];
      forall i | 0 <= i < |rest| - 1
        ensures Moves(rest[i], Reap, rest[i + 1])
      {
        assert Moves(xs[i + 1], Reap, xs[i + 2]);
      }
      ReapAll(rest);
      TokensHeadTail(x.held, x.pending);
    }
  }

  lemma TokensHeadTail(held: map<Key, Reserved>, pending: seq<Key>)
    requires pending != [] && forall k :: k in pending ==> k in held
    requires forall i, j :: 0 <= i < j < |pending| ==> pending[i] != pending[j]
    ensures var k, rest := pending[0], pending[1..];
            && (forall j :: j in rest ==> j in held - {k})
            && held - Tokens(pending) == held - {k} - Tokens(rest)
            && SocketsOf(held, pending) == [held[k].s] + SocketsOf(held - {k}, rest)
  {
    var k, rest := pending[0], pending[1..];
    assert Tokens(pending) == {k} + Tokens(rest);
  }

  /**
   One round of the timer at `now`, in numbers: what was reserved at c leaves the map exactly when
   c + 300 < now, at most 1024 entries a round, and every socket that leaves is closed.
   */
  lemma TimerRound(x: State, now: Time, xs: seq<State>)
    requires x.open && ReapsAll(xs) && Moves(x, Scan(now), xs[0]) && now < 0x8000_0000
    requires forall k :: k in x.held ==> x.held[k].t < 0x8000_0000
    ensures var y := xs[|xs| - 1];
            && (forall k :: k in y.held ==> k in x.held && y.held[k] == x.held[k])
            && (forall k :: k in x.held && k !in y.held ==> x.held[k].t < now && x.held[k].s in y.closed)
            && (|xs[0].pending| < 1024 ==> forall k :: k in y.held ==> now <= x.held[k].t)
  {
    ReapAll(xs);
    var y := xs[|xs| - 1];
    var p := xs[0].pending;
    forall k | k in x.held && k !in y.held
      ensures x.held[k].t < now && x.held[k].s in y.closed
    {
      assert k in Tokens(p);
      var i :| 0 <= i < |p| && p[i] == k;
      assert SocketsOf(x.held, p)[i] == x.held[k].s;
    }
  }

  /** What was put under a token is what the next take of that token hands out, and the entry is gone then. */
  lemma PutThenTake(x: State, token: Key, s: Socket, c: Time, y: State, r: Option<Socket>, z: State)
    requires Moves(x, Put(token, s, c, true), y) && Moves(y, Take(token, r), z)
    ensures r == Some(s) && s in z.handed && token !in z.held && z.closed == x.closed
    ensures forall k :: k in z.held <==> k in x.held && k != token
  {
  }

  /** A put at c reserves until c plus the timeout. */
  lemma ReservedUntil(x: State, token: Key, s: Socket, c: Time, y: State)
    requires Moves(x, Put(token, s, c, true), y) && c + 300 < 0x1_0000_0000
    ensures x.open && token in y.held && y.held[token] == Reserved(s, c + 300)
  {
  }
}
