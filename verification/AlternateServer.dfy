/**
 The choice of an alternate server (set_alternate_server of
 src/server/ns_turn_server.c): round robin over the entries of the client's address
 family, with a counter the server keeps between calls.
 */
module AlternateServer {
  import opened Basics
  import opened Addresses

  /** The two addresses are of one family. */
  predicate SameFamily(a: Addr, b: Addr) {
    a.ip.NoIp? == b.ip.NoIp? && a.ip.Ip4? == b.ip.Ip4?
  }

  /** Both IPv4, both IPv6, or both neither. */
  predicate OfFamily(a: Addr, b: Addr) {
    match a.ip
    case Ip4(_) => b.ip.Ip4?
    case Ip6(_, _) => b.ip.Ip6?
    case NoIp => b.ip.NoIp?
  }

  /** Which entries may be chosen. */
  function Suitable(list: seq<Addr>, local: Addr): (ok: seq<bool>)
    ensures |ok| == |list|
  {
    seq(|list|, i requires 0 <= i < |list| => SameFamily(list[i], local))
  }

  /** The list names the server itself. */
  predicate Loops(list: seq<Addr>, local: Addr) {
    exists i :: 0 <= i < |list| && Eq(list[i], local)
  }

  lemma ListMeans(list: seq<Addr>, local: Addr)
    ensures Loops(list, local) <==> local in list && local.ip != NoIp
    ensures forall i :: 0 <= i < |list| ==> (Suitable(list, local)[i] <==> OfFamily(list[i], local))
    ensures true in Suitable(list, local) <==> exists i :: 0 <= i < |list| && OfFamily(list[i], local)
  {
    var ok := Suitable(list, local);
    forall i | 0 <= i < |list|
      ensures ok[i] <==> OfFamily(list[i], local)
    {
      assert ok[i] == SameFamily(list[i], local);
    }
    if i :| 0 <= i < |list| && OfFamily(list[i], local) {
      assert ok[i];
    }
  }

  /** Where the walk begins. */
  function Start(n: nat, counter: nat): nat {
    if counter >= n then 0 else counter
  }

  /** The entry at step x of a walk that runs past the end once. */
  function Index(n: nat, x: nat): (i: nat)
    requires x < 2 * n
    ensures i < n
  {
    if x < n then x else x - n
  }

  /** The walk from `start` first meets a suitable entry at step x. */
  ghost predicate FirstAt(ok: seq<bool>, start: nat, x: nat) {
    && start < |ok| && start <= x < start + |ok|
    && ok[Index(|ok|, x)]
    && forall y :: start <= y < x ==> !ok[Index(|ok|, y)]
  }

  /** From this counter, entry i is chosen. */
  ghost predicate Chooses(ok: seq<bool>, counter: nat, i: nat) {
    ok != [] && exists x :: FirstAt(ok, Start(|ok|, counter), x) && Index(|ok|, x) == i
  }

  /**
   set_alternate_server: the chosen entry, if any, and the new counter.  `asl` is never
   NULL here; an empty list behaves the same.
   */
  method SetAlternateServer(list: seq<Addr>, local: Addr, counter: nat) returns (chosen: Option<nat>, counter': nat)
    ensures chosen.Some? <==> !Loops(list, local) && true in Suitable(list, local)
    ensures chosen.Some? ==> Chooses(Suitable(list, local), counter, chosen.value) && counter' == chosen.value + 1
    ensures list == [] || Loops(list, local) ==> counter' == counter
    ensures chosen.Some? ==> chosen.value < |list| && OfFamily(list[chosen.value], local)
    ensures chosen.Some? && local.ip != NoIp ==> local !in list
    ensures chosen.None? <==>
            (local in list && local.ip != NoIp) || (forall i :: 0 <= i < |list| ==> !OfFamily(list[i], local))
  {
    hide OfFamily, SameFamily, Chooses, FirstAt, Loops, Suitable;
    ListMeans(list, local);
    var itself := NamesItself(list, local);
    if itself {
      return None, counter;
    }
    chosen, counter' := Walk(list, local, counter);
  }

  /** The first loop, which keeps a server from sending clients to itself. */
  method NamesItself(list: seq<Addr>, local: Addr) returns (found: bool)
    ensures found <==> Loops(list, local)
  {
    for i := 0 to |list|
      invariant forall j :: 0 <= j < i ==> !Eq(list[j], local)
    {
      if Eq(list[i], local) {
        return true;
      }
    }
    return false;
  }

  /** The second loop. */
  method Walk(list: seq<Addr>, local: Addr, counter: nat) returns (chosen: Option<nat>, counter': nat)
    ensures chosen.Some? <==> true in Suitable(list, local)
    ensures chosen.Some? ==> chosen.value < |list| && Suitable(list, local)[chosen.value]
    ensures chosen.Some? ==> counter' == chosen.value + 1
    ensures chosen.Some? ==> Chooses(Suitable(list, local), counter, chosen.value)
    ensures list == [] ==> counter' == counter
  {
    hide SameFamily;
    ghost var ok := Suitable(list, local);
    ghost var start := Start(|list|, counter);
    var c := counter;
    for i := 0 to |list|
      invariant i > 0 ==> 0 < c <= |list| && c == Index(|list|, start + i - 1) + 1
      invariant i == 0 ==> c == counter
      invariant forall y :: start <= y < start + i ==> !ok[Index(|list|, y)]
    {
      if c >= |list| {
        c := 0;
      }
      assert c == Index(|list|, start + i);
      c := c + 1;
      if SameFamily(list[c - 1], local) {
        assert ok[c - 1];
        assert FirstAt(ok, start, start + i);
        return Some(c - 1), c;
      }
    }
    NoneSuitable(ok, start);
    return None, c;
  }

  lemma NoneSuitable(ok: seq<bool>, start: nat)
    requires ok != [] ==> start < |ok|
    requires forall y :: start <= y < start + |ok| ==> y < 2 * |ok| && !ok[Index(|ok|, y)]
    ensures true !in ok
  {
    forall i | 0 <= i < |ok|
      ensures !ok[i]
    {
      var y := if i < start then i + |ok| else i;
      assert !ok[Index(|ok|, y)];
    }
  }

  // ---- fairness ----

  ghost function Matching(ok: seq<bool>): set<nat> {
    set i: nat | i < |ok| && ok[i]
  }

  /** The entries chosen by consecutive calls, with the counters between them. */
  ghost predicate Rounds(ok: seq<bool>, counters: seq<nat>, picks: seq<nat>) {
    && |counters| == |picks| + 1
    && forall k :: 0 <= k < |picks| ==> Chooses(ok, counters[k], picks[k]) && counters[k + 1] == picks[k] + 1
  }

  /** The suitable entries met between steps a and b of the walk. */
  ghost function Met(ok: seq<bool>, a: nat, b: nat): set<nat>
    requires b <= 2 * |ok|
  {
    set x: nat | a <= x < b && ok[Index(|ok|, x)] :: Index(|ok|, x)
  }

  /** One more choice: the walk goes on where it stopped, and the new entry is met for the first time. */
  lemma NextPick(ok: seq<bool>, a: nat, v: nat, counter: nat, i: nat) returns (v': nat)
    requires ok != [] && a < |ok| && a <= v <= a + |ok| && Start(|ok|, counter) == Index(|ok|, v)
    requires Chooses(ok, counter, i) && Met(ok, a, v) != Matching(ok)
    ensures v < v' <= a + |ok| && Start(|ok|, i + 1) == Index(|ok|, v')
    ensures i in Matching(ok) && i !in Met(ok, a, v) && Met(ok, a, v') == Met(ok, a, v) + {i}
  {
    hide Met;
    var n := |ok|;
    var x: nat :| FirstAt(ok, Start(n, counter), x) && Index(n, x) == i;
    var u := Unmet(ok, a, v);
    if v < n {
      assert x <= u by { assert ok[Index(n, u)]; }
      v' := x + 1;
    } else {
      assert x <= u - n by { assert ok[Index(n, u - n)]; }
      v' := x + n + 1;
      forall y | v <= y < v' - 1
        ensures !ok[Index(n, y)]
      {
        assert !ok[Index(n, y - n)];
      }
    }
    PickedOne(ok, a, v, v', i);
  }

  lemma Unmet(ok: seq<bool>, a: nat, v: nat) returns (u: nat)
    requires ok != [] && a < |ok| && a <= v <= a + |ok| && Met(ok, a, v) != Matching(ok)
    ensures v <= u < a + |ok| && ok[Index(|ok|, u)]
  {
    assert Met(ok, a, v) <= Matching(ok);
    var i :| i in Matching(ok) && i !in Met(ok, a, v);
    u := if i < a then i + |ok| else i;
    assert Index(|ok|, u) == i;
  }

  lemma PickedOne(ok: seq<bool>, a: nat, v: nat, v': nat, i: nat)
    requires a < |ok| && a <= v < v' <= a + |ok| && Index(|ok|, v' - 1) == i && ok[i]
    requires forall y :: v <= y < v' - 1 ==> !ok[Index(|ok|, y)]
    ensures i !in Met(ok, a, v) && Met(ok, a, v') == Met(ok, a, v) + {i}
  {
  }

  ghost function Among(picks: seq<nat>): set<nat> {
    set i | i in picks
  }

  lemma AmongLast(picks: seq<nat>)
    requires picks != []
    ensures Among(picks) == Among(picks[..|picks| - 1]) + {picks[|picks| - 1]}
  {
  }

  /** The walk has come to step v and has met exactly the entries picked, all different. */
  ghost predicate HasMet(ok: seq<bool>, a: nat, v: nat, counter: nat, picks: seq<nat>) {
    && a < |ok| && a <= v <= a + |ok| && Start(|ok|, counter) == Index(|ok|, v)
    && Met(ok, a, v) == Among(picks) <= Matching(ok) && |Among(picks)| == |picks|
  }

  lemma HasMetNext(ok: seq<bool>, a: nat, w: nat, counter: nat, picks: seq<nat>) returns (v: nat)
    requires picks != [] && |picks| <= |Matching(ok)| && Chooses(ok, counter, picks[|picks| - 1])
    requires HasMet(ok, a, w, counter, picks[..|picks| - 1])
    ensures HasMet(ok, a, v, picks[|picks| - 1] + 1, picks)
  {
    hide Met, Matching, Chooses, Among;
    AmongLast(picks);
    v := NextPick(ok, a, w, counter, picks[|picks| - 1]);
  }

  /** After k choices, at most as many as there are suitable entries, k different ones have been met. */
  lemma {:induction false} RoundsMeet(ok: seq<bool>, counters: seq<nat>, picks: seq<nat>) returns (v: nat)
    requires ok != [] && Rounds(ok, counters, picks) && |picks| <= |Matching(ok)|
    ensures HasMet(ok, Start(|ok|, counters[0]), v, counters[|picks|], picks)
    decreases |picks|
  {
    hide Matching, Chooses;
    var a := Start(|ok|, counters[0]);
    if picks == [] {
      v := a;
      assert Met(ok, a, a) == {};
    } else {
      hide HasMet;
      var last := |picks| - 1;
      var w := RoundsMeet(ok, counters[..last + 1], picks[..last]);
      v := HasMetNext(ok, a, w, counters[last], picks);
    }
  }

  /**
   Fairness: with m suitable entries, any m consecutive calls, from any counter, choose
   each suitable entry exactly once.
   */
  lemma EachOnce(ok: seq<bool>, counters: seq<nat>, picks: seq<nat>)
    requires Rounds(ok, counters, picks) && |picks| == |Matching(ok)|
    ensures multiset(picks) == multiset(Matching(ok))
  {
    if ok == [] {
      assert Matching(ok) == {};
    } else {
      hide Met, Matching, Among, Rounds;
      var v := RoundsMeet(ok, counters, picks);
      SubsetSize(Among(picks), Matching(ok));
      NoRepeats(picks);
    }
  }

  /** A list with as many entries as it has different ones repeats none. */
  lemma {:induction false} NoRepeats(picks: seq<nat>)
    ensures |Among(picks)| <= |picks| && (|Among(picks)| == |picks| ==> multiset(picks) == multiset(Among(picks)))
    decreases |picks|
  {
    if picks != [] {
      var last := |picks| - 1;
      assert picks == picks[..last] + [picks[last]];
      AmongLast(picks);
      NoRepeats(picks[..last]);
    }
  }

  /** n redirects in a row; as many as there are suitable entries give each of them once. */
  method Redirects(list: seq<Addr>, local: Addr, counter: nat, n: nat) returns (picks: seq<nat>, counters: seq<nat>)
    requires !Loops(list, local) && true in Suitable(list, local)
    ensures |picks| == n && Rounds(Suitable(list, local), counters, picks) && counters[0] == counter
    ensures n == |Matching(Suitable(list, local))| ==> multiset(picks) == multiset(Matching(Suitable(list, local)))
  {
    hide Chooses, Loops, Matching;
    picks, counters := [], [counter];
    for i := 0 to n
      invariant |picks| == i && Rounds(Suitable(list, local), counters, picks) && counters[0] == counter
    {
      var chosen, next := SetAlternateServer(list, local, counters[i]);
      picks, counters := picks + [chosen.value], counters + [next];
    }
    if n == |Matching(Suitable(list, local))| {
      EachOnce(Suitable(list, local), counters, picks);
    }
  }
}
