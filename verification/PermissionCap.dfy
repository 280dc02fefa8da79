/**
 The documented limit of TURN_MAX_PERMISSIONS_PER_ALLOCATION permissions
 (src/server/ns_turn_allocation.h) is tested only when a bucket grows.  Here is a run of
 an allocation, under the server's own hash of addresses, that exceeds it: 1024 addresses
 of one bucket, and then one of another.
 */
module PermissionCap {
  import opened Basics
  import opened Addresses
  import opened AllocState
  import opened Allocations
  import opened PeerRequests
  import opened Relay

  // ---- 1024 addresses of one bucket ----

  /** The word with the bit b set. */
  function On(x: bv32, b: bv32): bv32 {
    x | b
  }

  /** A word with no other bits than those of the mask. */
  predicate Fits(x: bv32, mask: bv32) {
    x & mask == x
  }

  lemma OnFits(x: bv32, b: bv32, mask: bv32)
    requires Fits(x, mask) && b & mask == 0 && b != 0
    ensures Fits(x, mask | b) && Fits(On(x, b), mask | b) && !Fits(On(x, b), mask)
  {
  }

  lemma OnInjective(x: bv32, y: bv32, b: bv32, mask: bv32)
    requires Fits(x, mask) && Fits(y, mask) && b & mask == 0 && On(x, b) == On(y, b)
    ensures x == y
  {
  }

  function AllOn(xs: seq<bv32>, b: bv32): (ys: seq<bv32>)
    ensures |ys| == |xs|
  {
    seq(|xs|, i requires 0 <= i < |xs| => On(xs[i], b))
  }

  /** The words with the bit b off, and then the same with it on. */
  function Doubled(xs: seq<bv32>, b: bv32): seq<bv32> {
    xs + AllOn(xs, b)
  }

  /** Different words that fit the mask. */
  ghost predicate Spread(xs: seq<bv32>, mask: bv32) {
    && (forall i :: 0 <= i < |xs| ==> Fits(xs[i], mask))
    && (forall i, j :: 0 <= i < j < |xs| ==> xs[i] != xs[j])
  }

  lemma DoubledSpread(xs: seq<bv32>, b: bv32, mask: bv32, more: bv32)
    requires Spread(xs, mask) && b & mask == 0 && b != 0 && more == mask | b
    ensures Spread(Doubled(xs, b), more) && |Doubled(xs, b)| == 2 * |xs|
  {
    hide Fits, On;
    var ys, n := Doubled(xs, b), |xs|;
    forall i | 0 <= i < 2 * n
      ensures Fits(ys[i], mask | b) && (i < n <==> Fits(ys[i], mask))
    {
      OnFits(xs[if i < n then i else i - n], b, mask);
    }
    forall i, j | 0 <= i < j < 2 * n
      ensures ys[i] != ys[j]
    {
      if n <= i && ys[i] == ys[j] {
        OnInjective(xs[i - n], xs[j - n], b, mask);
      }
    }
  }

  /** 1024 IPv4 addresses that differ only above their low 18 bits. */
  function Words(): seq<bv32> {
    var w1 := Doubled([0], 0x0004_0000);
    var w2 := Doubled(w1, 0x0008_0000);
    var w3 := Doubled(w2, 0x0010_0000);
    var w4 := Doubled(w3, 0x0020_0000);
    var w5 := Doubled(w4, 0x0040_0000);
    var w6 := Doubled(w5, 0x0080_0000);
    var w7 := Doubled(w6, 0x0100_0000);
    var w8 := Doubled(w7, 0x0200_0000);
    var w9 := Doubled(w8, 0x0400_0000);
    var w10 := Doubled(w9, 0x0800_0000);
    w10
  }

  lemma WordsSpread()
    ensures Spread(Words(), 0x0FFC_0000) && |Words()| == MAX_PERMISSIONS
  {
    hide Spread, Doubled;
    OneWord();
    var w1 := Doubled([0], 0x0004_0000);
    DoubledSpread([0], 0x0004_0000, 0x0000_0000, 0x0004_0000);
    var w2 := Doubled(w1, 0x0008_0000);
    DoubledSpread(w1, 0x0008_0000, 0x0004_0000, 0x000C_0000);
    var w3 := Doubled(w2, 0x0010_0000);
    DoubledSpread(w2, 0x0010_0000, 0x000C_0000, 0x001C_0000);
    var w4 := Doubled(w3, 0x0020_0000);
    DoubledSpread(w3, 0x0020_0000, 0x001C_0000, 0x003C_0000);
    var w5 := Doubled(w4, 0x0040_0000);
    DoubledSpread(w4, 0x0040_0000, 0x003C_0000, 0x007C_0000);
    var w6 := Doubled(w5, 0x0080_0000);
    DoubledSpread(w5, 0x0080_0000, 0x007C_0000, 0x00FC_0000);
    var w7 := Doubled(w6, 0x0100_0000);
    DoubledSpread(w6, 0x0100_0000, 0x00FC_0000, 0x01FC_0000);
    var w8 := Doubled(w7, 0x0200_0000);
    DoubledSpread(w7, 0x0200_0000, 0x01FC_0000, 0x03FC_0000);
    var w9 := Doubled(w8, 0x0400_0000);
    DoubledSpread(w8, 0x0400_0000, 0x03FC_0000, 0x07FC_0000);
    var w10 := Doubled(w9, 0x0800_0000);
    DoubledSpread(w9, 0x0800_0000, 0x07FC_0000, 0x0FFC_0000);
  }

  lemma OneWord()
    ensures Spread([0], 0)
  {
  }

  // ---- the run ----

  function Peers(words: seq<bv32>): (attrs: seq<Attr>)
    ensures |attrs| == |words|
  {
    seq(|words|, i requires 0 <= i < |words| => PeerAddress(Addr(Ip4(words[i]), 0)))
  }

  /** A CreatePermission request for these addresses to a server that forbids none. */
  function Permit(words: seq<bv32>): Event {
    CreateEvent(CreateArgs(Server(0, 600, 300), _ => true, _ => true, Relays(true, false), Peers(words)))
  }

  /** An allocation, 1024 permissions of the bucket of 0.0.0.0, and one of another bucket. */
  function Events(): seq<Event> {
    [Established, Permit(Words()), Permit([1])]
  }

  lemma ListedPeers(words: seq<bv32>)
    ensures forall ip :: ip in Listed(Peers(words)) <==> exists i :: 0 <= i < |words| && ip == Ip4(words[i])
  {
    var attrs := Peers(words);
    forall i | 0 <= i < |words|
      ensures Ip4(words[i]) in Listed(attrs)
    {
      assert attrs[i].PeerAddress? && attrs[i].a.ip == Ip4(words[i]);
    }
  }

  /** As many IPs as there are words. */
  lemma {:induction false} ListedSize(words: seq<bv32>)
    requires forall i, j :: 0 <= i < j < |words| ==> words[i] != words[j]
    ensures |Listed(Peers(words))| == |words|
    decreases |words|
  {
    ListedPeers(words);
    if words == [] {
      assert Listed(Peers(words)) == {};
    } else {
      var rest, last := words[..|words| - 1], Ip4(words[|words| - 1]);
      ListedSize(rest);
      ListedPeers(rest);
      assert Listed(Peers(words)) == Listed(Peers(rest)) + {last};
      assert last !in Listed(Peers(rest));
    }
  }

  /** Different IPs are held in different slots. */
  lemma {:induction false} HeldApart(t: Perms, slots: set<Ref>, ips: set<Ip>)
    requires forall ip :: ip in ips ==> exists q :: q in slots && q in t && t[q].ip == ip
    ensures |ips| <= |slots|
    decreases |slots|
  {
    if slots != {} {
      var q :| q in slots;
      if q in t {
        HeldApart(t, slots - {q}, ips - {t[q].ip});
        if t[q].ip in ips {
          assert ips == (ips - {t[q].ip}) + {t[q].ip};
        } else {
          assert ips - {t[q].ip} == ips;
        }
      } else {
        HeldApart(t, slots - {q}, ips);
      }
    } else {
      assert ips == {};
    }
  }

  /** After the request for so many IPs the allocation is at the limit, served or not. */
  lemma AtTheLimit(bucket: Ip -> nat, t: Perms, size: seq<nat>, ips: set<Ip>)
    requires Served(bucket, ips, t, size) && |ips| >= MAX_PERMISSIONS
    ensures |LiveSet(t)| >= MAX_PERMISSIONS
  {
    if forall ip :: ip in ips ==> Permitted(t, ip) {
      forall ip | ip in ips
        ensures exists q :: q in LiveSet(t) && q in t && t[q].ip == ip
      {
        var q :| LivePerm(t, q) && t[q].ip == ip;
        assert q in LiveSet(t);
      }
      HeldApart(t, LiveSet(t), ips);
    }
  }

  /** Every permission is for one of the words, and none of the words shares a bucket with the last IP. */
  lemma WordsElsewhere(w: bv32)
    requires Fits(w, 0x0FFC_0000)
    ensures IpBucket(Ip4(w)) != IpBucket(Ip4(1)) && w != 1
  {
    LowBitsDecide(w, 0);
    BucketsDiffer();
  }

  /** What the first of the two requests leaves: at the limit, with permissions for the words only. */
  lemma AfterWords(trace: seq<Tables>)
    requires IsRun(IpBucket, trace, Events())
    ensures |LiveSet(trace[2].t)| >= MAX_PERMISSIONS && trace[2].valid
    ensures forall q :: LivePerm(trace[2].t, q) ==> exists w :: trace[2].t[q].ip == Ip4(w) && Fits(w, 0x0FFC_0000)
  {
    hide Refreshed, Installs, Served, Hindered, Fits, Words;
    var x1, x2 := trace[1], trace[2];
    assert Effect(IpBucket, trace[0], Events()[0], x1) && Effect(IpBucket, x1, Events()[1], x2);
    WordsSpread();
    RequestPasses(Words());
    ListedSize(Words());
    AtTheLimit(IpBucket, x2.t, x2.size, Listed(Peers(Words())));
    ListedPeers(Words());
    forall q | LivePerm(x2.t, q)
      ensures exists w :: x2.t[q].ip == Ip4(w) && Fits(w, 0x0FFC_0000)
    {
      EventInstalls(IpBucket, x1, Events()[1], x2, q);
      var i :| 0 <= i < |Words()| && x2.t[q].ip == Ip4(Words()[i]);
      assert Fits(Words()[i], 0x0FFC_0000);
    }
  }

  lemma RequestPasses(words: seq<bv32>)
    requires words != []
    ensures CreateRequest(Peers(words), Relays(true, false), _ => true)
  {
    assert Peers(words)[0].PeerAddress?;
  }

  /** The last IP gets a permission, in a slot that was not in use: its bucket still has its main slots. */
  lemma LastServed(trace: seq<Tables>) returns (q: Ref)
    requires IsRun(IpBucket, trace, Events()) && |trace[3].size| == HASH_SIZE
    requires forall b :: 0 <= b < HASH_SIZE ==> trace[3].size[b] >= ARRAY_SIZE
    requires forall p :: LivePerm(trace[3].t, p) ==> IpBucket(trace[3].t[p].ip) == p.b
    ensures LivePerm(trace[3].t, q) && !LivePerm(trace[2].t, q)
    ensures forall p :: LivePerm(trace[2].t, p) ==> LivePerm(trace[3].t, p)
  {
    hide Refreshed, Hindered, Fits, Words;
    var x2, x3, b := trace[2], trace[3], IpBucket(Ip4(1));
    AfterWords(trace);
    assert Effect(IpBucket, x2, Events()[2], x3);
    RequestPasses([1]);
    ListedPeers([1]);
    assert Ip4(1) in Listed(Peers([1])) by { assert [1 as bv32][0] == 1; }
    q := Ref(b, 0);
    if Permitted(x3.t, Ip4(1)) {
      q :| LivePerm(x3.t, q) && x3.t[q].ip == Ip4(1);
    }
    EventInstalls(IpBucket, x2, Events()[2], x3, q);
    if LivePerm(x2.t, q) {
      var w :| x2.t[q].ip == Ip4(w) && Fits(w, 0x0FFC_0000);
      WordsElsewhere(w);
    }
  }

  lemma LimitExceeded(trace: seq<Tables>)
    requires IsRun(IpBucket, trace, Events()) && |trace[3].size| == HASH_SIZE
    requires forall b :: 0 <= b < HASH_SIZE ==> trace[3].size[b] >= ARRAY_SIZE
    requires forall p :: LivePerm(trace[3].t, p) ==> IpBucket(trace[3].t[p].ip) == p.b
    ensures |LiveSet(trace[3].t)| > MAX_PERMISSIONS
  {
    hide IsRun, Fits;
    RunLength(trace);
    AfterWords(trace);
    var q := LastServed(trace);
    OneMore(trace[2].t, trace[3].t, q);
  }

  lemma OneMore(t: Perms, t': Perms, q: Ref)
    requires LivePerm(t', q) && !LivePerm(t, q) && forall p :: LivePerm(t, p) ==> LivePerm(t', p)
    ensures |LiveSet(t')| > |LiveSet(t)|
  {
    forall p | p in LiveSet(t) + {q}
      ensures p in LiveSet(t')
    {
      assert p in LiveSet(t) ==> LivePerm(t, p);
    }
    SubsetSize(LiveSet(t) + {q}, LiveSet(t'));
  }

  /** With 1024 permissions in one bucket, one more in another is made all the same: the limit is exceeded. */
  method PastTheCap() returns (a: Allocation, ghost trace: seq<Tables>)
    ensures fresh(a) && a.Valid() && IsRun(IpBucket, trace, Events()) && |trace| == 4 && trace[3] == a.Now()
    ensures |LiveSet(a.T)| > MAX_PERMISSIONS
  {
    hide IsRun, OneToOne, IpBucket, Consistent, Stored, Addressed, InstalledBy, Permit;
    a, trace := Reach(IpBucket, Events());
    RunLength(trace);
    a.Shape(0);
    a.LiveHome();
    LimitExceeded(trace);
  }

  lemma RunLength(trace: seq<Tables>)
    requires IsRun(IpBucket, trace, Events())
    ensures |trace| == 4
  {
  }
}
