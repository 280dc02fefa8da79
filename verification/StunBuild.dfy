/**
 Building and checking STUN messages as src/client/ns_turn_msg.c does: attribute
 append, MESSAGE-INTEGRITY and FINGERPRINT (sections 15.4 and 15.5 of RFC 5389).
 HMAC is any function with a fixed output length.
 */
module StunBuild {
  import opened Basics
  import opened Crc32
  import opened StunBytes

  /** stun_init_command_str with the transaction id it draws. */
  function Init(typ: Word16, tid: Bytes): (b: Bytes)
    requires |tid| == 12
    ensures |b| == HEADER
  {
    Be16(typ % 0x4000) + [0, 0] + COOKIE + tid
  }

  lemma InitWellFormed(typ: Word16, tid: Bytes)
    requires |tid| == 12
    ensures WellFormed(Init(typ, tid)) && Attributes(Init(typ, tid)) == []
  {
  }

  /** stun_attr_add_str on the message b; None when the result would reach MAX_MESSAGE bytes. */
  function AddAttr(b: Bytes, a: Attr): (r: Option<Bytes>)
    requires CommandLen(b).Some?
    ensures r.Some? ==> CommandLen(r.value) == Some(|r.value|)
  {
    var n := CommandLen(b).value;
    var end := n + 4 + |a.value|;
    if Padded(end) >= MAX_MESSAGE then None
    else
      var cell := Lay(a, Padded(end) - end);
      ExtendParts(b[..n], Padded(end) - HEADER, cell);
      Some(Extend(b[..n], Padded(end) - HEADER, cell))
  }

  /** The added cells leave everything of b in place but the length field. */
  ghost predicate Grown(b: Bytes, b': Bytes) {
    Continues(b, b') && b'[..2] == b[..2] && b'[4..|b|] == b[4..]
  }

  lemma GrownTransitive(a: Bytes, b: Bytes, c: Bytes)
    requires Grown(a, b) && Grown(b, c)
    ensures Grown(a, c)
  {
    assert c[4..|a|] == c[4..|b|][..|a| - 4];
    assert b[4..|a|] == b[4..][..|a| - 4];
    assert c[HEADER..|a|] == c[4..|a|][HEADER - 4..];
    assert a[HEADER..] == a[4..][HEADER - 4..];
  }

  lemma PaddedShift(n: nat, m: nat)
    requires n % 4 == 0
    ensures Padded(n + m) == n + Padded(m)
  {
  }

  lemma ExtendGrows(b: Bytes, cell: Bytes)
    requires |b| >= HEADER && |b| + |cell| - HEADER < 0x1_0000
    ensures Grown(b, Extend(b, |b| + |cell| - HEADER, cell))
  {
  }

  lemma WholePrefix(b: Bytes)
    ensures b[..|b|] == b
  {
  }

  lemma AddAttrCell(b: Bytes, a: Attr)
    requires CommandLen(b) == Some(|b|) && |b| % 4 == 0 && AddAttr(b, a).Some?
    ensures |a.value| < 0x1_0000 && |b| + |Cell(a)| < MAX_MESSAGE && |Cell(a)| % 4 == 0
    ensures AddAttr(b, a).value == Extend(b, |b| + |Cell(a)| - HEADER, Cell(a))
  {
    hide Extend, Padded, Lay, CommandLen;
    PaddedShift(|b| + 4, |a.value|);
    WholePrefix(b);
  }

  /** On a well-formed message the append adds one whole cell at the end. */
  lemma AddAttrGrows(b: Bytes, a: Attr)
    requires WellFormed(b) && AddAttr(b, a).Some?
    ensures |a.value| < 0x1_0000 && |b| + |Cell(a)| < MAX_MESSAGE
    ensures AddAttr(b, a).value == Extend(b, |b| + |Cell(a)| - HEADER, Cell(a))
    ensures Grown(b, AddAttr(b, a).value) && |AddAttr(b, a).value| % 4 == 0
  {
    hide Extend, Tiled, AddAttr, Cell, Grown, WellFormed;
    WellFormedTiled(b);
    AddAttrCell(b, a);
    ExtendGrows(b, Cell(a));
  }

  /** What stands behind b after the append is exactly the new cell. */
  lemma AddedCell(b: Bytes, a: Attr)
    requires |b| >= HEADER && |a.value| < 0x1_0000 && |b| + |Cell(a)| - HEADER < 0x1_0000
    ensures var r := Extend(b, |b| + |Cell(a)| - HEADER, Cell(a));
            && CommandLen(r) == Some(|r|) && CellOk(r, |b|) && CellEnd(r, |b|) == |r|
            && AttrAt(r, |b|) == a && Tiled(r, |b|) && Cursor(r, |b|) == Some(|b|) && Walk(r, Some(|b|)) == [a]
  {
  }

  /** One whole cell behind a well-formed message is one more attribute. */
  lemma GrownYields(b: Bytes, r: Bytes, a: Attr)
    requires WellFormed(b) && Grown(b, r) && |r| % 4 == 0 && Tiled(r, |b|) && Walk(r, Cursor(r, |b|)) == [a]
    ensures WellFormed(r) && Attributes(r) == Attributes(b) + [a]
  {
    hide Walk, Tiled, IsCommand, Cursor, First, Grown, Continues;
    WellFormedTiled(b);
    GrownContinues(b, r);
    TiledThrough(b, r, HEADER);
    WalkThrough(b, r, HEADER);
    StillCommand(b, r);
    FirstIsCursor(b);
    FirstIsCursor(r);
  }

  lemma GrownContinues(b: Bytes, r: Bytes)
    requires Grown(b, r)
    ensures Continues(b, r) && HEADER <= |b| <= |r| && CommandLen(r) == Some(|r|)
  {
  }

  /** The append keeps a message well-formed and adds its attribute behind the others. */
  lemma AddAttrYields(b: Bytes, a: Attr)
    requires WellFormed(b) && AddAttr(b, a).Some?
    ensures WellFormed(AddAttr(b, a).value)
    ensures Attributes(AddAttr(b, a).value) == Attributes(b) + [a]
  {
    hide Extend, Walk, Tiled, AddAttr, Attributes, WellFormed, Cell, Grown, Cursor, CellOk;
    AddAttrGrows(b, a);
    WellFormedTiled(b);
    AddedCell(b, a);
    GrownYields(b, AddAttr(b, a).value, a);
  }

  lemma StillCommand(b: Bytes, r: Bytes)
    requires IsCommand(b) && Grown(b, r) && |r| % 4 == 0
    ensures IsCommand(r)
  {
    assert r[0] == r[..2][0] && r[1] == r[..2][1] && b[0] == b[..2][0] && b[1] == b[..2][1];
    assert r[4..8] == r[4..|b|][..4] && b[4..8] == b[4..][..4];
  }

  lemma FirstIsCursor(b: Bytes)
    requires CommandLen(b) == Some(|b|)
    ensures First(b) == Cursor(b, HEADER)
  {
  }

  /** A run of appends, all of which must succeed. */
  function AddAll(b: Bytes, attrs: seq<Attr>): Option<Bytes>
    requires CommandLen(b).Some?
    decreases |attrs|
  {
    if attrs == [] then Some(b) else
      var r := AddAttr(b, attrs[0]);
      if r.None? then None else AddAll(r.value, attrs[1..])
  }

  lemma HeadTail<T>(s: seq<T>)
    requires s != []
    ensures [s[0]] + s[1..] == s
  {
  }

  /**
   After any run of successful appends the iterator yields exactly the old attributes
   and then the added ones in order, the message is recognised, and its first bytes
   are those it started with.
   */
  lemma {:induction false} AddAllYields(b: Bytes, attrs: seq<Attr>)
    requires WellFormed(b) && AddAll(b, attrs).Some?
    ensures var r := AddAll(b, attrs).value;
            WellFormed(r) && Attributes(r) == Attributes(b) + attrs && (Grown(b, r) || (attrs == [] && r == b))
    decreases |attrs|
  {
    if attrs == [] {
      assert Attributes(b) + attrs == Attributes(b);
    } else {
      hide Attributes, WellFormed, Grown, AddAttr;
      WellFormedTiled(b);
      var r := AddAttr(b, attrs[0]).value;
      AddAttrYields(b, attrs[0]);
      AddAttrGrows(b, attrs[0]);
      AddAllYields(r, attrs[1..]);
      var s := AddAll(r, attrs[1..]).value;
      assert AddAll(b, attrs) == Some(s);
      if attrs[1..] != [] {
        GrownTransitive(b, r, s);
      }
      AppendAssoc(Attributes(b), [attrs[0]], attrs[1..]);
      HeadTail(attrs);
    }
  }

  /** From a new command, the iterator gives back the list of attributes that was added. */
  lemma BuiltMessage(typ: Word16, tid: Bytes, attrs: seq<Attr>)
    requires |tid| == 12
    ensures CommandLen(Init(typ, tid)).Some?
    ensures AddAll(Init(typ, tid), attrs).Some? ==>
              var r := AddAll(Init(typ, tid), attrs).value;
              IsCommand(r) && Attributes(r) == attrs && U16(r, 2) == |r| - HEADER && U16(r, 2) % 4 == 0
  {
    InitWellFormed(typ, tid);
    if AddAll(Init(typ, tid), attrs).Some? {
      AddAllYields(Init(typ, tid), attrs);
      assert Attributes(Init(typ, tid)) + attrs == attrs;
    }
  }

  /** The lookup by type finds nothing exactly when no attribute has that type. */
  lemma {:induction false} FindNone(b: Bytes, o: Option<nat>, typ: Word16)
    requires o.Some? ==> CellOk(b, o.value)
    ensures FindFrom(b, o, typ) == None <==> forall a :: a in Walk(b, o) ==> a.typ != typ
    decreases if o.Some? then |b| - o.value else 0, o.Some?
  {
    if o.Some? {
      FindNone(b, Next(b, o.value), typ);
      assert AttrAt(b, o.value) in Walk(b, o);
    }
  }

  // ---- MESSAGE-INTEGRITY ----

  datatype Sha = Sha1 | Sha256 | Sha384 | Sha512

  function Size(sha: Sha): nat {
    match sha
    case Sha1 => 20
    case Sha256 => 32
    case Sha384 => 48
    case Sha512 => 64
  }

  /** A keyed HMAC of the given output length. */
  ghost predicate IsMac(mac: Bytes -> Bytes, sha: Sha) {
    forall d :: |mac(d)| == Size(sha)
  }

  /** stun_attr_add_integrity_str: an attribute of zeros, then the HMAC of all before it over them. */
  function AddIntegrity(b: Bytes, mac: Bytes -> Bytes, sha: Sha): Option<Bytes>
    requires CommandLen(b).Some?
  {
    var m := AddAttr(b, Attr(MESSAGE_INTEGRITY, Zeros(Size(sha))));
    if m.None? then None else
      var n := |m.value| - Size(sha);
      Some(m.value[..n] + mac(m.value[..n - 4]))
  }

  /** The message with its length field set as if it were n bytes long. */
  function WithLength(b: Bytes, n: nat): Bytes
    requires |b| >= HEADER && HEADER <= n < HEADER + 0x1_0000
  {
    b[..2] + Be16(n - HEADER) + b[4..]
  }

  /**
   stun_check_message_integrity_by_key_str: -1 without a usable attribute, 1 when its
   value is the HMAC of all before it, with the length field counting up to its end,
   else 0.
   */
  function CheckIntegrity(b: Bytes, mac: Bytes -> Bytes, sha: Sha): (r: int)
    ensures -1 <= r <= 1
  {
    var o := FindFirst(b, MESSAGE_INTEGRITY);
    if o.None? || U16(b, o.value + 2) != Size(sha) then -1
    else if mac(WithLength(b, o.value + 4 + Size(sha))[..o.value]) == b[o.value + 4..o.value + 4 + Size(sha)]
    then 1 else 0
  }

  // ---- FINGERPRINT ----

  type Nat32 = x: nat | x < 0x1_0000_0000

  /** The four bytes of a number, the highest first. */
  function Split(n: Nat32): (r: Bytes)
    ensures |r| == 4
  {
    Be16(n / 0x1_0000) + Be16(n % 0x1_0000)
  }

  function Number(w: Word): Nat32 {
    w as nat
  }

  /** nswap32 */
  function Be32(w: Word): (r: Bytes)
    ensures |r| == 4
  {
    Split(Number(w))
  }

  /** The CRC-32 of the bytes, exclusive-ored with FINGERPRINT_XOR, in network order. */
  function FingerprintOf(data: Bytes): (r: Bytes)
    ensures |r| == 4
  {
    Be32(Xor(Crc(data), 0x5354_554E))
  }

  /** stun_attr_add_fingerprint_str */
  function AddFingerprint(b: Bytes): Option<Bytes>
    requires CommandLen(b).Some?
  {
    var m := AddAttr(b, Attr(FINGERPRINT, Zeros(4)));
    if m.None? then None else Some(m.value[..|m.value| - 4] + FingerprintOf(m.value[..|m.value| - 8]))
  }

  /** stun_get_method_str */
  function Method(b: Bytes): nat
    requires |b| >= 2
  {
    var t := U16(b, 0);
    t % 16 + t / 32 % 8 * 16 + t / 512 % 8 * 128 + t / 4096 % 4 * 1024
  }

  /** stun_is_request_str, for messages that are not ChannelData. */
  predicate IsRequest(b: Bytes): (r: bool)
    ensures r ==> |b| >= 2
  {
    |b| >= 2 && U16(b, 0) / 16 % 2 == 0 && U16(b, 0) / 256 % 2 == 0
  }

  /** stun_make_type, with the class bits of a request, an indication, a success or an error response: 0 to 3. */
  function MakeType(m: nat, cls: nat): nat {
    m % 16 + m / 16 % 8 * 32 + m / 128 % 8 * 512 + m / 1024 % 4 * 4096 +
    cls % 2 * 16 + cls / 2 % 2 * 256
  }

  /** Every type that can be made reads back: its method, and whether it is a request; its two top bits are 0. */
  lemma TypeReadsBack(b: Bytes, m: nat, cls: nat)
    requires m < 0x1000 && cls < 4 && |b| >= 2 && U16(b, 0) == MakeType(m, cls)
    ensures Method(b) == m && (IsRequest(b) <==> cls == 0) && b[0] < 0x40
  {
    TypeDigits(m % 16, cls % 2, m / 16 % 8, cls / 2 % 2, m / 128 % 8, m / 1024 % 4);
    MethodDigits(m);
    assert U16(b, 0) / 256 == b[0];
  }

  lemma MethodDigits(m: nat)
    requires m < 0x1000
    ensures m == m % 16 + m / 16 % 8 * 16 + m / 128 % 8 * 128 + m / 1024 % 4 * 1024
  {
    assert m / 128 == m / 16 / 8 && m / 1024 == m / 128 / 8;
  }

  /** The digits of a type word can be read off it. */
  lemma TypeDigits(d0: nat, c0: nat, d1: nat, c1: nat, d2: nat, d3: nat)
    requires d0 < 16 && c0 < 2 && d1 < 8 && c1 < 2 && d2 < 8 && d3 < 4
    ensures var t := d0 + d1 * 32 + d2 * 512 + d3 * 4096 + c0 * 16 + c1 * 256;
            && t % 16 == d0 && t / 16 % 2 == c0 && t / 32 % 8 == d1 && t / 256 % 2 == c1
            && t / 512 % 8 == d2 && t / 4096 % 4 == d3 && t < 0x4000
  {
    var t := d0 + d1 * 32 + d2 * 512 + d3 * 4096 + c0 * 16 + c1 * 256;
    assert t / 16 == c0 + d1 * 2 + c1 * 16 + d2 * 32 + d3 * 256;
    assert t / 32 == d1 + c1 * 8 + d2 * 16 + d3 * 128;
    assert t / 256 == c1 + d2 * 2 + d3 * 16;
    assert t / 512 == d2 + d3 * 8;
    assert t / 4096 == d3;
  }

  const BINDING := 1

  /** stun_is_command_message_full_check_str */
  predicate FullCheck(b: Bytes, mustCheck: bool) {
    IsCommand(b) &&
    var o := FindFirst(b, FINGERPRINT);
    if o.None? then Method(b) == BINDING || !mustCheck
    else U16(b, o.value + 2) == 4 && b[o.value + 4..o.value + 8] == FingerprintOf(b[..o.value])
  }

  // ---- a protected message passes its checks ----

  /** Filling the value of the last cell afterwards gives the message that had the value from the start. */
  lemma FillLast(b: Bytes, n: Word16, typ: Word16, v0: Bytes, v: Bytes)
    requires |b| >= HEADER && |v0| == |v| < 0x1_0000 && |v| % 4 == 0
    ensures Extend(b, n, Cell(Attr(typ, v0)))[..|b| + 4] + v == Extend(b, n, Cell(Attr(typ, v)))
  {
  }

  lemma ExtendHead(b: Bytes, n: nat, cell: Bytes)
    requires |b| >= HEADER && HEADER <= n < HEADER + 0x1_0000
    ensures Extend(b, n - HEADER, cell)[..|b|] == WithLength(b, n)
  {
  }

  /** MESSAGE-INTEGRITY is an ordinary attribute whose value is the HMAC of the lengthened head. */
  lemma IntegrityIsAttr(b: Bytes, mac: Bytes -> Bytes, sha: Sha)
    requires WellFormed(b) && IsMac(mac, sha) && AddIntegrity(b, mac, sha).Some?
    ensures |b| + 4 + Size(sha) < MAX_MESSAGE
    ensures AddIntegrity(b, mac, sha) == AddAttr(b, Attr(MESSAGE_INTEGRITY, mac(WithLength(b, |b| + 4 + Size(sha)))))
  {
    hide Extend, Cell, Tiled, WithLength, AddAttr, Grown, WellFormed;
    WellFormedTiled(b);
    var zeros := Attr(MESSAGE_INTEGRITY, Zeros(Size(sha)));
    AddAttrGrows(b, zeros);
    ExtendHead(b, |b| + |Cell(zeros)|, Cell(zeros));
    var v := mac(WithLength(b, |b| + 4 + Size(sha)));
    FillLast(b, |b| + |Cell(zeros)| - HEADER, MESSAGE_INTEGRITY, zeros.value, v);
    SameSize(b, zeros, Attr(MESSAGE_INTEGRITY, v));
  }

  lemma FingerprintIsAttr(b: Bytes)
    requires WellFormed(b) && AddFingerprint(b).Some?
    ensures |b| + 8 < MAX_MESSAGE
    ensures AddFingerprint(b) == AddAttr(b, Attr(FINGERPRINT, FingerprintOf(WithLength(b, |b| + 8))))
  {
    hide Extend, Cell, Tiled, WithLength, FingerprintOf, AddAttr, Grown, WellFormed;
    WellFormedTiled(b);
    var zeros := Attr(FINGERPRINT, Zeros(4));
    AddAttrGrows(b, zeros);
    ExtendHead(b, |b| + |Cell(zeros)|, Cell(zeros));
    var v := FingerprintOf(WithLength(b, |b| + 8));
    FillLast(b, |b| + |Cell(zeros)| - HEADER, FINGERPRINT, zeros.value, v);
    SameSize(b, zeros, Attr(FINGERPRINT, v));
  }

  lemma SameSize(b: Bytes, a: Attr, a': Attr)
    requires WellFormed(b) && AddAttr(b, a).Some? && a'.typ == a.typ && |a'.value| == |a.value|
    ensures AddAttr(b, a').Some? && |a'.value| < 0x1_0000 && |b| + |Cell(a')| < MAX_MESSAGE
    ensures AddAttr(b, a').value == Extend(b, |b| + |Cell(a')| - HEADER, Cell(a'))
  {
    AddAttrGrows(b, a');
  }

  /** Where b ends, the grown message has the cell that was added first, byte for byte. */
  lemma GrownCell(b: Bytes, a: Attr, r: Bytes, s: Bytes)
    requires WellFormed(b) && AddAttr(b, a) == Some(r) && WellFormed(s) && (Grown(r, s) || s == r)
    ensures CellOk(s, |b|) && AttrAt(s, |b|) == a && U16(s, |b| + 2) == |a.value| && Cursor(s, |b|) == Some(|b|)
    ensures WithLength(s, |r|)[..|b|] == WithLength(b, |r|) && s[..|b|] == WithLength(b, |s|)
  {
    hide Extend, Tiled, Walk, AddAttr, IsCommand, Cell;
    WellFormedTiled(b);
    WellFormedTiled(s);
    AddAttrGrows(b, a);
    AddedCell(b, a);
    GrownHead(b, r);
    if Grown(r, s) {
      CellSame(r, s, |b|);
      GrownTransitive(b, r, s);
      GrownHead(b, s);
    }
  }

  lemma GrownHead(b: Bytes, s: Bytes)
    requires Grown(b, s) && |s| < HEADER + 0x1_0000
    ensures s[..|b|] == WithLength(b, |s|)
    ensures forall n :: HEADER <= n < HEADER + 0x1_0000 ==> WithLength(s, n)[..|b|] == WithLength(b, n)
  {
  }

  /** The first attribute of its type, added to a message that has none, is the one the lookup finds. */
  lemma FoundWhereAdded(b: Bytes, a: Attr, r: Bytes, s: Bytes)
    requires WellFormed(b) && AddAttr(b, a) == Some(r) && WellFormed(s) && (Grown(r, s) || s == r)
    requires forall x :: x in Attributes(b) ==> x.typ != a.typ
    ensures FindFirst(s, a.typ) == Some(|b|)
  {
    hide Extend, Tiled, Walk, WithLength;
    GrownCell(b, a, r, s);
    AddAttrGrows(b, a);
    if Grown(r, s) {
      GrownTransitive(b, r, s);
    }
    FindNone(b, First(b), a.typ);
    FirstIsCursor(b);
    FirstIsCursor(s);
    WellFormedTiled(b);
    FindThrough(b, s, HEADER, a.typ);
  }

  lemma WellFormedTiled(b: Bytes)
    requires WellFormed(b)
    ensures Tiled(b, HEADER) && CommandLen(b) == Some(|b|) && |b| >= HEADER && |b| % 4 == 0
  {
  }

  /** The append goes through exactly while the padded result stays below the largest message. */
  lemma AddAttrFits(b: Bytes, a: Attr)
    requires WellFormed(b)
    ensures CommandLen(b).Some? && (AddAttr(b, a).Some? <==> |b| + 4 + (|a.value| + 3) / 4 * 4 < 65507)
  {
    hide Extend, Lay, Tiled, IsCommand, CommandLen;
    WellFormedTiled(b);
    PaddedShift(|b| + 4, |a.value|);
  }

  // ---- what the checks refuse ----

  /** The bytes of a command message: type, length of the body, magic cookie, transaction id and body. */
  function Command(typ: Word16, tid: Bytes, body: Bytes): Bytes
    requires |tid| == 12 && |body| < 0x1_0000
  {
    Be16(typ) + Be16(|body|) + [0x21, 0x12, 0xA4, 0x42] + tid + body
  }

  /** Nothing is taken for a command but bytes of that shape, the type below 0x4000 and the body in whole words. */
  lemma CommandShape(b: Bytes)
    ensures IsCommand(b) <==>
            exists typ: Word16, tid: Bytes, body: Bytes ::
              |tid| == 12 && |body| < 0x1_0000 && typ < 0x4000 && |body| % 4 == 0 && b == Command(typ, tid, body)
  {
    if IsCommand(b) {
      assert b == Command(U16(b, 0), b[8..20], b[20..]);
    }
  }

  /**
   The verdict on a message whose first MESSAGE-INTEGRITY has the value v, whatever was added behind
   it: accepted exactly when v is the HMAC of all before the attribute, with the length field set to
   its end; refused for any other value of that size; unusable for any other size.
   */
  lemma IntegrityDecides(m: Bytes, mac: Bytes -> Bytes, sha: Sha, v: Bytes, m1: Bytes, s: Bytes)
    requires WellFormed(m) && CommandLen(m).Some? && AddAttr(m, Attr(MESSAGE_INTEGRITY, v)) == Some(m1)
    requires WellFormed(s) && (Grown(m1, s) || s == m1)
    requires forall x :: x in Attributes(m) ==> x.typ != MESSAGE_INTEGRITY
    ensures HEADER <= |m1| < HEADER + 0x1_0000
    ensures CheckIntegrity(s, mac, sha) ==
            if |v| != Size(sha) then -1 else if v == mac(WithLength(m, |m1|)) then 1 else 0
  {
    hide Extend, Tiled, Walk, WithLength, AddAttr, Attributes, Grown, WellFormed, Cursor;
    WellFormedTiled(m);
    WellFormedTiled(s);
    var a := Attr(MESSAGE_INTEGRITY, v);
    FoundWhereAdded(m, a, m1, s);
    GrownCell(m, a, m1, s);
    AddAttrGrows(m, a);
    if |v| == Size(sha) {
      assert |m1| == |m| + 4 + Size(sha);
      assert AttrAt(s, |m|).value == s[|m| + 4..|m| + 4 + Size(sha)];
    }
  }

  /** Without the attribute there is nothing to check. */
  lemma IntegrityMissing(m: Bytes, mac: Bytes -> Bytes, sha: Sha)
    requires forall x :: x in Attributes(m) ==> x.typ != MESSAGE_INTEGRITY
    ensures CheckIntegrity(m, mac, sha) == -1
  {
    FindNone(m, First(m), MESSAGE_INTEGRITY);
  }

  /** Four bytes as a number in network order. */
  function U32(v: Bytes): nat
    requires |v| == 4
  {
    0x1_0000 * U16(v, 0) + U16(v, 2)
  }

  lemma SplitNumber(v: Bytes, n: Nat32)
    requires |v| == 4
    ensures v == Split(n) <==> U32(v) == n
  {
    var r := Split(n);
    assert U16(r, 0) == n / 0x1_0000 && U16(r, 2) == n % 0x1_0000;
    if U32(v) == n {
      assert U16(v, 0) == n / 0x1_0000 && U16(v, 2) == n % 0x1_0000;
      assert v == r;
    }
  }

  /**
   The full check of a message whose first FINGERPRINT has the value v: passed exactly when v is four
   bytes long and their number is the CRC-32 of all before the attribute, with the length field set to
   its end, exclusive-ored with 0x5354554E.
   */
  lemma FingerprintDecides(m: Bytes, v: Bytes, m1: Bytes, mustCheck: bool)
    requires WellFormed(m) && CommandLen(m).Some? && AddAttr(m, Attr(FINGERPRINT, v)) == Some(m1)
    requires forall x :: x in Attributes(m) ==> x.typ != FINGERPRINT
    ensures HEADER <= |m1| < HEADER + 0x1_0000
    ensures FullCheck(m1, mustCheck) <==> |v| == 4 && U32(v) == Number(Xor(Crc(WithLength(m, |m1|)), 0x5354_554E))
  {
    hide Extend, Tiled, Walk, WithLength, AddAttr, Attributes, Grown, WellFormed, Cursor, U32, Split, Number, Crc, Xor;
    WellFormedTiled(m);
    var a := Attr(FINGERPRINT, v);
    AddAttrYields(m, a);
    WellFormedTiled(m1);
    IsWellFormedCommand(m1);
    FoundWhereAdded(m, a, m1, m1);
    GrownCell(m, a, m1, m1);
    AddAttrGrows(m, a);
    if |v| == 4 {
      assert |m1| == |m| + 8;
      assert AttrAt(m1, |m|).value == m1[|m| + 4..|m| + 8];
      SplitNumber(v, Number(Xor(Crc(WithLength(m, |m1|)), 0x5354_554E)));
    }
  }

  lemma IsWellFormedCommand(b: Bytes)
    requires WellFormed(b)
    ensures IsCommand(b)
  {
  }

  /** Without the attribute only a Binding passes where it is mandatory. */
  lemma FingerprintMissing(m: Bytes, mustCheck: bool)
    requires IsCommand(m) && forall x :: x in Attributes(m) ==> x.typ != FINGERPRINT
    ensures FullCheck(m, mustCheck) <==> Method(m) == 1 || !mustCheck
  {
    FindNone(m, First(m), FINGERPRINT);
  }

  /** The integrity check accepts whatever grows from a message to which the attribute was added first. */
  lemma IntegrityAccepted(m: Bytes, mac: Bytes -> Bytes, sha: Sha, m1: Bytes, s: Bytes)
    requires WellFormed(m) && IsMac(mac, sha) && AddIntegrity(m, mac, sha) == Some(m1)
    requires WellFormed(s) && (Grown(m1, s) || s == m1)
    requires forall x :: x in Attributes(m) ==> x.typ != MESSAGE_INTEGRITY
    ensures CheckIntegrity(s, mac, sha) == 1
  {
    hide Extend, Tiled, Walk, WithLength, AddAttr, Attributes, Grown, WellFormed, AddIntegrity, Cursor;
    WellFormedTiled(m);
    WellFormedTiled(s);
    IntegrityIsAttr(m, mac, sha);
    var a := Attr(MESSAGE_INTEGRITY, mac(WithLength(m, |m| + 4 + Size(sha))));
    FoundWhereAdded(m, a, m1, s);
    GrownCell(m, a, m1, s);
    AddAttrGrows(m, a);
    assert |m1| == |m| + 4 + Size(sha);
  }

  /** The full check accepts a message to which the first fingerprint has just been added. */
  lemma FingerprintAccepted(m: Bytes, m': Bytes, mustCheck: bool)
    requires WellFormed(m) && AddFingerprint(m) == Some(m')
    requires forall x :: x in Attributes(m) ==> x.typ != FINGERPRINT
    ensures WellFormed(m') && Grown(m, m') && FullCheck(m', mustCheck)
  {
    hide Extend, Tiled, Walk, WithLength, AddAttr, Attributes, FingerprintOf;
    FingerprintIsAttr(m);
    var a := Attr(FINGERPRINT, FingerprintOf(WithLength(m, |m| + 8)));
    AddAttrYields(m, a);
    AddAttrGrows(m, a);
    FoundWhereAdded(m, a, m', m');
    GrownCell(m, a, m', m');
    assert |m'| == |m| + 8;
  }

  /**
   A message without either attribute, given MESSAGE-INTEGRITY, then any other
   attributes, then FINGERPRINT, passes the integrity check with the same key and the
   full check, whether or not the fingerprint is mandatory.
   */
  lemma ProtectedMessage(m: Bytes, mac: Bytes -> Bytes, sha: Sha, others: seq<Attr>, m1: Bytes, m2: Bytes, m3: Bytes)
    requires WellFormed(m) && IsMac(mac, sha)
    requires forall a :: a in Attributes(m) || a in others ==> a.typ != MESSAGE_INTEGRITY && a.typ != FINGERPRINT
    requires AddIntegrity(m, mac, sha) == Some(m1)
    requires CommandLen(m1).Some? && AddAll(m1, others) == Some(m2)
    requires CommandLen(m2).Some? && AddFingerprint(m2) == Some(m3)
    ensures CheckIntegrity(m3, mac, sha) == 1
    ensures FullCheck(m3, true) && FullCheck(m3, false)
    ensures exists v, f ::
              Attributes(m3) == Attributes(m) + [Attr(MESSAGE_INTEGRITY, v)] + others + [Attr(FINGERPRINT, f)]
  {
    hide Extend, WellFormed, WithLength, AddAttr, Attributes, FingerprintOf, FullCheck, CheckIntegrity, AddFingerprint,
         AddIntegrity, Grown;
    WellFormedTiled(m);
    IntegrityIsAttr(m, mac, sha);
    var i := Attr(MESSAGE_INTEGRITY, mac(WithLength(m, |m| + 4 + Size(sha))));
    AddAttrYields(m, i);
    AddAllYields(m1, others);
    FingerprintAccepted(m2, m3, true);
    FingerprintAccepted(m2, m3, false);
    if others != [] {
      GrownTransitive(m1, m2, m3);
    }
    IntegrityAccepted(m, mac, sha, m1, m3);
    WellFormedTiled(m2);
    FingerprintIsAttr(m2);
    AddAttrYields(m2, Attr(FINGERPRINT, FingerprintOf(WithLength(m2, |m2| + 8))));
  }
}

