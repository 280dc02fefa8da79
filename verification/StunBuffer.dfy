/**
 The message functions of src/client/ns_turn_msg.c in the form the server runs them:
 on a caller's byte buffer, written in place.  Each is tied to its function on values.
 */
module StunBuffer {
  import opened Basics
  import opened Crc32
  import opened StunBytes
  import opened StunBuild

  /** stun_attr_get_first_by_type_str: the iterator loop. */
  method FindByType(b: Bytes, typ: Word16) returns (r: Option<nat>)
    ensures r == FindFirst(b, typ)
  {
    r := First(b);
    while r.Some? && U16(b, r.value) != typ
      invariant r.Some? ==> CellOk(b, r.value)
      invariant FindFrom(b, r, typ) == FindFirst(b, typ)
      decreases if r.Some? then |b| - r.value else 0, r.Some?
    {
      r := Next(b, r.value);
    }
  }

  /** b with src written over it at an offset. */
  function Splice(b: Bytes, at: nat, src: Bytes): (r: Bytes)
    requires at + |src| <= |b|
    ensures |r| == |b|
  {
    b[..at] + src + b[at + |src|..]
  }

  /** memcpy to buf + at */
  method Copy(buf: array<Byte>, at: nat, src: Bytes)
    requires at + |src| <= buf.Length
    modifies buf
    ensures buf[..] == Splice(old(buf[..]), at, src)
  {
    for i := 0 to |src|
      invariant buf[..] == old(buf[..at]) + src[..i] + old(buf[at + i..])
    {
      buf[at + i] := src[i];
      assert src[..i + 1] == src[..i] + [src[i]];
    }
    assert src[..|src|] == src;
  }

  /** Two neighbouring writes are one. */
  lemma SpliceNext(b: Bytes, at: nat, x: Bytes, y: Bytes)
    requires at + |x| + |y| <= |b|
    ensures Splice(Splice(b, at, x), at + |x|, y) == Splice(b, at, x + y)
  {
  }

  /** The length field, and a cell behind the first n bytes, make the extended message. */
  lemma SpliceExtends(b: Bytes, n: nat, len: Word16, cell: Bytes)
    requires HEADER <= n && n + |cell| <= |b|
    ensures var r := Splice(Splice(b, 2, Be16(len)), n, cell);
            r[..n + |cell|] == Extend(b[..n], len, cell) && r[n + |cell|..] == b[n + |cell|..]
  {
  }

  /** Type, length, value and padding, written one behind the other. */
  method WriteCell(buf: array<Byte>, at: nat, a: Attr, pad: nat)
    requires |a.value| < 0x1_0000 && at + 4 + |a.value| + pad <= buf.Length
    modifies buf
    ensures buf[..] == Splice(old(buf[..]), at, Lay(a, pad))
  {
    hide Splice;
    Copy(buf, at, Be16(a.typ));
    Copy(buf, at + 2, Be16(|a.value|));
    Copy(buf, at + 4, a.value);
    Copy(buf, at + 4 + |a.value|, Zeros(pad));
    SpliceNext(old(buf[..]), at, Be16(a.typ), Be16(|a.value|));
    SpliceNext(old(buf[..]), at, Be16(a.typ) + Be16(|a.value|), a.value);
    SpliceNext(old(buf[..]), at, Be16(a.typ) + Be16(|a.value|) + a.value, Zeros(pad));
  }

  /** stun_attr_add_str: the buffer grows by the attribute, or nothing happens. */
  method AddAttrTo(buf: array<Byte>, len: nat, a: Attr) returns (len': nat, ok: bool)
    requires len <= buf.Length && buf.Length >= MAX_MESSAGE && CommandLen(buf[..len]).Some?
    modifies buf
    ensures ok <==> AddAttr(old(buf[..len]), a).Some?
    ensures ok ==>
              len' <= buf.Length && Some(buf[..len']) == AddAttr(old(buf[..len]), a) && buf[len'..] == old(buf[len'..])
    ensures !ok ==> len' == len && buf[..] == old(buf[..])
  {
    hide Splice, Extend, Lay, Padded;
    var n := CommandLen(buf[..len]).value;
    var end := n + 4 + |a.value|;
    if Padded(end) >= MAX_MESSAGE {
      return len, false;
    }
    ghost var b := buf[..];
    SpliceExtends(b, n, Padded(end) - HEADER, Lay(a, Padded(end) - end));
    Copy(buf, 2, Be16(Padded(end) - HEADER));
    WriteCell(buf, n, a, Padded(end) - end);
    PrefixOfPrefix(b, n, len);
    return Padded(end), true;
  }

  lemma PrefixOfPrefix(b: Bytes, n: nat, len: nat)
    requires n <= len <= |b|
    ensures b[..len][..n] == b[..n]
  {
  }

  /** Overwriting the tail of the first len bytes. */
  lemma SpliceTail(b: Bytes, len: nat, v: Bytes)
    requires |v| <= len <= |b|
    ensures Splice(b, len - |v|, v)[..len] == b[..len - |v|] + v && Splice(b, len - |v|, v)[len..] == b[len..]
  {
  }

  /** stun_attr_add_integrity_str */
  method AddIntegrityTo(buf: array<Byte>, len: nat, mac: Bytes -> Bytes, sha: Sha) returns (len': nat, ok: bool)
    requires len <= buf.Length && buf.Length >= MAX_MESSAGE && CommandLen(buf[..len]).Some? && IsMac(mac, sha)
    modifies buf
    ensures ok <==> AddIntegrity(old(buf[..len]), mac, sha).Some?
    ensures ok ==> len' <= buf.Length && buf[len'..] == old(buf[len'..])
    ensures ok ==> Some(buf[..len']) == AddIntegrity(old(buf[..len]), mac, sha)
    ensures !ok ==> len' == len && buf[..] == old(buf[..])
  {
    hide Splice, AddAttr, Zeros, CommandLen;
    len', ok := AddAttrTo(buf, len, Attr(MESSAGE_INTEGRITY, Zeros(Size(sha))));
    if ok {
      ghost var m, b := buf[..len'], buf[..];
      AttrRoom(old(buf[..len]), Attr(MESSAGE_INTEGRITY, Zeros(Size(sha))));
      var n := len' - Size(sha);
      var v := mac(buf[..n - 4]);
      SpliceTail(b, len', v);
      PrefixOfPrefix(b, n, len');
      PrefixOfPrefix(b, n - 4, len');
      Copy(buf, n, v);
    }
  }

  /** stun_attr_add_fingerprint_str */
  method AddFingerprintTo(buf: array<Byte>, len: nat) returns (len': nat, ok: bool)
    requires len <= buf.Length && buf.Length >= MAX_MESSAGE && CommandLen(buf[..len]).Some?
    modifies buf
    ensures ok <==> AddFingerprint(old(buf[..len])).Some?
    ensures ok ==>
              len' <= buf.Length && Some(buf[..len']) == AddFingerprint(old(buf[..len])) &&
              buf[len'..] == old(buf[len'..])
    ensures !ok ==> len' == len && buf[..] == old(buf[..])
  {
    hide Splice, AddAttr, Zeros, Be32, Xor, Crc;
    len', ok := AddAttrTo(buf, len, Attr(FINGERPRINT, Zeros(4)));
    if ok {
      ghost var b := buf[..];
      AttrRoom(old(buf[..len]), Attr(FINGERPRINT, Zeros(4)));
      var crc := NsCrc32(buf, len' - 8);
      SpliceTail(b, len', Be32(Xor(crc, 0x5354_554E)));
      PrefixOfPrefix(b, len' - 4, len');
      PrefixOfPrefix(b, len' - 8, len');
      Copy(buf, len' - 4, Be32(Xor(crc, 0x5354_554E)));
    }
  }

  lemma AttrRoom(b: Bytes, a: Attr)
    requires CommandLen(b).Some? && AddAttr(b, a).Some?
    ensures |AddAttr(b, a).value| >= HEADER + 4 + |a.value|
  {
  }

  /** The length field rewritten is seen only through WithLength, and rewriting it back undoes it. */
  lemma SpliceLength(b: Bytes, len: nat, n: nat)
    requires HEADER <= len <= |b| && HEADER <= n < HEADER + 0x1_0000
    ensures Splice(b, 2, Be16(n - HEADER))[..len] == WithLength(b[..len], n)
    ensures Splice(Splice(b, 2, Be16(n - HEADER)), 2, Be16(U16(b, 2))) == b
  {
  }

  lemma SliceOfPrefix(b: Bytes, len: nat, i: nat, j: nat)
    requires i <= j <= len <= |b|
    ensures b[..len][i..j] == b[i..j]
  {
  }

  lemma PrefixOfSum(h: Bytes, t: Bytes, o: nat)
    requires |h| <= o <= |h| + |t|
    ensures (h + t)[..o] == h + t[..o - |h|]
  {
  }

  lemma DropTake(b: Bytes, i: nat, j: nat)
    requires i <= j <= |b|
    ensures b[i..][..j - i] == b[i..j]
  {
  }

  lemma WithLengthPrefix(b: Bytes, len: nat, n: nat, o: nat)
    requires HEADER <= n < HEADER + 0x1_0000 && HEADER <= o <= len <= |b|
    ensures WithLength(b[..len], n)[..o] == WithLength(b[..o], n)
    ensures U16(b[..len], 2) == U16(b, 2)
  {
    var x, y := b[..len], b[..o];
    SliceOfPrefix(b, len, 0, 2);
    SliceOfPrefix(b, o, 0, 2);
    SliceOfPrefix(b, len, 4, o);
    SliceOfPrefix(b, o, 4, o);
    DropTake(x, 4, o);
    PrefixOfSum(x[..2] + Be16(n - HEADER), x[4..], o);
  }

  /** The HMAC of the first o bytes, taken while the length field says n; afterwards the field is put back. */
  method HmacAs(buf: array<Byte>, o: nat, n: nat, origLen: nat, mac: Bytes -> Bytes) returns (hmac: Bytes)
    requires HEADER <= o <= buf.Length && HEADER <= n < HEADER + 0x1_0000 && origLen == U16(buf[..], 2) + HEADER
    modifies buf
    ensures hmac == mac(WithLength(buf[..o], n))
    ensures buf[..] == old(buf[..])
  {
    hide Splice, WithLength, Be16;
    SpliceLength(buf[..], o, n);
    Copy(buf, 2, Be16(n - HEADER));
    hmac := mac(buf[..o]);
    Copy(buf, 2, Be16(origLen - HEADER));
  }

  /**
   stun_check_message_integrity_by_key_str: the length field is set to the end of the
   attribute while the HMAC is computed and then put back, so no byte is changed.
   */
  method CheckIntegrityOf(buf: array<Byte>, len: nat, mac: Bytes -> Bytes, sha: Sha) returns (r: int)
    requires len <= buf.Length
    modifies buf
    ensures r == CheckIntegrity(old(buf[..len]), mac, sha)
    ensures buf[..] == old(buf[..])
  {
    hide WithLength, FindFrom, U16;
    var o := FindByType(buf[..len], MESSAGE_INTEGRITY);
    if o.None? || U16(buf[..len], o.value + 2) != Size(sha) {
      return -1;
    }
    var origLen := CommandLen(buf[..len]).value;
    var newLen := o.value + 4 + Size(sha);
    WithLengthPrefix(buf[..], len, newLen, o.value);
    SliceOfPrefix(buf[..], len, o.value + 4, newLen);
    var hmac := HmacAs(buf, o.value, newLen, origLen, mac);
    return if hmac == buf[o.value + 4..newLen] then 1 else 0;
  }
}

