/**
 The STUN message format as src/client/ns_turn_msg.c reads it: the 20-byte header,
 the attribute cells behind it and the iterator over them (section 15 of RFC 5389).
 */
module StunBytes {
  import opened Basics
  import opened Crc32

  type Bytes = seq<Byte>

  const HEADER := 20
  const MAX_MESSAGE := 65507

  /** STUN_MAGIC_COOKIE in network order. */
  const COOKIE: Bytes := [0x21, 0x12, 0xA4, 0x42]

  const MESSAGE_INTEGRITY := 0x0008
  const FINGERPRINT := 0x8028

  type Word16 = x: nat | x < 0x1_0000

  /** nswap16 of the two bytes at i. */
  function U16(b: Bytes, i: nat): Word16
    requires i + 2 <= |b|
  {
    var hi: nat := b[i];
    256 * hi + b[i + 1]
  }

  function Be16(n: Word16): (r: Bytes)
    ensures |r| == 2 && U16(r, 0) == n
  {
    [n / 256, n % 256]
  }

  function Zeros(n: nat): (r: Bytes)
    ensures |r| == n
  {
    seq(n, _ => 0)
  }

  /** Rounded up to a multiple of four. */
  function Padded(n: nat): (p: nat)
    ensures n <= p < n + 4 && p % 4 == 0
  {
    (n + 3) / 4 * 4
  }

  /** stun_get_command_message_len_str: header length plus 20, unless the buffer is shorter. */
  function CommandLen(b: Bytes): (r: Option<nat>)
    ensures r.Some? ==> HEADER <= r.value <= |b|
  {
    if |b| < HEADER || U16(b, 2) + HEADER > |b| then None else Some(U16(b, 2) + HEADER)
  }

  /** stun_is_command_message_str */
  predicate IsCommand(b: Bytes) {
    && |b| >= HEADER
    && !ValidChannel(U16(b, 0))
    && b[0] < 0x40
    && b[4..8] == COOKIE
    && U16(b, 2) % 4 == 0
    && U16(b, 2) + HEADER == |b|
  }

  datatype Attr = Attr(typ: Word16, value: Bytes)

  /** The attribute cell at offset o ends here, padding included. */
  function CellEnd(b: Bytes, o: nat): nat
    requires o + 4 <= |b|
  {
    o + 4 + Padded(U16(b, o + 2))
  }

  /** stun_attr_check_valid, for a cell at o in a message of n bytes. */
  function CheckValid(b: Bytes, o: nat, n: nat): (r: Option<nat>)
    requires n <= |b|
    ensures r.Some? ==> r.value == o && o + 4 <= n && CellEnd(b, o) <= n
  {
    if o + 4 <= n && CellEnd(b, o) <= n then Some(o) else None
  }

  /** stun_attr_get_first_str */
  function First(b: Bytes): (r: Option<nat>)
    ensures r.Some? ==> CommandLen(b).Some? && r.value == HEADER && CellOk(b, r.value)
  {
    var n := CommandLen(b);
    if n.Some? && n.value > HEADER then CheckValid(b, HEADER, n.value) else None
  }

  /** The whole cell at o is inside the declared message. */
  predicate CellOk(b: Bytes, o: nat) {
    CommandLen(b).Some? && HEADER <= o && o + 4 <= CommandLen(b).value && CellEnd(b, o) <= CommandLen(b).value
  }

  /** stun_attr_get_next_str: on any bytes, the next cell starts where this one ends and is inside too. */
  function Next(b: Bytes, o: nat): (r: Option<nat>)
    requires CellOk(b, o)
    ensures r.Some? ==> o + 4 <= r.value == CellEnd(b, o) && CellOk(b, r.value)
  {
    var end := CommandLen(b).value;
    if CellEnd(b, o) < end then CheckValid(b, CellEnd(b, o), end) else None
  }

  /** The attributes the iterator yields from a cell on. */
  function Walk(b: Bytes, o: Option<nat>): seq<Attr>
    requires o.Some? ==> CellOk(b, o.value)
    decreases if o.Some? then |b| - o.value else 0, o.Some?
  {
    if o.None? then [] else [AttrAt(b, o.value)] + Walk(b, Next(b, o.value))
  }

  function AttrAt(b: Bytes, o: nat): Attr
    requires CellOk(b, o)
  {
    Attr(U16(b, o), b[o + 4..o + 4 + U16(b, o + 2)])
  }

  /** All attributes of a message, as a client of the iterator sees them. */
  function Attributes(b: Bytes): seq<Attr> {
    Walk(b, First(b))
  }

  /** stun_attr_get_first_by_type_str */
  function FindFrom(b: Bytes, o: Option<nat>, typ: Word16): (r: Option<nat>)
    requires o.Some? ==> CellOk(b, o.value)
    ensures r.Some? ==> CellOk(b, r.value) && U16(b, r.value) == typ
    decreases if o.Some? then |b| - o.value else 0, o.Some?
  {
    if o.None? then None
    else if U16(b, o.value) == typ then o
    else FindFrom(b, Next(b, o.value), typ)
  }

  function FindFirst(b: Bytes, typ: Word16): (r: Option<nat>)
    ensures r.Some? ==> CellOk(b, r.value) && U16(b, r.value) == typ
  {
    FindFrom(b, First(b), typ)
  }

  // ---- well-formed messages ----

  /** From o on, the message is a row of whole cells. */
  predicate Tiled(b: Bytes, o: nat)
    requires o <= |b|
    decreases |b| - o
  {
    o == |b| || (o + 4 <= |b| && CellEnd(b, o) <= |b| && Tiled(b, CellEnd(b, o)))
  }

  /** A command message whose cells fill it exactly. */
  predicate WellFormed(b: Bytes) {
    IsCommand(b) && Tiled(b, HEADER)
  }

  /** The offsets the iterator visits. */
  function Offsets(b: Bytes, o: Option<nat>): seq<nat>
    requires o.Some? ==> CellOk(b, o.value)
    decreases if o.Some? then |b| - o.value else 0, o.Some?
  {
    if o.None? then [] else [o.value] + Offsets(b, Next(b, o.value))
  }

  /**
   On arbitrary bytes the iterator visits cells one after the other, never the same
   bytes twice, and every padded cell lies inside the declared message.
   */
  lemma {:induction false} IterationInside(b: Bytes, o: Option<nat>)
    requires o.Some? ==> CellOk(b, o.value)
    ensures var os := Offsets(b, o);
            && |os| == |Walk(b, o)|
            && (forall i :: 0 <= i < |os| ==>
                  o.Some? && o.value <= os[i] && CellOk(b, os[i]) && Walk(b, o)[i] == AttrAt(b, os[i]))
            && (forall i :: 0 <= i < |os| - 1 ==> CellEnd(b, os[i]) == os[i + 1])
    decreases if o.Some? then |b| - o.value else 0, o.Some?
  {
    if o.Some? {
      var next := Next(b, o.value);
      IterationInside(b, next);
      var os, rest := Offsets(b, o), Offsets(b, next);
      assert forall i :: 0 < i < |os| ==> os[i] == rest[i - 1];
      assert |rest| > 0 ==> rest[0] == next.value;
    }
  }

  // ---- appending a cell ----

  /** The header of b with another length, its cells, and one more cell. */
  function Extend(b: Bytes, n: Word16, cell: Bytes): (r: Bytes)
    requires |b| >= HEADER
    ensures |r| == |b| + |cell|
  {
    b[..2] + Be16(n) + b[4..] + cell
  }

  lemma ExtendParts(b: Bytes, n: Word16, cell: Bytes)
    requires |b| >= HEADER
    ensures var r := Extend(b, n, cell);
            U16(r, 2) == n && r[..2] == b[..2] && r[4..|b|] == b[4..] && r[|b|..] == cell
  {
  }

  /** Type, length, value and a number of zero bytes. */
  function Lay(a: Attr, pad: nat): (r: Bytes)
    requires |a.value| < 0x1_0000
    ensures |r| == 4 + |a.value| + pad
  {
    Be16(a.typ) + Be16(|a.value|) + a.value + Zeros(pad)
  }

  /** One attribute laid out as a cell of its own. */
  function Cell(a: Attr): (r: Bytes)
    requires |a.value| < 0x1_0000
    ensures |r| == 4 + Padded(|a.value|)
  {
    Lay(a, Padded(|a.value|) - |a.value|)
  }

  /** b' has b's cells, and is declared as long as it is. */
  ghost predicate Continues(b: Bytes, b': Bytes) {
    HEADER <= |b| <= |b'| && CommandLen(b') == Some(|b'|) && b'[HEADER..|b|] == b[HEADER..]
  }

  lemma CellSame(b: Bytes, b': Bytes, o: nat)
    requires Continues(b, b') && HEADER <= o && o + 4 <= |b| && CellEnd(b, o) <= |b|
    ensures CellEnd(b', o) == CellEnd(b, o) && CellOk(b', o) && U16(b', o) == U16(b, o)
    ensures b'[o + 4..o + 4 + U16(b', o + 2)] == b[o + 4..o + 4 + U16(b, o + 2)]
    ensures CommandLen(b) == Some(|b|) ==> AttrAt(b', o) == AttrAt(b, o)
  {
    assert forall i :: HEADER <= i < |b| ==> b'[i] == b'[HEADER..|b|][i - HEADER] == b[HEADER..][i - HEADER] == b[i];
  }

  /** The iterator's cursor at o: None at the end of the message. */
  function Cursor(b: Bytes, o: nat): (r: Option<nat>)
    requires HEADER <= o <= |b| && CommandLen(b) == Some(|b|)
    ensures r.Some? ==> CellOk(b, r.value)
  {
    if o == |b| then None else CheckValid(b, o, |b|)
  }

  lemma AppendAssoc<T>(x: seq<T>, y: seq<T>, z: seq<T>)
    ensures x + (y + z) == (x + y) + z
  {
  }

  lemma WalkStep(b: Bytes, o: nat)
    requires CommandLen(b) == Some(|b|) && HEADER <= o && o + 4 <= |b| && CellEnd(b, o) <= |b|
    ensures Walk(b, Cursor(b, o)) == [AttrAt(b, o)] + Walk(b, Cursor(b, CellEnd(b, o)))
    ensures Next(b, o) == Cursor(b, CellEnd(b, o))
  {
  }

  /** Reading past the cells of b, the iterator yields b's attributes and goes on behind them. */
  lemma {:induction false} WalkThrough(b: Bytes, b': Bytes, o: nat)
    requires Continues(b, b') && CommandLen(b) == Some(|b|) && HEADER <= o <= |b| && Tiled(b, o)
    ensures Walk(b', Cursor(b', o)) == Walk(b, Cursor(b, o)) + Walk(b', Cursor(b', |b|))
    decreases |b| - o
  {
    if o == |b| {
      assert Walk(b, Cursor(b, o)) == [];
    } else {
      hide Walk, Cursor;
      var e := CellEnd(b, o);
      CellSame(b, b', o);
      WalkThrough(b, b', e);
      WalkStep(b, o);
      WalkStep(b', o);
      AppendAssoc([AttrAt(b, o)], Walk(b, Cursor(b, e)), Walk(b', Cursor(b', |b|)));
    }
  }

  /** A type that none of b's cells has is looked for behind them. */
  lemma {:induction false} FindThrough(b: Bytes, b': Bytes, o: nat, typ: Word16)
    requires Continues(b, b') && CommandLen(b) == Some(|b|) && HEADER <= o <= |b| && Tiled(b, o)
    requires FindFrom(b, Cursor(b, o), typ) == None
    ensures FindFrom(b', Cursor(b', o), typ) == FindFrom(b', Cursor(b', |b|), typ)
    decreases |b| - o
  {
    if o != |b| {
      CellSame(b, b', o);
      assert Next(b, o) == Cursor(b, CellEnd(b, o));
      assert Next(b', o) == Cursor(b', CellEnd(b, o));
      FindThrough(b, b', CellEnd(b, o), typ);
    }
  }

  lemma {:induction false} TiledThrough(b: Bytes, b': Bytes, o: nat)
    requires Continues(b, b') && HEADER <= o <= |b| && Tiled(b, o) && Tiled(b', |b|)
    ensures Tiled(b', o)
    decreases |b| - o
  {
    if o != |b| {
      CellSame(b, b', o);
      TiledThrough(b, b', CellEnd(b, o));
    }
  }
}

