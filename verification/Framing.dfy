/**
 ChannelData messages and the framing of byte streams (sections 11.4 and 11.5 of
 RFC 5766) as src/client/ns_turn_msg.c does them.  How long an HTTP request is, is
 left to a parameter that may answer only for bytes starting with a verb.
 */
module Framing {
  import opened Basics
  import opened Crc32
  import opened StunBytes
  import opened StunBuild
  import opened StunBuffer

  /** The first bytes of the HTTP verbs is_http looks for. */
  predicate StartsVerb(b: Bytes) {
    && |b| >= 12
    && (b[..4] == [0x47, 0x45, 0x54, 0x20] || b[..4] == [0x50, 0x55, 0x54, 0x20]
        || b[..5] == [0x50, 0x4F, 0x53, 0x54, 0x20] || b[..7] == [0x44, 0x45, 0x4C, 0x45, 0x54, 0x45, 0x20])
  }

  type HttpLength = Bytes -> nat

  ghost predicate OnlyHttp(http: HttpLength) {
    forall b :: http(b) > 0 ==> StartsVerb(b)
  }

  /** A channel number whose two bytes are GE, PU, PO or DE. */
  predicate SpellsVerb(chn: nat) {
    chn == 0x4745 || chn == 0x5055 || chn == 0x504F || chn == 0x4445
  }

  /** The tests the framer makes before it trusts a STUN length field. */
  predicate StunHeader(b: Bytes) {
    |b| >= HEADER && !ValidChannel(U16(b, 0)) && b[0] < 0x40 && b[4..8] == COOKIE && U16(b, 2) % 4 == 0
  }

  datatype Framed = Framed(length: nat, appLength: nat)

  /** stun_get_message_len_str; the STUN length is added up in 16 bits. */
  function MessageLen(b: Bytes, padding: bool, http: HttpLength): Option<Framed> {
    if StunHeader(b) && (U16(b, 2) + HEADER) % 0x1_0000 <= |b| then
      var n := (U16(b, 2) + HEADER) % 0x1_0000;
      Some(Framed(n, n))
    else if 0 < http(b) <= |b| then Some(Framed(http(b), http(b)))
    else if |b| >= 4 && ValidChannel(U16(b, 0)) then
      var n := 4 + U16(b, 2);
      var m := if padding then Padded(n) else n;
      if m <= |b| then Some(Framed(m, n)) else None
    else None
  }

  // ---- ChannelData ----

  /** stun_init_channel_message_str: the header it writes and the length it announces. */
  function ChannelHeader(chn: Word16, length: int, padding: bool): (r: Option<(Bytes, nat)>) {
    if length < 0 || MAX_MESSAGE < 4 + length then None
    else Some((Be16(chn) + Be16(length), 4 + if padding then Padded(length) else length))
  }

  /** A ChannelData message as a client of stun_init_channel_message_str sends it, the padding being zeros. */
  function ChannelData(chn: Word16, data: Bytes, padding: bool): (r: Option<Bytes>)
    ensures r.Some? <==> 4 + |data| <= MAX_MESSAGE
  {
    var h := ChannelHeader(chn, |data|, padding);
    if h.None? then None else Some(h.value.0 + data + Zeros(h.value.1 - 4 - |data|))
  }

  /** stun_is_channel_message_str: the channel number, and the length without padding. */
  function ReadChannel(b: Bytes, mandatoryPadding: bool): (r: Option<(Word16, nat)>)
    ensures r.Some? ==> r.value.1 <= |b| && ValidChannel(r.value.0)
  {
    if |b| < 4 || !ValidChannel(U16(b, 0)) then None
    else
      var actual := (if |b| > 0xFFFF then 0xFFFF else |b|) - 4;
      var header := U16(b, 2);
      if header > actual then None
      else if header != actual && actual % 4 != 0 && (mandatoryPadding || header == 0 || actual - header > 3) then None
      else Some((U16(b, 0), header + 4))
  }

  lemma ChannelBytes(chn: Word16, data: Bytes, padding: bool)
    requires 4 + |data| <= MAX_MESSAGE
    ensures var b := ChannelData(chn, data, padding).value;
            && |b| == 4 + (if padding then Padded(|data|) else |data|)
            && U16(b, 0) == chn && U16(b, 2) == |data| && b[4..4 + |data|] == data
  {
  }

  /** What one side builds, with or without padding, the other reads back: same channel, same data. */
  lemma ChannelRoundTrip(chn: Word16, data: Bytes, padding: bool, mandatory: bool)
    requires ValidChannel(chn) && 4 + |data| <= MAX_MESSAGE
    ensures var b := ChannelData(chn, data, padding).value;
            ReadChannel(b, mandatory) == Some((chn, 4 + |data|)) && b[4..4 + |data|] == data
  {
  }

  /**
   What is taken for a ChannelData message: a number from 0x4000 to 0x7FFF, its length, the data and
   bytes behind them, of which there may be any number that fills up a word, else at most three behind
   some data where padding is not mandatory.
   */
  lemma TrailingBytes(chn: Word16, data: Bytes, extra: Bytes, mandatory: bool)
    requires |data| < 0x1_0000 && 4 + |data| + |extra| < 0x1_0000
    ensures var r := ReadChannel(Be16(chn) + Be16(|data|) + data + extra, mandatory);
            r == if 0x4000 <= chn <= 0x7FFF &&
                    (extra == [] || (|data| + |extra|) % 4 == 0 || (!mandatory && data != [] && |extra| <= 3))
                 then Some((chn, 4 + |data|)) else None
  {
    var b := Be16(chn) + Be16(|data|) + data + extra;
    assert U16(b, 0) == chn && U16(b, 2) == |data|;
  }

  /**
   stun_init_channel_message_str on the buffer that already holds the data behind the
   header: only the header is written, and what it announces reads back.
   */
  method InitChannel(buf: array<Byte>, chn: Word16, length: int, padding: bool) returns (len': nat, ok: bool)
    requires buf.Length >= MAX_MESSAGE
    modifies buf
    ensures ok <==> 0 <= length <= MAX_MESSAGE - 4
    ensures ok ==> buf[4..] == old(buf[4..]) && len' == 4 + (if padding then Padded(length) else length)
    ensures ok && ValidChannel(chn) ==> ReadChannel(buf[..4 + length], true) == Some((chn, 4 + length))
    ensures !ok ==> buf[..] == old(buf[..])
  {
    var h := ChannelHeader(chn, length, padding);
    if h.None? {
      return 0, false;
    }
    Copy(buf, 0, h.value.0);
    return h.value.1, true;
  }

  // ---- framing a stream ----

  /**
   Nothing else is framed: a STUN header with type below 0x4000, magic cookie and a length in whole
   words, an HTTP request, or a channel number from 0x4000 to 0x7FFF with its length.
   */
  lemma OnlyTheseFrames(b: Bytes, padding: bool, http: HttpLength)
    requires MessageLen(b, padding, http).Some?
    ensures var f := MessageLen(b, padding, http).value;
            || (|b| >= 20 && b[0] < 0x40 && b[4..8] == [0x21, 0x12, 0xA4, 0x42] && U16(b, 2) % 4 == 0
                && f.length == f.appLength == (U16(b, 2) + 20) % 0x1_0000)
            || (f.length == f.appLength == http(b) > 0)
            || (|b| >= 4 && 0x40 <= b[0] < 0x80 && f.appLength == 4 + U16(b, 2)
                && f.appLength <= f.length < f.appLength + 4 && (f.length == f.appLength || padding))
    ensures MessageLen(b, padding, http).value.length <= |b|
  {
  }

  /** What a peer of the server puts on a stream. */
  datatype Packet = Stun(bytes: Bytes) | Channel(chn: Word16, data: Bytes)

  /** Packets the code builds; the channel numbers that begin like an HTTP verb are left out. */
  predicate Encodable(p: Packet) {
    match p
    case Stun(b) => IsCommand(b) && |b| < 0x1_0000
    case Channel(chn, data) => ValidChannel(chn) && !SpellsVerb(chn) && 4 + |data| <= MAX_MESSAGE
  }

  function Encode(p: Packet): Bytes
    requires Encodable(p)
  {
    match p
    case Stun(b) => b
    case Channel(chn, data) => ChannelData(chn, data, true).value
  }

  /** Packets that fit into the buffer of the stream reader, padding included. */
  predicate Sendable(p: Packet) {
    Encodable(p) && |Encode(p)| <= MAX_MESSAGE
  }

  function EncodeAll(ps: seq<Packet>): Bytes
    requires forall p :: p in ps ==> Encodable(p)
  {
    if ps == [] then [] else Encode(ps[0]) + EncodeAll(ps[1..])
  }

  /** The first application bytes of a frame, told apart as the server tells them apart. */
  function Decode(b: Bytes): Packet {
    var c := ReadChannel(b, true);
    if c.Some? then Channel(c.value.0, b[4..c.value.1]) else Stun(b)
  }

  /** The reader copies out at most STUN_BUFFER_SIZE bytes of what has arrived. */
  function Window(b: Bytes): Bytes {
    if |b| <= MAX_MESSAGE then b else b[..MAX_MESSAGE]
  }

  /** The read loop of a stream socket: whole frames are taken off the front while there are any. */
  function Receive(b: Bytes, http: HttpLength): (r: (seq<Packet>, Bytes))
    decreases |b|
  {
    var f := MessageLen(Window(b), true, http);
    if f.None? || f.value.length == 0 || f.value.length > |b| || f.value.appLength > |b| then ([], b)
    else
      var r := Receive(b[f.value.length..], http);
      ([Decode(b[..f.value.appLength])] + r.0, r.1)
  }

  lemma PrefixParts(f: Bytes, rest: Bytes)
    ensures (f + rest)[..|f|] == f && (f + rest)[|f|..] == rest
    ensures |f| >= 4 ==> U16(f + rest, 0) == U16(f, 0) && U16(f + rest, 2) == U16(f, 2)
    ensures |f| >= 8 ==> (f + rest)[4..8] == f[4..8]
  {
  }

  /** A verb at the front makes the first two bytes a channel number, one of four. */
  lemma VerbChannel(b: Bytes)
    requires StartsVerb(b)
    ensures |b| >= 12 && SpellsVerb(U16(b, 0)) && b[0] >= 0x40
  {
  }

  lemma StunFrame(f: Bytes, rest: Bytes, http: HttpLength)
    requires IsCommand(f) && |f| < 0x1_0000
    ensures MessageLen(f + rest, true, http) == Some(Framed(|f|, |f|)) && Decode(f) == Stun(f)
  {
  }

  /**
   A ChannelData message of any number is framed as such exactly when the bytes on the
   stream are not taken for an HTTP request that happens to be all there.
   */
  lemma ChannelFramedUnlessHttp(chn: Word16, data: Bytes, rest: Bytes, http: HttpLength)
    requires ValidChannel(chn) && 4 + |data| <= MAX_MESSAGE
    ensures var f := ChannelData(chn, data, true).value;
            var h := http(f + rest);
            MessageLen(f + rest, true, http) == Some(Framed(|f|, 4 + |data|))
            <==> !(0 < h <= |f + rest|) || h == |f| == 4 + |data|
  {
  }

  lemma ChannelDecoded(f: Bytes, chn: Word16, data: Bytes)
    requires ValidChannel(chn) && 4 + |data| <= MAX_MESSAGE
    requires |f| >= 4 + |data| && U16(f, 0) == chn && U16(f, 2) == |data| && f[4..4 + |data|] == data
    ensures Decode(f[..4 + |data|]) == Channel(chn, data)
  {
  }

  lemma ChannelFrame(p: Packet, rest: Bytes, http: HttpLength)
    requires p.Channel? && Encodable(p) && OnlyHttp(http)
    ensures MessageLen(Encode(p) + rest, true, http) == Some(Framed(|Encode(p)|, 4 + |p.data|))
    ensures 4 + |p.data| <= |Encode(p)| && Decode(Encode(p)[..4 + |p.data|]) == p
  {
    hide ChannelData, MessageLen, Decode, StartsVerb, Padded;
    var f := Encode(p);
    ChannelBytes(p.chn, p.data, true);
    ChannelDecoded(f, p.chn, p.data);
    ChannelFramedUnlessHttp(p.chn, p.data, rest, http);
    PrefixParts(f, rest);
    if StartsVerb(f + rest) {
      VerbChannel(f + rest);
    }
  }

  /** With a whole frame in front, whatever follows, the framer answers exactly that frame. */
  lemma FrameRecovered(p: Packet, rest: Bytes, http: HttpLength)
    requires Encodable(p) && OnlyHttp(http)
    ensures var f := MessageLen(Encode(p) + rest, true, http);
            f.Some? && f.value.length == |Encode(p)| && 0 < f.value.appLength <= |Encode(p)|
            && Decode(Encode(p)[..f.value.appLength]) == p
  {
    match p
    case Stun(b) =>
      StunFrame(b, rest, http);
      assert b[..|b|] == b;
    case Channel(_, _) => ChannelFrame(p, rest, http);
  }

  lemma ShortStun(f: Bytes, k: nat, http: HttpLength)
    requires IsCommand(f) && |f| < 0x1_0000 && k < |f| && OnlyHttp(http)
    ensures MessageLen(f[..k], true, http) == None
  {
  }

  lemma ShortChannel(f: Bytes, k: nat, http: HttpLength)
    requires 4 <= |f| == Padded(4 + U16(f, 2)) && ValidChannel(U16(f, 0)) && !SpellsVerb(U16(f, 0))
    requires k < |f| && OnlyHttp(http)
    ensures MessageLen(f[..k], true, http) == None
  {
    hide StartsVerb, Padded;
    var g := f[..k];
    if k >= 4 {
      assert U16(g, 0) == U16(f, 0) && U16(g, 2) == U16(f, 2);
      if StartsVerb(g) {
        VerbChannel(g);
      }
    } else {
      NoVerbYet(g);
    }
  }

  lemma NoVerbYet(b: Bytes)
    requires |b| < 12
    ensures !StartsVerb(b)
  {
  }

  /** No proper prefix of a frame is taken for a message. */
  lemma NoProperPrefix(p: Packet, k: nat, http: HttpLength)
    requires Encodable(p) && OnlyHttp(http) && k < |Encode(p)|
    ensures MessageLen(Encode(p)[..k], true, http) == None
  {
    hide ChannelData, MessageLen;
    if p.Stun? {
      ShortStun(Encode(p), k, http);
    } else {
      ChannelBytes(p.chn, p.data, true);
      ShortChannel(Encode(p), k, http);
    }
  }

  /** What the reader sees of a frame that fits and the bytes behind it, and of one that does not. */
  lemma WindowOn(f: Bytes, rest: Bytes)
    ensures |f| <= MAX_MESSAGE ==> exists k: nat :: k <= |rest| && Window(f + rest) == f + rest[..k]
    ensures |f| > MAX_MESSAGE ==> Window(f + rest) == f[..MAX_MESSAGE]
  {
    if |f| <= MAX_MESSAGE {
      var k := if |f + rest| <= MAX_MESSAGE then |rest| else MAX_MESSAGE - |f|;
      assert Window(f + rest) == f + rest[..k];
    }
  }

  /** A frame that fits is taken off the front, and the rest is read the same way. */
  lemma PacketStep(p: Packet, rest: Bytes, http: HttpLength)
    requires Sendable(p) && OnlyHttp(http)
    ensures Receive(Encode(p) + rest, http) == ([p] + Receive(rest, http).0, Receive(rest, http).1)
  {
    hide Decode, MessageLen, Encode, Encodable, Window;
    WindowOn(Encode(p), rest);
    var k: nat :| k <= |rest| && Window(Encode(p) + rest) == Encode(p) + rest[..k];
    FrameRecovered(p, rest[..k], http);
    var n := MessageLen(Window(Encode(p) + rest), true, http).value.appLength;
    PrefixParts(Encode(p), rest);
    assert (Encode(p) + rest)[..n] == Encode(p)[..n];
  }

  /** A frame that is larger than the reader's buffer is never taken off, whatever arrives behind it. */
  lemma NeverTaken(p: Packet, rest: Bytes, http: HttpLength)
    requires Encodable(p) && |Encode(p)| > MAX_MESSAGE && OnlyHttp(http)
    ensures Receive(Encode(p) + rest, http) == ([], Encode(p) + rest)
  {
    hide MessageLen, Encode, Encodable, Window;
    WindowOn(Encode(p), rest);
    NoProperPrefix(p, MAX_MESSAGE, http);
  }

  /** ChannelData of 65501 to 65503 bytes is built, and padded is larger than that buffer by one byte. */
  lemma LargestChannelData(chn: Word16, data: Bytes)
    requires ValidChannel(chn) && !SpellsVerb(chn) && 4 + |data| <= MAX_MESSAGE
    ensures Sendable(Channel(chn, data)) <==> |data| <= 65500
  {
    hide ChannelData;
    ChannelBytes(chn, data, true);
  }

  /** Nothing is taken off an unfinished frame. */
  lemma Unfinished(p: Packet, k: nat, http: HttpLength)
    requires Encodable(p) && OnlyHttp(http) && k < |Encode(p)|
    ensures Receive(Encode(p)[..k], http) == ([], Encode(p)[..k])
  {
    hide MessageLen, Encode, Encodable;
    NoProperPrefix(p, k, http);
    if k > MAX_MESSAGE {
      NoProperPrefix(p, MAX_MESSAGE, http);
      assert Encode(p)[..k][..MAX_MESSAGE] == Encode(p)[..MAX_MESSAGE];
    }
  }

  /**
   Framing is unique: from any run of packets that fit the reader's buffer, followed by an
   unfinished one, the read loop gives back exactly that run and leaves the unfinished bytes
   for later.
   */
  lemma {:induction false} StreamRecovered(ps: seq<Packet>, last: Packet, k: nat, http: HttpLength)
    requires (forall p :: p in ps ==> Encodable(p) && |Encode(p)| <= MAX_MESSAGE) && Encodable(last) &&
             OnlyHttp(http) && k < |Encode(last)|
    ensures Receive(EncodeAll(ps) + Encode(last)[..k], http) == (ps, Encode(last)[..k])
    decreases |ps|
  {
    hide Encode, Encodable, Receive;
    var tail := Encode(last)[..k];
    if ps == [] {
      Unfinished(last, k, http);
      assert EncodeAll(ps) + tail == tail;
    } else {
      StreamRecovered(ps[1..], last, k, http);
      PacketStep(ps[0], EncodeAll(ps[1..]) + tail, http);
      AppendAssoc(Encode(ps[0]), EncodeAll(ps[1..]), tail);
      HeadTail(ps);
    }
  }

  /** Two different runs of packets never look the same on the wire. */
  lemma {:induction false} EncodingInjective(ps: seq<Packet>, qs: seq<Packet>)
    requires (forall p :: p in ps ==> Encodable(p)) && (forall q :: q in qs ==> Encodable(q))
    requires EncodeAll(ps) == EncodeAll(qs)
    ensures ps == qs
    decreases |ps|
  {
    hide Encode, Encodable, MessageLen, Decode;
    if ps != [] {
      FrameRecovered(ps[0], EncodeAll(ps[1..]), NO_HTTP);
    }
    if qs != [] {
      FrameRecovered(qs[0], EncodeAll(qs[1..]), NO_HTTP);
    }
    if ps != [] && qs != [] {
      PrefixParts(Encode(ps[0]), EncodeAll(ps[1..]));
      PrefixParts(Encode(qs[0]), EncodeAll(qs[1..]));
      EncodingInjective(ps[1..], qs[1..]);
      HeadTail(ps);
      HeadTail(qs);
    }
  }

  const NO_HTTP: HttpLength := _ => 0

  // ---- the 16-bit sum ----

  lemma StunNotHttp(b: Bytes, http: HttpLength)
    requires StunHeader(b) && OnlyHttp(http)
    ensures http(b) == 0
  {
    if StartsVerb(b) {
      VerbChannel(b);
    }
  }

  /**
   Behind a STUN header the framer waits for the whole message and answers its length, if and
   only if the length field is at most 65515.  Above that the 16-bit sum wraps, and a few bytes
   of the header are answered as a message at once.
   */
  lemma StunLengthSum(b: Bytes, http: HttpLength)
    requires StunHeader(b) && OnlyHttp(http)
    ensures var n := U16(b, 2) + HEADER;
            && (MessageLen(b, true, http) == (if n <= |b| then Some(Framed(n, n)) else None) <==> U16(b, 2) <= 65515)
            && (U16(b, 2) > 65515 ==>
                  MessageLen(b, true, http) == Some(Framed(n - 0x1_0000, n - 0x1_0000)) && n - 0x1_0000 < HEADER)
  {
    StunNotHttp(b, http);
  }

  /**
   A bare header with length field 65520: its first four bytes are taken off as a message, and the
   stream has lost its place.
   */
  lemma LengthWraps(tid: Bytes, http: HttpLength)
    requires |tid| == 12 && OnlyHttp(http)
    ensures var b := [0, 1] + Be16(65520) + COOKIE + tid;
            StunHeader(b) && |b| == HEADER && Receive(b, http) == ([Stun(b[..4])], b[4..])
  {
    var b := [0, 1] + Be16(65520) + COOKIE + tid;
    assert b[4..8] == COOKIE;
    StunLengthSum(b, http);
    var c := b[4..];
    assert c[0] == 0x21 && U16(c, 0) == 0x2112;
    if StartsVerb(c) {
      VerbChannel(c);
    }
    assert Receive(c, http) == ([], c);
    assert MessageLen(Window(b), true, http) == Some(Framed(4, 4));
    assert Decode(b[..4]) == Stun(b[..4]);
    assert [Stun(b[..4])] + [] == [Stun(b[..4])];
  }
}
