/** The bytes themselves, as the tables of MQTT 5.0 give them: property types
    (section 2.2.2.2), the packets they may occur in, the first byte of a packet
    (section 2.1) and the connect flags (section 3.1.2.3). */
module WireForms {
  import opened Common
  import opened BigEndian
  import opened VbiCodec
  import opened Utf8
  import opened TopicNames
  import opened Fields
  import opened Props
  import opened Packets
  import C = ConnectPacket

  /** A two-byte length and the bytes. */
  function LengthThen(s: bytes): bytes
    requires |s| < 0x1_0000
  {
    [|s| / 256, |s| % 256] + s
  }

  /** Four bytes, most significant first. */
  function FourBytes(c: bytes): nat
    requires |c| == 4
  {
    (c[0] as nat) * 0x100_0000 + (c[1] as nat) * 0x1_0000 + (c[2] as nat) * 0x100 + c[3] as nat
  }

  lemma PutTwo(n: nat)
    requires n < 0x1_0000
    ensures Put(n, 2) == [n / 256, n % 256]
  {
    assert Put(n / 256, 1) == Put(n / 256 / 256, 0) + [n / 256 % 256];
  }

  lemma PutFour(n: nat)
    requires n < 0x1_0000_0000
    ensures var c := Put(n, 4);
      |c| == 4 && n == FourBytes(c)
  {
    assert Put(n, 4) == Put(n / 256, 3) + [n % 256];
    assert Put(n / 256, 3) == Put(n / 256 / 256, 2) + [n / 256 % 256];
    PutTwo(n / 256 / 256);
  }

  lemma PrefixedIs(s: bytes)
    requires |s| < 0x1_0000
    ensures Prefixed(s) == LengthThen(s)
  {
    PutTwo(|s|);
  }

  /** The type of every property, by its identifier. */
  ghost predicate WireForm(id: nat, v: Value, c: bytes) {
    && (id in {0x01, 0x17, 0x19, 0x24, 0x25, 0x28, 0x29, 0x2A} ==> v.Num? && v.n <= 1 && c == [v.n])
    && (id in {0x13, 0x21, 0x22, 0x23} ==> v.Num? && v.n < 0x1_0000 && c == [v.n / 256, v.n % 256])
    && (id in {0x02, 0x11, 0x18, 0x27} ==>
          v.Num? && |c| == 4 && v.n == FourBytes(c))
    && (id in {0x03, 0x08, 0x12, 0x15, 0x1A, 0x1C, 0x1F} ==>
          v.Str? && |v.s| < 0x1_0000 && WellFormed(v.s) && c == LengthThen(v.s))
    && (id == 0x0B ==> v.Num? && 0 < v.n <= MAX_REMAIN && c == Vbi(v.n))
    && (id in {0x09, 0x16} ==> v.Str? && |v.s| < 0x1_0000 && c == LengthThen(v.s))
    && (id == 0x26 ==>
          v.Pair? && |v.name| < 0x1_0000 && |v.val| < 0x1_0000 && WellFormed(v.name) && WellFormed(v.val)
          && c == LengthThen(v.name) + LengthThen(v.val))
    && id in {0x01, 0x02, 0x03, 0x08, 0x09, 0x0B, 0x11, 0x12, 0x13, 0x15, 0x16, 0x17, 0x18, 0x19, 0x1A, 0x1C, 0x1F,
              0x21, 0x22, 0x23, 0x24, 0x25, 0x26, 0x27, 0x28, 0x29, 0x2A}
  }

  /** A value that encodes has the form its property's row prescribes, and so
      has one that decodes. */
  lemma PropertyForms(id: nat, v: Value)
    requires Holds(KindOf(id), v) && EncodeValue(id, v).Ok?
    ensures WireForm(id, v, EncodeValue(id, v).value)
  {
    hide WellFormed, NameValid, Vbi, Put, Prefixed, LengthThen;
    match KindOf(id)
    case KShort => PutTwo(v.n);
    case KInt => PutFour(v.n);
    case KString => PrefixedIs(v.s);
    case KBinary => PrefixedIs(v.s);
    case KPair => PrefixedIs(v.name); PrefixedIs(v.val);
    case _ =>
  }

  lemma DecodedForms(id: nat, b: bytes, left: nat)
    requires DecodeValue(id, b, left).Ok?
    ensures var (v, n) := DecodeValue(id, b, left).value;
      n <= |b| && WireForm(id, v, b[..n])
  {
    hide DecodeValue, EncodeValue, WireForm;
    ValueCanonical(id, b, left);
    PropertyForms(id, DecodeValue(id, b, left).value.0);
  }

  /** The properties the code admits in each packet. */
  lemma PropertyPackets(id: nat)
    ensures Allowed(id, CONNECT) <==>
      id in {0x02, 0x11, 0x15, 0x16, 0x17, 0x18, 0x19, 0x21, 0x22, 0x26, 0x27}
    ensures Allowed(id, CONNACK) <==>
      id in {0x11, 0x12, 0x13, 0x15, 0x16, 0x1A, 0x1C, 0x1F, 0x21, 0x22, 0x24, 0x25, 0x26, 0x27, 0x28, 0x29, 0x2A}
    ensures Allowed(id, PUBLISH) <==> id in {0x01, 0x02, 0x03, 0x08, 0x09, 0x0B, 0x23, 0x26}
    ensures Allowed(id, SUBSCRIBE) <==> id in {0x0B, 0x26}
    ensures Allowed(id, 10) <==> id == 0x26
    ensures forall packet :: packet in {4, 5, 6, 7, 9, 11} ==> (Allowed(id, packet) <==> id in {0x1F, 0x26})
    ensures Allowed(id, DISCONNECT) <==> id in {0x11, 0x1C, 0x1F, 0x26}
    ensures Allowed(id, AUTH) <==> id in {0x15, 0x16, 0x1F, 0x26}
  {
  }

  /** May id occur again in a packet of this type? Only a User Property, and
      in a PUBLISH a Subscription Identifier. */
  predicate Repeats(id: nat, packet: nat) {
    id == 0x26 || (id == 0x0B && packet == 3)
  }

  /** The block as a whole, after count properties of which those in seen may
      not come again. */
  ghost predicate Lawful(packet: nat, ps: seq<Prop>, count: nat, seen: set<nat>)
    requires Typed(ps)
  {
    && (ps != [] ==> count + |ps| <= 30)
    && (forall i :: 0 <= i < |ps| ==>
          ps[i].id < 44 && Allowed(ps[i].id, packet) && EncodeValue(ps[i].id, ps[i].value).Ok?
          && (ps[i].id in seen ==> Repeats(ps[i].id, packet)))
    && (forall i, j :: 0 <= i < j < |ps| && ps[i].id == ps[j].id ==> Repeats(ps[i].id, packet))
  }

  /** The length of the block: an identifier byte and a value each. */
  function BlockSize(ps: seq<Prop>): nat
    requires Typed(ps)
  {
    if ps == [] then 0
    else
      (match EncodeValue(ps[0].id, ps[0].value)
       case Ok(b) => 1 + |b|
       case Err(_) => 0) + BlockSize(ps[1..])
  }

  lemma LawfulSplit(packet: nat, ps: seq<Prop>, count: nat, seen: set<nat>)
    requires Typed(ps) && ps != []
    ensures Typed(ps[1..])
    ensures Lawful(packet, ps, count, seen) <==>
      && Refusal(ps[0].id, packet, count, seen).None? && EncodeValue(ps[0].id, ps[0].value).Ok?
      && Lawful(packet, ps[1..], count + 1, Mark(ps[0].id, packet, seen))
  {
    hide Allowed, EncodeValue, Holds;
    var t := ps[1..];
    assert forall i :: 0 <= i < |t| ==> t[i] == ps[i + 1];
    assert Repeatable(ps[0].id, packet) <==> Repeats(ps[0].id, packet);
    if Lawful(packet, ps, count, seen) {
      forall i | 0 <= i < |t| ensures t[i].id in Mark(ps[0].id, packet, seen) ==> Repeats(t[i].id, packet) {
        assert ps[i + 1] == t[i];
      }
    }
    if Refusal(ps[0].id, packet, count, seen).None? && EncodeValue(ps[0].id, ps[0].value).Ok?
       && Lawful(packet, t, count + 1, Mark(ps[0].id, packet, seen)) {
      forall i | 0 <= i < |ps|
        ensures ps[i].id < 44 && Allowed(ps[i].id, packet) && EncodeValue(ps[i].id, ps[i].value).Ok?
                && (ps[i].id in seen ==> Repeats(ps[i].id, packet))
      {
        assert i > 0 ==> ps[i] == t[i - 1];
      }
      forall i, j | 0 <= i < j < |ps| && ps[i].id == ps[j].id ensures Repeats(ps[i].id, packet) {
        assert ps[j] == t[j - 1];
        assert i > 0 ==> ps[i] == t[i - 1];
      }
    }
  }

  lemma {:induction false} ListExact(packet: nat, ps: seq<Prop>, count: nat, seen: set<nat>, total: nat)
    requires Typed(ps) && total <= MAX_REMAIN
    ensures EncodeList(packet, ps, count, seen, total).Ok? <==>
      Lawful(packet, ps, count, seen) && total + BlockSize(ps) <= MAX_REMAIN
  {
    hide EncodeValue, Refusal, Mark, Lawful, Holds;
    if ps == [] {
      assert Lawful(packet, ps, count, seen) by { LawfulNone(packet, count, seen); }
    } else {
      LawfulSplit(packet, ps, count, seen);
      var e := EncodeOne(packet, ps[0], count, seen, total);
      if e.Ok? {
        ListExact(packet, ps[1..], count + 1, Mark(ps[0].id, packet, seen), total + |e.value|);
      }
    }
  }

  lemma LawfulNone(packet: nat, count: nat, seen: set<nat>)
    ensures Lawful(packet, [], count, seen)
  {
  }

  /** A block encodes if and only if it has at most 30 properties, each admitted
      in the packet and with an encodable value, none repeated that may not be,
      and fits the largest length; and every block that decodes is such a one. */
  lemma BlockExact(packet: nat, ps: seq<Prop>)
    requires Typed(ps)
    ensures EncodeProps(packet, ps).Ok? <==> Lawful(packet, ps, 0, {}) && BlockSize(ps) <= MAX_REMAIN
  {
    hide Lawful, EncodeList;
    ListExact(packet, ps, 0, {}, 0);
  }

  lemma DecodedBlock(packet: nat, b: bytes, propLen: nat)
    requires propLen <= MAX_REMAIN && DecodeProps(packet, b, propLen).Ok?
    ensures var ps := DecodeProps(packet, b, propLen).value.0;
      Typed(ps) && Lawful(packet, ps, 0, {}) && AuthPaired(ps)
  {
    hide Lawful, EncodeProps, DecodeProps, AuthPaired;
    PropsCanonical(packet, b, propLen);
    BlockExact(packet, DecodeProps(packet, b, propLen).value.0);
  }

  /** Type in bits 7 to 4, DUP in bit 3, QoS in bits 2 and 1, RETAIN in bit 0. */
  lemma FirstByte(kind: nat, retain: bool, qos: nat, dup: bool)
    requires kind < 16 && qos <= 2
    ensures var b := TypeFlags(kind, retain, qos, dup);
      && b / 16 == kind && (b / 8 % 2 == 1 <==> dup) && b / 2 % 4 == qos && (b % 2 == 1 <==> retain)
  {
  }

  /** User Name in bit 7, Password in bit 6, Will Retain in bit 5, Will QoS in
      bits 4 and 3, Will in bit 2, Clean Start in bit 1, bit 0 reserved. */
  lemma ConnectFlagBits(c: C.Connect)
    requires c.will.Some? ==> c.will.value.qos <= 2
    ensures var b := C.ConnectFlags(c);
      && (b / 128 == 1 <==> c.username.Some?) && (b / 64 % 2 == 1 <==> c.password.Some?)
      && (b / 32 % 2 == 1 <==> c.will.Some? && c.will.value.retain)
      && b / 8 % 4 == (if c.will.Some? then c.will.value.qos else 0)
      && (b / 4 % 2 == 1 <==> c.will.Some?) && (b / 2 % 2 == 1 <==> c.clean) && b % 2 == 0
  {
    var w := c.will;
    var u, p, cl, wl := Bit(c.username.Some?), Bit(c.password.Some?), Bit(c.clean), Bit(w.Some?);
    var wr, wq := Bit(w.Some? && w.value.retain), if w.Some? then w.value.qos else 0;
    var b := C.ConnectFlags(c);
    assert b == 128 * u + 64 * p + 32 * wr + (8 * wq + 4 * wl + 2 * cl);
    hide C.ConnectFlags;
    HighBits(b, u, p, wr, 8 * wq + 4 * wl + 2 * cl);
    LowBits(b, 4 * u + 2 * p + wr, wq, wl, cl);
  }

  lemma HighBits(b: nat, u: nat, p: nat, r: nat, x: nat)
    requires u <= 1 && p <= 1 && r <= 1 && x < 32 && b == 128 * u + 64 * p + 32 * r + x
    ensures b / 128 == u && b / 64 % 2 == p && b / 32 % 2 == r
  {
    assert b / 128 == u;
    assert b / 64 == 2 * u + p;
    assert b / 32 == 4 * u + 2 * p + r;
  }

  lemma LowBits(b: nat, h: nat, q: nat, w: nat, c: nat)
    requires q <= 3 && w <= 1 && c <= 1 && b == 32 * h + 8 * q + 4 * w + 2 * c
    ensures b / 8 % 4 == q && b / 4 % 2 == w && b / 2 % 2 == c && b % 2 == 0
  {
    assert b / 8 == 4 * h + q;
    assert b / 4 == 8 * h + 2 * q + w;
    assert b / 2 == 16 * h + 4 * q + 2 * w + c;
  }
}
