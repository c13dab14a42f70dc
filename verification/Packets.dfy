/** What the packet codecs share (src/mqtt_packet.c): the fixed header and
    the length-prefixed property block. */
module Packets {
  import opened Common
  import opened BigEndian
  import opened VbiCodec
  import opened TopicNames
  import opened Props

  const LEVEL_4: byte := 4

  function Bit(b: bool): nat {
    if b then 1 else 0
  }

  // ---------------------------------------------------------- fixed header

  /** First byte of a packet: type, DUP, QoS, RETAIN. */
  function TypeFlags(kind: nat, retain: bool, qos: nat, dup: bool): byte
    requires kind < 16 && qos <= 2
  {
    16 * kind + 8 * Bit(dup) + 2 * qos + Bit(retain)
  }

  /** MqttEncode_FixedHeader; the buffer must have room for five bytes. */
  function EncodeHeader(room: nat, remain: nat, kind: nat, retain: bool, qos: nat, dup: bool): Result<bytes>
    requires kind < 16 && qos <= 2
  {
    if room < 5 then Err(OutOfBuffer)
    else if remain > MAX_REMAIN then Err(Malformed)
    else Ok([TypeFlags(kind, retain, qos, dup)] + Vbi(remain))
  }

  /** MqttPacket_FixedHeaderFlagsValid, with FixedHeaderFlagsExpected. */
  predicate FlagsValid(b: byte) {
    var kind, flags := b / 16, b % 16;
    if kind == PUBLISH then flags / 2 % 4 <= 2 && !(flags / 2 % 4 == 0 && flags >= 8)
    else if kind in {6, 8, 10} then flags == 2
    else if kind == 0 then false
    else flags == 0
  }

  datatype Header = Header(len: nat, remain: nat, retain: bool, qos: nat, dup: bool)

  /** MqttDecode_FixedHeader. */
  function DecodeHeader(b: bytes, kind: nat): (r: Result<Header>)
    ensures r.Ok? ==> 2 <= r.value.len <= |b| && r.value.remain <= MAX_REMAIN
  {
    if |b| < 2 then Err(OutOfBuffer)
    else
      match DecodeVbi(b[1..])
      case Err(e) => Err(e)
      case Ok((remain, n)) =>
        if remain > MAX_REMAIN then Err(Malformed)
        else if b[0] / 16 != kind then Err(PacketType)
        else if !FlagsValid(b[0]) then Err(Malformed)
        else Ok(Header(n + 1, remain, b[0] % 2 == 1, b[0] % 16 / 2 % 4, b[0] % 16 >= 8))
  }

  lemma HeaderRoundTrip(room: nat, remain: nat, kind: nat, retain: bool, qos: nat, dup: bool, post: bytes)
    requires kind < 16 && qos <= 2 && EncodeHeader(room, remain, kind, retain, qos, dup).Ok?
    requires FlagsValid(TypeFlags(kind, retain, qos, dup))
    ensures var h := EncodeHeader(room, remain, kind, retain, qos, dup).value;
      DecodeHeader(h + post, kind) == Ok(Header(|h|, remain, retain, qos, dup))
  {
    hide DecodeVbi, Vbi;
    var t := TypeFlags(kind, retain, qos, dup);
    var b := [t] + Vbi(remain) + post;
    DecodeOfEncode(remain, post);
    assert b[1..] == Vbi(remain) + post && b[0] == t;
  }

  // -------------------------------------------------------- property block

  /** The property length and the properties, present from level 5 on. Every
      property error is reported as one kind. */
  function EncodeBlock(packet: nat, ps: seq<Prop>, v5: bool): Result<bytes>
    requires Typed(ps)
  {
    if !v5 then Ok([])
    else
      match EncodeProps(packet, ps)
      case Err(_) => Err(PropertyError)
      case Ok(b) => Ok(Vbi(|b|) + b)
  }

  /** The decoders' counterpart: properties and bytes consumed. */
  function DecodeBlock(packet: nat, b: bytes, v5: bool): (r: Result<(seq<Prop>, nat)>)
    ensures r.Ok? ==> r.value.1 <= |b|
  {
    if !v5 then Ok(([], 0))
    else
      match DecodeVbi(b)
      case Err(e) => Err(e)
      case Ok((len, n)) =>
        if len == 0 then Ok(([], n))
        else
          match DecodeProps(packet, b[n..], len)
          case Err(e) => Err(e)
          case Ok((ps, used)) =>
            DecodesExactly(b, len, n);
            PropsCanonical(packet, b[n..], len);
            Ok((ps, n + used))
  }

  lemma {:induction false} ListFits(packet: nat, ps: seq<Prop>, count: nat, seen: set<nat>, total: nat)
    requires Typed(ps) && EncodeList(packet, ps, count, seen, total).Ok? && total <= MAX_REMAIN
    ensures total + |EncodeList(packet, ps, count, seen, total).value| <= MAX_REMAIN
    ensures EncodeList(packet, ps, count, seen, total).value == [] ==> ps == []
    decreases |ps|
  {
    hide EncodeOne, Mark, Holds;
    if ps != [] {
      var c := EncodeOne(packet, ps[0], count, seen, total).value;
      ListFits(packet, ps[1..], count + 1, Mark(ps[0].id, packet, seen), total + |c|);
    }
  }

  /** A block decodes to the properties it was encoded from, unless it holds
      Authentication Data without a Method. */
  lemma BlockRoundTrip(packet: nat, ps: seq<Prop>, v5: bool, post: bytes)
    requires Typed(ps) && EncodeBlock(packet, ps, v5).Ok?
    ensures var b := EncodeBlock(packet, ps, v5).value;
      DecodeBlock(packet, b + post, v5)
      == if !v5 then Ok(([], 0)) else if AuthPaired(ps) then Ok((ps, |b|)) else Err(PropertyError)
  {
    hide DecodeVbi, Vbi, DecodeProps, EncodeList;
    if v5 {
      var c := EncodeProps(packet, ps).value;
      ListFits(packet, ps, 0, {}, 0);
      DecodeOfEncode(|c|, c + post);
      assert Vbi(|c|) + c + post == Vbi(|c|) + (c + post);
      PropsRoundTrip(packet, ps, post);
      assert (Vbi(|c|) + (c + post))[|Vbi(|c|)|..] == c + post;
    }
  }

  /** Whatever is encoded is allowed in the packet. */
  lemma {:induction false} AllAllowed(packet: nat, ps: seq<Prop>, count: nat, seen: set<nat>, total: nat)
    requires Typed(ps) && EncodeList(packet, ps, count, seen, total).Ok?
    ensures forall i :: 0 <= i < |ps| ==> Allowed(ps[i].id, packet)
    decreases |ps|
  {
    hide Holds, EncodeValue, Allowed;
    if ps != [] {
      var c := EncodeOne(packet, ps[0], count, seen, total).value;
      AllAllowed(packet, ps[1..], count + 1, Mark(ps[0].id, packet, seen), total + |c|);
      assert ps == [ps[0]] + ps[1..];
    }
  }

  /** Where Authentication Data is not allowed, none can be unpaired. */
  lemma PairedWhenBarred(packet: nat, ps: seq<Prop>)
    requires Typed(ps) && EncodeProps(packet, ps).Ok? && !Allowed(AUTH_DATA, packet)
    ensures AuthPaired(ps)
  {
    AllAllowed(packet, ps, 0, {}, 0);
  }
}
