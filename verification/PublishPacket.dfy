/** PUBLISH (src/mqtt_packet.c, MqttEncode_Publish and MqttDecode_Publish). */
module PublishPacket {
  import opened Common
  import opened BigEndian
  import opened VbiCodec
  import opened Utf8
  import opened TopicNames
  import opened Fields
  import opened Props
  import opened Packets

  /** An MqttPublish. `buffer` is the memory behind the pointer, None for NULL;
      `bufLen` is buffer_len and `total` is total_len. */
  datatype Publish = Publish(topic: bytes, qos: nat, retain: bool, dup: bool, pid: nat,
                             props: seq<Prop>, buffer: Option<bytes>, bufLen: nat, total: nat)

  function Memory(p: Publish): bytes {
    if p.buffer.Some? then p.buffer.value else []
  }

  /** Field widths of the C structure; total_len fits an int. The memory holds
      buffer_len bytes, or total_len bytes when buffer_len is left at zero. */
  predicate PublishTyped(p: Publish) {
    && Typed(p.props) && p.pid < 0x1_0000 && p.total < 0x8000_0000
    && (p.buffer.Some? ==> |p.buffer.value| >= if p.bufLen > 0 then p.bufLen else p.total)
  }

  /** The payload length the fixed header announces; with cb a callback
      supplies the payload. */
  function Announced(p: Publish, cb: bool): nat {
    if p.buffer.Some? || cb then p.total else 0
  }

  /** Checks made before anything is written. */
  function PublishRefusal(p: Publish, level: byte): Option<Error>
    requires PublishTyped(p)
  {
    if p.qos > 2 then Some(BadArg)
    else if |p.topic| > MAX_FIELD then Some(BadArg)
    else if !NameValid(p.topic, level) then Some(Malformed)
    else if !WellFormed(p.topic) then Some(Malformed)
    else if level >= LEVEL_5 && p.topic == [] && !Has(p.props, TOPIC_ALIAS) then Some(BadArg)
    else if p.qos > 0 && p.pid == 0 then Some(PacketId)
    else if p.qos == 0 && p.dup then Some(BadArg)
    else if EncodeBlock(PUBLISH, p.props, level >= LEVEL_5).Err? then Some(PropertyError)
    else if p.buffer.Some? && p.bufLen > 0 && p.total == 0 then Some(BadArg)
    else None
  }

  /** Topic, packet identifier, properties. */
  function PublishVariable(p: Publish, level: byte): bytes
    requires PublishTyped(p) && PublishRefusal(p, level).None?
  {
    Prefixed(p.topic) + (if p.qos > 0 then Put(p.pid, 2) else [])
    + EncodeBlock(PUBLISH, p.props, level >= LEVEL_5).value
  }

  /** How much of the payload is copied when space bytes are left. */
  function Copied(p: Publish, cb: bool, space: nat): (n: nat)
    requires PublishTyped(p)
    ensures n <= |Memory(p)| && n <= Announced(p, cb) && n <= space
  {
    if cb then 0
    else
      var n := Min(Announced(p, cb), space);
      if 0 < p.bufLen < n then p.bufLen else n
  }

  /** MqttEncode_Publish into a buffer of room bytes: a payload that does not
      fit is cut, for the caller to send the rest later. */
  function EncodePublish(p: Publish, level: byte, room: nat, cb: bool): Result<bytes>
    requires PublishTyped(p)
  {
    match PublishRefusal(p, level)
    case Some(e) => Err(e)
    case None =>
      var variable := PublishVariable(p, level);
      match EncodeHeader(room, |variable| + Announced(p, cb), PUBLISH, p.retain, p.qos, p.dup)
      case Err(e) => Err(e)
      case Ok(h) =>
        if room < |h| + |variable| then Err(OutOfBuffer)
        else Ok(h + variable + Memory(p)[..Copied(p, cb, room - |h| - |variable|)])
  }

  /** The packet identifier at pos, present for QoS > 0. */
  function DecodePid(b: bytes, pos: nat, qos: nat): (r: Result<(nat, nat)>)
    requires pos <= |b|
    ensures r.Ok? ==> pos <= r.value.1 <= |b|
  {
    if qos == 0 then Ok((0, pos))
    else
      match DecodeUInt(b[pos..], 2)
      case Err(e) => Err(e)
      case Ok(pid) => if pid == 0 then Err(PacketId) else Ok((pid, pos + 2))
  }

  /** Everything after the properties: end is where they stop. */
  function DecodePayload(b: bytes, h: Header, topic: bytes, pid: nat, ps: seq<Prop>, end: nat, level: byte): Result<(Publish, nat)>
    requires h.len <= end <= |b|
  {
    if level >= LEVEL_5 && topic == [] && !Has(ps, TOPIC_ALIAS) then Err(Malformed)
    else if end - h.len > h.remain then Err(OutOfBuffer)
    else
      var total := h.remain - (end - h.len);
      var got := Min(total, |b| - end);
      Ok((Publish(topic, h.qos, h.retain, h.dup, pid, ps, Some(b[end..end + got]), got, total), h.len + h.remain))
  }

  /** MqttDecode_Publish: the message and the length of the packet. */
  function DecodePublish(b: bytes, level: byte): Result<(Publish, nat)> {
    if b == [] then Err(BadArg)
    else
      match DecodeHeader(b, PUBLISH)
      case Err(e) => Err(e)
      case Ok(h) =>
        match DecodeString(b[h.len..])
        case Err(e) => Err(e)
        case Ok(topic) =>
          if !NameValid(topic, level) then Err(Malformed)
          else
            match DecodePid(b, h.len + 2 + |topic|, h.qos)
            case Err(e) => Err(e)
            case Ok((pid, pos)) =>
              match DecodeLimited(b[pos..], level >= LEVEL_5)
              case Err(e) => Err(e)
              case Ok((ps, n)) => DecodePayload(b, h, topic, pid, ps, pos + n, level)
  }

  /** The property block, whose declared length must fit the buffer. */
  function DecodeLimited(b: bytes, v5: bool): (r: Result<(seq<Prop>, nat)>)
    ensures r.Ok? ==> r.value.1 <= |b|
  {
    if v5 && DecodeVbi(b).Ok? && DecodeVbi(b).value.0 + DecodeVbi(b).value.1 > |b| then Err(OutOfBuffer)
    else DecodeBlock(PUBLISH, b, v5)
  }

  // ------------------------------------------------------------- round trip

  /** What a PUBLISH carries over the wire; the bytes got of its payload have
      arrived. */
  function Carried(p: Publish, level: byte, cb: bool, got: bytes): Publish {
    Publish(p.topic, p.qos, p.retain, p.dup, if p.qos > 0 then p.pid else 0,
            if level >= LEVEL_5 then p.props else [], Some(got), |got|, Announced(p, cb))
  }

  lemma LimitedRoundTrip(ps: seq<Prop>, v5: bool, post: bytes)
    requires Typed(ps) && EncodeBlock(PUBLISH, ps, v5).Ok?
    ensures var b := EncodeBlock(PUBLISH, ps, v5).value;
      DecodeLimited(b + post, v5) == Ok((if v5 then ps else [], |b|))
  {
    hide DecodeVbi, Vbi, EncodeList, Has;
    BlockRoundTrip(PUBLISH, ps, v5, post);
    if v5 {
      PairedWhenBarred(PUBLISH, ps);
      var c := EncodeProps(PUBLISH, ps).value;
      ListFits(PUBLISH, ps, 0, {}, 0);
      DecodeOfEncode(|c|, c + post);
      assert Vbi(|c|) + c + post == Vbi(|c|) + (c + post);
    }
  }

  /** The stages up to the payload read back what was written. */
  lemma PublishStages(p: Publish, level: byte, h: bytes, tail: bytes)
    requires PublishTyped(p) && PublishRefusal(p, level).None?
    ensures var b := h + PublishVariable(p, level) + tail;
      var pos := |h| + 2 + |p.topic|;
      var pos' := if p.qos > 0 then pos + 2 else pos;
      && DecodeString(b[|h|..]) == Ok(p.topic)
      && pos <= |b| && DecodePid(b, pos, p.qos) == Ok((if p.qos > 0 then p.pid else 0, pos'))
      && DecodeLimited(b[pos'..], level >= LEVEL_5)
         == Ok((if level >= LEVEL_5 then p.props else [], |h| + |PublishVariable(p, level)| - pos'))
  {
    hide NameValid, WellFormed, DecodeString, DecodeUInt, DecodeLimited, EncodeBlock, Prefixed, Put, Span, Has, Holds;
    var t, i := Prefixed(p.topic), if p.qos > 0 then Put(p.pid, 2) else [];
    var c := EncodeBlock(PUBLISH, p.props, level >= LEVEL_5).value;
    var b := h + PublishVariable(p, level) + tail;
    assert b == h + t + i + c + tail;
    assert b[|h|..] == t + (i + c + tail);
    StringRoundTrip(p.topic, i + c + tail);
    assert b[|h| + |t|..] == i + (c + tail);
    if p.qos > 0 {
      Spans();
      UIntRoundTrip(p.pid, 2, c + tail);
    }
    assert b[|h| + |t| + |i|..] == c + tail;
    LimitedRoundTrip(p.props, level >= LEVEL_5, tail);
  }

  lemma TypeFlagsOk(retain: bool, qos: nat, dup: bool)
    requires qos <= 2 && (qos == 0 ==> !dup)
    ensures FlagsValid(TypeFlags(PUBLISH, retain, qos, dup))
  {
  }

  /** The decoder as the composition of its stages. */
  lemma DecodeAssembles(b: bytes, level: byte, h: Header, topic: bytes, pid: nat, pos: nat, ps: seq<Prop>, n: nat)
    requires DecodeHeader(b, PUBLISH) == Ok(h) && DecodeString(b[h.len..]) == Ok(topic) && NameValid(topic, level)
    requires DecodePid(b, h.len + 2 + |topic|, h.qos) == Ok((pid, pos))
    requires DecodeLimited(b[pos..], level >= LEVEL_5) == Ok((ps, n))
    ensures pos + n <= |b| && DecodePublish(b, level) == DecodePayload(b, h, topic, pid, ps, pos + n, level)
  {
    hide NameValid, DecodeHeader, DecodeString, DecodePid, DecodeLimited, DecodePayload;
  }

  lemma NotRefused(p: Publish, level: byte)
    requires PublishTyped(p) && PublishRefusal(p, level).None?
    ensures p.qos <= 2 && (p.qos == 0 ==> !p.dup) && NameValid(p.topic, level)
    ensures level >= LEVEL_5 && p.topic == [] ==> Has(p.props, TOPIC_ALIAS)
  {
    hide NameValid, WellFormed, Has, EncodeBlock;
  }

  /** The fixed header of p. */
  function PublishHeader(p: Publish, level: byte, cb: bool): bytes
    requires PublishTyped(p) && PublishRefusal(p, level).None?
  {
    [TypeFlags(PUBLISH, p.retain, p.qos, p.dup)] + Vbi(|PublishVariable(p, level)| + Announced(p, cb))
  }

  /** With the header and variable part in front, decoding depends on what
      follows only through the payload. */
  lemma PublishDecodes(p: Publish, level: byte, cb: bool, tail: bytes)
    requires PublishTyped(p) && PublishRefusal(p, level).None?
    requires |PublishVariable(p, level)| + Announced(p, cb) <= MAX_REMAIN
    ensures var variable := PublishVariable(p, level);
      var h := PublishHeader(p, level, cb);
      var got := tail[..Min(Announced(p, cb), |tail|)];
      DecodePublish(h + variable + tail, level)
      == Ok((Carried(p, level, cb, got), |h| + |variable| + Announced(p, cb)))
  {
    hide NameValid, WellFormed, DecodeHeader, DecodeString, DecodePid, DecodeLimited, Vbi, DecodePublish;
    hide PublishVariable, PublishRefusal, TypeFlags, FlagsValid, Has, PublishTyped, Announced;
    var variable, h := PublishVariable(p, level), PublishHeader(p, level, cb);
    var remain := |variable| + Announced(p, cb);
    var b := h + variable + tail;
    NotRefused(p, level);
    TypeFlagsOk(p.retain, p.qos, p.dup);
    HeaderRoundTrip(5, remain, PUBLISH, p.retain, p.qos, p.dup, variable + tail);
    assert b == h + (variable + tail);
    PublishStages(p, level, h, tail);
    var pos := |h| + 2 + |p.topic|;
    var pos' := if p.qos > 0 then pos + 2 else pos;
    var end := |h| + |variable|;
    DecodeAssembles(b, level, Header(|h|, remain, p.retain, p.qos, p.dup), p.topic,
                    if p.qos > 0 then p.pid else 0, pos', if level >= LEVEL_5 then p.props else [], end - pos');
    assert b[end..end + Min(Announced(p, cb), |tail|)] == tail[..Min(Announced(p, cb), |tail|)];
  }

  /** The payload bytes the encoder writes. */
  function Written(p: Publish, level: byte, room: nat, cb: bool): bytes
    requires PublishTyped(p) && PublishRefusal(p, level).None?
    requires |PublishHeader(p, level, cb)| + |PublishVariable(p, level)| <= room
  {
    Memory(p)[..Copied(p, cb, room - |PublishHeader(p, level, cb)| - |PublishVariable(p, level)|)]
  }

  lemma PublishWritten(p: Publish, level: byte, room: nat, cb: bool)
    requires PublishTyped(p) && EncodePublish(p, level, room, cb).Ok?
    ensures PublishRefusal(p, level).None? && |PublishVariable(p, level)| + Announced(p, cb) <= MAX_REMAIN
    ensures |PublishHeader(p, level, cb)| + |PublishVariable(p, level)| <= room
    ensures EncodePublish(p, level, room, cb).value
            == PublishHeader(p, level, cb) + PublishVariable(p, level) + Written(p, level, room, cb)
    ensures |EncodePublish(p, level, room, cb).value| <= room
  {
    hide NameValid, WellFormed, EncodeBlock, Vbi, PublishVariable, PublishRefusal, TypeFlags, PublishTyped;
  }

  /** Decoding an encoded PUBLISH followed by any bytes, as a later chunk, a
      callback or the next packet would add them, gives the message back with
      the payload that has arrived, up to the announced length, and reports
      the full packet length. The encoder writes a prefix of the payload: all
      of it when it is announced in full, fits and is in the buffer. */
  lemma PublishRoundTrip(p: Publish, level: byte, room: nat, cb: bool, post: bytes)
    requires PublishTyped(p) && EncodePublish(p, level, room, cb).Ok?
    ensures PublishRefusal(p, level).None?
    ensures |PublishHeader(p, level, cb)| + |PublishVariable(p, level)| <= room
    ensures var b := EncodePublish(p, level, room, cb).value;
      var paid, all := Written(p, level, room, cb), Announced(p, cb);
      && |b| <= room && paid <= Memory(p) && |paid| <= all
      && (!cb && |b| - |paid| + all <= room && (p.bufLen == 0 || all <= p.bufLen) ==> |paid| == all)
      && DecodePublish(b + post, level)
         == Ok((Carried(p, level, cb, (paid + post)[..Min(all, |paid + post|)]), |b| - |paid| + all))
      && (|paid| == all ==> DecodePublish(b + post, level) == Ok((Carried(p, level, cb, paid), |b|)))
  {
    hide EncodePublish, PublishHeader, PublishVariable, PublishRefusal, PublishTyped, DecodePublish, Announced;
    PublishWritten(p, level, room, cb);
    var h, variable := PublishHeader(p, level, cb), PublishVariable(p, level);
    var b, paid := EncodePublish(p, level, room, cb).value, Written(p, level, room, cb);
    PublishDecodes(p, level, cb, paid + post);
    assert b + post == h + variable + (paid + post);
    if |paid| == Announced(p, cb) {
      assert (paid + post)[..|paid|] == paid;
    }
  }
}
