/** SUBSCRIBE (src/mqtt_packet.c, MqttEncode_Subscribe, MqttDecode_Subscribe). */
module SubscribePacket {
  import opened Common
  import opened BigEndian
  import opened VbiCodec
  import opened Utf8
  import opened TopicNames
  import opened Fields
  import opened Props
  import opened Packets

  const MAX_TOPICS: nat := 12

  /** An MqttTopic; options are bits 2 to 5 of the options byte. */
  datatype SubTopic = SubTopic(filter: bytes, qos: nat, options: byte)

  datatype Subscribe = Subscribe(pid: nat, topics: seq<SubTopic>, props: seq<Prop>)

  predicate SubscribeTyped(s: Subscribe) {
    Typed(s.props) && s.pid < 0x1_0000
  }

  // --------------------------------------------------------------- topics

  /** The checks of the length pass, first failure. */
  function TopicRefusal(t: SubTopic, level: byte): Option<Error> {
    if |t.filter| > MAX_FIELD then Some(BadArg)
    else if t.qos > 2 then Some(BadArg)
    else if !FilterValid(t.filter, level) then Some(Malformed)
    else if !WellFormed(t.filter) then Some(Malformed)
    else None
  }

  function TopicsRefusal(ts: seq<SubTopic>, level: byte): Option<Error> {
    if ts == [] then None
    else if TopicRefusal(ts[0], level).Some? then TopicRefusal(ts[0], level)
    else TopicsRefusal(ts[1..], level)
  }

  predicate NoLocal(options: byte) {
    options / 4 % 2 == 1
  }

  /** The option checks of the payload pass, made at level 5 only. */
  predicate OptionsRefused(t: SubTopic) {
    || t.options % 4 != 0 || t.options >= 64 || t.options / 16 % 4 == 3
    || (NoLocal(t.options) && IsShared(t.filter))
  }

  function OptionsByte(t: SubTopic, level: byte): byte
    requires t.qos <= 2 && (level >= LEVEL_5 ==> t.options < 64)
  {
    if level >= LEVEL_5 then t.options + t.qos else t.qos
  }

  /** The payload pass. */
  function EncodeTopics(ts: seq<SubTopic>, level: byte): Result<bytes>
    requires TopicsRefusal(ts, level).None?
  {
    if ts == [] then Ok([])
    else if level >= LEVEL_5 && OptionsRefused(ts[0]) then Err(Malformed)
    else After(Prefixed(ts[0].filter) + [OptionsByte(ts[0], level)], EncodeTopics(ts[1..], level))
  }

  /** The per-topic options byte, as the decoder judges it. */
  predicate OptionsAccepted(filter: bytes, options: byte, level: byte) {
    if level >= LEVEL_5 then
      && options < 64 && options % 4 <= 2 && options / 16 % 4 != 3
      && !(NoLocal(options) && IsShared(filter))
    else options < 4 && options % 4 <= 2
  }

  /** One iteration of the topic loop: b is what is left of the packet. */
  function DecodeTopic(b: bytes, level: byte, count: nat): (r: Result<(SubTopic, nat)>)
    ensures r.Ok? ==> 0 < r.value.1 <= |b|
  {
    if count >= MAX_TOPICS then Err(OutOfBuffer)
    else
      match DecodeString(b)
      case Err(e) => Err(e)
      case Ok(f) =>
        if !FilterValid(f, level) then Err(Malformed)
        else if 2 + |f| >= |b| then Err(OutOfBuffer)
        else
          var options := b[2 + |f|];
          if !OptionsAccepted(f, options, level) then Err(Malformed)
          else Ok((SubTopic(f, options % 4, options / 4 % 16 * 4), 3 + |f|))
  }

  function Joined(ts: seq<SubTopic>, r: Result<seq<SubTopic>>): Result<seq<SubTopic>> {
    match r
    case Err(e) => Err(e)
    case Ok(rest) => Ok(ts + rest)
  }

  function DecodeTopics(b: bytes, level: byte, count: nat): Result<seq<SubTopic>>
    decreases |b|
  {
    if b == [] then Ok([])
    else
      match DecodeTopic(b, level, count)
      case Err(e) => Err(e)
      case Ok((t, n)) => Joined([t], DecodeTopics(b[n..], level, count + 1))
  }

  // --------------------------------------------------------------- packets

  /** MqttEncode_Subscribe into a buffer of room bytes. */
  function EncodeSubscribe(s: Subscribe, level: byte, room: nat): Result<bytes>
    requires SubscribeTyped(s)
  {
    if s.pid == 0 then Err(PacketId)
    else if s.topics == [] then Err(BadArg)
    else if TopicsRefusal(s.topics, level).Some? then Err(TopicsRefusal(s.topics, level).value)
    else
      match EncodeBlock(SUBSCRIBE, s.props, level >= LEVEL_5)
      case Err(e) => Err(e)
      case Ok(block) =>
        var remain := 2 + |block| + TopicsLength(s.topics);
        match EncodeHeader(room, remain, SUBSCRIBE, false, 1, false)
        case Err(e) => Err(e)
        case Ok(h) =>
          if room < |h| + remain then Err(OutOfBuffer)
          else After(h + Put(s.pid, 2) + block, EncodeTopics(s.topics, level))
  }

  /** The length pass. */
  function TopicsLength(ts: seq<SubTopic>): nat {
    if ts == [] then 0 else 3 + |ts[0].filter| + TopicsLength(ts[1..])
  }

  /** MqttDecode_Subscribe: the request and the length of the packet. */
  function DecodeSubscribe(b: bytes, level: byte): Result<(Subscribe, nat)> {
    if b == [] then Err(BadArg)
    else
      match DecodeHeader(b, SUBSCRIBE)
      case Err(e) => Err(e)
      case Ok(h) =>
        var end := h.len + h.remain;
        if |b| < end then Err(OutOfBuffer)
        else
          match DecodeUInt(b[h.len..], 2)
          case Err(e) => Err(e)
          case Ok(pid) =>
            if pid == 0 then Err(PacketId)
            else
              match DecodeBlock(SUBSCRIBE, b[h.len + 2..], level >= LEVEL_5)
              case Err(e) => Err(e)
              case Ok((ps, n)) =>
                var pos := h.len + 2 + n;
                match DecodeTopics(if pos < end then b[pos..end] else [], level, 0)
                case Err(e) => Err(e)
                case Ok(ts) => if ts == [] then Err(Malformed) else Ok((Subscribe(pid, ts, ps), end))
  }

  // ------------------------------------------------------------ round trip

  lemma {:induction false} TopicsWritten(ts: seq<SubTopic>, level: byte)
    requires TopicsRefusal(ts, level).None? && EncodeTopics(ts, level).Ok?
    ensures |EncodeTopics(ts, level).value| == TopicsLength(ts)
  {
    hide TopicRefusal, OptionsRefused;
    if ts != [] {
      TopicsWritten(ts[1..], level);
    }
  }

  /** Options travel at level 5 only. */
  function CarriedTopic(t: SubTopic, level: byte): SubTopic {
    if level >= LEVEL_5 then t else t.(options := 0)
  }

  function CarriedTopics(ts: seq<SubTopic>, level: byte): (r: seq<SubTopic>)
    ensures |r| == |ts|
  {
    if ts == [] then [] else [CarriedTopic(ts[0], level)] + CarriedTopics(ts[1..], level)
  }

  lemma OptionsSplit(t: SubTopic, level: byte)
    requires t.qos <= 2 && (level >= LEVEL_5 ==> !OptionsRefused(t))
    ensures var o := OptionsByte(t, level);
      OptionsAccepted(t.filter, o, level) && o % 4 == t.qos && o / 4 % 16 * 4 == CarriedTopic(t, level).options
  {
    hide IsShared;
    if level >= LEVEL_5 {
      var k := t.options / 4;
      assert t.options == 4 * k;
      assert (4 * k + t.qos) / 4 == k;
    }
  }

  lemma TopicRoundTrip(t: SubTopic, level: byte, count: nat, post: bytes)
    requires TopicRefusal(t, level).None? && (level >= LEVEL_5 ==> !OptionsRefused(t))
    ensures var b := Prefixed(t.filter) + [OptionsByte(t, level)];
      DecodeTopic(b + post, level, count)
      == if count >= MAX_TOPICS then Err(OutOfBuffer) else Ok((CarriedTopic(t, level), |b|))
  {
    hide WellFormed, FilterValid, OptionsRefused, OptionsAccepted, Prefixed, DecodeString;
    OptionsSplit(t, level);
    var f, o := Prefixed(t.filter), OptionsByte(t, level);
    StringRoundTrip(t.filter, [o] + post);
    assert f + [o] + post == f + ([o] + post);
    assert (f + [o] + post)[|f|] == o;
  }

  lemma TopicTyped(t: SubTopic, level: byte)
    requires TopicRefusal(t, level).None? && (level >= LEVEL_5 ==> !OptionsRefused(t))
    ensures t.qos <= 2 && (level >= LEVEL_5 ==> t.options < 64)
  {
  }

  lemma {:induction false} TopicsRoundTrip(ts: seq<SubTopic>, level: byte, count: nat)
    requires TopicsRefusal(ts, level).None? && EncodeTopics(ts, level).Ok? && count <= MAX_TOPICS
    ensures DecodeTopics(EncodeTopics(ts, level).value, level, count)
            == if count + |ts| <= MAX_TOPICS then Ok(CarriedTopics(ts, level)) else Err(OutOfBuffer)
  {
    hide TopicRefusal, OptionsRefused, DecodeTopic, Prefixed, OptionsByte;
    if ts != [] {
      TopicTyped(ts[0], level);
      var b := EncodeTopics(ts, level).value;
      var c := Prefixed(ts[0].filter) + [OptionsByte(ts[0], level)];
      var rest := EncodeTopics(ts[1..], level).value;
      TopicRoundTrip(ts[0], level, count, rest);
      assert b == c + rest && b[|c|..] == rest;
      if count < MAX_TOPICS {
        TopicsRoundTrip(ts[1..], level, count + 1);
      }
    }
  }

  /** What a SUBSCRIBE carries over the wire. */
  function CarriedSubscribe(s: Subscribe, level: byte): Subscribe {
    Subscribe(s.pid, CarriedTopics(s.topics, level), if level >= LEVEL_5 then s.props else [])
  }

  lemma SubscribeAssembles(b: bytes, level: byte, h: Header, pid: nat, ps: seq<Prop>, n: nat, r: Result<seq<SubTopic>>)
    requires DecodeHeader(b, SUBSCRIBE) == Ok(h) && h.len + h.remain <= |b| && 2 + n <= h.remain
    requires DecodeUInt(b[h.len..], 2) == Ok(pid) && pid != 0
    requires DecodeBlock(SUBSCRIBE, b[h.len + 2..], level >= LEVEL_5) == Ok((ps, n))
    requires DecodeTopics(b[h.len + 2 + n..h.len + h.remain], level, 0) == r && r != Ok([])
    ensures DecodeSubscribe(b, level)
            == match r case Err(e) => Err(e) case Ok(ts) => Ok((Subscribe(pid, ts, ps), h.len + h.remain))
  {
    hide DecodeHeader, DecodeUInt, DecodeBlock, DecodeTopics;
    var end, pos := h.len + h.remain, h.len + 2 + n;
    assert pos == end ==> b[pos..end] == [];
  }

  /** The head of the packet: fixed header, identifier, properties. */
  lemma SubscribeHead(pid: nat, ps: seq<Prop>, level: byte, remain: nat, tail: bytes)
    requires Typed(ps) && 0 < pid < 0x1_0000 && remain <= MAX_REMAIN
    requires EncodeBlock(SUBSCRIBE, ps, level >= LEVEL_5).Ok?
    ensures var h := EncodeHeader(5, remain, SUBSCRIBE, false, 1, false).value;
      var block := EncodeBlock(SUBSCRIBE, ps, level >= LEVEL_5).value;
      var b := h + Put(pid, 2) + block + tail;
      && DecodeHeader(b, SUBSCRIBE) == Ok(Header(|h|, remain, false, 1, false))
      && DecodeUInt(b[|h|..], 2) == Ok(pid)
      && DecodeBlock(SUBSCRIBE, b[|h| + 2..], level >= LEVEL_5)
         == Ok((if level >= LEVEL_5 then ps else [], |block|))
  {
    hide DecodeHeader, DecodeUInt, DecodeBlock, EncodeBlock, Put, Span, Vbi, Has, Allowed;
    var h := EncodeHeader(5, remain, SUBSCRIBE, false, 1, false).value;
    var block := EncodeBlock(SUBSCRIBE, ps, level >= LEVEL_5).value;
    var b := h + Put(pid, 2) + block + tail;
    HeaderRoundTrip(5, remain, SUBSCRIBE, false, 1, false, Put(pid, 2) + block + tail);
    assert b == h + (Put(pid, 2) + block + tail);
    assert b[|h|..] == Put(pid, 2) + (block + tail);
    Spans();
    UIntRoundTrip(pid, 2, block + tail);
    assert b[|h| + 2..] == block + tail;
    BlockRoundTrip(SUBSCRIBE, ps, level >= LEVEL_5, tail);
    SubscribePaired(ps, level);
  }

  lemma SubscribePaired(ps: seq<Prop>, level: byte)
    requires Typed(ps) && EncodeBlock(SUBSCRIBE, ps, level >= LEVEL_5).Ok?
    ensures level >= LEVEL_5 ==> AuthPaired(ps)
    ensures level < LEVEL_5 ==> EncodeBlock(SUBSCRIBE, ps, false).value == []
  {
    if level >= LEVEL_5 {
      PairedWhenBarred(SUBSCRIBE, ps);
    }
  }

  /** Decoding an encoded SUBSCRIBE, whatever follows it, gives the request
      back and the packet's length exactly when it names no more topics than
      a packet may; otherwise it is refused. */
  lemma SubscribeRoundTrip(s: Subscribe, level: byte, room: nat, post: bytes)
    requires SubscribeTyped(s) && EncodeSubscribe(s, level, room).Ok?
    ensures var b := EncodeSubscribe(s, level, room).value;
      && |b| <= room
      && DecodeSubscribe(b + post, level)
         == if |s.topics| <= MAX_TOPICS then Ok((CarriedSubscribe(s, level), |b|)) else Err(OutOfBuffer)
  {
    hide TopicsRefusal, EncodeTopics, DecodeTopics, EncodeBlock, DecodeSubscribe, DecodeHeader, DecodeUInt, DecodeBlock;
    hide Put, Vbi, CarriedTopics, TypeFlags;
    var block := EncodeBlock(SUBSCRIBE, s.props, level >= LEVEL_5).value;
    var ts := EncodeTopics(s.topics, level).value;
    TopicsWritten(s.topics, level);
    var remain := 2 + |block| + |ts|;
    var h := EncodeHeader(5, remain, SUBSCRIBE, false, 1, false).value;
    var b := EncodeSubscribe(s, level, room).value;
    assert b == h + Put(s.pid, 2) + block + ts;
    SubscribeHead(s.pid, s.props, level, remain, ts + post);
    assert b + post == h + Put(s.pid, 2) + block + (ts + post);
    TopicsRoundTrip(s.topics, level, 0);
    assert (b + post)[|h| + 2 + |block|..|h| + remain] == ts;
    SubscribeAssembles(b + post, level, Header(|h|, remain, false, 1, false), s.pid,
                       if level >= LEVEL_5 then s.props else [], |block|, DecodeTopics(ts, level, 0));
  }

  // ----------------------------------------------------------------- loops

  lemma JoinedEnds(ts: seq<SubTopic>, r: Result<seq<SubTopic>>)
    ensures Joined([], r) == r && Joined(ts, Ok([])) == Ok(ts)
  {
    assert r.Ok? ==> [] + r.value == r.value;
    assert ts + [] == ts;
  }

  lemma JoinedStep(ts: seq<SubTopic>, t: SubTopic, r: Result<seq<SubTopic>>)
    ensures Joined(ts + [t], r) == Joined(ts, Joined([t], r))
  {
    assert r.Ok? ==> ts + [t] + r.value == ts + ([t] + r.value);
  }

  /** The decoder's topic loop, filling the topic array. */
  method MqttDecodeTopics(payload: bytes, level: byte) returns (r: Result<seq<SubTopic>>)
    ensures r == DecodeTopics(payload, level, 0)
  {
    hide FilterValid, DecodeString, IsShared;
    var topics: seq<SubTopic>, pos: nat := [], 0;
    assert payload[0..] == payload;
    JoinedEnds([], DecodeTopics(payload, level, 0));
    while pos < |payload|
      invariant pos <= |payload|
      invariant DecodeTopics(payload, level, 0) == Joined(topics, DecodeTopics(payload[pos..], level, |topics|))
    {
      ghost var rest := payload[pos..];
      if |topics| >= MAX_TOPICS { return Err(OutOfBuffer); }
      var s := DecodeString(payload[pos..]);
      if s.Err? { return Err(s.error); }
      var f := s.value;
      if !FilterValid(f, level) { return Err(Malformed); }
      var at := pos + 2 + |f|;
      if at >= |payload| { return Err(OutOfBuffer); }
      var options := payload[at];
      if level >= LEVEL_5 {
        if options >= 64 || options % 4 > 2 || options / 16 % 4 == 3 { return Err(Malformed); }
        if NoLocal(options) && IsShared(f) { return Err(Malformed); }
      } else {
        if options >= 4 || options % 4 > 2 { return Err(Malformed); }
      }
      var t := SubTopic(f, options % 4, options / 4 % 16 * 4);
      assert DecodeTopic(rest, level, |topics|) == Ok((t, 3 + |f|));
      assert rest[3 + |f|..] == payload[at + 1..];
      JoinedStep(topics, t, DecodeTopics(payload[at + 1..], level, |topics| + 1));
      topics, pos := topics + [t], at + 1;
    }
    JoinedEnds(topics, Ok([]));
    r := Ok(topics);
  }
}
