/** MQTT 5 property blocks (src/mqtt_packet.c, gPropMatrix, MqttEncode_Props,
    MqttDecode_Props). */
module Props {
  import opened Common
  import opened BigEndian
  import opened VbiCodec
  import opened Utf8
  import opened TopicNames
  import opened Fields

  /** Packet types, as in the fixed header. */
  const CONNECT: nat := 1
  const CONNACK: nat := 2
  const PUBLISH: nat := 3
  const SUBSCRIBE: nat := 8
  const DISCONNECT: nat := 14
  const AUTH: nat := 15

  const RESP_TOPIC: nat := 8
  const SUBSCRIPTION_ID: nat := 11
  const AUTH_METHOD: nat := 21
  const AUTH_DATA: nat := 22
  const TOPIC_ALIAS: nat := 35
  const USER_PROP: nat := 38
  const MAX_PACKET_SZ: nat := 39

  const MATRIX_SIZE: nat := 44
  const MAX_PROPS: nat := 30

  datatype Kind = KNone | KByte | KShort | KInt | KString | KVarInt | KBinary | KPair

  /** The data column of gPropMatrix. */
  function KindOf(id: nat): Kind {
    if id in {1, 23, 25, 36, 37, 40, 41, 42} then KByte
    else if id in {19, 33, 34, 35} then KShort
    else if id in {2, 17, 24, 39} then KInt
    else if id in {3, 8, 18, 21, 26, 28, 31} then KString
    else if id == 11 then KVarInt
    else if id in {9, 22} then KBinary
    else if id == 38 then KPair
    else KNone
  }

  /** The packet_type_mask column of gPropMatrix. */
  predicate Allowed(id: nat, packet: nat) {
    if id in {1, 3, 8, 9, 35} then packet == PUBLISH
    else if id == 2 then packet in {CONNECT, PUBLISH}
    else if id == 11 then packet in {PUBLISH, SUBSCRIBE}
    else if id == 17 then packet in {CONNECT, CONNACK, DISCONNECT}
    else if id in {18, 19, 26, 36, 37, 40, 41, 42} then packet == CONNACK
    else if id in {21, 22} then packet in {CONNECT, CONNACK, AUTH}
    else if id in {23, 24, 25} then packet == CONNECT
    else if id == 28 then packet in {CONNACK, DISCONNECT}
    else if id == 31 then packet in {2, 4, 5, 6, 7, 9, 11, 14, 15}
    else if id in {33, 34, 39} then packet in {CONNECT, CONNACK}
    else if id == 38 then packet < 16
    else false
  }

  /** May the property occur more than once? */
  predicate Repeatable(id: nat, packet: nat) {
    id == USER_PROP || (id == SUBSCRIPTION_ID && packet == PUBLISH)
  }

  /** The value union of a property. */
  datatype Value = Num(n: nat) | Str(s: bytes) | Pair(name: bytes, val: bytes)

  datatype Prop = Prop(id: nat, value: Value)

  /** The union member and width the property's kind selects. */
  predicate Holds(k: Kind, v: Value) {
    match k
    case KByte => v.Num? && v.n < 0x100
    case KShort => v.Num? && v.n < 0x1_0000
    case KInt => v.Num? && v.n < 0x1_0000_0000
    case KVarInt => v.Num? && v.n < 0x1_0000_0000
    case KString => v.Str? && |v.s| <= MAX_FIELD
    case KBinary => v.Str? && |v.s| <= MAX_FIELD
    case KPair => v.Pair? && |v.name| <= MAX_FIELD && |v.val| <= MAX_FIELD
    case KNone => true
  }

  predicate Typed(ps: seq<Prop>) {
    forall i :: 0 <= i < |ps| ==> Holds(KindOf(ps[i].id), ps[i].value)
  }

  // ------------------------------------------------------------- one value

  /** The switch of MqttEncode_Props. */
  function EncodeValue(id: nat, v: Value): Result<bytes>
    requires Holds(KindOf(id), v)
  {
    match KindOf(id)
    case KByte => if v.n > 1 then Err(PropertyError) else Ok([v.n])
    case KShort => if id == TOPIC_ALIAS && v.n == 0 then Err(PropertyError) else Ok(Put(v.n, 2))
    case KInt => if id == MAX_PACKET_SZ && v.n == 0 then Err(PropertyError) else Ok(Put(v.n, 4))
    case KString =>
      if id == RESP_TOPIC && !NameValid(v.s, LEVEL_5) then Err(Malformed)
      else if !WellFormed(v.s) then Err(Malformed)
      else Ok(Prefixed(v.s))
    case KVarInt =>
      if id == SUBSCRIPTION_ID && v.n == 0 then Err(PropertyError)
      else if v.n > MAX_REMAIN then Err(Malformed)
      else Ok(Vbi(v.n))
    case KBinary => Ok(Prefixed(v.s))
    case KPair =>
      if !WellFormed(v.name) || !WellFormed(v.val) then Err(Malformed)
      else Ok(Prefixed(v.name) + Prefixed(v.val))
    case KNone => Err(PropertyError)
  }

  /** The switch of MqttDecode_Props: b is the buffer after the identifier,
      left what remains of the block. */
  function DecodeValue(id: nat, b: bytes, left: nat): (r: Result<(Value, nat)>)
    ensures r.Ok? ==> 0 < r.value.1 <= left && r.value.1 <= |b|
  {
    match KindOf(id)
    case KByte =>
      if |b| < 1 || left < 1 then Err(OutOfBuffer)
      else if b[0] > 1 then Err(PropertyError)
      else Ok((Num(b[0]), 1))
    case KShort =>
      (match DecodeUInt(b, 2)
       case Err(e) => Err(e)
       case Ok(n) =>
         if 2 > left || (id == TOPIC_ALIAS && n == 0) then Err(Malformed) else Ok((Num(n), 2)))
    case KInt =>
      if left < 4 then Err(OutOfBuffer)
      else (match DecodeUInt(b, 4)
        case Err(e) => Err(e)
        case Ok(n) => if id == MAX_PACKET_SZ && n == 0 then Err(Malformed) else Ok((Num(n), 4)))
    case KString =>
      (match DecodeString(b)
       case Err(e) => Err(e)
       case Ok(s) =>
         if 2 + |s| > left || (id == RESP_TOPIC && !NameValid(s, LEVEL_5)) then Err(Malformed)
         else Ok((Str(s), 2 + |s|)))
    case KVarInt =>
      (match DecodeVbi(b)
       case Err(e) => Err(e)
       case Ok((v, n)) =>
         if n > left || (id == SUBSCRIPTION_ID && v == 0) then Err(Malformed) else Ok((Num(v), n)))
    case KBinary =>
      (match DecodeUInt(b, 2)
       case Err(e) => Err(e)
       case Ok(n) =>
         if 2 > left then Err(Malformed)
         else if n > |b| - 2 then Err(PropertyError)
         else if n > left - 2 then Err(Malformed)
         else Ok((Str(b[2..2 + n]), 2 + n)))
    case KPair =>
      (match DecodeString(b)
       case Err(e) => Err(e)
       case Ok(name) =>
         var at := 2 + |name|;
         if at > left then Err(Malformed)
         else if |b| == at then Err(PropertyError)
         else (match DecodeString(b[at..])
           case Err(e) => Err(e)
           case Ok(val) =>
             if at + 2 + |val| > left then Err(Malformed)
             else Ok((Pair(name, val), at + 2 + |val|))))
    case KNone => Err(PropertyError)
  }

  /** An encoded value decodes to itself. */
  lemma ValueRoundTrip(id: nat, v: Value, post: bytes, left: nat)
    requires Holds(KindOf(id), v) && EncodeValue(id, v).Ok? && left >= |EncodeValue(id, v).value|
    ensures DecodeValue(id, EncodeValue(id, v).value + post, left) == Ok((v, |EncodeValue(id, v).value|))
  {
    hide WellFormed, NameValid, Put, Get, Span, Prefixed, DecodeUInt, DecodeString, DecodeVbi, Vbi;
    Spans();
    var c := EncodeValue(id, v).value;
    var b := c + post;
    match KindOf(id)
    case KByte => assert b[0] == v.n;
    case KShort => UIntRoundTrip(v.n, 2, post);
    case KInt => UIntRoundTrip(v.n, 4, post);
    case KString => StringRoundTrip(v.s, post);
    case KVarInt => DecodeOfEncode(v.n, post);
    case KBinary => PrefixedSplit(v.s, post);
    case KPair =>
      var rest := Prefixed(v.val) + post;
      StringRoundTrip(v.name, rest);
      StringRoundTrip(v.val, post);
      PrefixedSplit(v.name, rest);
      assert b == Prefixed(v.name) + rest;
  }

  /** An accepted value re-encodes to the bytes it was read from. */
  lemma ValueCanonical(id: nat, b: bytes, left: nat)
    requires DecodeValue(id, b, left).Ok?
    ensures var (v, n) := DecodeValue(id, b, left).value;
      Holds(KindOf(id), v) && EncodeValue(id, v) == Ok(b[..n])
  {
    hide WellFormed, NameValid, Put, Get, Span, Prefixed, DecodeUInt, DecodeString, DecodeVbi, Vbi;
    Spans();
    var (v, n) := DecodeValue(id, b, left).value;
    match KindOf(id)
    case KByte => assert b[..1] == [b[0]];
    case KShort => UIntCanonical(b, 2);
    case KInt => UIntCanonical(b, 4);
    case KString => StringCanonical(b);
    case KVarInt => DecodesExactly(b, v.n, n);
    case KBinary => PrefixedCanonical(b);
    case KPair =>
      StringCanonical(b);
      var at := 2 + |v.name|;
      StringCanonical(b[at..]);
      assert b[..n] == b[..at] + b[at..][..n - at];
  }

  // ------------------------------------------------------------ the block

  /** The checks both directions make on an identifier. */
  function Refusal(id: nat, packet: nat, count: nat, seen: set<nat>): Option<Error> {
    if count + 1 > MAX_PROPS then Some(PropertyError)
    else if id >= MATRIX_SIZE then Some(PropertyError)
    else if !Allowed(id, packet) then Some(PropertyMismatch)
    else if !Repeatable(id, packet) && id in seen then Some(PropertyError)
    else None
  }

  function Mark(id: nat, packet: nat, seen: set<nat>): set<nat> {
    if Repeatable(id, packet) then seen else seen + {id}
  }

  /** One iteration of MqttEncode_Props. */
  function EncodeOne(packet: nat, p: Prop, count: nat, seen: set<nat>, total: nat): (r: Result<bytes>)
    requires Holds(KindOf(p.id), p.value)
    ensures r.Ok? ==> |r.value| > 0 && total + |r.value| <= MAX_REMAIN
  {
    match Refusal(p.id, packet, count, seen)
    case Some(e) => Err(e)
    case None =>
      match EncodeValue(p.id, p.value)
      case Err(e) => Err(e)
      case Ok(b) => if total + 1 + |b| > MAX_REMAIN then Err(OutOfBuffer) else Ok([p.id] + b)
  }

  /** The rest of an encoding follows the bytes written so far. */
  function After(out: bytes, r: Result<bytes>): Result<bytes> {
    match r
    case Err(e) => Err(e)
    case Ok(rest) => Ok(out + rest)
  }

  /** MqttEncode_Props after count properties and total bytes. */
  function EncodeList(packet: nat, ps: seq<Prop>, count: nat, seen: set<nat>, total: nat): Result<bytes>
    requires Typed(ps)
  {
    if ps == [] then Ok([])
    else
      match EncodeOne(packet, ps[0], count, seen, total)
      case Err(e) => Err(e)
      case Ok(b) => After(b, EncodeList(packet, ps[1..], count + 1, Mark(ps[0].id, packet, seen), total + |b|))
  }

  function EncodeProps(packet: nat, ps: seq<Prop>): Result<bytes>
    requires Typed(ps)
  {
    EncodeList(packet, ps, 0, {}, 0)
  }

  /** Identifiers of the matrix take one byte. */
  lemma IdIsOneByte(b: bytes)
    ensures DecodeVbi(b).Ok? && DecodeVbi(b).value.0 < 128 ==> DecodeVbi(b).value.1 == 1
  {
    if DecodeVbi(b).Ok? {
      var (v, n) := DecodeVbi(b).value;
      DecodesExactly(b, v, n);
    }
  }

  /** One iteration of MqttDecode_Props, with left > 0 bytes to go. */
  function DecodeOne(packet: nat, b: bytes, left: nat, count: nat, seen: set<nat>): (r: Result<(Prop, nat)>)
    requires left > 0
    ensures r.Ok? ==> 0 < r.value.1 <= left && r.value.1 <= |b|
  {
    if count + 1 > MAX_PROPS then Err(PropertyError)
    else
      match DecodeVbi(b)
      case Err(e) => Err(e)
      case Ok((id, n)) =>
        match Refusal(id, packet, count, seen)
        case Some(e) => Err(e)
        case None =>
          IdIsOneByte(b);
          match DecodeValue(id, b[n..], left - n)
          case Err(e) => Err(e)
          case Ok((v, m)) => Ok((Prop(id, v), n + m))
  }

  /** The rest of a decoding follows the properties read so far. */
  function AfterProps(ps: seq<Prop>, total: nat, r: Result<(seq<Prop>, nat)>): Result<(seq<Prop>, nat)> {
    match r
    case Err(e) => Err(e)
    case Ok((rest, used)) => Ok((ps + rest, total + used))
  }

  /** MqttDecode_Props after count properties, with left bytes to go. */
  function DecodeList(packet: nat, b: bytes, left: nat, count: nat, seen: set<nat>): Result<(seq<Prop>, nat)>
    decreases left
  {
    if left == 0 then Ok(([], 0))
    else
      match DecodeOne(packet, b, left, count, seen)
      case Err(e) => Err(e)
      case Ok((p, n)) =>
        AfterProps([p], n, DecodeList(packet, b[n..], left - n, count + 1, Mark(p.id, packet, seen)))
  }

  predicate Has(ps: seq<Prop>, id: nat) {
    exists i :: 0 <= i < |ps| && ps[i].id == id
  }

  /** Authentication Data comes with an Authentication Method. */
  predicate AuthPaired(ps: seq<Prop>) {
    Has(ps, AUTH_DATA) ==> Has(ps, AUTH_METHOD)
  }

  /** MqttDecode_Props: the properties and the number of bytes consumed. */
  function DecodeProps(packet: nat, b: bytes, propLen: nat): Result<(seq<Prop>, nat)> {
    match DecodeList(packet, b, propLen, 0, {})
    case Err(e) => Err(e)
    case Ok((ps, used)) => if !AuthPaired(ps) then Err(PropertyError) else Ok((ps, used))
  }

  // ------------------------------------------------------------- theorems

  lemma OneRoundTrip(packet: nat, p: Prop, count: nat, seen: set<nat>, total: nat, post: bytes, left: nat)
    requires Holds(KindOf(p.id), p.value) && EncodeOne(packet, p, count, seen, total).Ok?
    requires left >= |EncodeOne(packet, p, count, seen, total).value|
    ensures var b := EncodeOne(packet, p, count, seen, total).value;
      DecodeOne(packet, b + post, left, count, seen) == Ok((p, |b|))
  {
    hide EncodeValue, DecodeValue, DecodeVbi, Allowed, Holds;
    var c := EncodeValue(p.id, p.value).value;
    OneByteId(p.id, c + post);
    assert [p.id] + c + post == [p.id] + (c + post);
    assert ([p.id] + (c + post))[1..] == c + post;
    ValueRoundTrip(p.id, p.value, post, left - 1);
  }

  lemma OneByteId(id: nat, post: bytes)
    requires id < MATRIX_SIZE
    ensures DecodeVbi([id] + post) == Ok((id, 1))
  {
    DecodeOfEncode(id, post);
  }

  lemma {:induction false} ListRoundTrip(packet: nat, ps: seq<Prop>, count: nat, seen: set<nat>, total: nat, post: bytes)
    requires Typed(ps) && EncodeList(packet, ps, count, seen, total).Ok?
    ensures var b := EncodeList(packet, ps, count, seen, total).value;
      DecodeList(packet, b + post, |b|, count, seen) == Ok((ps, |b|))
    decreases |ps|
  {
    hide EncodeOne, DecodeOne, Mark, Holds;
    if ps != [] {
      var b := EncodeList(packet, ps, count, seen, total).value;
      var p, seen' := ps[0], Mark(ps[0].id, packet, seen);
      var c := EncodeOne(packet, p, count, seen, total).value;
      var rest := EncodeList(packet, ps[1..], count + 1, seen', total + |c|).value;
      OneRoundTrip(packet, p, count, seen, total, rest + post, |b|);
      ListRoundTrip(packet, ps[1..], count + 1, seen', total + |c|, post);
      assert b + post == c + (rest + post);
      assert (b + post)[|c|..] == rest + post;
      assert ps == [p] + ps[1..];
    }
  }

  /** Decoding an encoded block gives the properties back, with every byte
      consumed, exactly when Authentication Data comes with a Method. */
  lemma PropsRoundTrip(packet: nat, ps: seq<Prop>, post: bytes)
    requires Typed(ps) && EncodeProps(packet, ps).Ok?
    ensures var b := EncodeProps(packet, ps).value;
      DecodeProps(packet, b + post, |b|) == if AuthPaired(ps) then Ok((ps, |b|)) else Err(PropertyError)
  {
    ListRoundTrip(packet, ps, 0, {}, 0, post);
  }

  lemma OneCanonical(packet: nat, b: bytes, left: nat, count: nat, seen: set<nat>, total: nat)
    requires left > 0 && DecodeOne(packet, b, left, count, seen).Ok? && total + left <= MAX_REMAIN
    ensures var (p, n) := DecodeOne(packet, b, left, count, seen).value;
      Holds(KindOf(p.id), p.value) && EncodeOne(packet, p, count, seen, total) == Ok(b[..n])
  {
    hide EncodeValue, DecodeValue, DecodeVbi, Allowed, Holds;
    var (id, n) := DecodeVbi(b).value;
    IdIsOneByte(b);
    IdByte(b);
    var (v, m) := DecodeValue(id, b[1..], left - 1).value;
    ValueCanonical(id, b[1..], left - 1);
    assert b[..1 + m] == [b[0]] + b[1..][..m];
  }

  lemma IdByte(b: bytes)
    requires DecodeVbi(b).Ok? && DecodeVbi(b).value.1 == 1
    ensures b[0] == DecodeVbi(b).value.0
  {
  }

  lemma {:induction false} ListCanonical(packet: nat, b: bytes, left: nat, count: nat, seen: set<nat>, total: nat)
    requires DecodeList(packet, b, left, count, seen).Ok? && total + left <= MAX_REMAIN
    ensures var (ps, used) := DecodeList(packet, b, left, count, seen).value;
      used == left <= |b| && Typed(ps) && EncodeList(packet, ps, count, seen, total) == Ok(b[..left])
    decreases left
  {
    hide EncodeOne, DecodeOne, Mark, Holds;
    if left != 0 {
      var (p, n) := DecodeOne(packet, b, left, count, seen).value;
      OneCanonical(packet, b, left, count, seen, total);
      var seen' := Mark(p.id, packet, seen);
      ListCanonical(packet, b[n..], left - n, count + 1, seen', total + n);
      var (rest, used) := DecodeList(packet, b[n..], left - n, count + 1, seen').value;
      var ps := [p] + rest;
      assert ps[1..] == rest;
      assert b[..left] == b[..n] + b[n..][..left - n];
    }
  }

  /** An accepted block is consumed to its declared length and re-encodes to
      the identical bytes. */
  lemma PropsCanonical(packet: nat, b: bytes, propLen: nat)
    requires propLen <= MAX_REMAIN && DecodeProps(packet, b, propLen).Ok?
    ensures var (ps, used) := DecodeProps(packet, b, propLen).value;
      used == propLen <= |b| && Typed(ps) && AuthPaired(ps) && EncodeProps(packet, ps) == Ok(b[..propLen])
  {
    ListCanonical(packet, b, propLen, 0, {}, 0);
  }

  // ---------------------------------------------------------------- loops

  lemma AfterEnds(out: bytes, r: Result<bytes>)
    ensures After([], r) == r && After(out, Ok([])) == Ok(out)
  {
    assert r.Ok? ==> [] + r.value == r.value;
    assert out + [] == out;
  }

  lemma AfterStep(out: bytes, b: bytes, r: Result<bytes>)
    ensures After(out + b, r) == After(out, After(b, r))
  {
    match r
    case Err(_) =>
    case Ok(rest) => assert out + b + rest == out + (b + rest);
  }

  /** MqttEncode_Props: the walk over the property list. */
  method MqttEncodeProps(packet: nat, props: seq<Prop>) returns (r: Result<bytes>)
    requires Typed(props)
    ensures r == EncodeProps(packet, props)
  {
    hide EncodeValue, Allowed, Holds;
    var out: bytes, seen: set<nat>, cur := [], {}, 0;
    assert props[0..] == props;
    AfterEnds(out, EncodeProps(packet, props));
    while cur < |props|
      invariant cur <= |props| && |out| <= MAX_REMAIN
      invariant EncodeProps(packet, props) == After(out, EncodeList(packet, props[cur..], cur, seen, |out|))
    {
      var p := props[cur];
      assert props[cur..][0] == p && props[cur..][1..] == props[cur + 1..];
      ghost var one, seen0 := EncodeOne(packet, p, cur, seen, |out|), seen;
      if cur + 1 > MAX_PROPS { return Err(PropertyError); }
      if p.id >= MATRIX_SIZE { return Err(PropertyError); }
      if !Allowed(p.id, packet) { return Err(PropertyMismatch); }
      if !Repeatable(p.id, packet) {
        if p.id in seen { return Err(PropertyError); }
        seen := seen + {p.id};
      }
      var b := EncodeValue(p.id, p.value);
      if b.Err? { return Err(b.error); }
      if |out| + 1 + |b.value| > MAX_REMAIN { return Err(OutOfBuffer); }
      assert one == Ok([p.id] + b.value) && seen == Mark(p.id, packet, seen0);
      AfterStep(out, one.value, EncodeList(packet, props[cur + 1..], cur + 1, seen, |out| + |one.value|));
      out := out + ([p.id] + b.value);
      cur := cur + 1;
    }
    AfterEnds(out, Ok([]));
    r := Ok(out);
  }

  lemma AfterPropsEnds(ps: seq<Prop>, total: nat, r: Result<(seq<Prop>, nat)>)
    ensures AfterProps([], 0, r) == r && AfterProps(ps, total, Ok(([], 0))) == Ok((ps, total))
  {
    assert r.Ok? ==> [] + r.value.0 == r.value.0;
    assert ps + [] == ps;
  }

  lemma AfterPropsStep(ps: seq<Prop>, total: nat, p: Prop, n: nat, r: Result<(seq<Prop>, nat)>)
    ensures AfterProps(ps + [p], total + n, r) == AfterProps(ps, total, AfterProps([p], n, r))
  {
    match r
    case Err(_) =>
    case Ok((rest, used)) => assert ps + [p] + rest == ps + ([p] + rest);
  }

  /** The body of MqttDecode_Props' loop. */
  method MqttDecodeOne(packet: nat, buf: bytes, left: nat, count: nat, seen: set<nat>)
    returns (r: Result<(Prop, nat)>, seen': set<nat>)
    requires left > 0
    ensures r == DecodeOne(packet, buf, left, count, seen)
    ensures r.Ok? ==> seen' == Mark(r.value.0.id, packet, seen)
  {
    hide DecodeVbi, DecodeValue, Allowed;
    seen' := seen;
    if count + 1 > MAX_PROPS { return Err(PropertyError), seen; }
    var idr := DecodeVbi(buf);
    if idr.Err? { return Err(idr.error), seen; }
    var (id, n) := idr.value;
    IdIsOneByte(buf);
    if id >= MATRIX_SIZE { return Err(PropertyError), seen; }
    if !Allowed(id, packet) { return Err(PropertyMismatch), seen; }
    if !Repeatable(id, packet) {
      if id in seen { return Err(PropertyError), seen; }
      seen' := seen + {id};
    }
    var v := DecodeValue(id, buf[n..], left - n);
    if v.Err? { return Err(v.error), seen'; }
    r := Ok((Prop(id, v.value.0), n + v.value.1));
  }

  /** MqttDecode_Props: the cursor walk over the block, appending to the list. */
  method MqttDecodeProps(packet: nat, pbuf: bytes, propLen: nat) returns (r: Result<(seq<Prop>, nat)>)
    ensures r == DecodeProps(packet, pbuf, propLen)
  {
    hide DecodeOne, Mark, Has;
    var props: seq<Prop>, total: nat, left: nat := [], 0, propLen;
    var seen: set<nat> := {};
    var sawMethod, sawData := false, false;
    ghost var all := DecodeList(packet, pbuf, propLen, 0, {});
    assert pbuf[0..] == pbuf;
    AfterPropsEnds(props, total, all);
    HasNone();
    while left > 0
      invariant total <= |pbuf|
      invariant all == AfterProps(props, total, DecodeList(packet, pbuf[total..], left, |props|, seen))
      invariant sawMethod == Has(props, AUTH_METHOD) && sawData == Has(props, AUTH_DATA)
      decreases left
    {
      var one, seen' := MqttDecodeOne(packet, pbuf[total..], left, |props|, seen);
      if one.Err? { return Err(one.error); }
      var (p, n) := one.value;
      assert pbuf[total..][n..] == pbuf[total + n..];
      AfterPropsStep(props, total, p, n, DecodeList(packet, pbuf[total + n..], left - n, |props| + 1, seen'));
      HasAppend(props, p);
      if p.id == AUTH_METHOD { sawMethod := true; }
      if p.id == AUTH_DATA { sawData := true; }
      props, total, left, seen := props + [p], total + n, left - n, seen';
    }
    AfterPropsEnds(props, total, all);
    if sawData && !sawMethod { return Err(PropertyError); }
    r := Ok((props, total));
  }

  lemma HasNone()
    ensures forall id: nat :: !Has([], id)
  {
  }

  lemma HasAppend(ps: seq<Prop>, p: Prop)
    ensures forall id: nat :: Has(ps + [p], id) <==> Has(ps, id) || p.id == id
  {
    forall id: nat ensures Has(ps + [p], id) <==> Has(ps, id) || p.id == id {
      if Has(ps, id) {
        var i :| 0 <= i < |ps| && ps[i].id == id;
        assert (ps + [p])[i].id == id;
      }
      if p.id == id {
        assert (ps + [p])[|ps|].id == id;
      }
    }
  }
}
