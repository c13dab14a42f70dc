/** CONNECT (src/mqtt_packet.c, MqttEncode_Connect, MqttDecode_Connect). */
module ConnectPacket {
  import opened Common
  import opened BigEndian
  import opened VbiCodec
  import opened Utf8
  import opened TopicNames
  import opened Fields
  import opened Props
  import opened Packets

  datatype Will = Will(topic: bytes, payload: bytes, qos: nat, retain: bool, props: seq<Prop>)

  datatype Connect = Connect(level: byte, clean: bool, keepAlive: nat, clientId: bytes, will: Option<Will>,
                             username: Option<bytes>, password: Option<bytes>, props: seq<Prop>)

  predicate ConnectTyped(c: Connect) {
    Typed(c.props) && c.keepAlive < 0x1_0000 && (c.will.Some? ==> Typed(c.will.value.props))
  }

  /** MqttWillProps_ValidateType. */
  predicate WillAllowed(id: nat) {
    id in {24, 1, 2, 3, 8, 9, 38}
  }

  predicate WillProps(ps: seq<Prop>) {
    forall i :: 0 <= i < |ps| ==> WillAllowed(ps[i].id)
  }

  /** Level 0 asks for the build's default. */
  function Level(c: Connect): byte {
    if c.level == 0 then LEVEL_5 else c.level
  }

  predicate V5(c: Connect) {
    Level(c) == LEVEL_5
  }

  // --------------------------------------------------------------- encoder

  function WillRefusal(w: Will, level: byte): Option<Error>
    requires Typed(w.props)
  {
    if |w.topic| > MAX_FIELD then Some(BadArg)
    else if !NameValid(w.topic, level) then Some(Malformed)
    else if !WellFormed(w.topic) then Some(Malformed)
    else if w.qos > 2 then Some(BadArg)
    else if |w.payload| > MAX_FIELD then Some(BadArg)
    else if level >= LEVEL_5 && !(|w.props| <= MAX_PROPS && WillProps(w.props)) then Some(PropertyError)
    else if EncodeBlock(CONNECT, w.props, level >= LEVEL_5).Err? then Some(PropertyError)
    else None
  }

  function UserRefusal(u: bytes): Option<Error> {
    if |u| > MAX_FIELD then Some(BadArg) else if !WellFormed(u) then Some(Malformed) else None
  }

  /** The checks of MqttEncode_Connect up to the fixed header, in order. */
  function ConnectRefusal(c: Connect): Option<Error>
    requires ConnectTyped(c)
  {
    if Level(c) != LEVEL_4 && Level(c) != LEVEL_5 then Some(BadArg)
    else if Level(c) == LEVEL_4 && c.password.Some? && c.username.None? then Some(BadArg)
    else if EncodeBlock(CONNECT, c.props, V5(c)).Err? then Some(PropertyError)
    else if |c.clientId| > MAX_FIELD then Some(BadArg)
    else if !WellFormed(c.clientId) then Some(Malformed)
    else if c.clientId == [] && !c.clean && Level(c) == LEVEL_4 then Some(BadArg)
    else if c.will.Some? && WillRefusal(c.will.value, Level(c)).Some? then WillRefusal(c.will.value, Level(c))
    else if c.username.Some? && UserRefusal(c.username.value).Some? then UserRefusal(c.username.value)
    else if c.password.Some? && |c.password.value| > MAX_FIELD then Some(BadArg)
    else None
  }

  function WillBits(w: Option<Will>): nat {
    match w
    case None => 0
    case Some(w) => 4 + 8 * w.qos + 32 * Bit(w.retain)
  }

  /** The connect flags byte. */
  function ConnectFlags(c: Connect): byte
    requires c.will.Some? ==> c.will.value.qos <= 2
  {
    128 * Bit(c.username.Some?) + 64 * Bit(c.password.Some?) + WillBits(c.will) + 2 * Bit(c.clean)
  }

  /** Length-prefixed protocol name "MQTT". */
  function ProtocolName(): bytes {
    [0, 4, 0x4D, 0x51, 0x54, 0x54]
  }

  /** The ten-byte variable header. */
  function ConnectFixed(c: Connect): bytes
    requires c.will.Some? ==> c.will.value.qos <= 2
  {
    ProtocolName() + [Level(c), ConnectFlags(c)] + Put(c.keepAlive, 2)
  }

  function WillBytes(w: Option<Will>, v5: bool): bytes
    requires w.Some? ==> Typed(w.value.props) && EncodeBlock(CONNECT, w.value.props, v5).Ok?
  {
    match w
    case None => []
    case Some(w) => EncodeBlock(CONNECT, w.props, v5).value + Prefixed(w.topic) + Prefixed(w.payload)
  }

  function OptionBytes(o: Option<bytes>): bytes {
    match o
    case None => []
    case Some(s) => Prefixed(s)
  }

  lemma NotRefused(c: Connect)
    requires ConnectTyped(c) && ConnectRefusal(c).None?
    ensures c.will.Some? ==> c.will.value.qos <= 2 && EncodeBlock(CONNECT, c.will.value.props, V5(c)).Ok?
    ensures EncodeBlock(CONNECT, c.props, V5(c)).Ok? && (V5(c) <==> Level(c) >= LEVEL_5)
  {
    hide NameValid, WellFormed, EncodeBlock, WillAllowed;
  }

  /** Everything after the fixed header. */
  function ConnectBody(c: Connect): bytes
    requires ConnectTyped(c) && ConnectRefusal(c).None?
  {
    NotRefused(c);
    ConnectFixed(c) + EncodeBlock(CONNECT, c.props, V5(c)).value + Prefixed(c.clientId)
    + WillBytes(c.will, V5(c)) + OptionBytes(c.username) + OptionBytes(c.password)
  }

  /** MqttEncode_Connect into a buffer of room bytes. */
  function EncodeConnect(c: Connect, room: nat): Result<bytes>
    requires ConnectTyped(c)
  {
    match ConnectRefusal(c)
    case Some(e) => Err(e)
    case None =>
      var body := ConnectBody(c);
      match EncodeHeader(room, |body|, CONNECT, false, 0, false)
      case Err(e) => Err(e)
      case Ok(h) => if room < |h| + |body| then Err(OutOfBuffer) else Ok(h + body)
  }

  // --------------------------------------------------------------- decoder

  /** Violations of the connect flag rules. */
  predicate FlagsRefused(flags: byte, level: byte) {
    || flags % 2 == 1
    || (flags / 4 % 2 == 0 && (flags / 8 % 4 != 0 || flags / 32 % 2 == 1))
    || (flags / 4 % 2 == 1 && flags / 8 % 4 == 3)
    || (level == LEVEL_4 && flags / 64 % 2 == 1 && flags / 128 == 0)
  }

  /** A string that must end inside the packet. */
  function DecodeStringTo(b: bytes, pos: nat, end: nat): (r: Result<(bytes, nat)>)
    requires pos <= |b| && end <= |b|
    ensures r.Ok? ==> r.value.1 <= end
  {
    match DecodeString(b[pos..])
    case Err(e) => Err(e)
    case Ok(s) => if pos + 2 + |s| > end then Err(OutOfBuffer) else Ok((s, pos + 2 + |s|))
  }

  /** Binary data that must end inside the packet. */
  function DecodeDataTo(b: bytes, pos: nat, end: nat): (r: Result<(bytes, nat)>)
    requires pos <= |b| && end <= |b|
    ensures r.Ok? ==> r.value.1 <= end
  {
    match DecodeUInt(b[pos..], 2)
    case Err(e) => Err(e)
    case Ok(n) => if pos + 2 + n > end then Err(OutOfBuffer) else Ok((b[pos + 2..pos + 2 + n], pos + 2 + n))
  }

  function DecodeWill(b: bytes, pos: nat, end: nat, level: byte, flags: byte): (r: Result<(Option<Will>, nat)>)
    requires pos <= |b| && end <= |b|
    ensures r.Ok? ==> r.value.1 <= |b|
  {
    if flags / 4 % 2 == 0 then Ok((None, pos))
    else
      match DecodeBlock(CONNECT, b[pos..], level == LEVEL_5)
      case Err(e) => Err(e)
      case Ok((ps, n)) =>
        if !WillProps(ps) then Err(PropertyError)
        else
          match DecodeStringTo(b, pos + n, end)
          case Err(e) => Err(e)
          case Ok((topic, p1)) =>
            if topic == [] || !NameValid(topic, level) then Err(Malformed)
            else
              match DecodeDataTo(b, p1, end)
              case Err(e) => Err(e)
              case Ok((payload, p2)) =>
                Ok((Some(Will(topic, payload, flags / 8 % 4, flags / 32 % 2 == 1, ps)), p2))
  }

  function DecodeUser(b: bytes, pos: nat, end: nat, flags: byte): (r: Result<(Option<bytes>, nat)>)
    requires pos <= |b| && end <= |b|
    ensures r.Ok? ==> r.value.1 <= |b|
  {
    if flags / 128 == 0 then Ok((None, pos))
    else match DecodeStringTo(b, pos, end)
      case Err(e) => Err(e)
      case Ok((s, p)) => Ok((Some(s), p))
  }

  function DecodePassword(b: bytes, pos: nat, end: nat, flags: byte): (r: Result<(Option<bytes>, nat)>)
    requires pos <= |b| && end <= |b|
    ensures r.Ok? ==> r.value.1 <= |b|
  {
    if flags / 64 % 2 == 0 then Ok((None, pos))
    else match DecodeDataTo(b, pos, end)
      case Err(e) => Err(e)
      case Ok((s, p)) => Ok((Some(s), p))
  }

  /** The flag-gated fields, which must use up the packet. */
  function DecodeRest(b: bytes, pos: nat, end: nat, c: Connect, flags: byte): Result<(Connect, nat)>
    requires pos <= |b| && end <= |b|
  {
    match DecodeWill(b, pos, end, c.level, flags)
    case Err(e) => Err(e)
    case Ok((will, p1)) =>
      match DecodeUser(b, p1, end, flags)
      case Err(e) => Err(e)
      case Ok((user, p2)) =>
        match DecodePassword(b, p2, end, flags)
        case Err(e) => Err(e)
        case Ok((pass, p3)) =>
          if p3 != end then Err(Malformed)
          else Ok((c.(will := will, username := user, password := pass), end))
  }

  /** From the property block on. */
  function DecodeFields(b: bytes, pos: nat, end: nat, level: byte, flags: byte, keepAlive: nat): Result<(Connect, nat)>
    requires pos <= |b| && end <= |b|
  {
    match DecodeBlock(CONNECT, b[pos..], level == LEVEL_5)
    case Err(e) => Err(e)
    case Ok((ps, n)) =>
      match DecodeStringTo(b, pos + n, end)
      case Err(e) => Err(e)
      case Ok((id, p)) =>
        DecodeRest(b, p, end, Connect(level, flags / 2 % 2 == 1, keepAlive, id, None, None, None, ps), flags)
  }

  /** MqttDecode_Connect: the request and the length of the packet. */
  function DecodeConnect(b: bytes): Result<(Connect, nat)> {
    if b == [] then Err(BadArg)
    else
      match DecodeHeader(b, CONNECT)
      case Err(e) => Err(e)
      case Ok(h) =>
        var end := h.len + h.remain;
        if |b| < end then Err(OutOfBuffer)
        else if h.remain < 10 then Err(OutOfBuffer)
        else
          var v := b[h.len..h.len + 10];
          if v[..6] != ProtocolName() then Err(Malformed)
          else if FlagsRefused(v[7], v[6]) then Err(Malformed)
          else DecodeFields(b, h.len + 10, end, v[6], v[7], Get(v[8..]))
  }

  // ------------------------------------------------------------ round trip

  /** What the decoder demands beyond what the encoder does. */
  predicate Decodable(c: Connect) {
    && (V5(c) ==> AuthPaired(c.props))
    && (c.will.Some? ==> c.will.value.topic != [])
  }

  /** What a CONNECT carries over the wire: properties at level 5 only. */
  function CarriedConnect(c: Connect): Connect {
    c.(level := Level(c), props := if V5(c) then c.props else [],
       will := match c.will
         case None => None
         case Some(w) => Some(w.(props := if V5(c) then w.props else [])))
  }

  lemma FlagsOf(c: Connect)
    requires c.will.Some? ==> c.will.value.qos <= 2
    ensures var f := ConnectFlags(c);
      && f % 2 == 0 && (f / 2 % 2 == 1 <==> c.clean) && (f / 4 % 2 == 1 <==> c.will.Some?)
      && (f / 64 % 2 == 1 <==> c.password.Some?) && (f / 128 == 1 <==> c.username.Some?)
      && (c.will.Some? ==> f / 8 % 4 == c.will.value.qos && (f / 32 % 2 == 1 <==> c.will.value.retain))
      && (c.will.None? ==> f / 8 % 4 == 0 && f / 32 % 2 == 0)
  {
    var u, p, k := Bit(c.username.Some?), Bit(c.password.Some?), Bit(c.clean);
    match c.will
    case None => Digits(u, p, 0, 0, 0, k);
    case Some(w) => Digits(u, p, Bit(w.retain), w.qos, 1, k);
  }

  /** Reading the fields of a flags byte back. */
  lemma Digits(u: nat, p: nat, r: nat, q: nat, w: nat, k: nat)
    requires u < 2 && p < 2 && r < 2 && q < 4 && w < 2 && k < 2
    ensures var f := 128 * u + 64 * p + 32 * r + 8 * q + 4 * w + 2 * k;
      && f % 2 == 0 && f / 2 % 2 == k && f / 4 % 2 == w && f / 8 % 4 == q && f / 32 % 2 == r
      && f / 64 % 2 == p && f / 128 == u
  {
    var f := 128 * u + 64 * p + 32 * r + 8 * q + 4 * w + 2 * k;
    assert f / 2 == 64 * u + 32 * p + 16 * r + 4 * q + 2 * w + k;
    assert f / 4 == 32 * u + 16 * p + 8 * r + 2 * q + w;
    assert f / 8 == 16 * u + 8 * p + 4 * r + q;
    assert f / 32 == 4 * u + 2 * p + r;
    assert f / 64 == 2 * u + p;
  }

  lemma StringToOk(pre: bytes, s: bytes, post: bytes, end: nat)
    requires |s| <= MAX_FIELD && WellFormed(s) && |pre| + 2 + |s| <= end <= |pre| + 2 + |s| + |post|
    ensures DecodeStringTo(pre + Prefixed(s) + post, |pre|, end) == Ok((s, |pre| + 2 + |s|))
  {
    hide WellFormed, DecodeString, Prefixed;
    StringRoundTrip(s, post);
    assert (pre + Prefixed(s) + post)[|pre|..] == Prefixed(s) + post;
  }

  lemma DataToOk(pre: bytes, s: bytes, post: bytes, end: nat)
    requires |s| <= MAX_FIELD && |pre| + 2 + |s| <= end <= |pre| + 2 + |s| + |post|
    ensures DecodeDataTo(pre + Prefixed(s) + post, |pre|, end) == Ok((s, |pre| + 2 + |s|))
  {
    hide DecodeUInt, Prefixed;
    PrefixedSplit(s, post);
    var b := pre + Prefixed(s) + post;
    assert b[|pre|..] == Prefixed(s) + post;
    assert b[|pre| + 2..|pre| + 2 + |s|] == (Prefixed(s) + post)[2..2 + |s|];
  }

  lemma UserOk(pre: bytes, u: Option<bytes>, post: bytes, end: nat, flags: byte)
    requires flags / 128 == 1 <==> u.Some?
    requires u.Some? ==> UserRefusal(u.value).None?
    requires |pre| + |OptionBytes(u)| <= end <= |pre| + |OptionBytes(u)| + |post|
    ensures DecodeUser(pre + OptionBytes(u) + post, |pre|, end, flags) == Ok((u, |pre| + |OptionBytes(u)|))
  {
    hide WellFormed, DecodeStringTo, Prefixed;
    if u.Some? {
      StringToOk(pre, u.value, post, end);
    }
  }

  lemma PasswordOk(pre: bytes, s: Option<bytes>, post: bytes, end: nat, flags: byte)
    requires flags / 64 % 2 == 1 <==> s.Some?
    requires s.Some? ==> |s.value| <= MAX_FIELD
    requires |pre| + |OptionBytes(s)| <= end <= |pre| + |OptionBytes(s)| + |post|
    ensures DecodePassword(pre + OptionBytes(s) + post, |pre|, end, flags) == Ok((s, |pre| + |OptionBytes(s)|))
  {
    hide DecodeDataTo, Prefixed;
    if s.Some? {
      DataToOk(pre, s.value, post, end);
    }
  }

  lemma WillPaired(ps: seq<Prop>)
    requires WillProps(ps)
    ensures AuthPaired(ps)
  {
  }

  lemma WillAccepted(w: Will, level: byte)
    requires Typed(w.props) && WillRefusal(w, level).None?
    ensures |w.topic| <= MAX_FIELD && |w.payload| <= MAX_FIELD && NameValid(w.topic, level) && WellFormed(w.topic)
    ensures w.qos <= 2 && EncodeBlock(CONNECT, w.props, level >= LEVEL_5).Ok?
    ensures level >= LEVEL_5 ==> WillProps(w.props)
  {
    hide NameValid, WellFormed, EncodeBlock, WillProps;
  }

  /** The Will fields read back, unless the topic is empty. */
  lemma WillOk(pre: bytes, w: Will, post: bytes, end: nat, level: byte, flags: byte)
    requires Typed(w.props) && WillRefusal(w, level).None? && (level == LEVEL_4 || level == LEVEL_5)
    requires flags / 4 % 2 == 1 && flags / 8 % 4 == w.qos && (flags / 32 % 2 == 1 <==> w.retain)
    requires EncodeBlock(CONNECT, w.props, level == LEVEL_5).Ok?
    requires var n := |WillBytes(Some(w), level == LEVEL_5)|;
      |pre| + n <= end <= |pre| + n + |post|
    ensures var enc := WillBytes(Some(w), level == LEVEL_5);
      DecodeWill(pre + enc + post, |pre|, end, level, flags)
      == if w.topic == [] then Err(Malformed)
         else Ok((Some(w.(props := if level == LEVEL_5 then w.props else [])), |pre| + |enc|))
  {
    hide NameValid, WellFormed, EncodeBlock, DecodeBlock, DecodeStringTo, DecodeDataTo, Prefixed, WillProps, WillRefusal, Has;
    var v5 := level == LEVEL_5;
    WillAccepted(w, level);
    var block, t, d := EncodeBlock(CONNECT, w.props, v5).value, Prefixed(w.topic), Prefixed(w.payload);
    var b := pre + WillBytes(Some(w), v5) + post;
    assert b[|pre|..] == block + (t + d + post);
    BlockRoundTrip(CONNECT, w.props, v5, t + d + post);
    if v5 { WillPaired(w.props); } else { NoBlock(w.props); }
    assert b == (pre + block) + t + (d + post);
    StringToOk(pre + block, w.topic, d + post, end);
    if w.topic != [] {
      assert b == (pre + block + t) + d + post;
      DataToOk(pre + block + t, w.payload, post, end);
    }
  }

  lemma NoBlock(ps: seq<Prop>)
    requires Typed(ps)
    ensures EncodeBlock(CONNECT, ps, false).value == [] && WillProps([])
  {
  }

  lemma Accepted(c: Connect)
    requires ConnectTyped(c) && ConnectRefusal(c).None?
    ensures Level(c) == LEVEL_4 || Level(c) == LEVEL_5
    ensures Level(c) == LEVEL_4 && c.password.Some? ==> c.username.Some?
    ensures |c.clientId| <= MAX_FIELD && WellFormed(c.clientId)
    ensures c.will.Some? ==> WillRefusal(c.will.value, Level(c)).None?
    ensures c.username.Some? ==> UserRefusal(c.username.value).None?
    ensures c.password.Some? ==> |c.password.value| <= MAX_FIELD
  {
    hide NameValid, WellFormed, EncodeBlock, WillRefusal, UserRefusal;
  }

  /** The flag-gated fields read back and use up the packet. */
  lemma RestOk(pre: bytes, c: Connect, d: Connect, post: bytes)
    requires ConnectTyped(c) && ConnectRefusal(c).None? && d.level == Level(c)
    requires c.will.Some? ==> c.will.value.qos <= 2 && EncodeBlock(CONNECT, c.will.value.props, V5(c)).Ok?
    ensures var rest := WillBytes(c.will, V5(c)) + OptionBytes(c.username) + OptionBytes(c.password);
      DecodeRest(pre + rest + post, |pre|, |pre + rest|, d, ConnectFlags(c))
      == if c.will.Some? && c.will.value.topic == [] then Err(Malformed)
         else Ok((d.(will := CarriedConnect(c).will, username := c.username, password := c.password), |pre + rest|))
  {
    hide EncodeBlock, DecodeWill, DecodeUser, DecodePassword, ConnectFlags, WillBytes, OptionBytes;
    hide ConnectRefusal, Typed, WillRefusal, UserRefusal, WellFormed;
    Accepted(c);
    FlagsOf(c);
    var f := ConnectFlags(c);
    var w, u, p := WillBytes(c.will, V5(c)), OptionBytes(c.username), OptionBytes(c.password);
    var rest := w + u + p;
    var b, end := pre + rest + post, |pre + rest|;
    assert b == pre + w + (u + p + post);
    WillStage(pre, c, u + p + post, end);
    if !(c.will.Some? && c.will.value.topic == []) {
      assert b == (pre + w) + u + (p + post);
      UserOk(pre + w, c.username, p + post, end, f);
      assert b == (pre + w + u) + p + post;
      PasswordOk(pre + w + u, c.password, post, end, f);
    }
  }

  lemma WillStage(pre: bytes, c: Connect, post: bytes, end: nat)
    requires ConnectTyped(c) && ConnectRefusal(c).None?
    requires c.will.Some? ==> c.will.value.qos <= 2 && EncodeBlock(CONNECT, c.will.value.props, V5(c)).Ok?
    requires var n := |WillBytes(c.will, V5(c))|;
      |pre| + n <= end <= |pre| + n + |post|
    ensures var enc := WillBytes(c.will, V5(c));
      DecodeWill(pre + enc + post, |pre|, end, Level(c), ConnectFlags(c))
      == if c.will.Some? && c.will.value.topic == [] then Err(Malformed)
         else Ok((CarriedConnect(c).will, |pre| + |enc|))
  {
    hide EncodeBlock, ConnectFlags, ConnectRefusal, WillRefusal, UserRefusal, WellFormed, DecodeStringTo, DecodeDataTo;
    hide DecodeBlock, NameValid;
    Accepted(c);
    FlagsOf(c);
    match c.will
    case None =>
    case Some(w) => WillOk(pre, w, post, end, Level(c), ConnectFlags(c));
  }

  /** The checks on the ten-byte header pass. */
  lemma FixedOk(c: Connect)
    requires ConnectTyped(c) && (c.will.Some? ==> c.will.value.qos <= 2)
    requires Level(c) == LEVEL_4 && c.password.Some? ==> c.username.Some?
    ensures var v := ConnectFixed(c);
      && |v| == 10 && v[..6] == ProtocolName() && v[6] == Level(c) && v[7] == ConnectFlags(c)
      && Get(v[8..]) == c.keepAlive && !FlagsRefused(v[7], v[6])
  {
    hide ConnectFlags, Put, Get;
    FlagsOf(c);
    var v := ConnectFixed(c);
    assert v[8..] == Put(c.keepAlive, 2);
    Spans();
    GetPut(c.keepAlive, 2);
  }

  lemma ConnectAssembles(b: bytes, h: Header, v: bytes)
    requires DecodeHeader(b, CONNECT) == Ok(h) && h.len + h.remain <= |b| && h.remain >= 10
    requires b[h.len..h.len + 10] == v && v[..6] == ProtocolName() && !FlagsRefused(v[7], v[6])
    ensures DecodeConnect(b) == DecodeFields(b, h.len + 10, h.len + h.remain, v[6], v[7], Get(v[8..]))
  {
    hide DecodeHeader, DecodeFields, FlagsRefused, Get;
  }

  /** Properties, client identifier and the rest read back. */
  lemma FieldsOk(pre: bytes, c: Connect, post: bytes)
    requires ConnectTyped(c) && ConnectRefusal(c).None? && EncodeBlock(CONNECT, c.props, V5(c)).Ok?
    requires c.will.Some? ==> c.will.value.qos <= 2 && EncodeBlock(CONNECT, c.will.value.props, V5(c)).Ok?
    ensures var rest := WillBytes(c.will, V5(c)) + OptionBytes(c.username) + OptionBytes(c.password);
      var enc := EncodeBlock(CONNECT, c.props, V5(c)).value + Prefixed(c.clientId) + rest;
      DecodeFields(pre + enc + post, |pre|, |pre + enc|, Level(c), ConnectFlags(c), c.keepAlive)
      == if Decodable(c) then Ok((CarriedConnect(c), |pre + enc|))
         else if V5(c) && !AuthPaired(c.props) then Err(PropertyError)
         else Err(Malformed)
  {
    hide EncodeBlock, DecodeBlock, DecodeStringTo, DecodeRest, ConnectFlags, WillBytes, OptionBytes, Prefixed;
    hide ConnectRefusal, WillRefusal, UserRefusal, WellFormed, Has;
    Accepted(c);
    FlagsOf(c);
    var block, id := EncodeBlock(CONNECT, c.props, V5(c)).value, Prefixed(c.clientId);
    var rest := WillBytes(c.will, V5(c)) + OptionBytes(c.username) + OptionBytes(c.password);
    var enc := block + id + rest;
    var b, end := pre + enc + post, |pre + enc|;
    assert b[|pre|..] == block + (id + rest + post);
    BlockRoundTrip(CONNECT, c.props, V5(c), id + rest + post);
    if !V5(c) { NoBlock(c.props); }
    if V5(c) ==> AuthPaired(c.props) {
      assert b == (pre + block) + id + (rest + post);
      StringToOk(pre + block, c.clientId, rest + post, end);
      assert b == (pre + block + id) + rest + post;
      assert |pre + block + id + rest| == end;
      RestOk(pre + block + id, c,
             Connect(Level(c), c.clean, c.keepAlive, c.clientId, None, None, None, if V5(c) then c.props else []),
             post);
    }
  }

  /** Decoding an encoded CONNECT, whatever follows it, gives the request back
      with every byte consumed exactly when the Will topic is not empty and
      Authentication Data comes with a Method; otherwise it is refused. */
  lemma ConnectRoundTrip(c: Connect, room: nat, post: bytes)
    requires ConnectTyped(c) && EncodeConnect(c, room).Ok?
    ensures var b := EncodeConnect(c, room).value;
      && |b| <= room
      && DecodeConnect(b + post)
         == if Decodable(c) then Ok((CarriedConnect(c), |b|))
            else if V5(c) && !AuthPaired(c.props) then Err(PropertyError)
            else Err(Malformed)
  {
    hide ConnectRefusal, Typed, EncodeBlock, DecodeConnect, DecodeFields, DecodeHeader, ConnectFixed, WillBytes;
    hide OptionBytes, Prefixed, Vbi, FlagsRefused, ConnectFlags, Get, Decodable, CarriedConnect, AuthPaired;
    NotRefused(c);
    Accepted(c);
    var body := ConnectBody(c);
    var h := EncodeHeader(room, |body|, CONNECT, false, 0, false).value;
    var b := EncodeConnect(c, room).value;
    HeaderRoundTrip(room, |body|, CONNECT, false, 0, false, body + post);
    assert b + post == h + (body + post);
    FixedOk(c);
    var v := ConnectFixed(c);
    var block, id := EncodeBlock(CONNECT, c.props, V5(c)).value, Prefixed(c.clientId);
    var rest := WillBytes(c.will, V5(c)) + OptionBytes(c.username) + OptionBytes(c.password);
    var enc := block + id + rest;
    assert body == v + enc;
    assert b + post == (h + v) + enc + post;
    assert (b + post)[|h|..|h| + 10] == v;
    ConnectAssembles(b + post, Header(|h|, |body|, false, 0, false), v);
    FieldsOk(h + v, c, post);
  }
}
