/** The primitive wire fields (src/mqtt_packet.c, MqttEncode/Decode_Num, _Int,
    _String and _Data): each decoder against its encoder, both ways. */
module Fields {
  import opened Common
  import opened BigEndian
  import opened Utf8

  const MAX_FIELD: nat := 0xFFFF

  /** A two-byte length and that many bytes. */
  function Prefixed(s: bytes): (b: bytes)
    ensures |b| == 2 + |s|
  {
    Put(|s|, 2) + s
  }

  /** A w-byte integer: MqttDecode_Num for 2, MqttDecode_Int for 4. */
  function DecodeUInt(b: bytes, w: nat): (r: Result<nat>)
    ensures r.Ok? ==> w <= |b|
  {
    if |b| < w then Err(OutOfBuffer) else Ok(Get(b[..w]))
  }

  function DecodeString(b: bytes): (r: Result<bytes>)
    ensures r.Ok? ==> 2 + |r.value| <= |b|
  {
    match DecodeUInt(b, 2)
    case Err(e) => Err(e)
    case Ok(n) =>
      if n > |b| - 2 then Err(OutOfBuffer)
      else if !WellFormed(b[2..2 + n]) then Err(Malformed)
      else Ok(b[2..2 + n])
  }

  lemma UIntRoundTrip(v: nat, w: nat, post: bytes)
    requires v < Span(w)
    ensures DecodeUInt(Put(v, w) + post, w) == Ok(v)
  {
    assert (Put(v, w) + post)[..w] == Put(v, w);
    GetPut(v, w);
  }

  lemma UIntCanonical(b: bytes, w: nat)
    requires DecodeUInt(b, w).Ok?
    ensures DecodeUInt(b, w).value < Span(w) && b[..w] == Put(DecodeUInt(b, w).value, w)
  {
    PutGet(b[..w]);
  }

  lemma PrefixedSplit(s: bytes, post: bytes)
    requires |s| <= MAX_FIELD
    ensures var b := Prefixed(s) + post;
      DecodeUInt(b, 2) == Ok(|s|) && b[2..2 + |s|] == s && b[2 + |s|..] == post
  {
    hide Put, Get, Span;
    Spans();
    UIntRoundTrip(|s|, 2, s + post);
    assert Prefixed(s) + post == Put(|s|, 2) + (s + post);
  }

  lemma PrefixedCanonical(b: bytes)
    requires DecodeUInt(b, 2).Ok? && DecodeUInt(b, 2).value <= |b| - 2
    ensures var n := DecodeUInt(b, 2).value;
      n <= MAX_FIELD && b[..2 + n] == Prefixed(b[2..2 + n])
  {
    hide Put, Get, Span;
    Spans();
    UIntCanonical(b, 2);
    var n := DecodeUInt(b, 2).value;
    assert b[..2 + n] == b[..2] + b[2..2 + n];
  }

  lemma StringRoundTrip(s: bytes, post: bytes)
    requires |s| <= MAX_FIELD && WellFormed(s)
    ensures DecodeString(Prefixed(s) + post) == Ok(s)
  {
    hide WellFormed, DecodeUInt, Prefixed;
    PrefixedSplit(s, post);
  }

  lemma StringCanonical(b: bytes)
    requires DecodeString(b).Ok?
    ensures var s := DecodeString(b).value;
      |s| <= MAX_FIELD && WellFormed(s) && b[..2 + |s|] == Prefixed(s)
  {
    hide WellFormed, DecodeUInt, Prefixed;
    PrefixedCanonical(b);
  }
}
