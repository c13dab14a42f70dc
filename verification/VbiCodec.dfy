/** Variable Byte Integers (src/mqtt_packet.c, MqttEncode_Vbi and
    MqttDecode_Vbi; section 1.5.5 of MQTT 5.0). */
module VbiCodec {
  import opened Common

  const MAX_REMAIN: nat := 0x0FFF_FFFF

  /** Least significant group first, seven bits a byte, top bit set on every
      byte but the last. */
  function Vbi(x: nat): (b: bytes)
    ensures |b| > 0
  {
    if x < 128 then [x] else [x % 128 + 128] + Vbi(x / 128)
  }

  /** What MqttDecode_Vbi finds at b[rc..] after rc continuation bytes: the
      value those bytes contribute and the length of the whole field. */
  function DecodeAt(b: bytes, rc: nat): (r: Result<(nat, nat)>)
    requires rc <= |b| && rc <= 4
    ensures r.Ok? ==> rc < r.value.1 <= |b| && r.value.1 <= 4
    decreases 4 - rc
  {
    if |b| < rc + 1 then Err(OutOfBuffer)
    else if rc >= 4 then Err(Malformed)
    else if b[rc] >= 128 then
      match DecodeAt(b, rc + 1)
      case Ok((v, n)) => Ok((b[rc] - 128 + 128 * v, n))
      case Err(e) => Err(e)
    else if rc > 0 && b[rc] == 0 then Err(Malformed)
    else Ok((b[rc], rc + 1))
  }

  function DecodeVbi(b: bytes): (r: Result<(nat, nat)>)
    ensures r.Ok? ==> 0 < r.value.1 <= |b| && r.value.1 <= 4
  {
    DecodeAt(b, 0)
  }

  /** 128 to the power of n. */
  function Pow128(n: nat): (p: nat)
    ensures p > 0
  {
    if n == 0 then 1 else 128 * Pow128(n - 1)
  }

  lemma Pows()
    ensures Pow128(1) == 128 && Pow128(2) == 0x4000 && Pow128(3) == 0x20_0000 && Pow128(4) == 0x1000_0000
  {
    assert Pow128(1) == 128 * Pow128(0);
    assert Pow128(2) == 128 * Pow128(1);
  }

  lemma {:induction false} VbiLength(x: nat, n: nat)
    requires x < Pow128(n) && n > 0
    ensures |Vbi(x)| <= n
  {
    if x >= 128 {
      VbiLength(x / 128, n - 1);
    }
  }

  lemma VbiShort(x: nat)
    requires x <= MAX_REMAIN
    ensures |Vbi(x)| <= 4
  {
    Pows();
    VbiLength(x, 4);
  }

  /** The decoder reads back an encoding, whatever follows it. */
  lemma {:induction false} DecodeAtEncoded(pre: bytes, x: nat, post: bytes)
    requires |pre| + |Vbi(x)| <= 4 && (x == 0 ==> pre == [])
    ensures DecodeAt(pre + Vbi(x) + post, |pre|) == Ok((x, |pre| + |Vbi(x)|))
    decreases x
  {
    var b := pre + Vbi(x) + post;
    assert b[|pre|] == Vbi(x)[0];
    if x >= 128 {
      var pre' := pre + [x % 128 + 128];
      assert b == pre' + Vbi(x / 128) + post;
      DecodeAtEncoded(pre', x / 128, post);
    }
  }

  lemma DecodeOfEncode(x: nat, post: bytes)
    requires x <= MAX_REMAIN
    ensures DecodeVbi(Vbi(x) + post) == Ok((x, |Vbi(x)|))
  {
    VbiShort(x);
    DecodeAtEncoded([], x, post);
    assert [] + Vbi(x) + post == Vbi(x) + post;
  }

  /** Whatever the decoder accepts is the encoding of the value it returns. */
  lemma {:induction false} AcceptedIsCanonical(b: bytes, rc: nat)
    requires rc <= |b| && rc <= 4 && DecodeAt(b, rc).Ok?
    ensures var (v, n) := DecodeAt(b, rc).value;
      && b[rc..n] == Vbi(v)
      && v < Pow128(n - rc)
      && (rc > 0 ==> v > 0)
    decreases 4 - rc
  {
    if b[rc] >= 128 {
      AcceptedIsCanonical(b, rc + 1);
      var (v', n) := DecodeAt(b, rc + 1).value;
      var v := b[rc] - 128 + 128 * v';
      assert v >= 128 && v % 128 == b[rc] - 128 && v / 128 == v';
      assert b[rc..n] == [b[rc]] + b[rc + 1..n];
      assert Pow128(n - rc) == 128 * Pow128(n - rc - 1);
    } else {
      assert b[rc..rc + 1] == [b[rc]];
      assert Pow128(1) == 128 * Pow128(0);
    }
  }

  /** The decoder accepts exactly the canonical encodings of 0..268435455. */
  lemma DecodesExactly(b: bytes, v: nat, n: nat)
    ensures DecodeVbi(b) == Ok((v, n)) <==> v <= MAX_REMAIN && n <= |b| && b[..n] == Vbi(v)
  {
    Pows();
    if DecodeVbi(b) == Ok((v, n)) {
      AcceptedIsCanonical(b, 0);
      PowMono(n, 4);
    }
    if v <= MAX_REMAIN && n <= |b| && b[..n] == Vbi(v) {
      assert b == Vbi(v) + b[n..];
      DecodeOfEncode(v, b[n..]);
    }
  }

  lemma {:induction false} PowMono(m: nat, n: nat)
    requires m <= n
    ensures Pow128(m) <= Pow128(n)
  {
    if m < n {
      PowMono(m, n - 1);
    }
  }

  /** The loop's running value and multiplier applied to what remains. */
  function Combine(r: Result<(nat, nat)>, value: nat, m: nat): Result<(nat, nat)> {
    match r
    case Ok((v, n)) => Ok((value + m * v, n))
    case Err(e) => Err(e)
  }

  lemma CombineStep(b: bytes, rc: nat, value: nat, m: nat)
    requires rc < |b| && rc < 4
    ensures b[rc] >= 128 ==>
      Combine(DecodeAt(b, rc), value, m) == Combine(DecodeAt(b, rc + 1), value + b[rc] % 128 * m, m * 128)
    ensures b[rc] < 128 ==>
      Combine(DecodeAt(b, rc), value, m)
      == if rc > 0 && b[rc] == 0 then Err(Malformed) else Ok((value + b[rc] * m, rc + 1))
  {
    if b[rc] >= 128 {
      match DecodeAt(b, rc + 1)
      case Ok((v, n)) => assert m * (b[rc] - 128 + 128 * v) == (b[rc] - 128) * m + (m * 128) * v;
      case Err(e) =>
    }
  }

  lemma CombineStops(b: bytes, rc: nat, value: nat, m: nat)
    requires rc <= |b| && rc <= 4
    ensures rc == |b| ==> Combine(DecodeAt(b, rc), value, m) == Err(OutOfBuffer)
    ensures rc < |b| && rc == 4 ==> Combine(DecodeAt(b, rc), value, m) == Err(Malformed)
    ensures rc == 0 ==> Combine(DecodeAt(b, rc), 0, 1) == DecodeVbi(b)
  {
  }

  /** MqttDecode_Vbi's loop: shifting groups into a running value. */
  method MqttDecodeVbi(buf: bytes) returns (r: Result<(nat, nat)>)
    ensures r == DecodeVbi(buf)
  {
    hide Combine, DecodeAt, DecodeVbi;
    var rc: nat, value: nat, multiplier: nat := 0, 0, 1;
    CombineStops(buf, 0, 0, 1);
    while true
      invariant rc <= |buf| && rc <= 4
      invariant DecodeVbi(buf) == Combine(DecodeAt(buf, rc), value, multiplier)
      decreases 5 - rc
    {
      CombineStops(buf, rc, value, multiplier);
      if |buf| < rc + 1 { return Err(OutOfBuffer); }
      if rc >= 4 { return Err(Malformed); }
      CombineStep(buf, rc, value, multiplier);
      var encodedByte := buf[rc];
      value := value + encodedByte % 128 * multiplier;
      multiplier := multiplier * 128;
      rc := rc + 1;
      if encodedByte < 128 {
        if rc > 1 && encodedByte == 0 { return Err(Malformed); }
        return Ok((value, rc));
      }
    }
  }

  lemma VbiStep(x: nat)
    ensures x >= 128 ==> Vbi(x) == [x % 128 + 128] + Vbi(x / 128)
    ensures x < 128 ==> Vbi(x) == [x]
  {
  }

  /** MqttEncode_Vbi's loop, writing into the buffer at pos. */
  method MqttEncodeVbi(buf: array<byte>, pos: nat, x: nat) returns (r: Result<nat>)
    requires pos + 4 <= buf.Length
    modifies buf
    ensures r == if x > MAX_REMAIN then Err(Malformed) else Ok(|Vbi(x)|)
    ensures r.Ok? ==> r.value <= 4 && buf[pos..pos + r.value] == Vbi(x)
    ensures forall k :: 0 <= k < buf.Length && !(pos <= k < pos + 4) ==> buf[k] == old(buf[k])
  {
    hide Vbi;
    if x > MAX_REMAIN { return Err(Malformed); }
    VbiShort(x);
    var rc, rest := 0, x;
    ghost var out: bytes := [];
    while true
      invariant |out| == rc && out + Vbi(rest) == Vbi(x) && |Vbi(x)| <= 4
      invariant forall k :: 0 <= k < rc ==> buf[pos + k] == out[k]
      invariant forall k :: 0 <= k < buf.Length && !(pos <= k < pos + 4) ==> buf[k] == old(buf[k])
      decreases 4 - rc
    {
      VbiStep(rest);
      assert |out| + |Vbi(rest)| == |Vbi(x)|;
      var encodedByte: byte := rest % 128;
      rest := rest / 128;
      if rest > 0 { encodedByte := encodedByte + 128; }
      buf[pos + rc] := encodedByte;
      out := out + [encodedByte];
      rc := rc + 1;
      if rest == 0 {
        assert buf[pos..pos + rc] == out;
        return Ok(rc);
      }
      assert out + Vbi(rest) == Vbi(x);
    }
  }
}
