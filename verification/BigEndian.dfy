/** Big-endian integers: wmqb_w_u16/u32/u64 and their readers
    (src/mqtt_broker_persist.c), MqttEncode_Num, MqttEncode_Int and their
    decoders (src/mqtt_packet.c). */
module BigEndian {
  import opened Common

  /** Number of values that fit w bytes. */
  function Span(w: nat): (n: nat)
    ensures n > 0
  {
    if w == 0 then 1 else 256 * Span(w - 1)
  }

  /** The w low-order bytes of v, most significant first. */
  function Put(v: nat, w: nat): (b: bytes)
    ensures |b| == w
  {
    if w == 0 then [] else Put(v / 256, w - 1) + [v % 256]
  }

  function Get(b: bytes): (v: nat)
    ensures v < Span(|b|)
  {
    if b == [] then 0 else Get(b[..|b| - 1]) * 256 + b[|b| - 1]
  }

  /** Reading back what was written. */
  lemma {:induction false} GetPut(v: nat, w: nat)
    requires v < Span(w)
    ensures Get(Put(v, w)) == v
  {
    if w != 0 {
      GetPut(v / 256, w - 1);
      assert Put(v, w)[..w - 1] == Put(v / 256, w - 1);
    }
  }

  /** Writing back what was read. */
  lemma {:induction false} PutGet(b: bytes)
    ensures Put(Get(b), |b|) == b
  {
    if b != [] {
      PutGet(b[..|b| - 1]);
      assert b == b[..|b| - 1] + [b[|b| - 1]];
    }
  }

  lemma Spans()
    ensures Span(1) == 0x100 && Span(2) == 0x1_0000 && Span(4) == 0x1_0000_0000
    ensures Span(8) == 0x1_0000_0000_0000_0000
  {
    assert Span(3) == 0x100_0000 && Span(5) == 0x100_0000_0000;
    assert Span(6) == 0x1_0000_0000_0000 && Span(7) == 0x100_0000_0000_0000;
  }

  /** The big-endian field of width w at offset pos. */
  function Field(b: bytes, pos: nat, w: nat): nat
    requires pos + w <= |b|
  {
    Get(b[pos..pos + w])
  }

  /** Cutting a piece back out of a concatenation. */
  lemma Piece(a: bytes, m: bytes, c: bytes)
    ensures (a + m + c)[|a|..|a| + |m|] == m
    ensures (a + m + c)[|a| + |m|..] == c
  {
  }

  lemma FieldOf(a: bytes, v: nat, w: nat, c: bytes)
    requires v < Span(w)
    ensures Field(a + Put(v, w) + c, |a|, w) == v
  {
    Piece(a, Put(v, w), c);
    GetPut(v, w);
  }
}
