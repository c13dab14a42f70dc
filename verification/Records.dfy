/** Persisted records (src/mqtt_broker_persist.c, plaintext wrap mode): the
    12-byte header, NS_OUTQ and NS_RETAINED bodies, and the OUTQ key. */
module Records {
  import opened Common
  import opened BigEndian

  const SCHEMA: nat := 5
  const NS_RETAINED: byte := 4
  const NS_OUTQ: byte := 5
  const HDR_LEN: nat := 12
  const WRAP_PLAIN: byte := 0

  function Magic(): bytes {
    [0x57, 0x4D, 0x51, 0x42]
  }

  /** wmqb_write_header followed by the body. */
  function Frame(kind: byte, body: bytes): bytes {
    Magic() + Put(SCHEMA, 2) + [kind, WRAP_PLAIN] + Put(|body|, 4) + body
  }

  /** wmqb_read_header: the body, when every header check passes. */
  function Unframe(kind: byte, blob: bytes): Option<bytes> {
    if |blob| < HDR_LEN then None
    else if blob[..4] != Magic() || Field(blob, 4, 2) != SCHEMA then None
    else if blob[6] != kind || blob[7] != WRAP_PLAIN then None
    else
      var n := Field(blob, 8, 4);
      if n > |blob| - HDR_LEN then None else Some(blob[HDR_LEN..HDR_LEN + n])
  }

  lemma UnframeFrame(kind: byte, body: bytes)
    requires |body| < 0x1_0000_0000
    ensures Unframe(kind, Frame(kind, body)) == Some(body)
  {
    hide Put, Get, Span;
    Spans();
    var f := Frame(kind, body);
    assert f == Magic() + Put(SCHEMA, 2) + ([kind, WRAP_PLAIN] + Put(|body|, 4) + body);
    FieldOf(Magic(), SCHEMA, 2, [kind, WRAP_PLAIN] + Put(|body|, 4) + body);
    FieldOf(Magic() + Put(SCHEMA, 2) + [kind, WRAP_PLAIN], |body|, 4, body);
    assert f[..4] == Magic();
    assert f[6] == kind && f[7] == WRAP_PLAIN;
    assert f[HDR_LEN..HDR_LEN + |body|] == body;
  }

  // ------------------------------------------------------------ NS_OUTQ

  /** What is stored of a queue entry: all of it but the v5 properties. */
  datatype OutRec = OutRec(state: byte, qos: byte, retain: byte, level: byte, dup: byte,
                           pid: nat, enqTime: nat, order: nat, expiry: nat,
                           topic: bytes, payload: bytes)

  /** Field widths, and the two fields PutOutPub checks itself. */
  predicate OutRecOk(r: OutRec) {
    && r.dup <= 1 && r.pid < 0x1_0000 && r.enqTime < 0x1_0000_0000_0000_0000
    && 0 < r.order < 0x1_0000_0000_0000_0000 && r.expiry < 0x1_0000_0000
    && |r.topic| < 0x1_0000 && |r.payload| < 0x1000_0000
  }

  function OutFixed(r: OutRec): bytes {
    [r.state, r.qos, r.retain, r.level, r.dup, 0] + Put(r.pid, 2) + Put(r.enqTime, 8)
    + Put(r.order, 8) + Put(r.expiry, 4) + Put(|r.topic|, 2)
  }

  function OutBody(r: OutRec): bytes {
    OutFixed(r) + r.topic + Put(|r.payload|, 4) + r.payload
  }

  function EncodeOut(r: OutRec): bytes {
    Frame(NS_OUTQ, OutBody(r))
  }

  /** The decoding half of wmqb_decode_and_insert_outq. */
  function DecodeOut(blob: bytes): Option<OutRec> {
    match Unframe(NS_OUTQ, blob)
    case None => None
    case Some(b) =>
      if |b| < 30 || b[4] > 1 || Field(b, 16, 8) == 0 then None
      else
        var tl := Field(b, 28, 2);
        if |b| - 30 < tl + 4 then None
        else
          var pl := Field(b, 30 + tl, 4);
          if |b| - 34 - tl < pl then None
          else Some(OutRec(b[0], b[1], b[2], b[3], b[4], Field(b, 6, 2), Field(b, 8, 8),
                           Field(b, 16, 8), Field(b, 24, 4), b[30..30 + tl],
                           b[34 + tl..34 + tl + pl]))
  }

  lemma OutFields(r: OutRec)
    requires OutRecOk(r)
    ensures var b := OutBody(r);
      && |OutFixed(r)| == 30 && |b| == 34 + |r.topic| + |r.payload|
      && b[0] == r.state && b[1] == r.qos && b[2] == r.retain && b[3] == r.level && b[4] == r.dup
      && Field(b, 6, 2) == r.pid && Field(b, 8, 8) == r.enqTime && Field(b, 16, 8) == r.order
      && Field(b, 24, 4) == r.expiry && Field(b, 28, 2) == |r.topic|
  {
    hide Put, Get, Span;
    Spans();
    var h := [r.state, r.qos, r.retain, r.level, r.dup, 0];
    var tail := r.topic + Put(|r.payload|, 4) + r.payload;
    var b := OutBody(r);
    var p1 := h + Put(r.pid, 2);
    var p2 := p1 + Put(r.enqTime, 8);
    var p3 := p2 + Put(r.order, 8);
    var p4 := p3 + Put(r.expiry, 4);
    var t4 := Put(|r.topic|, 2) + tail;
    var t3 := Put(r.expiry, 4) + t4;
    var t2 := Put(r.order, 8) + t3;
    var t1 := Put(r.enqTime, 8) + t2;
    assert b == p4 + Put(|r.topic|, 2) + tail;
    assert b == p3 + Put(r.expiry, 4) + t4;
    assert b == p2 + Put(r.order, 8) + t3;
    assert b == p1 + Put(r.enqTime, 8) + t2;
    assert b == h + Put(r.pid, 2) + t1;
    FieldOf(h, r.pid, 2, t1);
    FieldOf(p1, r.enqTime, 8, t2);
    FieldOf(p2, r.order, 8, t3);
    FieldOf(p3, r.expiry, 4, t4);
    FieldOf(p4, |r.topic|, 2, tail);
  }

  /** A persisted queue entry decodes to itself. */
  lemma OutRoundTrip(r: OutRec)
    requires OutRecOk(r)
    ensures DecodeOut(EncodeOut(r)) == Some(r)
  {
    hide Put, Get, Span, OutFixed, Frame, Unframe;
    Spans();
    var b, f := OutBody(r), OutFixed(r);
    OutFields(r);
    UnframeFrame(NS_OUTQ, b);
    Piece(f, r.topic, Put(|r.payload|, 4) + r.payload);
    assert b == f + r.topic + (Put(|r.payload|, 4) + r.payload);
    FieldOf(f + r.topic, |r.payload|, 4, r.payload);
    Piece(f + r.topic, Put(|r.payload|, 4), r.payload);
    assert b[34 + |r.topic|..34 + |r.topic| + |r.payload|] == r.payload;
  }

  // ---------------------------------------------------------------- keys

  const KEY_CAP: nat := 259

  /** wmqb_outq_build_key: refused when it does not fit the key buffer. */
  function OutKey(cid: bytes, pid: nat): bytes {
    cid + [0] + Put(pid, 2)
  }

  predicate KeyFits(cid: bytes) {
    |cid| + 3 <= KEY_CAP
  }

  predicate NulFree(b: bytes) {
    forall i :: 0 <= i < |b| ==> b[i] != 0
  }

  /** The client a key belongs to, as restore reads it: everything before the
      separator three bytes from the end. */
  function KeyOwner(key: bytes): Option<bytes> {
    if |key| < 3 || key[|key| - 3] != 0 then None else Some(key[..|key| - 3])
  }

  /** The prefix test of wmqb_delq_iter_cb. */
  predicate DelMatches(cid: bytes, key: bytes) {
    |key| >= |cid| + 1 && key[..|cid|] == cid && key[|cid|] == 0
  }

  lemma KeyOwnerOf(cid: bytes, pid: nat)
    ensures KeyOwner(OutKey(cid, pid)) == Some(cid)
  {
    var k := OutKey(cid, pid);
    assert k[|k| - 3] == 0 && k[..|k| - 3] == cid;
  }

  /** The key codec is injective. */
  lemma KeyInjective(cid: bytes, pid: nat, cid': bytes, pid': nat)
    requires pid < 0x1_0000 && pid' < 0x1_0000
    requires OutKey(cid, pid) == OutKey(cid', pid')
    ensures cid == cid' && pid == pid'
  {
    Spans();
    KeyOwnerOf(cid, pid);
    KeyOwnerOf(cid', pid');
    var k := OutKey(cid, pid);
    assert k[|k| - 2..] == Put(pid, 2) && k[|k| - 2..] == Put(pid', 2);
    GetPut(pid, 2);
    GetPut(pid', 2);
  }

  /** Deleting one client's queue selects that client's keys and no other's. */
  lemma DelSelectsExactly(cid: bytes, cid': bytes, pid: nat)
    requires NulFree(cid) && NulFree(cid')
    ensures DelMatches(cid, OutKey(cid', pid)) <==> cid' == cid
  {
    var k := OutKey(cid', pid);
    assert k[|cid'|] == 0 && k[..|cid'|] == cid';
    if |cid| < |cid'| {
      assert k[|cid|] == cid'[|cid|] != 0;
    } else if |cid| > |cid'| && |k| >= |cid| {
      assert k[..|cid|][|cid'|] == 0 != cid[|cid'|];
    }
  }

  /** Without the ban on NUL the prefix test would take another client's key. */
  lemma NulWouldConfuse(pid: nat)
    requires pid < 0x1_0000
    ensures DelMatches([0x61], OutKey([0x61, 0, 0x62], pid)) && [0x61] != [0x61, 0, 0x62]
  {
    var k := OutKey([0x61, 0, 0x62], pid);
    assert k[..1] == [0x61] && k[1] == 0;
  }

  // --------------------------------------------------------- NS_RETAINED

  datatype RetRec = RetRec(qos: byte, storeTime: nat, expiry: nat, topic: bytes, payload: bytes)

  predicate RetRecOk(r: RetRec) {
    && r.storeTime < 0x1_0000_0000_0000_0000 && r.expiry < 0x1_0000_0000
    && 0 < |r.topic| < 0x1_0000 && |r.payload| < 0x1000_0000
  }

  function RetBody(r: RetRec): bytes {
    [r.qos, 0] + Put(r.storeTime, 8) + Put(r.expiry, 4) + Put(|r.topic|, 2) + r.topic
    + Put(|r.payload|, 4) + r.payload
  }

  function EncodeRet(r: RetRec): bytes {
    Frame(NS_RETAINED, RetBody(r))
  }

  /** The decoding half of wmqb_decode_and_insert_retained. */
  function DecodeRet(blob: bytes): Option<RetRec> {
    match Unframe(NS_RETAINED, blob)
    case None => None
    case Some(b) =>
      if |b| < 16 then None
      else
        var tl := Field(b, 14, 2);
        if |b| - 16 < tl + 4 then None
        else
          var pl := Field(b, 16 + tl, 4);
          if |b| - 20 - tl < pl then None
          else Some(RetRec(b[0], Field(b, 2, 8), Field(b, 10, 4), b[16..16 + tl],
                           b[20 + tl..20 + tl + pl]))
  }

  lemma RetFields(r: RetRec)
    requires RetRecOk(r)
    ensures var b := RetBody(r);
      && |b| == 20 + |r.topic| + |r.payload|
      && b[0] == r.qos && Field(b, 2, 8) == r.storeTime && Field(b, 10, 4) == r.expiry
      && Field(b, 14, 2) == |r.topic|
  {
    hide Put, Get, Span;
    Spans();
    var b := RetBody(r);
    var h := [r.qos, 0];
    var t3 := r.topic + Put(|r.payload|, 4) + r.payload;
    var t2 := Put(|r.topic|, 2) + t3;
    var t1 := Put(r.expiry, 4) + t2;
    var p1 := h + Put(r.storeTime, 8);
    var p2 := p1 + Put(r.expiry, 4);
    assert b == h + Put(r.storeTime, 8) + t1;
    assert b == p1 + Put(r.expiry, 4) + t2;
    assert b == p2 + Put(|r.topic|, 2) + t3;
    FieldOf(h, r.storeTime, 8, t1);
    FieldOf(p1, r.expiry, 4, t2);
    FieldOf(p2, |r.topic|, 2, t3);
  }

  /** A persisted retained message decodes to itself. */
  lemma RetRoundTrip(r: RetRec)
    requires RetRecOk(r)
    ensures DecodeRet(EncodeRet(r)) == Some(r)
  {
    hide Put, Get, Span, Frame, Unframe;
    Spans();
    var b := RetBody(r);
    UnframeFrame(NS_RETAINED, b);
    RetFields(r);
    var p := [r.qos, 0] + Put(r.storeTime, 8) + Put(r.expiry, 4) + Put(|r.topic|, 2);
    var t := Put(|r.payload|, 4) + r.payload;
    assert b == p + r.topic + t;
    assert b == (p + r.topic) + Put(|r.payload|, 4) + r.payload;
    Piece(p, r.topic, t);
    FieldOf(p + r.topic, |r.payload|, 4, r.payload);
    Piece(p + r.topic, Put(|r.payload|, 4), r.payload);
    assert b[20 + |r.topic|..20 + |r.topic| + |r.payload|] == r.payload;
  }
}
