/** MQTT UTF-8 strings (src/mqtt_packet.c, Utf8WellFormed): the recogniser
    against the encoding of section 3 of RFC 3629. */
module Utf8 {
  import opened Common

  /** A code point an MQTT string may hold: not NUL, not a surrogate. */
  predicate Scalar(c: nat) {
    1 <= c <= 0x10FFFF && !(0xD800 <= c <= 0xDFFF)
  }

  /** RFC 3629, section 3. */
  function Point(c: nat): (b: bytes)
    requires Scalar(c)
    ensures 1 <= |b| <= 4
  {
    if c < 0x80 then [c]
    else if c < 0x800 then [0xC0 + c / 0x40, 0x80 + c % 0x40]
    else if c < 0x1_0000 then [0xE0 + c / 0x1000, 0x80 + c / 0x40 % 0x40, 0x80 + c % 0x40]
    else [0xF0 + c / 0x4_0000, 0x80 + c / 0x1000 % 0x40, 0x80 + c / 0x40 % 0x40, 0x80 + c % 0x40]
  }

  predicate Scalars(cs: seq<nat>) {
    forall i :: 0 <= i < |cs| ==> Scalar(cs[i])
  }

  /** The encoding of a text. */
  function Text(cs: seq<nat>): bytes
    requires Scalars(cs)
  {
    if cs == [] then [] else Point(cs[0]) + Text(cs[1..])
  }

  ghost predicate IsText(s: bytes) {
    exists cs: seq<nat> :: Scalars(cs) && Text(cs) == s
  }

  /** (b & 0xC0) == 0x80 */
  predicate Continuation(b: byte) {
    0x80 <= b < 0xC0
  }

  /** The branches of one iteration of Utf8WellFormed: how far the cursor
      moves, or 0 for a rejection. */
  function Advance(s: bytes, i: nat): (w: nat)
    requires i < |s|
    ensures w <= 4 && i + w <= |s|
  {
    var b0 := s[i];
    if b0 == 0 then 0
    else if b0 < 0x80 then 1
    else if b0 < 0xC2 || b0 > 0xF4 then 0
    else if b0 < 0xE0 then
      if i + 1 >= |s| || !Continuation(s[i + 1]) then 0 else 2
    else if b0 < 0xF0 then
      if i + 2 >= |s| || !Continuation(s[i + 1]) || !Continuation(s[i + 2]) then 0
      else if b0 == 0xE0 && s[i + 1] < 0xA0 then 0
      else if b0 == 0xED && s[i + 1] >= 0xA0 then 0
      else 3
    else
      if i + 3 >= |s| || !Continuation(s[i + 1]) || !Continuation(s[i + 2]) || !Continuation(s[i + 3]) then 0
      else if b0 == 0xF0 && s[i + 1] < 0x90 then 0
      else if b0 == 0xF4 && s[i + 1] >= 0x90 then 0
      else 4
  }

  /** The recogniser from position i. */
  predicate WellFormedFrom(s: bytes, i: nat)
    requires i <= |s|
    decreases |s| - i
  {
    i == |s| || (Advance(s, i) > 0 && WellFormedFrom(s, i + Advance(s, i)))
  }

  predicate WellFormed(s: bytes) {
    WellFormedFrom(s, 0)
  }

  /** The code point whose encoding the cursor moves over. */
  function PointAt(s: bytes, i: nat): (c: nat)
    requires i < |s| && Advance(s, i) > 0
  {
    var w := Advance(s, i);
    if w == 1 then s[i]
    else if w == 2 then Digit(s[i], 0xC0) * 0x40 + Digit(s[i + 1], 0x80)
    else if w == 3 then Digit(s[i], 0xE0) * 0x1000 + Digit(s[i + 1], 0x80) * 0x40 + Digit(s[i + 2], 0x80)
    else
      Digit(s[i], 0xF0) * 0x4_0000 + Digit(s[i + 1], 0x80) * 0x1000 + Digit(s[i + 2], 0x80) * 0x40
      + Digit(s[i + 3], 0x80)
  }

  /** The payload bits of a byte with the given marker bits. */
  function Digit(b: int, marker: int): nat
    requires b >= marker
  {
    b - marker
  }

  /** What the cursor moves over is the encoding of a code point. */
  lemma AdvanceSound(s: bytes, i: nat)
    requires i < |s| && Advance(s, i) > 0
    ensures Scalar(PointAt(s, i)) && Point(PointAt(s, i)) == s[i..i + Advance(s, i)]
  {
    var w := Advance(s, i);
    if w == 1 {
      assert s[i..i + 1] == [s[i]];
    } else if w == 2 {
      assert s[i..i + 2] == [s[i], s[i + 1]];
      Two(s[i], s[i + 1]);
    } else if w == 3 {
      assert s[i..i + 3] == [s[i], s[i + 1], s[i + 2]];
      Three(s[i], s[i + 1], s[i + 2]);
    } else {
      assert s[i..i + 4] == [s[i], s[i + 1], s[i + 2], s[i + 3]];
      Four(s[i], s[i + 1], s[i + 2], s[i + 3]);
    }
  }

  lemma Two(a: byte, b: byte)
    requires 0xC2 <= a < 0xE0 && Continuation(b)
    ensures var c := Digit(a, 0xC0) * 0x40 + Digit(b, 0x80); Scalar(c) && Point(c) == [a, b]
  {
  }

  lemma Three(a: byte, b: byte, d: byte)
    requires 0xE0 <= a < 0xF0 && Continuation(b) && Continuation(d)
    requires (a == 0xE0 ==> b >= 0xA0) && (a == 0xED ==> b < 0xA0)
    ensures var c := Digit(a, 0xE0) * 0x1000 + Digit(b, 0x80) * 0x40 + Digit(d, 0x80);
      Scalar(c) && Point(c) == [a, b, d]
  {
    Digits3(Digit(a, 0xE0), Digit(b, 0x80), Digit(d, 0x80));
  }

  lemma Four(a: byte, b: byte, d: byte, e: byte)
    requires 0xF0 <= a <= 0xF4 && Continuation(b) && Continuation(d) && Continuation(e)
    requires (a == 0xF0 ==> b >= 0x90) && (a == 0xF4 ==> b < 0x90)
    ensures var c := Digit(a, 0xF0) * 0x4_0000 + Digit(b, 0x80) * 0x1000 + Digit(d, 0x80) * 0x40 + Digit(e, 0x80);
      Scalar(c) && Point(c) == [a, b, d, e]
  {
    Digits4(Digit(a, 0xF0), Digit(b, 0x80), Digit(d, 0x80), Digit(e, 0x80));
  }

  lemma Digits3(a: nat, b: nat, c: nat)
    requires b < 0x40 && c < 0x40
    ensures var v := a * 0x1000 + b * 0x40 + c; v / 0x1000 == a && v / 0x40 % 0x40 == b && v % 0x40 == c
  {
    var v := a * 0x1000 + b * 0x40 + c;
    assert v / 0x40 == a * 0x40 + b;
  }

  lemma Digits4(a: nat, b: nat, c: nat, d: nat)
    requires b < 0x40 && c < 0x40 && d < 0x40
    ensures var v := a * 0x4_0000 + b * 0x1000 + c * 0x40 + d;
      v / 0x4_0000 == a && v / 0x1000 % 0x40 == b && v / 0x40 % 0x40 == c && v % 0x40 == d
  {
    var v := a * 0x4_0000 + b * 0x1000 + c * 0x40 + d;
    assert v / 0x40 == a * 0x1000 + b * 0x40 + c;
    assert v / 0x1000 == a * 0x40 + b;
  }

  /** The cursor moves over every encoded code point. */
  lemma AdvanceComplete(pre: bytes, c: nat, post: bytes)
    requires Scalar(c)
    ensures Advance(pre + Point(c) + post, |pre|) == |Point(c)|
  {
    var s, i, p := pre + Point(c) + post, |pre|, Point(c);
    assert forall k :: 0 <= k < |p| ==> s[i + k] == p[k];
    assert s[i] == p[0];
    if |p| > 1 { assert s[i + 1] == p[1]; }
    if |p| > 2 { assert s[i + 2] == p[2]; }
    if |p| > 3 { assert s[i + 3] == p[3]; }
  }

  /** Accepted from i: the code points are there. */
  lemma {:induction false} Accepts(s: bytes, i: nat) returns (cs: seq<nat>)
    requires i <= |s| && WellFormedFrom(s, i)
    ensures Scalars(cs) && Text(cs) == s[i..]
    decreases |s| - i
  {
    if i == |s| {
      cs := [];
    } else {
      AdvanceSound(s, i);
      var n := i + Advance(s, i);
      var rest := Accepts(s, n);
      cs := [PointAt(s, i)] + rest;
      assert cs[1..] == rest;
      assert s[i..] == s[i..n] + s[n..];
    }
  }

  /** A text is accepted. */
  lemma {:induction false} Recognises(pre: bytes, cs: seq<nat>)
    requires Scalars(cs)
    ensures WellFormedFrom(pre + Text(cs), |pre|)
    decreases |cs|
  {
    if cs != [] {
      var s, p := pre + Text(cs), Point(cs[0]);
      assert s == pre + p + Text(cs[1..]);
      AdvanceComplete(pre, cs[0], Text(cs[1..]));
      assert s == (pre + p) + Text(cs[1..]);
      Recognises(pre + p, cs[1..]);
    }
  }

  /** Exactly the encodings of texts without NUL and surrogates. */
  lemma WellFormedExact(s: bytes)
    ensures WellFormed(s) <==> IsText(s)
  {
    if WellFormed(s) {
      var cs := Accepts(s, 0);
    }
    if IsText(s) {
      var cs: seq<nat> :| Scalars(cs) && Text(cs) == s;
      Recognises([], cs);
      assert [] + Text(cs) == s;
    }
  }

  /** Utf8WellFormed. */
  method Utf8WellFormed(s: bytes) returns (ok: bool)
    ensures ok == WellFormed(s)
    ensures ok <==> IsText(s)
  {
    WellFormedExact(s);
    var i := 0;
    while i < |s|
      invariant i <= |s| && WellFormed(s) == WellFormedFrom(s, i)
    {
      var b0 := s[i];
      if b0 == 0 { return false; }
      if b0 < 0x80 {
        i := i + 1;
        continue;
      }
      if b0 < 0xC2 || b0 > 0xF4 { return false; }
      if b0 < 0xE0 {
        if i + 1 >= |s| { return false; }
        if !Continuation(s[i + 1]) { return false; }
        i := i + 2;
      } else if b0 < 0xF0 {
        if i + 2 >= |s| { return false; }
        var b1, b2 := s[i + 1], s[i + 2];
        if !Continuation(b1) || !Continuation(b2) { return false; }
        if b0 == 0xE0 && b1 < 0xA0 { return false; }
        if b0 == 0xED && b1 >= 0xA0 { return false; }
        i := i + 3;
      } else {
        if i + 3 >= |s| { return false; }
        var b1, b2, b3 := s[i + 1], s[i + 2], s[i + 3];
        if !Continuation(b1) || !Continuation(b2) || !Continuation(b3) { return false; }
        if b0 == 0xF0 && b1 < 0x90 { return false; }
        if b0 == 0xF4 && b1 >= 0x90 { return false; }
        i := i + 4;
      }
    }
    return true;
  }
}
