/** Record file names (src/mqtt_broker_persist_posix.c): hex of the key. */
module FileNames {
  import opened Common
  import opened BigEndian
  import opened Records

  const DIGITS: string := "0123456789abcdef"
  const MAX_KEY: nat := 256

  function Digit(n: nat): char
    requires n < 16
  {
    DIGITS[n]
  }

  function Hex(b: bytes): (s: string)
    ensures |s| == 2 * |b|
  {
    if b == [] then [] else Hex(b[..|b| - 1]) + [Digit(b[|b| - 1] / 16), Digit(b[|b| - 1] % 16)]
  }

  function Nibble(c: char): Option<nat> {
    if '0' <= c <= '9' then Some(c as int - '0' as int)
    else if 'a' <= c <= 'f' then Some(10 + c as int - 'a' as int)
    else if 'A' <= c <= 'F' then Some(10 + c as int - 'A' as int)
    else None
  }

  /** The byte two hex characters stand for. */
  function PairValue(hi: char, lo: char): Option<byte> {
    match (Nibble(hi), Nibble(lo))
    case (Some(h), Some(l)) => (if h < 16 && l < 16 then Some(h * 16 + l) else None)
    case _ => None
  }

  function UnHex(s: string): (r: Option<bytes>)
    ensures r.Some? ==> 2 * |r.value| == |s|
  {
    if s == [] then Some([])
    else if |s| == 1 then None
    else match (UnHex(s[..|s| - 2]), PairValue(s[|s| - 2], s[|s| - 1]))
      case (Some(b), Some(x)) => Some(b + [x])
      case _ => None
  }

  lemma DigitsAreNibbles(n: nat)
    requires n < 16
    ensures Nibble(Digit(n)) == Some(n)
  {
  }

  lemma PairOfByte(x: byte)
    ensures PairValue(Digit(x / 16), Digit(x % 16)) == Some(x)
  {
    DigitsAreNibbles(x / 16);
    DigitsAreNibbles(x % 16);
  }

  lemma UnHexSnoc(s: string, hi: char, lo: char)
    requires UnHex(s).Some? && PairValue(hi, lo).Some?
    ensures UnHex(s + [hi, lo]) == Some(UnHex(s).value + [PairValue(hi, lo).value])
  {
    var t := s + [hi, lo];
    assert t[..|t| - 2] == s && t[|t| - 2] == hi && t[|t| - 1] == lo;
  }

  lemma HexSnoc(b: bytes, x: byte)
    ensures Hex(b + [x]) == Hex(b) + [Digit(x / 16), Digit(x % 16)]
  {
    assert (b + [x])[..|b|] == b;
  }

  /** Hex names decode back to the key. */
  lemma {:induction false} UnHexHex(b: bytes)
    ensures UnHex(Hex(b)) == Some(b)
  {
    if b != [] {
      hide PairValue, Digit, Hex, UnHex;
      var front, x := b[..|b| - 1], b[|b| - 1];
      UnHexHex(front);
      PairOfByte(x);
      HexSnoc(front, x);
      UnHexSnoc(Hex(front), Digit(x / 16), Digit(x % 16));
      assert b == front + [x];
    }
  }

  /** wmqb_hex_encode: fills the output buffer in place. */
  method HexEncode(out: array<char>, key: bytes)
    requires out.Length >= 2 * |key| + 1
    modifies out
    ensures out[..2 * |key|] == Hex(key) && out[2 * |key|] == '\0'
    ensures forall i :: 2 * |key| < i < out.Length ==> out[i] == old(out[i])
  {
    for i := 0 to |key|
      invariant out[..2 * i] == Hex(key[..i])
      invariant forall j :: 2 * i <= j < out.Length ==> out[j] == old(out[j])
    {
      assert key[..i + 1][..i] == key[..i];
      out[2 * i] := Digit(key[i] / 16);
      out[2 * i + 1] := Digit(key[i] % 16);
      assert out[..2 * (i + 1)] == out[..2 * i] + [out[2 * i], out[2 * i + 1]];
    }
    assert key[..|key|] == key;
    out[2 * |key|] := '\0';
  }

  lemma {:induction false} UnHexPrefix(s: string, i: nat)
    requires 2 * i <= |s| && |s| % 2 == 0 && UnHex(s[..2 * i]).None?
    ensures UnHex(s).None?
    decreases |s|
  {
    if 2 * i < |s| {
      assert s[..|s| - 2][..2 * i] == s[..2 * i];
      UnHexPrefix(s[..|s| - 2], i);
    } else {
      assert s[..2 * i] == s;
    }
  }

  /** wmqb_hex_decode: -1, or the number of bytes decoded into out. */
  method HexDecode(name: string, out: array<byte>) returns (n: int)
    modifies out
    ensures n == -1 <==> |name| > 0xFFFF || |name| / 2 > out.Length || UnHex(name).None?
    ensures n != -1 ==> 0 <= n <= out.Length && UnHex(name) == Some(out[..n])
  {
    if |name| > 0xFFFF {
      return -1;
    }
    if |name| % 2 != 0 || |name| / 2 > out.Length {
      OddHasNoValue(name);
      return -1;
    }
    var i := 0;
    while i < |name| / 2
      invariant i <= |name| / 2 <= out.Length
      invariant UnHex(name[..2 * i]) == Some(out[..i])
    {
      var v := PairValue(name[2 * i], name[2 * i + 1]);
      var upto := name[..2 * (i + 1)];
      assert upto[..2 * i] == name[..2 * i];
      if v.None? {
        UnHexPrefix(name, i + 1);
        return -1;
      }
      out[i] := v.value;
      assert out[..i + 1] == out[..i] + [v.value];
      i := i + 1;
    }
    assert name[..2 * i] == name;
    return i;
  }

  lemma {:induction false} OddHasNoValue(s: string)
    ensures |s| % 2 != 0 ==> UnHex(s).None?
  {
    if |s| > 1 {
      OddHasNoValue(s[..|s| - 2]);
    }
  }

  /** wmqb_rec_name. */
  function RecName(key: bytes): Option<string> {
    if |key| > MAX_KEY then None else Some(Hex(key) + ".bin")
  }

  /** Distinct keys never share a record file. */
  lemma NamesInjective(key: bytes, key': bytes)
    requires RecName(key).Some? && RecName(key) == RecName(key')
    ensures key == key'
  {
    var s, s' := Hex(key), Hex(key');
    assert s == (s + ".bin")[..|s + ".bin"| - 4] && s' == (s' + ".bin")[..|s' + ".bin"| - 4];
    UnHexHex(key);
    UnHexHex(key');
  }

  /** Two queue entries land in the same file only if they are the same entry
      of the same client. */
  lemma OutRecordsNeverCollide(cid: bytes, pid: nat, cid': bytes, pid': nat)
    requires pid < 0x1_0000 && pid' < 0x1_0000
    requires RecName(OutKey(cid, pid)).Some?
    requires RecName(OutKey(cid, pid)) == RecName(OutKey(cid', pid'))
    ensures cid == cid' && pid == pid'
  {
    NamesInjective(OutKey(cid, pid), OutKey(cid', pid'));
    KeyInjective(cid, pid, cid', pid');
  }
}
