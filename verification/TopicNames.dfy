/** Topic names and topic filters as byte strings (src/mqtt_packet.c,
    MqttPacket_TopicNameValid, MqttPacket_TopicFilterValid_ex). */
module TopicNames {
  import opened Common

  const SLASH: byte := 0x2F
  const HASH: byte := 0x23
  const PLUS: byte := 0x2B
  const DOLLAR: byte := 0x24
  const LEVEL_5: byte := 5

  predicate WildcardFree(s: bytes) {
    forall i :: 0 <= i < |s| ==> s[i] != HASH && s[i] != PLUS
  }

  /** Meaning of MqttPacket_TopicNameValid. */
  predicate NameValid(s: bytes, level: byte) {
    WildcardFree(s) && (s == [] ==> level >= LEVEL_5)
  }

  method TopicNameValid(name: bytes, level: byte) returns (ok: bool)
    ensures ok == NameValid(name, level)
  {
    for i := 0 to |name|
      invariant forall k :: 0 <= k < i ==> name[k] != HASH && name[k] != PLUS
    {
      if name[i] == HASH || name[i] == PLUS { return false; }
    }
    if |name| == 0 && level < LEVEL_5 { return false; }
    return true;
  }

  // --------------------------------------------------------------- filters

  /** "$share/" */
  function SharePrefix(): bytes {
    [DOLLAR, 0x73, 0x68, 0x61, 0x72, 0x65, SLASH]
  }

  /** MqttPacket_TopicFilterIsShared. */
  predicate IsShared(f: bytes) {
    |f| >= 7 && f[..7] == SharePrefix()
  }

  /** Index of the first '/' at or after i, or |s|. */
  function NextSlash(s: bytes, i: nat): (k: nat)
    requires i <= |s|
    ensures i <= k <= |s|
    ensures forall j :: i <= j < k ==> s[j] != SLASH
    ensures k < |s| ==> s[k] == SLASH
    decreases |s| - i
  {
    if i == |s| || s[i] == SLASH then i else NextSlash(s, i + 1)
  }

  /** The wildcard rule the filter loop applies to the byte at i. */
  predicate WildcardPlaced(f: bytes, i: nat)
    requires i < |f|
  {
    if f[i] == HASH then (i == 0 || f[i - 1] == SLASH) && i == |f| - 1
    else if f[i] == PLUS then (i == 0 || f[i - 1] == SLASH) && (i == |f| - 1 || f[i + 1] == SLASH)
    else true
  }

  predicate Placed(f: bytes, start: nat) {
    forall i :: start <= i < |f| ==> WildcardPlaced(f, i)
  }

  /** Where the generic part of a filter begins: after "$share/{ShareName}/"
      at level 5, or nothing when the share part is malformed. */
  function FilterStart(f: bytes, level: byte): (r: Option<nat>)
    ensures r.Some? ==> r.value <= |f|
  {
    if level >= LEVEL_5 && IsShared(f) then
      var e := NextSlash(f, 7);
      if WildcardFree(f[7..e]) && 7 < e < |f| - 1 then Some(e + 1) else None
    else Some(0)
  }

  predicate FilterValid(f: bytes, level: byte) {
    f != [] && FilterStart(f, level).Some? && Placed(f, FilterStart(f, level).value)
  }

  /** MqttPacket_TopicFilterValid_ex. */
  method TopicFilterValidEx(f: bytes, level: byte) returns (ok: bool)
    ensures ok == FilterValid(f, level)
  {
    if |f| == 0 { return false; }
    var start := 0;
    if level >= LEVEL_5 && |f| >= 7 && f[..7] == SharePrefix() {
      var end := 7;
      while end < |f| && f[end] != SLASH
        invariant 7 <= end <= |f|
        invariant NextSlash(f, 7) == NextSlash(f, end)
        invariant forall k :: 7 <= k < end ==> f[k] != HASH && f[k] != PLUS
      {
        if f[end] == PLUS || f[end] == HASH {
          assert f[7..NextSlash(f, 7)][end - 7] == f[end];
          return false;
        }
        end := end + 1;
      }
      if end == 7 || end >= |f| - 1 { return false; }
      start := end + 1;
    }
    assert FilterStart(f, level) == Some(start);
    for i := start to |f|
      invariant forall k :: start <= k < i ==> WildcardPlaced(f, k)
    {
      var c := f[i];
      assert FilterValid(f, level) ==> WildcardPlaced(f, i);
      if c == HASH {
        if i != 0 && f[i - 1] != SLASH { return false; }
        if i != |f| - 1 { return false; }
      } else if c == PLUS {
        if i != 0 && f[i - 1] != SLASH { return false; }
        if i != |f| - 1 && f[i + 1] != SLASH { return false; }
      }
    }
    return true;
  }
}
