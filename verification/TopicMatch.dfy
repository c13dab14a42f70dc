/** Topic matching: the broker's one-pass scan (src/mqtt_broker.c,
    BrokerTopicMatch) against the level-by-level relation of section 4.7 of
    MQTT 3.1.1, for the filters the filter grammar accepts. */
module TopicMatch {
  import opened Common
  import opened TopicNames

  // ------------------------------------------------------------- reference

  /** A topic name or filter cut at its separators. */
  function Levels(s: bytes): (ls: seq<bytes>)
    ensures |ls| > 0
    decreases |s|
  {
    var k := NextSlash(s, 0);
    if k == |s| then [s] else [s[..k]] + Levels(s[k + 1..])
  }

  /** Sections 4.7.1.2 and 4.7.1.3: '#' stands for the parent and any number
      of levels below it, '+' for exactly one level. */
  predicate LevelsMatch(fs: seq<bytes>, ts: seq<bytes>) {
    if fs == [] then ts == []
    else if fs == [[HASH]] then true
    else ts != [] && (fs[0] == [PLUS] || fs[0] == ts[0]) && LevelsMatch(fs[1..], ts[1..])
  }

  /** Section 4.7.2: a filter starting with a wildcard does not match a topic
      starting with '$'. */
  predicate DollarBarred(f: bytes, t: bytes) {
    t != [] && t[0] == DOLLAR && f != [] && (f[0] == PLUS || f[0] == HASH)
  }

  predicate Matches(f: bytes, t: bytes) {
    !DollarBarred(f, t) && LevelsMatch(Levels(f), Levels(t))
  }

  /** Section 4.7.1: a wildcard stands alone in its level, '#' only in the
      last one. */
  predicate Grammar(fs: seq<bytes>) {
    forall i :: 0 <= i < |fs| ==>
      WildcardFree(fs[i]) || fs[i] == [PLUS] || (fs[i] == [HASH] && i == |fs| - 1)
  }

  // ------------------------------------------------------------------ scan

  predicate StartsWith(s: bytes, c: byte) {
    s != [] && s[0] == c
  }

  /** After the loop. */
  predicate Final(f: bytes, t: bytes) {
    if StartsWith(f, HASH) then |f| == 1
    else if f == [PLUS] && t == [] then true
    else f == [] && t == []
  }

  /** The scan from the two cursors on; f and t are what lies ahead. */
  predicate Scan(f: bytes, t: bytes)
    decreases |f|, 0
  {
    if f == [] || t == [] then Final(f, t)
    else if f[0] == HASH then |f| == 1
    else if f[0] == PLUS then Onward(f[1..], t[NextSlash(t, 0)..])
    else f[0] == t[0] && Onward(f[1..], t[1..])
  }

  /** The separator check at the end of an iteration. */
  predicate Onward(f: bytes, t: bytes)
    decreases |f|, 1
  {
    if StartsWith(f, SLASH) && StartsWith(t, SLASH) then Scan(f[1..], t[1..])
    else if StartsWith(f, SLASH) || StartsWith(t, SLASH) then f == [SLASH, HASH] && t == []
    else Scan(f, t)
  }

  /** One iteration up to the separator check. */
  lemma ScanStep(filter: bytes, f: nat, topic: bytes, t: nat)
    requires f < |filter| && t < |topic|
    ensures filter[f] == HASH ==> (Scan(filter[f..], topic[t..]) <==> f + 1 == |filter|)
    ensures filter[f] == PLUS ==>
      (Scan(filter[f..], topic[t..]) <==> Onward(filter[f + 1..], topic[NextSlash(topic, t)..]))
    ensures filter[f] != HASH && filter[f] != PLUS ==>
      (Scan(filter[f..], topic[t..]) <==> filter[f] == topic[t] && Onward(filter[f + 1..], topic[t + 1..]))
  {
    var fs, ts := filter[f..], topic[t..];
    assert fs[1..] == filter[f + 1..] && ts[1..] == topic[t + 1..];
    NextSlashSuffix(topic, t);
    assert ts[NextSlash(ts, 0)..] == topic[NextSlash(topic, t)..];
  }

  /** The separator check. */
  lemma OnwardStep(filter: bytes, f: nat, topic: bytes, t: nat)
    requires f <= |filter| && t <= |topic|
    ensures var sf, st := f < |filter| && filter[f] == SLASH, t < |topic| && topic[t] == SLASH;
      Onward(filter[f..], topic[t..]) <==>
        if sf && st then Scan(filter[f + 1..], topic[t + 1..])
        else if sf || st then sf && f + 2 == |filter| && filter[f + 1] == HASH && t == |topic|
        else Scan(filter[f..], topic[t..])
  {
    hide Scan;
    var fs, ts := filter[f..], topic[t..];
    if f < |filter| { assert fs[1..] == filter[f + 1..] && fs[0] == filter[f]; }
    if t < |topic| { assert ts[1..] == topic[t + 1..] && ts[0] == topic[t]; }
    assert fs == [SLASH, HASH] <==> f + 2 == |filter| && filter[f] == SLASH && filter[f + 1] == HASH;
  }

  lemma FinalStep(filter: bytes, f: nat, topic: bytes, t: nat)
    requires f <= |filter| && t <= |topic| && (f == |filter| || t == |topic|)
    ensures Scan(filter[f..], topic[t..]) <==>
      if f < |filter| && filter[f] == HASH then f + 1 == |filter|
      else if f < |filter| && filter[f] == PLUS && f + 1 == |filter| && t == |topic| then true
      else f == |filter| && t == |topic|
  {
    var fs := filter[f..];
    assert fs == [PLUS] <==> f + 1 == |filter| && filter[f] == PLUS;
  }

  /** BrokerTopicMatch. */
  method BrokerTopicMatch(filter: bytes, topic: bytes) returns (r: bool)
    ensures r == (!DollarBarred(filter, topic) && Scan(filter, topic))
  {
    hide Scan, Onward;
    if StartsWith(topic, DOLLAR) && (StartsWith(filter, PLUS) || StartsWith(filter, HASH)) { return false; }
    var f, t := 0, 0;
    assert filter[0..] == filter && topic[0..] == topic;
    while f < |filter| && t < |topic|
      invariant f <= |filter| && t <= |topic|
      invariant Scan(filter, topic) == Scan(filter[f..], topic[t..])
      decreases |filter| - f
    {
      ScanStep(filter, f, topic, t);
      if filter[f] == HASH { return f + 1 == |filter|; }
      if filter[f] == PLUS {
        ghost var t0 := t;
        while t < |topic| && topic[t] != SLASH
          invariant t0 <= t <= |topic| && NextSlash(topic, t0) == NextSlash(topic, t)
        {
          t := t + 1;
        }
        f := f + 1;
      } else {
        if filter[f] != topic[t] { return false; }
        f, t := f + 1, t + 1;
      }
      OnwardStep(filter, f, topic, t);
      var slashF, slashT := f < |filter| && filter[f] == SLASH, t < |topic| && topic[t] == SLASH;
      if slashF && slashT {
        f, t := f + 1, t + 1;
      } else if slashF || slashT {
        return slashF && f + 2 == |filter| && filter[f + 1] == HASH && t == |topic|;
      }
    }
    FinalStep(filter, f, topic, t);
    if f < |filter| && filter[f] == HASH { return f + 1 == |filter|; }
    if f < |filter| && filter[f] == PLUS && f + 1 == |filter| && t == |topic| { return true; }
    return f == |filter| && t == |topic|;
  }

  lemma {:induction false} NextSlashSuffix(s: bytes, i: nat)
    requires i <= |s|
    ensures NextSlash(s[i..], 0) + i == NextSlash(s, i)
  {
    var k, r := NextSlash(s, i), s[i..];
    assert forall j :: i <= j < |s| ==> r[j - i] == s[j];
    NextSlashIs(r, k - i);
  }

  lemma NextSlashIs(s: bytes, k: nat)
    requires k <= |s| && (k < |s| ==> s[k] == SLASH)
    requires forall j :: 0 <= j < k ==> s[j] != SLASH
    ensures NextSlash(s, 0) == k
  {
    var m := NextSlash(s, 0);
    assert !(m < k) && !(k < m);
  }

  // -------------------------------------------------- filters, level by level

  lemma PlacedSuffix(f: bytes, n: nat)
    requires Placed(f, 0) && 0 < n <= |f| && f[n - 1] == SLASH
    ensures Placed(f[n..], 0)
  {
    var g := f[n..];
    forall i | 0 <= i < |g| ensures WildcardPlaced(g, i) {
      assert g[i] == f[n + i] && WildcardPlaced(f, n + i);
      assert i > 0 ==> g[i - 1] == f[n + i - 1];
      assert i + 1 < |g| ==> g[i + 1] == f[n + i + 1];
    }
  }

  /** The first level of an accepted filter. */
  lemma FirstLevel(f: bytes)
    requires Placed(f, 0)
    ensures StartsWith(f, HASH) ==> f == [HASH]
    ensures StartsWith(f, PLUS) ==> NextSlash(f, 0) == 1 && f[..1] == [PLUS]
    ensures !StartsWith(f, HASH) && !StartsWith(f, PLUS) ==> WildcardFree(f[..NextSlash(f, 0)])
  {
    var k := NextSlash(f, 0);
    if f != [] {
      assert WildcardPlaced(f, 0);
    }
    forall i | 0 < i < k ensures f[i] != HASH && f[i] != PLUS {
      assert WildcardPlaced(f, i) && f[i - 1] != SLASH;
    }
    if StartsWith(f, PLUS) {
      NextSlashIs(f, 1);
    }
  }

  lemma GrammarCons(l: bytes, ls: seq<bytes>)
    requires ls != []
    ensures Grammar([l] + ls) <==> (WildcardFree(l) || l == [PLUS]) && Grammar(ls)
  {
    var all := [l] + ls;
    if Grammar(all) {
      assert all[0] == l;
      forall i | 0 <= i < |ls|
        ensures WildcardFree(ls[i]) || ls[i] == [PLUS] || (ls[i] == [HASH] && i == |ls| - 1)
      {
        assert all[i + 1] == ls[i];
      }
    }
    if (WildcardFree(l) || l == [PLUS]) && Grammar(ls) {
      forall i | 0 <= i < |all|
        ensures WildcardFree(all[i]) || all[i] == [PLUS] || (all[i] == [HASH] && i == |all| - 1)
      {
        assert i > 0 ==> all[i] == ls[i - 1];
      }
    }
  }

  /** The byte-wise placement rule is the grammar on levels. */
  lemma {:induction false} PlacedIsGrammar(f: bytes)
    ensures Placed(f, 0) <==> Grammar(Levels(f))
    decreases |f|
  {
    var k := NextSlash(f, 0);
    if k < |f| {
      var l, rest := f[..k], f[k + 1..];
      PlacedIsGrammar(rest);
      GrammarCons(l, Levels(rest));
      if Placed(f, 0) {
        PlacedSuffix(f, k + 1);
        FirstLevel(f);
        assert f != [HASH];
      }
      if (WildcardFree(l) || l == [PLUS]) && Placed(rest, 0) {
        PlacedCons(f, k);
      }
    } else {
      SingleLevel(f);
    }
  }

  lemma SingleLevel(f: bytes)
    requires NextSlash(f, 0) == |f|
    ensures Placed(f, 0) <==> Grammar([f])
  {
    assert [f][0] == f;
    if Placed(f, 0) {
      FirstLevel(f);
      assert f[..|f|] == f;
    }
    if Grammar([f]) {
      forall i | 0 <= i < |f| ensures WildcardPlaced(f, i) {}
    }
  }

  lemma PlacedCons(f: bytes, k: nat)
    requires k < |f| && f[k] == SLASH && Placed(f[k + 1..], 0)
    requires WildcardFree(f[..k]) || f[..k] == [PLUS]
    ensures Placed(f, 0)
  {
    var l, rest := f[..k], f[k + 1..];
    forall i | 0 <= i < |f| ensures WildcardPlaced(f, i) {
      if i < k {
        assert l[i] == f[i];
      } else if i > k {
        assert WildcardPlaced(rest, i - k - 1);
        assert rest[i - k - 1] == f[i];
        assert i > k + 1 ==> rest[i - k - 2] == f[i - 1];
        assert i + 1 < |f| ==> rest[i - k] == f[i + 1];
      }
    }
  }

  /** MqttPacket_TopicFilterValid_ex accepts exactly the grammar of section
      4.7.1, applied at level 5 to what follows a well-formed share name. */
  lemma FilterValidIsGrammar(f: bytes, level: byte)
    ensures !(level >= LEVEL_5 && IsShared(f)) ==> (FilterValid(f, level) <==> f != [] && Grammar(Levels(f)))
    ensures FilterValid(f, level) ==> Grammar(Levels(f))
    ensures level >= LEVEL_5 && IsShared(f) ==>
      (FilterValid(f, level) <==>
       FilterStart(f, level).Some? && Grammar(Levels(f[FilterStart(f, level).value..])))
  {
    hide Grammar, Placed, Levels, IsShared, NextSlash;
    PlacedIsGrammar(f);
    if level >= LEVEL_5 && IsShared(f) && FilterStart(f, level).Some? {
      var n := FilterStart(f, level).value;
      PlacedIsGrammar(f[n..]);
      assert f[n - 1] == SLASH;
      SharedPlaced(f, n);
      PlacedFrom(f, n);
    }
  }

  lemma PlacedFrom(f: bytes, n: nat)
    requires 0 < n <= |f| && f[n - 1] == SLASH
    ensures Placed(f, n) <==> Placed(f[n..], 0)
  {
    var g := f[n..];
    if Placed(f, n) {
      forall i | 0 <= i < |g| ensures WildcardPlaced(g, i) {
        assert g[i] == f[n + i] && WildcardPlaced(f, n + i);
        assert i > 0 ==> g[i - 1] == f[n + i - 1];
        assert i + 1 < |g| ==> g[i + 1] == f[n + i + 1];
      }
    }
    if Placed(g, 0) {
      forall i | n <= i < |f| ensures WildcardPlaced(f, i) {
        assert g[i - n] == f[i] && WildcardPlaced(g, i - n);
        assert i > n ==> g[i - n - 1] == f[i - 1];
        assert i + 1 < |f| ==> g[i - n + 1] == f[i + 1];
      }
    }
  }

  lemma SharedPlaced(f: bytes, n: nat)
    requires IsShared(f) && 7 < n - 1 < |f| && WildcardFree(f[7..n - 1]) && f[n - 1] == SLASH
    ensures Placed(f, n) ==> Placed(f, 0)
  {
    if Placed(f, n) {
      forall i | 0 <= i < |f| ensures WildcardPlaced(f, i) {
        if i < 7 {
          assert f[i] == f[..7][i];
        } else if i < n - 1 {
          assert f[i] == f[7..n - 1][i - 7];
        }
      }
    }
  }

  // ------------------------------------------------------- scanning a level

  /** What remains after a level: nothing, or a separator and more. */
  predicate AtEnd(s: bytes) {
    s == [] || s[0] == SLASH
  }

  predicate SlashFree(s: bytes) {
    forall i :: 0 <= i < |s| ==> s[i] != SLASH
  }

  /** Comparing one literal byte. */
  lemma ScanByte(x: bytes, y: bytes)
    requires x != [] && x[0] != HASH && x[0] != PLUS
    ensures Scan(x, y) <==> y != [] && x[0] == y[0] && Onward(x[1..], y[1..])
  {
  }

  lemma OnwardInside(x: bytes, y: bytes)
    requires x != [] && x[0] != SLASH
    ensures StartsWith(y, SLASH) ==> !Onward(x, y)
    ensures !StartsWith(y, SLASH) ==> (Onward(x, y) <==> Scan(x, y))
  {
  }

  lemma OnwardShort(f: bytes, y: bytes)
    requires AtEnd(f) && y != [] && y[0] != SLASH
    ensures !Onward(f, y)
  {
  }

  /** A non-empty literal level must be read in full on both sides. */
  lemma {:induction false} ScanLiteral(a: bytes, f: bytes, b: bytes, t: bytes)
    requires a != [] && SlashFree(a) && WildcardFree(a) && SlashFree(b) && AtEnd(f) && AtEnd(t)
    ensures Scan(a + f, b + t) <==> a == b && Onward(f, t)
    decreases |a|
  {
    hide Scan, Onward;
    var x, y := a + f, b + t;
    ScanByte(x, y);
    if b == [] {
      assert y == t;
    } else if a[0] == b[0] {
      var a', b' := a[1..], b[1..];
      assert x[1..] == a' + f && y[1..] == b' + t;
      assert a == [a[0]] + a' && b == [b[0]] + b';
      assert a == b <==> a' == b';
      if a' == [] {
        assert a' + f == f;
        if b' == [] {
          assert b' + t == t;
        } else {
          OnwardShort(f, b' + t);
        }
      } else {
        OnwardInside(a' + f, b' + t);
        ScanLiteral(a', f, b', t);
        if b' == [] {
          ScanByte(a' + f, b' + t);
        }
      }
    }
  }

  /** A '+' level takes whatever the topic has there. */
  lemma {:induction false} ScanPlus(f: bytes, b: bytes, t: bytes)
    requires SlashFree(b) && AtEnd(f) && AtEnd(t)
    ensures Scan([PLUS] + f, b + t) <==> if b + t == [] then f == [] else Onward(f, t)
  {
    hide Onward;
    var x, y := [PLUS] + f, b + t;
    assert x[1..] == f;
    if y != [] {
      NextSlashIs(y, |b|);
      assert y[|b|..] == t;
    }
  }

  /** Where a string's first level ends. */
  lemma Cut(s: bytes)
    ensures var k := NextSlash(s, 0);
      s == s[..k] + s[k..] && SlashFree(s[..k]) && AtEnd(s[k..])
  {
  }

  lemma {:induction false} LevelsCut(s: bytes)
    ensures var k := NextSlash(s, 0);
      Levels(s) == if k == |s| then [s] else [s[..k]] + Levels(s[k + 1..])
  {
  }

  lemma MatchCons(a: bytes, fs: seq<bytes>, b: bytes, ts: seq<bytes>)
    requires [a] + fs != [[HASH]]
    ensures LevelsMatch([a] + fs, [b] + ts) <==> (a == [PLUS] || a == b) && LevelsMatch(fs, ts)
  {
    assert ([a] + fs)[1..] == fs && ([b] + ts)[1..] == ts;
  }

  /** What may follow a matched level on the two sides. */
  predicate RestMatches(f: bytes, t: bytes)
    requires AtEnd(f) && AtEnd(t)
  {
    if f == [] then t == []
    else if t == [] then f[1..] == [HASH]
    else LevelsMatch(Levels(f[1..]), Levels(t[1..]))
  }

  /** The levels after the first. */
  function Below(s: bytes): seq<bytes> {
    var k := NextSlash(s, 0);
    if k == |s| then [] else Levels(s[k + 1..])
  }

  lemma BelowFirst(s: bytes)
    ensures Levels(s) == [s[..NextSlash(s, 0)]] + Below(s)
  {
    LevelsCut(s);
    assert s[..|s|] == s;
  }

  lemma RestIsBelow(f: bytes, t: bytes)
    ensures AtEnd(f[NextSlash(f, 0)..]) && AtEnd(t[NextSlash(t, 0)..])
    ensures RestMatches(f[NextSlash(f, 0)..], t[NextSlash(t, 0)..]) <==> LevelsMatch(Below(f), Below(t))
  {
    hide Levels, LevelsMatch;
    var k, j := NextSlash(f, 0), NextSlash(t, 0);
    NoneLeft(Below(t));
    if k < |f| {
      OnlyHash(f[k + 1..]);
      assert f[k..][1..] == f[k + 1..];
    }
    if j < |t| {
      assert t[j..][1..] == t[j + 1..];
    }
  }

  lemma NotHash(f: bytes)
    requires Placed(f, 0) && f != [HASH]
    ensures f[..NextSlash(f, 0)] != [HASH]
  {
    FirstLevel(f);
    assert f != [] ==> NextSlash(f, 0) > 0 ==> f[..NextSlash(f, 0)][0] == f[0];
  }

  /** Two levels that agree, then the rest. */
  lemma LevelsMatchCut(f: bytes, t: bytes)
    requires Placed(f, 0) && f != [HASH]
    ensures var k, j := NextSlash(f, 0), NextSlash(t, 0);
      AtEnd(f[k..]) && AtEnd(t[j..]) &&
      (LevelsMatch(Levels(f), Levels(t)) <==> (f[..k] == [PLUS] || f[..k] == t[..j]) && RestMatches(f[k..], t[j..]))
  {
    hide Levels, LevelsMatch, Placed, RestMatches, Below;
    var k, j := NextSlash(f, 0), NextSlash(t, 0);
    BelowFirst(f);
    BelowFirst(t);
    NotHash(f);
    assert ([f[..k]] + Below(f))[0] == f[..k];
    MatchCons(f[..k], Below(f), t[..j], Below(t));
    RestIsBelow(f, t);
  }

  lemma NoneLeft(ts: seq<bytes>)
    ensures LevelsMatch([], ts) <==> ts == []
  {
  }

  lemma OnlyHash(f: bytes)
    ensures Levels(f) == [[HASH]] <==> f == [HASH]
    ensures LevelsMatch(Levels(f), []) <==> f == [HASH]
  {
    if f == [HASH] {
      NextSlashIs(f, 1);
    }
  }

  // -------------------------------------------------------------- soundness

  /** A match by the scan is a match by levels, for every topic. */
  lemma {:induction false} ScanSound(f: bytes, t: bytes)
    requires Placed(f, 0) && Scan(f, t)
    ensures LevelsMatch(Levels(f), Levels(t))
    decreases |f|, 1
  {
    hide Levels, LevelsMatch, Placed, Scan, Onward, RestMatches, WildcardFree, SlashFree;
    FirstLevel(f);
    Cut(f);
    Cut(t);
    var k, j := NextSlash(f, 0), NextSlash(t, 0);
    if f == [HASH] {
      HashMatches(t);
    } else {
      LevelsMatchCut(f, t);
      PlacedRest(f);
      if StartsWith(f, PLUS) {
        ScanPlus(f[1..], t[..j], t[j..]);
        assert f == [PLUS] + f[1..];
        if t != [] { OnwardSound(f[1..], t[j..]); } else { RestNone(); }
      } else if k > 0 {
        ScanLiteral(f[..k], f[k..], t[..j], t[j..]);
        OnwardSound(f[k..], t[j..]);
      } else {
        EmptyLevelSound(f, t);
      }
    }
  }

  lemma HashMatches(t: bytes)
    ensures LevelsMatch(Levels([HASH]), Levels(t)) && Scan([HASH], t)
  {
    OnlyHash([HASH]);
  }

  lemma RestNone()
    ensures RestMatches([], [])
  {
  }

  lemma PlacedRest(f: bytes)
    requires Placed(f, 0)
    ensures var r := f[NextSlash(f, 0)..];
      AtEnd(r) && (r != [] ==> Placed(r[1..], 0))
  {
    var k := NextSlash(f, 0);
    if k < |f| {
      PlacedSuffix(f, k + 1);
      assert f[k..][1..] == f[k + 1..];
    }
  }

  lemma OnwardSound(f: bytes, t: bytes)
    requires AtEnd(f) && AtEnd(t) && Onward(f, t) && (f != [] ==> Placed(f[1..], 0))
    ensures RestMatches(f, t)
    decreases |f|, 0
  {
    hide Levels, LevelsMatch, Placed, Scan;
    if f != [] && t != [] {
      ScanSound(f[1..], t[1..]);
    } else if f == [] && t == [] {
    } else {
      assert f == [SLASH, HASH] ==> f[1..] == [HASH];
    }
  }

  lemma ScanSlash(f: bytes, t: bytes)
    requires StartsWith(f, SLASH)
    ensures Scan(f, t) <==> StartsWith(t, SLASH) && Onward(f[1..], t[1..])
  {
  }

  lemma ScanNone(t: bytes)
    ensures Scan([], t) <==> t == []
  {
  }

  /** An empty level: the scan reads its separator as a literal. */
  lemma EmptyLevelSound(f: bytes, t: bytes)
    requires AtEnd(f) && Placed(f, 0) && Scan(f, t)
    ensures AtEnd(t) && RestMatches(f, t)
    decreases |f|, 0
  {
    hide Levels, LevelsMatch, Placed, Scan;
    if f == [] {
      ScanNone(t);
    } else {
      ScanSlash(f, t);
      var f', t' := f[1..], t[1..];
      PlacedSuffix(f, 1);
      if StartsWith(f', SLASH) || StartsWith(t', SLASH) {
        assert AtEnd(f') && AtEnd(t');
        if f' != [] { PlacedSuffix(f', 1); }
        OnwardSound(f', t');
        NextSlashIs(f', 0);
        NextSlashIs(t', 0);
        LevelsMatchCut(f', t');
        assert f'[0..] == f' && t'[0..] == t';
      } else {
        ScanSound(f', t');
      }
    }
  }

  // ----------------------------------------------------------- completeness

  /** Topics the scan judges exactly: the last level is not empty, and no two
      adjacent levels are both empty. */
  predicate Exact(t: bytes) {
    && t != [] && t[|t| - 1] != SLASH
    && !(|t| >= 2 && t[0] == SLASH && t[1] == SLASH)
    && (forall i :: 0 <= i < |t| - 2 ==> !(t[i] == SLASH && t[i + 1] == SLASH && t[i + 2] == SLASH))
  }

  lemma ExactSuffix(t: bytes, j: nat)
    requires Exact(t) && j < |t| && t[j] == SLASH && (j > 0 ==> t[j - 1] != SLASH)
    ensures Exact(t[j + 1..])
  {
    var r := t[j + 1..];
    assert forall i :: 0 <= i < |r| ==> r[i] == t[j + 1 + i];
    assert |r| > 0 && r[|r| - 1] == t[|t| - 1];
    assert |r| >= 2 ==> r[0] == t[j + 1] && r[1] == t[j + 2];
    assert |r| >= 2 ==> !(t[j] == SLASH && t[j + 1] == SLASH && t[j + 2] == SLASH);
    forall i | 0 <= i < |r| - 2 ensures !(r[i] == SLASH && r[i + 1] == SLASH && r[i + 2] == SLASH) {
      assert !(t[j + 1 + i] == SLASH && t[j + 1 + i + 1] == SLASH && t[j + 1 + i + 2] == SLASH);
    }
  }

  lemma ExactRest(t: bytes)
    requires Exact(t)
    ensures var r := t[NextSlash(t, 0)..];
      AtEnd(r) && (r != [] ==> Exact(r[1..]))
  {
    var j := NextSlash(t, 0);
    if j < |t| {
      ExactSuffix(t, j);
      assert t[j..][1..] == t[j + 1..];
    }
  }

  lemma {:induction false} ScanComplete(f: bytes, t: bytes)
    requires Placed(f, 0) && Exact(t) && LevelsMatch(Levels(f), Levels(t))
    ensures Scan(f, t)
    decreases |f|, 1
  {
    hide Levels, LevelsMatch, Placed, Scan, Onward, RestMatches, WildcardFree, SlashFree, Exact;
    FirstLevel(f);
    Cut(f);
    Cut(t);
    var k, j := NextSlash(f, 0), NextSlash(t, 0);
    if f == [HASH] {
      HashMatches(t);
    } else {
      LevelsMatchCut(f, t);
      PlacedRest(f);
      ExactRest(t);
      ExactSome(t);
      if StartsWith(f, PLUS) {
        ScanPlus(f[1..], t[..j], t[j..]);
        assert f == [PLUS] + f[1..];
        OnwardComplete(f[1..], t[j..]);
      } else if k > 0 {
        ScanLiteral(f[..k], f[k..], t[..j], t[j..]);
        OnwardComplete(f[k..], t[j..]);
      } else {
        assert f[0..] == f && t[..j] == [] && t[0..] == t;
        EmptyLevelComplete(f, t);
      }
    }
  }

  lemma ExactSome(t: bytes)
    requires Exact(t)
    ensures t != [] && (t[0] == SLASH ==> |t| > 1 && t[1] != SLASH)
  {
  }

  lemma OnwardComplete(f: bytes, t: bytes)
    requires AtEnd(f) && AtEnd(t) && (f != [] ==> Placed(f[1..], 0)) && (t != [] ==> Exact(t[1..]))
    requires RestMatches(f, t)
    ensures Onward(f, t)
    decreases |f|, 0
  {
    hide Levels, LevelsMatch, Placed, Exact;
    if f != [] && t != [] {
      ScanComplete(f[1..], t[1..]);
    } else if f != [] {
      assert f == [SLASH] + f[1..];
    }
  }

  lemma EmptyLevelComplete(f: bytes, t: bytes)
    requires AtEnd(f) && AtEnd(t) && Placed(f, 0) && Exact(t) && RestMatches(f, t)
    ensures Scan(f, t)
    decreases |f|, 0
  {
    hide Levels, LevelsMatch, Placed, Scan, Exact;
    ExactSome(t);
    if f != [] {
      ScanSlash(f, t);
      var f', t' := f[1..], t[1..];
      PlacedSuffix(f, 1);
      ExactSuffix(t, 0);
      assert t' != [] && t'[0] != SLASH;
      if StartsWith(f', SLASH) {
        EmptyAgainstSome(f', t');
      } else {
        ScanComplete(f', t');
      }
    }
  }

  /** An empty filter level does not match a non-empty topic level. */
  lemma EmptyAgainstSome(f: bytes, t: bytes)
    requires StartsWith(f, SLASH) && Placed(f, 0) && t != [] && t[0] != SLASH
    ensures !LevelsMatch(Levels(f), Levels(t))
  {
    hide Levels, LevelsMatch, Placed;
    NextSlashIs(f, 0);
    LevelsMatchCut(f, t);
    var j := NextSlash(t, 0);
    assert j > 0 && |t[..j]| == j;
  }

  // --------------------------------------------------- exactly those topics

  lemma {:induction false} LiteralMatches(s: bytes)
    requires WildcardFree(s)
    ensures LevelsMatch(Levels(s), Levels(s)) && Placed(s, 0)
    decreases |s|
  {
    var k := NextSlash(s, 0);
    assert Placed(s, 0);
    if k < |s| {
      LiteralMatches(s[k + 1..]);
    }
    LevelsMatchCut(s, s);
    assert k < |s| ==> s[k..][1..] == s[k + 1..];
  }

  /** A filter that the standard matches and the scan does not, for every
      topic outside Exact. */
  lemma {:induction false} Miss(t: bytes) returns (f: bytes)
    requires WildcardFree(t) && !Exact(t)
    ensures f != [] && Placed(f, 0) && LevelsMatch(Levels(f), Levels(t)) && !Scan(f, t)
    ensures t == [] ==> f[0] == PLUS
    ensures t != [] ==> f[0] == t[0]
    ensures IsShared(f) ==> IsShared(t)
    decreases |t|
  {
    hide Levels, LevelsMatch, Placed, Scan, Exact, IsShared, WildcardFree;
    var j := NextSlash(t, 0);
    ExactDefined(t);
    if t == [] {
      f := [PLUS, SLASH, HASH];
      MissEmpty();
      NotShared(f);
    } else if j == 0 && |t| > 1 && t[1] == SLASH {
      f := [SLASH, PLUS] + t[1..];
      MissDouble(t);
      NotShared(f);
    } else {
      var t' := t[j + 1..];
      WildcardFreeRest(t, j + 1);
      NotExactSuffix(t, j);
      var f' := Miss(t');
      f := t[..j] + [SLASH] + f';
      MissCons(t, j, f');
      SharedPrefix(t, j, f');
    }
  }

  /** A topic of a single level is exact. */
  lemma ExactDefined(t: bytes)
    ensures !Exact(t) && t != [] ==> NextSlash(t, 0) < |t|
  {
    var j := NextSlash(t, 0);
    if t != [] && j == |t| {
      assert forall i :: 0 <= i < |t| ==> t[i] != SLASH;
    }
  }

  lemma WildcardFreeRest(t: bytes, n: nat)
    requires WildcardFree(t) && n <= |t|
    ensures WildcardFree(t[n..])
  {
  }

  lemma NotShared(f: bytes)
    requires f != [] && f[0] != DOLLAR
    ensures !IsShared(f)
  {
    assert |f| >= 7 ==> f[..7][0] == f[0];
  }

  /** Filters and topics that agree up to the first slash are shared alike. */
  lemma SharedPrefix(t: bytes, j: nat, f': bytes)
    requires j < |t| && t[j] == SLASH && forall i :: 0 <= i < j ==> t[i] != SLASH
    ensures IsShared(t[..j] + [SLASH] + f') ==> IsShared(t)
  {
    var f := t[..j] + [SLASH] + f';
    if IsShared(f) {
      assert f[..7][6] == SLASH && forall i :: 0 <= i < 6 ==> f[..7][i] == f[i] != SLASH;
      assert f[j] == SLASH;
      assert f[..7] == t[..7];
    }
  }

  lemma MissEmpty()
    ensures var f: bytes := [PLUS, SLASH, HASH];
      Placed(f, 0) && LevelsMatch(Levels(f), Levels([])) && !Scan(f, [])
  {
    hide Levels, LevelsMatch;
    var f: bytes := [PLUS, SLASH, HASH];
    assert Placed(f, 0) by {
      forall i | 0 <= i < |f| ensures WildcardPlaced(f, i) {}
    }
    NextSlashIs(f, 1);
    NextSlashIs([], 0);
    LevelsMatchCut(f, []);
    assert f[..1] == [PLUS] && f[1..][1..] == [HASH];
  }

  lemma MissDouble(t: bytes)
    requires WildcardFree(t) && |t| > 1 && t[0] == SLASH && t[1] == SLASH
    ensures var f := [SLASH, PLUS] + t[1..];
      Placed(f, 0) && LevelsMatch(Levels(f), Levels(t)) && !Scan(f, t)
  {
    hide Levels, LevelsMatch;
    var f := [SLASH, PLUS] + t[1..];
    var f1, t1 := f[1..], t[1..];
    assert f1[0] == PLUS && f1[1] == SLASH;
    assert Placed(f, 0) by {
      assert forall i :: 2 <= i < |f| ==> f[i] == t[i - 1];
      forall i | 0 <= i < |f| ensures WildcardPlaced(f, i) {}
    }
    hide Placed;
    PlacedSuffix(f, 1);
    assert f1[1..] == t1;
    LiteralMatches(t1[1..]);
    NextSlashIs(f1, 1);
    NextSlashIs(t1, 0);
    assert f1[..1] == [PLUS];
    LevelsMatchCut(f1, t1);
    assert t1[0..] == t1;
    NextSlashIs(f, 0);
    NextSlashIs(t, 0);
    LevelsMatchCut(f, t);
    assert f[0..] == f && t[0..] == t;
    ScanSlash(f, t);
    assert !Onward(f1, t1);
  }

  lemma NotExactSuffix(t: bytes, j: nat)
    requires !Exact(t) && j == NextSlash(t, 0) < |t| && !(j == 0 && |t| > 1 && t[1] == SLASH)
    ensures !Exact(t[j + 1..])
  {
    var r := t[j + 1..];
    assert forall i :: 0 <= i < |r| ==> r[i] == t[j + 1 + i];
    if Exact(r) {
      assert t[|t| - 1] == r[|r| - 1];
      forall i | 0 <= i < |t| - 2 ensures !(t[i] == SLASH && t[i + 1] == SLASH && t[i + 2] == SLASH) {
        if i > j {
          assert !(r[i - j - 1] == SLASH && r[i - j] == SLASH && r[i - j + 1] == SLASH);
        } else if i == j {
          assert r[0] == t[i + 1] && r[1] == t[i + 2];
        }
      }
      assert Exact(t);
    }
  }

  lemma MissCons(t: bytes, j: nat, f': bytes)
    requires WildcardFree(t) && j == NextSlash(t, 0) < |t| && !(j == 0 && |t| > 1 && t[1] == SLASH)
    requires f' != [] && Placed(f', 0) && LevelsMatch(Levels(f'), Levels(t[j + 1..])) && !Scan(f', t[j + 1..])
    requires t[j + 1..] == [] ==> f'[0] == PLUS
    requires t[j + 1..] != [] ==> f'[0] == t[j + 1]
    ensures var f := t[..j] + [SLASH] + f';
      f[0] == t[0] && Placed(f, 0) && LevelsMatch(Levels(f), Levels(t)) && !Scan(f, t)
  {
    hide Levels, LevelsMatch, Placed, Scan, WildcardFree;
    var f, t' := t[..j] + [SLASH] + f', t[j + 1..];
    var l := t[..j];
    assert f == l + ([SLASH] + f') && t == l + t[j..];
    assert ([SLASH] + f')[1..] == f' && t[j..][1..] == t' && t[j..][0] == SLASH;
    assert f[j + 1..] == f' && f[..j] == l && f[j] == SLASH && f[j..] == [SLASH] + f';
    assert forall i :: 0 <= i < j ==> f[i] == t[i];
    NextSlashIs(f, j);
    LiteralPrefix(t, j);
    PlacedCons(f, j);
    LevelsMatchCut(f, t);
    assert RestMatches(f[j..], t[j..]);
    hide RestMatches;
    if j > 0 {
      assert SlashFree(l);
      ScanLiteral(l, [SLASH] + f', l, t[j..]);
    } else {
      ScanSlash(f, t);
      assert f[1..] == f' && t[1..] == t';
      assert !StartsWith(t', SLASH) && !StartsWith(f', SLASH);
    }
  }

  lemma LiteralPrefix(t: bytes, j: nat)
    requires WildcardFree(t) && j <= |t|
    ensures WildcardFree(t[..j])
  {
  }

  // ---------------------------------------------------------------- results

  /** The broker's answer. */
  predicate BrokerMatches(f: bytes, t: bytes) {
    !DollarBarred(f, t) && Scan(f, t)
  }

  lemma ValidIsPlaced(f: bytes, level: byte)
    requires FilterValid(f, level)
    ensures Placed(f, 0)
  {
    FilterValidIsGrammar(f, level);
    PlacedIsGrammar(f);
  }

  /** The broker never delivers against section 4.7. */
  lemma MatchSound(f: bytes, t: bytes, level: byte)
    requires FilterValid(f, level) && BrokerMatches(f, t)
    ensures Matches(f, t)
  {
    ValidIsPlaced(f, level);
    ScanSound(f, t);
  }

  lemma MatchComplete(f: bytes, t: bytes, level: byte)
    requires FilterValid(f, level) && Exact(t)
    ensures BrokerMatches(f, t) <==> Matches(f, t)
  {
    ValidIsPlaced(f, level);
    if Matches(f, t) { ScanComplete(f, t); }
    if BrokerMatches(f, t) { ScanSound(f, t); }
  }

  /** At every level the broker agrees with section 4.7 on all valid filters
      exactly for the topics whose last level is not empty and that have no two
      adjacent empty levels. At level 5 a topic that starts like a shared
      subscription is left aside. */
  lemma MatchExactIff(t: bytes, level: byte)
    requires WildcardFree(t) && !(level >= LEVEL_5 && IsShared(t))
    ensures (forall f: bytes :: FilterValid(f, level) ==> (BrokerMatches(f, t) <==> Matches(f, t))) <==> Exact(t)
  {
    if Exact(t) {
      forall f: bytes | FilterValid(f, level) ensures BrokerMatches(f, t) <==> Matches(f, t) {
        MatchComplete(f, t, level);
      }
    } else {
      var f := Miss(t);
      assert t != [] ==> f[0] != PLUS && f[0] != HASH;
      assert FilterValid(f, level);
      assert Matches(f, t) && !BrokerMatches(f, t);
    }
  }

  predicate NoEmptyLevel(t: bytes) {
    forall i :: 0 <= i < |Levels(t)| ==> Levels(t)[i] != []
  }

  /** In particular the topics without empty levels are judged exactly. */
  lemma {:induction false} NoEmptyLevelExact(t: bytes)
    requires NoEmptyLevel(t)
    ensures Exact(t) && t[0] != SLASH
    decreases |t|
  {
    var j := NextSlash(t, 0);
    assert Levels(t)[0] != [];
    if j < |t| {
      var r := t[j + 1..];
      assert forall i :: 0 <= i < |Levels(r)| ==> Levels(r)[i] == Levels(t)[i + 1];
      NoEmptyLevelExact(r);
      assert forall i :: 0 <= i < |r| ==> r[i] == t[j + 1 + i];
      assert r[|r| - 1] == t[|t| - 1];
      forall i | 0 <= i < |t| - 2 ensures !(t[i] == SLASH && t[i + 1] == SLASH && t[i + 2] == SLASH) {
        if i > j {
          assert !(r[i - j - 1] == SLASH && r[i - j] == SLASH && r[i - j + 1] == SLASH);
        }
      }
    }
  }
}
