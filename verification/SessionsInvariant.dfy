/** What every session transition keeps. */
module SessionsInvariant {
  import opened Common
  import opened Sessions

  // ------------------------------------------------------------- invariant

  const NOBODY: int := -1

  /** The client object with the given reference. */
  function Lookup(cs: seq<Client>, r: nat): Option<Client> {
    var k := ClientAt(cs, r);
    if k < |cs| then Some(cs[k]) else None
  }

  predicate HasOrphan(os: seq<Orphan>, id: bytes) {
    OrphanNamed(os, id) < |os|
  }

  /** The client holds a session, unless it is the one still connecting. */
  predicate Active(c: Client, skip: int) {
    c.established && c.ref != skip
  }

  ghost predicate Refs(cs: seq<Client>) {
    forall i, j :: 0 <= i < j < |cs| ==> cs[i].ref != cs[j].ref
  }

  /** A connection before its CONNECT owns nothing. */
  ghost predicate ClientOk(c: Client) {
    && (!c.established ==> c.id == [] && c.q2 == [] && c.q2Count == 0)
    && (c.established ==> c.id != [])
    && (c.established && !c.v5 ==> (c.expiry != 0 <==> !c.clean))
  }

  /** A session has one holder: a connected client or an orphan. */
  ghost predicate Holders(cs: seq<Client>, os: seq<Orphan>, skip: int) {
    && Refs(cs)
    && (forall i :: 0 <= i < |cs| ==> ClientOk(cs[i]))
    && (forall i, j :: 0 <= i < j < |cs| && Active(cs[i], skip) && Active(cs[j], skip) ==> cs[i].id != cs[j].id)
    && (forall i, j :: 0 <= i < j < |os| ==> os[i].id != os[j].id)
    && (forall j :: 0 <= j < |os| ==> os[j].id != [] && os[j].expiry != 0)
    && (forall i, j :: 0 <= i < |cs| && 0 <= j < |os| && Active(cs[i], skip) ==> cs[i].id != os[j].id)
  }

  /** A subscription belongs to its session's holder. */
  predicate SubOk(cs: seq<Client>, os: seq<Orphan>, s: Sub, skip: int) {
    match s.owner
    case None => HasOrphan(os, s.id)
    case Some(r) => Lookup(cs, r).Some? && Active(Lookup(cs, r).value, skip) && Lookup(cs, r).value.id == s.id
  }

  ghost predicate SubsOk(cs: seq<Client>, os: seq<Orphan>, subs: seq<Sub>, skip: int) {
    forall i :: 0 <= i < |subs| ==> SubOk(cs, os, subs[i], skip)
  }

  ghost predicate Counted(cs: seq<Client>, subs: seq<Sub>) {
    forall k :: 0 <= k < |cs| ==> cs[k].subCount == Count(subs, Owned(cs[k].ref))
  }

  ghost predicate Capped(subs: seq<Sub>, cap: nat) {
    forall id: bytes :: Count(subs, Named(id)) <= cap
  }

  /** One subscription per filter and session. */
  ghost predicate Distinct(subs: seq<Sub>) {
    forall i, j :: 0 <= i < j < |subs| ==> !(subs[i].id == subs[j].id && subs[i].filter == subs[j].filter)
  }

  ghost predicate Pending(q2: seq<nat>, n: int, cap: nat) {
    n == |q2| <= cap && (forall i, j :: 0 <= i < j < |q2| ==> q2[i] != q2[j])
  }

  ghost predicate Pendings(cs: seq<Client>, os: seq<Orphan>, cap: nat) {
    && (forall k :: 0 <= k < |cs| ==> Pending(cs[k].q2, cs[k].q2Count, cap))
    && (forall j :: 0 <= j < |os| ==> Pending(os[j].q2, os[j].q2Count, cap))
  }

  /** Packet identifiers fanned out in a session and not released since. */
  function Open(log: seq<Mark>, sid: nat): set<nat> {
    if log == [] then {}
    else
      var m, before := log[|log| - 1], Open(log[..|log| - 1], sid);
      if m.sid != sid then before else if m.Fan? then before + {m.pid} else before - {m.pid}
  }

  ghost predicate LogOk(log: seq<Mark>) {
    forall i :: 0 <= i < |log| && log[i].Fan? ==> log[i].pid !in Open(log[..i], log[i].sid)
  }

  function Elements(q: seq<nat>): set<nat> {
    set x | x in q
  }

  /** The pending set of a session is what its history says is open. */
  ghost predicate History(cs: seq<Client>, os: seq<Orphan>, log: seq<Mark>, next: nat) {
    && (forall k :: 0 <= k < |cs| && cs[k].established ==> cs[k].sid < next && Open(log, cs[k].sid) == Elements(cs[k].q2))
    && (forall j :: 0 <= j < |os| ==> os[j].sid < next && Open(log, os[j].sid) == Elements(os[j].q2))
    && (forall n :: next <= n ==> Open(log, n) == {})
  }

  /** No two holders share a session number. */
  ghost predicate Sids(cs: seq<Client>, os: seq<Orphan>) {
    && (forall i, j :: 0 <= i < j < |cs| && cs[i].established && cs[j].established ==> cs[i].sid != cs[j].sid)
    && (forall i, j :: 0 <= i < j < |os| ==> os[i].sid != os[j].sid)
    && (forall i, j :: 0 <= i < |cs| && 0 <= j < |os| && cs[i].established ==> cs[i].sid != os[j].sid)
  }

  /** The invariant while the client `skip` is connecting: it owns nothing. */
  ghost predicate Inv(b: Broker, skip: int) {
    && CapsOk(b.caps)
    && b.orphanCount == |b.orphans| <= b.caps.orphans
    && Holders(b.clients, b.orphans, skip)
    && SubsOk(b.clients, b.orphans, b.subs, skip)
    && Counted(b.clients, b.subs)
    && Capped(b.subs, b.caps.subs)
    && Distinct(b.subs)
    && Pendings(b.clients, b.orphans, b.caps.q2)
    && History(b.clients, b.orphans, b.log, b.nextSid)
    && Sids(b.clients, b.orphans)
    && LogOk(b.log)
  }

  // ------------------------------------------------------ facts about lists

  lemma {:induction false} WithoutFrom(s: seq<Sub>, p: Sub -> bool, i: nat) returns (k: nat)
    requires i < |Without(s, p)|
    ensures i <= k < |s| && Without(s, p)[i] == s[k] && !p(s[k])
    decreases |s|
  {
    if p(s[0]) {
      var k' := WithoutFrom(s[1..], p, i);
      k := k' + 1;
    } else if i > 0 {
      var k' := WithoutFrom(s[1..], p, i - 1);
      k := k' + 1;
    } else {
      k := 0;
    }
  }

  lemma {:induction false} WithoutDistinct(s: seq<Sub>, p: Sub -> bool)
    requires Distinct(s)
    ensures Distinct(Without(s, p))
  {
    if s != [] {
      var t, r := s[1..], Without(s[1..], p);
      assert forall i, j :: 0 <= i < j < |t| ==> t[i] == s[i + 1] && t[j] == s[j + 1];
      WithoutDistinct(t, p);
      forall i | 0 <= i < |r| ensures !(s[0].id == r[i].id && s[0].filter == r[i].filter) {
        var k := WithoutFrom(t, p, i);
        assert t[k] == s[k + 1];
      }
    }
  }

  lemma {:induction false} CountWithout(s: seq<Sub>, p: Sub -> bool, q: Sub -> bool)
    ensures Count(Without(s, p), q) <= Count(s, q)
    ensures (forall i :: 0 <= i < |s| && q(s[i]) ==> !p(s[i])) ==> Count(Without(s, p), q) == Count(s, q)
    ensures (forall i :: 0 <= i < |s| && q(s[i]) ==> p(s[i])) ==> Count(Without(s, p), q) == 0
  {
    if s != [] {
      CountWithout(s[1..], p, q);
      var r := Without(s[1..], p);
      assert ([s[0]] + r)[1..] == r;
    }
  }

  lemma {:induction false} WithoutNone(s: seq<Sub>, p: Sub -> bool)
    requires forall i :: 0 <= i < |s| ==> !p(s[i])
    ensures Without(s, p) == s
  {
    if s != [] {
      WithoutNone(s[1..], p);
    }
  }

  lemma {:induction false} WithoutSame(s: seq<Sub>, p: Sub -> bool, q: Sub -> bool)
    requires forall i :: 0 <= i < |s| ==> (p(s[i]) <==> q(s[i]))
    ensures Without(s, p) == Without(s, q)
  {
    if s != [] {
      WithoutSame(s[1..], p, q);
    }
  }

  lemma {:induction false} CountSame(s: seq<Sub>, p: Sub -> bool, q: Sub -> bool)
    requires forall i :: 0 <= i < |s| ==> (p(s[i]) <==> q(s[i]))
    ensures Count(s, p) == Count(s, q)
  {
    if s != [] {
      CountSame(s[1..], p, q);
    }
  }

  lemma {:induction false} CountNone(s: seq<Sub>, p: Sub -> bool)
    ensures Count(s, p) == 0 <==> (forall i :: 0 <= i < |s| ==> !p(s[i]))
  {
    if s != [] {
      CountNone(s[1..], p);
      assert forall i :: 0 < i < |s| ==> s[i] == s[1..][i - 1];
    }
  }

  lemma {:induction false} CountMapped(s: seq<Sub>, f: Sub -> Sub, p: Sub -> bool, q: Sub -> bool)
    requires forall i :: 0 <= i < |s| ==> (p(f(s[i])) <==> q(s[i]))
    ensures Count(Mapped(s, f), p) == Count(s, q)
  {
    if s != [] {
      CountMapped(s[1..], f, p, q);
      assert Mapped(s, f)[1..] == Mapped(s[1..], f);
    }
  }

  lemma {:induction false} CountSplit(a: seq<Sub>, c: seq<Sub>, p: Sub -> bool)
    ensures Count(a + c, p) == Count(a, p) + Count(c, p)
  {
    if a == [] {
      assert a + c == c;
    } else {
      CountSplit(a[1..], c, p);
      assert (a + c)[1..] == a[1..] + c;
    }
  }

  lemma CountAround(s: seq<Sub>, i: nat, p: Sub -> bool)
    requires i < |s|
    ensures Count(RemoveAt(s, i), p) == Count(s, p) - (if p(s[i]) then 1 else 0)
  {
    var a, c := s[..i], s[i + 1..];
    CountSplit(a, [s[i]] + c, p);
    CountHead(s[i], c, p);
    assert s == a + ([s[i]] + c);
    CountSplit(a, c, p);
    assert RemoveAt(s, i) == a + c;
  }

  lemma CountHead(x: Sub, c: seq<Sub>, p: Sub -> bool)
    ensures Count([x] + c, p) == (if p(x) then 1 else 0) + Count(c, p)
  {
    assert ([x] + c)[1..] == c;
  }

  /** A client that owns no subscription has none counted. */
  lemma OwnsNone(cs: seq<Client>, os: seq<Orphan>, subs: seq<Sub>, skip: int, r: nat)
    requires SubsOk(cs, os, subs, skip)
    requires r == skip || Lookup(cs, r).None? || !Lookup(cs, r).value.established
    ensures Count(subs, Owned(r)) == 0 && forall i :: 0 <= i < |subs| ==> subs[i].owner != Some(r)
  {
    forall i | 0 <= i < |subs| ensures subs[i].owner != Some(r) {
      assert SubOk(cs, os, subs[i], skip);
      if subs[i].owner == Some(r) {
        LookupRef(cs, r);
      }
    }
    CountNone(subs, Owned(r));
  }

  lemma LookupRef(cs: seq<Client>, r: nat)
    ensures Lookup(cs, r).Some? ==> Lookup(cs, r).value.ref == r
  {
  }

  lemma ClientAtIs(cs: seq<Client>, k: nat)
    requires Refs(cs) && k < |cs|
    ensures ClientAt(cs, cs[k].ref) == k && Lookup(cs, cs[k].ref) == Some(cs[k])
  {
    var j := ClientAt(cs, cs[k].ref);
    assert !(j < k) && !(k < j);
  }

  lemma LookupRemove(cs: seq<Client>, k: nat, r: nat)
    requires Refs(cs) && k < |cs|
    ensures Refs(RemoveAt(cs, k))
    ensures Lookup(RemoveAt(cs, k), r) == if r == cs[k].ref then None else Lookup(cs, r)
  {
    var cs', j := RemoveAt(cs, k), ClientAt(cs, r);
    assert Refs(cs');
    var j' := ClientAt(cs', r);
    if j < |cs| && j != k {
      ClientAtIs(cs', if j < k then j else j - 1);
    } else if j' < |cs'| {
      assert cs'[j'].ref == r;
      ClientAtIs(cs, if j' < k then j' else j' + 1);
    }
  }

  lemma LookupUpdate(cs: seq<Client>, k: nat, c: Client, r: nat)
    requires Refs(cs) && k < |cs| && c.ref == cs[k].ref
    ensures Refs(cs[k := c])
    ensures Lookup(cs[k := c], r) == if r == c.ref then Some(c) else Lookup(cs, r)
  {
    var cs', j := cs[k := c], ClientAt(cs, r);
    assert forall i :: 0 <= i < |cs| ==> cs'[i].ref == cs[i].ref;
    if j < |cs| {
      ClientAtIs(cs', j);
      ClientAtIs(cs, k);
    } else {
      assert ClientAt(cs', r) == |cs|;
    }
  }

  lemma HasOrphanIff(os: seq<Orphan>, id: bytes)
    ensures HasOrphan(os, id) <==> exists j :: 0 <= j < |os| && os[j].id == id
  {
  }

  lemma HasAfterRemove(os: seq<Orphan>, i: nat, id: bytes)
    requires i < |os| && forall j :: 0 <= j < |os| && j != i ==> os[j].id != os[i].id
    ensures HasOrphan(RemoveAt(os, i), id) <==> HasOrphan(os, id) && id != os[i].id
  {
    var os' := RemoveAt(os, i);
    HasOrphanIff(os, id);
    HasOrphanIff(os', id);
    if HasOrphan(os, id) && id != os[i].id {
      var j :| 0 <= j < |os| && os[j].id == id;
      assert os'[if j < i then j else j - 1].id == id;
    }
    if HasOrphan(os', id) {
      var j :| 0 <= j < |os'| && os'[j].id == id;
      assert os[if j < i then j else j + 1].id == id;
    }
  }

  lemma HasAfterPush(os: seq<Orphan>, o: Orphan, id: bytes)
    ensures HasOrphan([o] + os, id) <==> HasOrphan(os, id) || id == o.id
  {
    HasOrphanIff(os, id);
    HasOrphanIff([o] + os, id);
    if HasOrphan(os, id) {
      var j :| 0 <= j < |os| && os[j].id == id;
      assert ([o] + os)[j + 1].id == id;
    }
    assert ([o] + os)[0] == o;
  }
}
