/** What a session consists of, as its owner sees it: subscriptions with their
    QoS and a lifetime. What every operation does to it. */
module SessionsLaws {
  import opened Common
  import opened Sessions
  import opened SessionsInvariant
  import opened SessionsSteps
  import opened SessionsConnect
  import opened SessionsTheorems

  // ---------------------------------------------------------- subscriptions

  /** The filters a session asks for, each with its QoS. */
  function Wishes(subs: seq<Sub>, id: bytes): set<(bytes, QoS)> {
    set s | s in subs && s.id == id :: (s.filter, s.qos)
  }

  lemma {:induction false} WithoutIn(s: seq<Sub>, p: Sub -> bool, x: Sub)
    ensures x in Without(s, p) <==> x in s && !p(x)
  {
    if s != [] {
      WithoutIn(s[1..], p, x);
      assert x in s <==> x == s[0] || x in s[1..];
      assert x in [s[0]] + Without(s[1..], p) <==> x == s[0] || x in Without(s[1..], p);
    }
  }

  lemma WithoutOthers(subs: seq<Sub>, p: Sub -> bool, id: bytes)
    requires forall x :: x in subs && x.id == id ==> !p(x)
    ensures Wishes(Without(subs, p), id) == Wishes(subs, id)
  {
    forall x: Sub ensures x in Without(subs, p) <==> x in subs && !p(x) { WithoutIn(subs, p, x); }
  }

  lemma WithoutAll(subs: seq<Sub>, p: Sub -> bool, id: bytes)
    requires forall x :: x in subs && x.id == id ==> p(x)
    ensures Wishes(Without(subs, p), id) == {}
  {
    forall x: Sub ensures x in Without(subs, p) <==> x in subs && !p(x) { WithoutIn(subs, p, x); }
  }

  /** Changing hands changes no wish. */
  lemma MappedWishes(subs: seq<Sub>, f: Sub -> Sub, id: bytes)
    requires forall x :: x in subs ==> f(x).id == x.id && f(x).filter == x.filter && f(x).qos == x.qos
    ensures Wishes(Mapped(subs, f), id) == Wishes(subs, id)
  {
    var m := Mapped(subs, f);
    forall w | w in Wishes(subs, id) ensures w in Wishes(m, id) {
      var x :| x in subs && x.id == id && (x.filter, x.qos) == w;
      var i :| 0 <= i < |subs| && subs[i] == x;
      assert m[i] in m && m[i] == f(x);
    }
    forall w | w in Wishes(m, id) ensures w in Wishes(subs, id) {
      var y :| y in m && y.id == id && (y.filter, y.qos) == w;
      var i :| 0 <= i < |m| && m[i] == y;
      assert subs[i] in subs && y == f(subs[i]);
    }
  }

  /** The client's subscriptions are the ones with its identifier. */
  lemma OwnWishes(b: Broker, k: nat, x: Sub)
    requires Inv(b, NOBODY) && k < |b.clients| && b.clients[k].established && x in b.subs
    ensures x.owner == Some(b.clients[k].ref) <==> x.id == b.clients[k].id
  {
    NamedAreOwned(b, k);
    hide Inv;
    var i :| 0 <= i < |b.subs| && b.subs[i] == x;
    assert Named(b.clients[k].id)(b.subs[i]) <==> Owned(b.clients[k].ref)(b.subs[i]);
  }

  lemma OneWish(b: Broker, x: Sub, y: Sub)
    requires Inv(b, NOBODY) && x in b.subs && y in b.subs && x.id == y.id && x.filter == y.filter
    ensures x == y
  {
    var i :| 0 <= i < |b.subs| && b.subs[i] == x;
    var j :| 0 <= j < |b.subs| && b.subs[j] == y;
    hide Holders, SubsOk, Counted, Capped, Pendings, History, Sids, LogOk;
    assert !(i < j) && !(j < i);
  }

  /** A SUBSCRIBE leaves the filter asked for at the QoS it names, whether it is
      new or a repeat; only a new filter beyond the cap is refused. Every other
      wish of the session, and every other session's, stays. */
  lemma SubscribeExact(b: Broker, k: nat, filter: bytes, qos: QoS)
    requires Inv(b, NOBODY) && k < |b.clients| && b.clients[k].established
    ensures var c := b.clients[k];
      var b' := Subscribe(b, c.ref, filter, qos);
      var had := exists w :: w in Wishes(b.subs, c.id) && w.0 == filter;
      && (had || c.subCount < b.caps.subs ==>
            Wishes(b'.subs, c.id) == (set w | w in Wishes(b.subs, c.id) && w.0 != filter) + {(filter, qos)})
      && (!had && c.subCount >= b.caps.subs ==> b' == b)
      && (forall id: bytes :: id != c.id ==> Wishes(b'.subs, id) == Wishes(b.subs, id))
  {
    var c, i := b.clients[k], SubAt(b.subs, b.clients[k].ref, filter);
    Basics(b, NOBODY);
    ClientAtIs(b.clients, k);
    var b' := Subscribe(b, c.ref, filter, qos);
    if i < |b.subs| {
      assert b.subs[i] in b.subs;
      OwnWishes(b, k, b.subs[i]);
      assert (filter, b.subs[i].qos) in Wishes(b.subs, c.id);
      hide Refs;
      Requalified(b, i, qos);
    } else {
      forall x | x in b.subs && x.id == c.id ensures x.filter != filter {
        OwnWishes(b, k, x);
        var j :| 0 <= j < |b.subs| && b.subs[j] == x;
      }
      hide Inv;
      assert !exists w :: w in Wishes(b.subs, c.id) && w.0 == filter;
      if c.subCount < b.caps.subs {
        Pushed(b.subs, Sub(Some(c.ref), c.id, filter, qos));
      }
    }
  }

  lemma Pushed(subs: seq<Sub>, s: Sub)
    ensures forall id: bytes ::
      Wishes([s] + subs, id) == if id == s.id then Wishes(subs, id) + {(s.filter, s.qos)} else Wishes(subs, id)
  {
    assert forall x :: x in [s] + subs <==> x == s || x in subs;
  }

  lemma Requalified(b: Broker, i: nat, qos: QoS)
    requires Inv(b, NOBODY) && i < |b.subs|
    ensures var s := b.subs[i];
      var subs' := b.subs[i := s.(qos := qos)];
      && Wishes(subs', s.id) == (set w | w in Wishes(b.subs, s.id) && w.0 != s.filter) + {(s.filter, qos)}
      && (forall id: bytes :: id != s.id ==> Wishes(subs', id) == Wishes(b.subs, id))
  {
    var s := b.subs[i];
    var s' := s.(qos := qos);
    var subs' := b.subs[i := s'];
    assert b.subs[i] in b.subs && subs'[i] in subs';
    Unrepeated(b);
    forall x: Sub ensures x in subs' <==> x == s' || (x in b.subs && x != s) {
      if x in b.subs && x != s {
        var j :| 0 <= j < |b.subs| && b.subs[j] == x;
        assert subs'[j] == x;
      }
      if x in subs' && x != s' {
        var j :| 0 <= j < |subs'| && subs'[j] == x;
        assert j != i && b.subs[j] == x;
      }
    }
    forall x | x in b.subs && x.id == s.id ensures x != s ==> x.filter != s.filter {
      if x.filter == s.filter { OneWish(b, x, s); }
    }
    hide Inv;
  }

  lemma Unrepeated(b: Broker)
    requires Inv(b, NOBODY)
    ensures forall i, j :: 0 <= i < j < |b.subs| ==> b.subs[i] != b.subs[j]
  {
    hide Holders, SubsOk, Counted, Capped, Pendings, History, Sids, LogOk;
  }

  /** An UNSUBSCRIBE takes the filter away and nothing else. */
  lemma UnsubscribeExact(b: Broker, k: nat, filter: bytes)
    requires Inv(b, NOBODY) && k < |b.clients| && b.clients[k].established
    ensures var c := b.clients[k];
      var b' := Unsubscribe(b, c.ref, filter);
      && Wishes(b'.subs, c.id) == (set w | w in Wishes(b.subs, c.id) && w.0 != filter)
      && (forall id: bytes :: id != c.id ==> Wishes(b'.subs, id) == Wishes(b.subs, id))
  {
    var c, i := b.clients[k], SubAt(b.subs, b.clients[k].ref, filter);
    Basics(b, NOBODY);
    ClientAtIs(b.clients, k);
    if i < |b.subs| {
      assert b.subs[i] in b.subs;
      OwnWishes(b, k, b.subs[i]);
      hide Wishes, Refs;
      Unwished(b, i);
    } else {
      forall x | x in b.subs && x.id == c.id ensures x.filter != filter {
        OwnWishes(b, k, x);
        var j :| 0 <= j < |b.subs| && b.subs[j] == x;
      }
      hide Inv;
    }
  }

  lemma Unwished(b: Broker, i: nat)
    requires Inv(b, NOBODY) && i < |b.subs|
    ensures var s, r := b.subs[i], RemoveAt(b.subs, i);
      && Wishes(r, s.id) == (set w | w in Wishes(b.subs, s.id) && w.0 != s.filter)
      && (forall id: bytes :: id != s.id ==> Wishes(r, id) == Wishes(b.subs, id))
  {
    var s, r := b.subs[i], RemoveAt(b.subs, i);
    assert s in b.subs;
    Unrepeated(b);
    forall x | x in b.subs && x.id == s.id ensures x != s ==> x.filter != s.filter {
      if x.filter == s.filter { OneWish(b, x, s); }
    }
    hide Inv;
    forall x: Sub ensures x in r <==> x in b.subs && x != s { TakenOut(b.subs, i, x); }
  }

  lemma TakenOut(subs: seq<Sub>, i: nat, x: Sub)
    requires i < |subs| && forall i, j :: 0 <= i < j < |subs| ==> subs[i] != subs[j]
    ensures x in RemoveAt(subs, i) <==> x in subs && x != subs[i]
  {
    var r := RemoveAt(subs, i);
    if x in subs && x != subs[i] {
      var j :| 0 <= j < |subs| && subs[j] == x;
      assert r[if j < i then j else j - 1] == x;
    }
    if x in r {
      var j :| 0 <= j < |r| && r[j] == x;
      var j' := if j < i then j else j + 1;
      assert subs[j'] == x && j' != i;
    }
  }

  // ---------------------------------------------------------------- lifetime

  /** The session has not outlived its Session Expiry Interval. */
  predicate Lasting(o: Orphan, now: nat) {
    o.expiry == 0xFFFF_FFFF || now < o.since + o.expiry
  }

  lemma LastingIs(o: Orphan, now: nat)
    ensures Lasting(o, now) <==> !Expired(o, now)
  {
  }

  /** Exactly the sessions whose interval is over have ended, with their
      subscriptions; every other orphan and every other session's subscriptions
      are as they were. */
  ghost predicate Swept(b: Broker, now: nat, r: Broker) {
    && r.clients == b.clients
    && (forall o :: o in r.orphans <==> o in b.orphans && Lasting(o, now))
    && (forall o :: o in b.orphans && !Lasting(o, now) ==> Wishes(r.subs, o.id) == {})
    && (forall id: bytes :: (forall o :: o in b.orphans && !Lasting(o, now) ==> o.id != id) ==>
          Wishes(r.subs, id) == Wishes(b.subs, id))
  }

  lemma {:induction false} SweepExact(b: Broker, now: nat)
    requires Inv(b, NOBODY)
    ensures Swept(b, now, Sweep(b, now))
    decreases |b.orphans|
  {
    hide Inv, DropOrphan, Swept, Expired;
    var i := FirstExpired(b.orphans, now);
    if i < |b.orphans| {
      DropOrphanKeeps(b, i, NOBODY);
      Removed(b, i, NOBODY);
      FewerOrphans(b, i);
      SweepExact(DropOrphan(b, i), now);
      SweptStep(b, i, now, Sweep(b, now));
    } else {
      SweptNone(b, now);
    }
  }

  lemma FewerOrphans(b: Broker, i: nat)
    requires i < |b.orphans|
    ensures |DropOrphan(b, i).orphans| < |b.orphans|
  {
    hide Without;
  }

  lemma SweptNone(b: Broker, now: nat)
    requires FirstExpired(b.orphans, now) == |b.orphans|
    ensures Swept(b, now, b)
  {
    hide Wishes;
    forall o | o in b.orphans ensures Lasting(o, now) {
      var j :| 0 <= j < |b.orphans| && b.orphans[j] == o;
      LastingIs(o, now);
    }
  }

  lemma SweptStep(b: Broker, i: nat, now: nat, r: Broker)
    requires Inv(b, NOBODY) && i < |b.orphans| && Expired(b.orphans[i], now) && Swept(DropOrphan(b, i), now, r)
    ensures Swept(b, now, r)
  {
    hide Inv, DropOrphan, Expired, Lasting, Wishes;
    var b1, dead := DropOrphan(b, i), b.orphans[i];
    LastingIs(dead, now);
    Removed(b, i, NOBODY);
    DropWishes(b, i, NOBODY);
    assert dead in b.orphans;
    forall o | o in b.orphans && !Lasting(o, now) ensures Wishes(r.subs, o.id) == {} {
      if o == dead {
        assert forall x :: x in b1.orphans && !Lasting(x, now) ==> x.id != o.id;
      }
    }
    forall id: bytes | forall o :: o in b.orphans && !Lasting(o, now) ==> o.id != id
      ensures Wishes(r.subs, id) == Wishes(b.subs, id)
    {
      assert forall x :: x in b1.orphans && !Lasting(x, now) ==> x.id != id;
    }
  }

  lemma Removed(b: Broker, i: nat, skip: int)
    requires Inv(b, skip) && i < |b.orphans|
    ensures DropOrphan(b, i).clients == b.clients
    ensures forall o :: o in DropOrphan(b, i).orphans <==> o in b.orphans && o != b.orphans[i]
    ensures forall o :: o in DropOrphan(b, i).orphans ==> o.id != b.orphans[i].id
  {
    OrphanIdsDistinct(b, i, skip);
    hide Inv, Without;
    forall o: Orphan
      ensures o in RemoveAt(b.orphans, i) <==> o in b.orphans && o != b.orphans[i]
      ensures o in RemoveAt(b.orphans, i) ==> o.id != b.orphans[i].id
    {
      OrphanOut(b.orphans, i, o);
    }
  }

  lemma OrphanOut(os: seq<Orphan>, i: nat, o: Orphan)
    requires i < |os| && forall j :: 0 <= j < |os| && j != i ==> os[j].id != os[i].id
    ensures o in RemoveAt(os, i) <==> o in os && o != os[i]
    ensures o in RemoveAt(os, i) ==> o.id != os[i].id
  {
    var r := RemoveAt(os, i);
    if o in os && o != os[i] {
      var j :| 0 <= j < |os| && os[j] == o;
      assert r[if j < i then j else j - 1] == o;
    }
    if o in r {
      var j :| 0 <= j < |r| && r[j] == o;
      assert os[if j < i then j else j + 1] == o;
    }
  }

  /** Subscriptions named like an orphan are unbound. */
  lemma OrphanWishes(b: Broker, i: nat, x: Sub, skip: int)
    requires Inv(b, skip) && i < |b.orphans| && x in b.subs && x.id == b.orphans[i].id
    ensures x.owner.None?
  {
    hide Counted, Capped, Distinct, Pendings, History, Sids, LogOk, ClientOk, HasOrphan;
    var j :| 0 <= j < |b.subs| && b.subs[j] == x;
    assert SubOk(b.clients, b.orphans, b.subs[j], skip);
  }

  lemma DropWishes(b: Broker, i: nat, skip: int)
    requires Inv(b, skip) && i < |b.orphans|
    ensures var id := b.orphans[i].id;
      && Wishes(DropOrphan(b, i).subs, id) == {}
      && (forall x: bytes :: x != id ==> Wishes(DropOrphan(b, i).subs, x) == Wishes(b.subs, x))
  {
    var id := b.orphans[i].id;
    forall x | x in b.subs && x.id == id ensures Unbound(id)(x) { OrphanWishes(b, i, x, skip); }
    hide Inv, Wishes, Without;
    WithoutAll(b.subs, Unbound(id), id);
    forall x: bytes | x != id ensures Wishes(DropOrphan(b, i).subs, x) == Wishes(b.subs, x) {
      WithoutOthers(b.subs, Unbound(id), x);
    }
  }

  /** A version 5 DISCONNECT sets the interval, except that an interval of zero
      stays; nothing else changes. */
  lemma SetExpiryExact(b: Broker, k: nat, expiry: nat)
    requires Inv(b, NOBODY) && k < |b.clients|
    ensures var c := b.clients[k];
      var b' := SetExpiry(b, c.ref, expiry);
      && b' == b.(clients := b'.clients) && |b'.clients| == |b.clients|
      && (forall j :: 0 <= j < |b.clients| && j != k ==> b'.clients[j] == b.clients[j])
      && b'.clients[k] == c.(expiry := if c.v5 && c.expiry > 0 then expiry else c.expiry)
  {
    Basics(b, NOBODY);
    ClientAtIs(b.clients, k);
    hide Inv;
  }

  // ---------------------------------------------------------------- eviction

  /** The scan finds the earliest listed of the longest waiting. */
  lemma {:induction false} OldestExact(os: seq<Orphan>, i: nat, best: nat)
    requires i <= |os| && best < |os| && (best < i || (best == 0 && i == 0))
    requires forall j :: 0 <= j < i ==> os[best].since <= os[j].since && (j < best ==> os[best].since < os[j].since)
    ensures var k := Oldest(os, i, best);
      forall j :: 0 <= j < |os| ==> os[k].since <= os[j].since && (j < k ==> os[k].since < os[j].since)
    decreases |os| - i
  {
    if i < |os| {
      OldestExact(os, i + 1, if os[i].since < os[best].since then i else best);
    }
  }

  /** A full pool gives up exactly its oldest session, another one nothing. */
  lemma EvictionExact(b: Broker, skip: int)
    requires Inv(b, skip)
    ensures |b.orphans| < b.caps.orphans ==> MakeRoom(b) == b
    ensures |b.orphans| == b.caps.orphans ==>
      var k := Oldest(b.orphans, 0, 0);
      && MakeRoom(b) == DropOrphan(b, k)
      && (forall j :: 0 <= j < |b.orphans| ==>
            b.orphans[k].since <= b.orphans[j].since && (j < k ==> b.orphans[k].since < b.orphans[j].since))
  {
    Basics(b, skip);
    hide Inv, Without;
    if |b.orphans| == b.caps.orphans {
      OldestExact(b.orphans, 0, 0);
      var b1 := DropOrphan(b, Oldest(b.orphans, 0, 0));
      assert MakeRoom(b1) == b1;
    }
  }

  // ------------------------------------------------------------------- close

  lemma OwnBy(b: Broker, k: nat, skip: int, x: Sub)
    requires Inv(b, skip) && k < |b.clients| && Active(b.clients[k], skip) && x in b.subs
    ensures x.owner == Some(b.clients[k].ref) <==> x.id == b.clients[k].id
  {
    NoOrphanOfActive(b, k, skip);
    Basics(b, skip);
    ClientAtIs(b.clients, k);
    hide Counted, Capped, Distinct, Pendings, History, Sids, LogOk, ClientOk, HasOrphan;
    var i :| 0 <= i < |b.subs| && b.subs[i] == x;
    assert SubOk(b.clients, b.orphans, b.subs[i], skip);
    if x.owner.Some? { LookupRef(b.clients, x.owner.value); }
  }

  /** The session that a full pool would give up next. */
  function NextEvicted(b: Broker): Option<bytes> {
    if b.orphans != [] && |b.orphans| >= b.caps.orphans then Some(b.orphans[Oldest(b.orphans, 0, 0)].id) else None
  }

  lemma RoomWishes(b: Broker, skip: int)
    requires Inv(b, skip)
    ensures var r := MakeRoom(b);
      && r.clients == b.clients
      && (forall id: bytes :: NextEvicted(b) != Some(id) ==>
            Wishes(r.subs, id) == Wishes(b.subs, id) && OrphanOf(r, id) == OrphanOf(b, id))
  {
    EvictionExact(b, skip);
    Basics(b, skip);
    hide Inv, MakeRoom, Wishes, DropOrphan, OrphanOf;
    if |b.orphans| == b.caps.orphans {
      var k := Oldest(b.orphans, 0, 0);
      DropWishes(b, k, skip);
      Removed(b, k, skip);
      OrphanIdsDistinct(b, k, skip);
      forall id: bytes | id != b.orphans[k].id ensures OrphanOf(DropOrphan(b, k), id) == OrphanOf(b, id) {
        OrphanStays(b, k, id);
      }
    }
  }

  lemma OrphanStays(b: Broker, i: nat, id: bytes)
    requires i < |b.orphans| && b.orphans[i].id != id
    ensures OrphanOf(DropOrphan(b, i), id) == OrphanOf(b, id)
  {
    hide Without, RemoveAt;
    NamedStays(b.orphans, i, id);
  }

  lemma NamedStays(os: seq<Orphan>, i: nat, id: bytes)
    requires i < |os| && os[i].id != id
    ensures var r := RemoveAt(os, i);
      var j, n := OrphanNamed(os, id), OrphanNamed(r, id);
      (j < |os| <==> n < |r|) && (j < |os| ==> r[n] == os[j])
  {
    var r := RemoveAt(os, i);
    var j := OrphanNamed(os, id);
    var j' := if j < i then j else j - 1;
    assert j < |os| ==> r[j'] == os[j];
    NamedAt(r, id, j');
  }

  lemma NamedAt(os: seq<Orphan>, id: bytes, j: nat)
    requires j <= |os| && (j < |os| ==> os[j].id == id) && forall x :: 0 <= x < j ==> os[x].id != id
    ensures OrphanNamed(os, id) == j
  {
    assert !(OrphanNamed(os, id) < j) && !(j < OrphanNamed(os, id));
  }

  /** A connection ends. With a lasting session an orphan takes its place, with
      its expiry counted from now, its pending identifiers, its number and its
      subscriptions as they were; without one nothing of it is left. Another
      session is touched only if the pool is full and it is the oldest. */
  ghost predicate Closed(b: Broker, c: Client, now: nat, b': Broker) {
    && (c.expiry != 0 ==>
          && OrphanOf(b', c.id) == Some(Orphan(c.id, c.expiry, now, c.q2, c.q2Count, c.sid))
          && Wishes(b'.subs, c.id) == Wishes(b.subs, c.id))
    && (c.expiry == 0 ==> OrphanOf(b', c.id).None? && Wishes(b'.subs, c.id) == {})
    && (forall id: bytes :: id != c.id && !(c.expiry != 0 && NextEvicted(b) == Some(id)) ==>
          Wishes(b'.subs, id) == Wishes(b.subs, id) && OrphanOf(b', id) == OrphanOf(b, id))
  }

  lemma CloseExact(b: Broker, k: nat, now: nat, skip: int)
    requires Inv(b, skip) && k < |b.clients| && Active(b.clients[k], skip)
    ensures Closed(b, b.clients[k], now, Close(b, b.clients[k].ref, now))
    ensures Lookup(Close(b, b.clients[k].ref, now).clients, b.clients[k].ref).None?
  {
    var c := b.clients[k];
    Basics(b, skip);
    ClientAtIs(b.clients, k);
    CloseIs(b, k, now, skip);
    ClosedLeft(b.clients, k);
    NoOrphanOfActive(b, k, skip);
    forall x | x in b.subs ensures x.owner == Some(c.ref) <==> x.id == c.id { OwnBy(b, k, skip, x); }
    if c.expiry != 0 {
      OrphanedWishes(b, k, now, skip);
    } else {
      hide Inv, Wishes, Without, MakeRoom, CloseAt, OrphanOf;
      WithoutAll(b.subs, Owned(c.ref), c.id);
      NoneOf(b, c.id);
      forall id: bytes | id != c.id
        ensures Wishes(Dropped(b, k).subs, id) == Wishes(b.subs, id) && OrphanOf(Dropped(b, k), id) == OrphanOf(b, id)
      {
        WithoutOthers(b.subs, Owned(c.ref), id);
        SameOrphan(b, Dropped(b, k), id);
      }
      SameOrphan(b, Dropped(b, k), c.id);
    }
  }

  lemma SameOrphan(b: Broker, b': Broker, id: bytes)
    requires b'.orphans == b.orphans
    ensures OrphanOf(b', id) == OrphanOf(b, id)
  {
  }

  lemma NoneOf(b: Broker, id: bytes)
    requires !HasOrphan(b.orphans, id)
    ensures OrphanOf(b, id).None?
  {
  }

  lemma ClosedLeft(cs: seq<Client>, k: nat)
    requires Refs(cs) && k < |cs|
    ensures Lookup(RemoveAt(cs, k), cs[k].ref).None?
  {
    var r := RemoveAt(cs, k);
    assert forall i :: 0 <= i < |r| ==> r[i] == cs[if i < k then i else i + 1];
  }

  lemma OrphanedWishes(b: Broker, k: nat, now: nat, skip: int)
    requires Inv(b, skip) && k < |b.clients| && Active(b.clients[k], skip) && b.clients[k].expiry != 0
    ensures Closed(b, b.clients[k], now, Orphaned(b, k, now))
  {
    var c, b1, r := b.clients[k], MakeRoom(b), Orphaned(b, k, now);
    RoomWishes(b, skip);
    NoOrphanOfActive(b, k, skip);
    NotNext(b, c.id);
    hide Inv, Wishes, MakeRoom, NextEvicted, HasOrphan;
    forall id: bytes ensures Wishes(r.subs, id) == Wishes(b1.subs, id) {
      MappedWishes(b1.subs, Detach(c.ref), id);
    }
    forall id: bytes ensures OrphanOf(r, id) == if id == c.id then Some(r.orphans[0]) else OrphanOf(b1, id) {
      PushedOrphan(b1, r.orphans[0], r, id);
    }
  }

  lemma NotNext(b: Broker, id: bytes)
    requires !HasOrphan(b.orphans, id)
    ensures NextEvicted(b) != Some(id)
  {
    HasOrphanIff(b.orphans, id);
  }

  lemma PushedOrphan(b: Broker, o: Orphan, r: Broker, id: bytes)
    requires r.orphans == [o] + b.orphans
    ensures OrphanOf(r, id) == if id == o.id then Some(o) else OrphanOf(b, id)
  {
    assert r.orphans[1..] == b.orphans;
  }

  // ----------------------------------------------------------------- connect

  /** Other connections closing leave a held session's subscriptions alone. */
  lemma {:induction false} CloseAllWishes(b: Broker, refs: seq<nat>, now: nat, skip: int, o: nat)
    requires Inv(b, skip) && Lookup(b.clients, o).Some? && Active(Lookup(b.clients, o).value, skip)
    requires forall i :: 0 <= i < |refs| ==> refs[i] != skip && refs[i] != o
    ensures Wishes(CloseAll(b, refs, now).subs, Lookup(b.clients, o).value.id) == Wishes(b.subs, Lookup(b.clients, o).value.id)
  {
    hide Inv, Close, Wishes;
    if refs != [] {
      var front, last := refs[..|refs| - 1], refs[|refs| - 1];
      var b1 := CloseAll(b, front, now);
      CloseAllKeeps(b, front, now, skip, o);
      CloseAllWishes(b, front, now, skip, o);
      CloseOther(b1, last, now, skip, o);
    }
  }

  lemma CloseOther(b: Broker, x: nat, now: nat, skip: int, o: nat)
    requires Inv(b, skip) && Lookup(b.clients, o).Some? && Active(Lookup(b.clients, o).value, skip) && x != skip && x != o
    ensures Wishes(Close(b, x, now).subs, Lookup(b.clients, o).value.id) == Wishes(b.subs, Lookup(b.clients, o).value.id)
  {
    var k, j := ClientAt(b.clients, x), ClientAt(b.clients, o);
    var id := b.clients[j].id;
    NoOrphanOfActive(b, j, skip);
    NotNext(b, id);
    if k < |b.clients| {
      assert b.clients[k].established ==> Active(b.clients[k], skip);
      assert b.clients[k].established ==> b.clients[k].id != id by { assert k < j || j < k; }
      if b.clients[k].established {
        CloseExact(b, k, now, skip);
        hide Inv, Wishes, Close, NextEvicted;
      } else {
        CloseIs(b, k, now, skip);
        forall s | s in b.subs && s.id == id ensures s.owner != Some(x) { OwnBy(b, j, skip, s); }
        hide Inv, Wishes, CloseAt;
        WithoutOthers(b.subs, Owned(x), id);
      }
    }
  }

  lemma WithoutLess(subs: seq<Sub>, p: Sub -> bool, id: bytes)
    ensures Wishes(Without(subs, p), id) <= Wishes(subs, id)
  {
    forall x: Sub ensures x in Without(subs, p) <==> x in subs && !p(x) { WithoutIn(subs, p, x); }
  }

  /** What a client finds of its session after an accepted CONNECT: all its
      subscriptions as they were when the session is resumed, none otherwise;
      and the lifetime it asked for, which a resumed orphan's replaces only
      where the CONNECT asked for none. */
  ghost predicate Found(b: Broker, h: Hello, r: nat, b': Broker) {
    var me, live, orphan := Lookup(b'.clients, r), Holder(b, h.id, r), OrphanOf(b, h.id);
    var asked := if h.v5 then h.expiry else if h.clean then 0 else 0xFFFF_FFFF;
    && me.Some?
    && (if live.Some? && !h.clean && live.value.expiry != 0 then
          Wishes(b'.subs, h.id) == Wishes(b.subs, h.id) && me.value.expiry == asked
        else if live.None? && orphan.Some? && !h.clean then
          && Wishes(b'.subs, h.id) == Wishes(b.subs, h.id)
          && me.value.expiry == if asked == 0xFFFF_FFFF then orphan.value.expiry else asked
        else
          Wishes(b'.subs, h.id) == {} && me.value.expiry == asked)
  }

  lemma ConnectSubs(b: Broker, r: nat, h: Hello, closing: seq<nat>, now: nat)
    requires Inv(b, NOBODY) && h.id != [] && Lookup(b.clients, r).Some? && !Lookup(b.clients, r).value.established
    ensures Found(b, h, r, Connect(b, r, h, closing, now).0)
  {
    hide Inv, Count, Close, CloseAll, Takeover, Discard, Reassociate, Reclaim, Greet, Inherited, Dropped, Free, Wishes;
    var k := ClientAt(b.clients, r);
    LookupAt(b.clients, r);
    GreetedIs(b, k, h);
    GreetedMore(b, k, h);
    var g := Greet(b, k, h);
    var j := ClientNamed(g.clients, h.id, r);
    if j < |g.clients| {
      SubsTaking(b, g, r, k, j, h, closing, now);
    } else {
      NobodyNamed(g, k, h.id);
      SubsAlone(b, g, r, k, h);
      ConnectAlone(g, k, h);
      if !h.clean { ReassociateFinds(g, k); }
    }
  }

  lemma GreetedMore(b: Broker, k: nat, h: Hello)
    requires k < |b.clients|
    ensures var g := Greet(b, k, h);
      && g.subs == b.subs && |g.clients| == |b.clients|
      && g.clients[k].expiry == (if h.v5 then h.expiry else if h.clean then 0 else 0xFFFF_FFFF)
  {
  }

  lemma SubsAlone(b: Broker, g: Broker, r: nat, k: nat, h: Hello)
    requires k < |g.clients| && Inv(g, r) && g.clients[k].ref == r && Bare(g.clients[k]) && g.clients[k].id == h.id
    requires Free(g.clients, h.id, r) && g.subs == b.subs && g.orphans == b.orphans && Holder(b, h.id, r).None?
    requires g.clients[k].expiry == (if h.v5 then h.expiry else if h.clean then 0 else 0xFFFF_FFFF)
    ensures Found(b, h, r, if h.clean then Discard(g, k) else Reclaim(Reassociate(g, k).0, k).0)
  {
    hide Inv, Count, Free, Wishes, Without, Reassociate, Reclaim, Discard;
    var i := OrphanNamed(g.orphans, h.id);
    Basics(g, r);
    ClientAtIs(g.clients, k);
    if h.clean {
      DiscardKeeps(g, k);
      BelongsIsNamed(g, k);
      DiscardWishes(g, k);
    } else {
      ResumeIs(g, k);
      if i < |g.orphans| {
        MappedWishes(g.subs, Bind(h.id, r), h.id);
        LookupUpdate(g.clients, k, Resumed(g, k, i).clients[k], r);
      } else {
        NoneNamed(g, k);
        NoWishes(g.subs, h.id);
      }
    }
  }

  lemma NoWishes(subs: seq<Sub>, id: bytes)
    requires Count(subs, Named(id)) == 0
    ensures Wishes(subs, id) == {}
  {
    CountNone(subs, Named(id));
    forall x | x in subs ensures x.id != id {
      var i :| 0 <= i < |subs| && subs[i] == x;
      assert !Named(id)(subs[i]);
    }
  }

  lemma DiscardWishes(b: Broker, k: nat)
    requires k < |b.clients| && Inv(b, b.clients[k].ref)
    ensures Wishes(Discard(b, k).subs, b.clients[k].id) == {}
  {
    var id := b.clients[k].id;
    BelongsIsNamed(b, k);
    hide Inv, Wishes, Without;
    forall x | x in b.subs && x.id == id ensures Belongs(b.clients, id)(x) {
      var i :| 0 <= i < |b.subs| && b.subs[i] == x;
      assert Named(id)(b.subs[i]);
    }
    WithoutAll(b.subs, Belongs(b.clients, id), id);
  }

  lemma SubsTaking(b: Broker, g: Broker, r: nat, k: nat, j: nat, h: Hello, closing: seq<nat>, now: nat)
    requires k < |g.clients| && Inv(g, r) && g.clients[k].ref == r && ClientAt(g.clients, r) == k && g.subs == b.subs
    requires Bare(g.clients[k]) && g.clients[k].id == h.id != []
    requires g.clients[k].expiry == (if h.v5 then h.expiry else if h.clean then 0 else 0xFFFF_FFFF)
    requires j == ClientNamed(g.clients, h.id, r) < |g.clients| && Holder(b, h.id, r) == Some(g.clients[j])
    ensures var (b1, present) := Meet(g, r, h, closing, now);
      var k1 := ClientAt(b1.clients, r);
      && k1 < |b1.clients|
      && Found(b, h, r, if h.clean then Discard(b1, k1) else Reclaim(b1, k1).0)
  {
    hide Inv, Count, Close, CloseAll, Takeover, Discard, Reassociate, Reclaim, Inherited, Dropped, Free, Refs, Wishes;
    NamedIsActive(g, k, h.id);
    var p, o := g.clients[j], g.clients[j].ref;
    Basics(g, r);
    ClientAtIs(g.clients, j);
    var refs := Others(closing, r, o);
    CloseAllKeeps(g, refs, now, r, o);
    CloseAllWishes(g, refs, now, r, o);
    var g1 := CloseAll(g, refs, now);
    LookupAt(g1.clients, r);
    LookupAt(g1.clients, o);
    var k1, j1 := ClientAt(g1.clients, r), ClientAt(g1.clients, o);
    assert g1.clients[k1] == g.clients[k] && g1.clients[j1] == p;
    TakeoverIs(g1, k1, j1, h.clean);
    if Survives(p, h.clean) {
      ConnectSurvives(g1, k1, j1);
      LookupAt(Inherited(g1, k1, j1).clients, r);
      InheritedWishes(g1, k1, j1);
    } else {
      ConnectReplaces(g1, k1, j1);
      DroppedWishes(g1, k1, j1);
      var d := Dropped(g1, j1);
      LookupAt(d.clients, r);
      var k2 := ClientAt(d.clients, r);
      if h.clean {
        DiscardKeeps(d, k2);
        DiscardWishes(d, k2);
      } else {
        NothingToReclaim(d, k2);
      }
    }
  }

  lemma InheritedWishes(b: Broker, k: nat, j: nat)
    requires k < |b.clients| && j < |b.clients| && j != k
    ensures Wishes(Inherited(b, k, j).subs, b.clients[k].id) == Wishes(b.subs, b.clients[k].id)
  {
    hide Count, Wishes;
    MappedWishes(b.subs, Bind(b.clients[k].id, b.clients[k].ref), b.clients[k].id);
  }

  lemma DroppedWishes(b: Broker, k: nat, j: nat)
    requires k < |b.clients| && Inv(b, b.clients[k].ref) && j < |b.clients| && j != k
    requires Active(b.clients[j], b.clients[k].ref) && b.clients[j].id == b.clients[k].id
    ensures Wishes(Dropped(b, j).subs, b.clients[k].id) == {}
  {
    forall x | x in b.subs && x.id == b.clients[k].id ensures Owned(b.clients[j].ref)(x) {
      OwnBy(b, j, b.clients[k].ref, x);
    }
    hide Inv, Wishes, Without;
    WithoutAll(b.subs, Owned(b.clients[j].ref), b.clients[k].id);
  }

  // ------------------------------------------------------------ inbound QoS 2

  /** A QoS 2 PUBLISH is fanned out exactly when its identifier is not open in
      the session, a repeat changes nothing, and one beyond the cap ends the
      connection. */
  lemma Publish2Exact(caps: Caps, evs: seq<Event>, k: nat, pid: nat, now: nat)
    requires CapsOk(caps) && pid != 0
    requires k < |Run(Initial(caps), evs).clients| && Run(Initial(caps), evs).clients[k].established
    ensures var b := Run(Initial(caps), evs);
      var c := b.clients[k];
      var b' := Step(b, EvPublish2(c.ref, pid, now));
      && (pid in Open(b.log, c.sid) ==> b' == b)
      && (pid !in Open(b.log, c.sid) && |Open(b.log, c.sid)| < caps.q2 ==>
            b'.log == b.log + [Fan(c.sid, pid)] && b'.subs == b.subs && b'.orphans == b.orphans)
      && (pid !in Open(b.log, c.sid) && |Open(b.log, c.sid)| >= caps.q2 ==>
            b'.log == b.log && Closed(b, c, now, b') && Lookup(b'.clients, c.ref).None?)
  {
    hide Run, CloseAt, Closed;
    RunKeeps(caps, evs);
    RunCaps(caps, evs);
    var b := Run(Initial(caps), evs);
    var c := b.clients[k];
    Basics(b, NOBODY);
    ClientAtIs(b.clients, k);
    assert Pending(c.q2, c.q2Count, b.caps.q2) && Open(b.log, c.sid) == Elements(c.q2);
    ElementCount(c.q2);
    CloseExact(b, k, now, NOBODY);
    CloseKeeps(b, c.ref, now, NOBODY);
    CloseFinds(b, c.ref, now);
    hide Inv, Open, Close;
  }

  lemma {:induction false} ElementCount(q: seq<nat>)
    requires forall i, j :: 0 <= i < j < |q| ==> q[i] != q[j]
    ensures |Elements(q)| == |q|
  {
    if q != [] {
      var t := q[1..];
      assert forall i, j :: 0 <= i < j < |t| ==> t[i] == q[i + 1] && t[j] == q[j + 1];
      ElementCount(t);
      assert Elements(q) == Elements(t) + {q[0]};
      assert q[0] !in Elements(t);
    }
  }

  /** After its PUBREL an identifier is no longer open, so that its next use is
      a new message; the others stay open. */
  lemma Release2Exact(caps: Caps, evs: seq<Event>, k: nat, pid: nat)
    requires CapsOk(caps) && pid != 0
    requires k < |Run(Initial(caps), evs).clients| && Run(Initial(caps), evs).clients[k].established
    ensures var b := Run(Initial(caps), evs);
      var c := b.clients[k];
      var b' := Step(b, EvRelease2(c.ref, pid));
      && Lookup(b'.clients, c.ref).Some?
      && var c' := Lookup(b'.clients, c.ref).value;
         && c'.sid == c.sid && Open(b'.log, c.sid) == Open(b.log, c.sid) - {pid}
         && (forall x :: x in c'.q2 <==> x in c.q2 && x != pid)
  {
    hide Run;
    RunKeeps(caps, evs);
    var b := Run(Initial(caps), evs);
    var c := b.clients[k];
    Basics(b, NOBODY);
    ClientAtIs(b.clients, k);
    assert Pending(c.q2, c.q2Count, b.caps.q2) && Open(b.log, c.sid) == Elements(c.q2);
    Released(b, k, pid);
  }

  lemma Released(b: Broker, k: nat, pid: nat)
    requires Refs(b.clients) && k < |b.clients| && b.clients[k].established && pid != 0
    requires ClientAt(b.clients, b.clients[k].ref) == k
    requires forall i, j :: 0 <= i < j < |b.clients[k].q2| ==> b.clients[k].q2[i] != b.clients[k].q2[j]
    ensures var c := b.clients[k];
      var b' := Release2(b, c.ref, pid);
      && Lookup(b'.clients, c.ref).Some?
      && var c' := Lookup(b'.clients, c.ref).value;
         && c'.sid == c.sid && Open(b'.log, c.sid) == Open(b.log, c.sid) - {pid}
         && (forall x :: x in c'.q2 <==> x in c.q2 && x != pid)
  {
    var c := b.clients[k];
    var b' := Release2(b, c.ref, pid);
    LookupUpdate(b.clients, k, b'.clients[k], c.ref);
    assert b'.log[..|b.log|] == b.log;
    var i := PidAt(c.q2, pid);
    if i < |c.q2| {
      forall x ensures x in RemoveAt(c.q2, i) <==> x in c.q2 && x != pid { PidOut(c.q2, i, x); }
    }
  }

  lemma PidOut(q: seq<nat>, i: nat, x: nat)
    requires i < |q| && forall i, j :: 0 <= i < j < |q| ==> q[i] != q[j]
    ensures x in RemoveAt(q, i) <==> x in q && x != q[i]
  {
    var r := RemoveAt(q, i);
    if x in q && x != q[i] {
      var j :| 0 <= j < |q| && q[j] == x;
      assert r[if j < i then j else j - 1] == x;
    }
    if x in r {
      var j :| 0 <= j < |r| && r[j] == x;
      var j' := if j < i then j else j + 1;
      assert q[j'] == x && j' != i;
    }
  }
}
