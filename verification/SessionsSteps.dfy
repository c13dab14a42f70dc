/** Each session transition keeps the ownership invariant. */
module SessionsSteps {
  import opened Common
  import opened Sessions
  import opened SessionsInvariant

  // --------------------------------------------------- subscriptions dropped

  /** Dropping subscriptions breaks nothing that does not count them. */
  lemma SubsDropped(cs: seq<Client>, os: seq<Orphan>, subs: seq<Sub>, skip: int, p: Sub -> bool, cap: nat)
    requires SubsOk(cs, os, subs, skip) && Distinct(subs) && Capped(subs, cap)
    ensures var r := Without(subs, p);
      && SubsOk(cs, os, r, skip) && Distinct(r) && Capped(r, cap)
      && (forall i :: 0 <= i < |r| ==> !p(r[i]))
  {
    var r := Without(subs, p);
    forall i | 0 <= i < |r| ensures SubOk(cs, os, r[i], skip) && !p(r[i]) {
      var k := WithoutFrom(subs, p, i);
      assert SubOk(cs, os, subs[k], skip);
    }
    WithoutDistinct(subs, p);
    forall id: bytes ensures Count(r, Named(id)) <= cap {
      CountWithout(subs, p, Named(id));
      assert Count(subs, Named(id)) <= cap;
    }
  }

  // ----------------------------------------------------------- orphans leave

  lemma OrphansMinus(cs: seq<Client>, os: seq<Orphan>, i: nat, skip: int)
    requires Holders(cs, os, skip) && Sids(cs, os) && i < |os|
    ensures Holders(cs, RemoveAt(os, i), skip) && Sids(cs, RemoveAt(os, i))
    ensures forall j :: 0 <= j < |os| && j != i ==> os[j].id != os[i].id
  {
  }

  lemma OrphanRecordsMinus(cs: seq<Client>, os: seq<Orphan>, i: nat, cap: nat, log: seq<Mark>, next: nat)
    requires Pendings(cs, os, cap) && History(cs, os, log, next) && i < |os|
    ensures Pendings(cs, RemoveAt(os, i), cap) && History(cs, RemoveAt(os, i), log, next)
  {
    hide Open, Pending, Elements;
  }

  lemma SubsAfterDrop(cs: seq<Client>, os: seq<Orphan>, i: nat, subs: seq<Sub>, skip: int)
    requires i < |os| && (forall j :: 0 <= j < |os| && j != i ==> os[j].id != os[i].id)
    requires SubsOk(cs, os, subs, skip)
    requires forall k :: 0 <= k < |subs| ==> !Unbound(os[i].id)(subs[k])
    ensures SubsOk(cs, RemoveAt(os, i), subs, skip)
  {
    forall k | 0 <= k < |subs| ensures SubOk(cs, RemoveAt(os, i), subs[k], skip) {
      assert SubOk(cs, os, subs[k], skip) && !Unbound(os[i].id)(subs[k]);
      HasAfterRemove(os, i, subs[k].id);
    }
  }

  lemma CountedWithout(cs: seq<Client>, subs: seq<Sub>, p: Sub -> bool)
    requires Counted(cs, subs)
    requires forall i :: 0 <= i < |subs| && subs[i].owner.Some? ==> !p(subs[i])
    ensures Counted(cs, Without(subs, p))
  {
    forall k | 0 <= k < |cs| ensures cs[k].subCount == Count(Without(subs, p), Owned(cs[k].ref)) {
      CountWithout(subs, p, Owned(cs[k].ref));
    }
  }

  lemma DropOrphanKeeps(b: Broker, i: nat, skip: int)
    requires Inv(b, skip) && i < |b.orphans|
    ensures Inv(DropOrphan(b, i), skip)
  {
    hide Holders, SubsOk, Counted, Capped, Distinct, Pendings, History, Sids, LogOk, Without;
    var p := Unbound(b.orphans[i].id);
    SubsDropped(b.clients, b.orphans, b.subs, skip, p, b.caps.subs);
    CountedWithout(b.clients, b.subs, p);
    OrphansMinus(b.clients, b.orphans, i, skip);
    OrphanRecordsMinus(b.clients, b.orphans, i, b.caps.q2, b.log, b.nextSid);
    SubsAfterDrop(b.clients, b.orphans, i, Without(b.subs, p), skip);
  }

  /** Eviction makes room and leaves the clients alone. */
  lemma {:induction false} MakeRoomKeeps(b: Broker, skip: int)
    requires Inv(b, skip)
    ensures var r := MakeRoom(b);
      && Inv(r, skip) && |r.orphans| < r.caps.orphans
      && r.clients == b.clients && r.caps == b.caps && r.log == b.log && r.nextSid == b.nextSid
      && (forall id: bytes :: HasOrphan(r.orphans, id) ==> HasOrphan(b.orphans, id))
    decreases |b.orphans|
  {
    hide Inv, Without;
    assert CapsOk(b.caps) && b.orphanCount == |b.orphans| by { Basics(b, skip); }
    if b.orphanCount >= b.caps.orphans && b.orphans != [] {
      var i := Oldest(b.orphans, 0, 0);
      DropOrphanKeeps(b, i, skip);
      MakeRoomKeeps(DropOrphan(b, i), skip);
      OrphanIdsDistinct(b, i, skip);
      forall id: bytes | HasOrphan(MakeRoom(b).orphans, id) ensures HasOrphan(b.orphans, id) {
        HasAfterRemove(b.orphans, i, id);
      }
    }
  }

  lemma Basics(b: Broker, skip: int)
    requires Inv(b, skip)
    ensures CapsOk(b.caps) && b.orphanCount == |b.orphans| <= b.caps.orphans && Refs(b.clients)
  {
    hide SubsOk, Counted, Capped, Distinct, Pendings, History, Sids, LogOk;
  }

  lemma OrphanIdsDistinct(b: Broker, i: nat, skip: int)
    requires Inv(b, skip) && i < |b.orphans|
    ensures forall j :: 0 <= j < |b.orphans| && j != i ==> b.orphans[j].id != b.orphans[i].id
  {
    hide SubsOk, Counted, Capped, Distinct, Pendings, History, Sids, LogOk;
  }

  // ----------------------------------------------------------- clients leave

  lemma ClientsMinus(cs: seq<Client>, os: seq<Orphan>, k: nat, skip: int)
    requires Holders(cs, os, skip) && Sids(cs, os) && k < |cs|
    ensures Holders(RemoveAt(cs, k), os, skip) && Sids(RemoveAt(cs, k), os)
  {
    hide ClientOk;
    var r := RemoveAt(cs, k);
    assert forall i :: 0 <= i < |r| ==> r[i] == cs[if i < k then i else i + 1];
  }

  lemma ClientRecordsMinus(cs: seq<Client>, os: seq<Orphan>, k: nat, cap: nat, log: seq<Mark>, next: nat)
    requires Pendings(cs, os, cap) && History(cs, os, log, next) && k < |cs|
    ensures Pendings(RemoveAt(cs, k), os, cap) && History(RemoveAt(cs, k), os, log, next)
  {
    hide Open, Pending, Elements;
  }

  lemma SubsAfterUnlink(cs: seq<Client>, os: seq<Orphan>, k: nat, subs: seq<Sub>, skip: int)
    requires Refs(cs) && k < |cs| && SubsOk(cs, os, subs, skip)
    requires forall i :: 0 <= i < |subs| ==> subs[i].owner != Some(cs[k].ref)
    ensures SubsOk(RemoveAt(cs, k), os, subs, skip)
  {
    hide Refs, Lookup;
    forall i | 0 <= i < |subs| ensures SubOk(RemoveAt(cs, k), os, subs[i], skip) {
      assert SubOk(cs, os, subs[i], skip);
      if subs[i].owner.Some? {
        LookupRemove(cs, k, subs[i].owner.value);
      }
    }
  }

  lemma CountedMinus(cs: seq<Client>, subs: seq<Sub>, k: nat, subs': seq<Sub>)
    requires Counted(cs, subs) && Refs(cs) && k < |cs|
    requires forall j :: 0 <= j < |cs| && j != k ==> Count(subs', Owned(cs[j].ref)) == Count(subs, Owned(cs[j].ref))
    ensures Counted(RemoveAt(cs, k), subs')
  {
    hide Count, Refs;
    var r := RemoveAt(cs, k);
    forall i | 0 <= i < |r| ensures r[i].subCount == Count(subs', Owned(r[i].ref)) {
      assert r[i] == cs[if i < k then i else i + 1];
    }
  }

  /** A connection leaves with the subscriptions it owned. */
  function Dropped(b: Broker, k: nat): Broker
    requires k < |b.clients|
  {
    b.(subs := Without(b.subs, Owned(b.clients[k].ref)), clients := RemoveAt(b.clients, k))
  }

  lemma DroppedKeeps(b: Broker, k: nat, skip: int)
    requires Inv(b, skip) && k < |b.clients|
    ensures Inv(Dropped(b, k), skip)
  {
    hide Holders, SubsOk, Counted, Capped, Distinct, Pendings, History, Sids, LogOk, Without, Count;
    Basics(b, skip);
    var cs, ref := b.clients, b.clients[k].ref;
    var p := Owned(ref);
    var r := Without(b.subs, p);
    SubsDropped(cs, b.orphans, b.subs, skip, p, b.caps.subs);
    ClientsMinus(cs, b.orphans, k, skip);
    ClientRecordsMinus(cs, b.orphans, k, b.caps.q2, b.log, b.nextSid);
    assert forall i :: 0 <= i < |r| ==> r[i].owner != Some(ref);
    SubsAfterUnlink(cs, b.orphans, k, r, skip);
    forall j | 0 <= j < |cs| && j != k ensures Count(r, Owned(cs[j].ref)) == Count(b.subs, Owned(cs[j].ref)) {
      CountWithout(b.subs, p, Owned(cs[j].ref));
      assert cs[j].ref != ref;
    }
    CountedMinus(cs, b.subs, k, r);
  }

  // ------------------------------------------------------- clients orphaned

  function Detach(ref: nat): Sub -> Sub {
    (s: Sub) => if s.owner == Some(ref) then s.(owner := None) else s
  }

  /** A connection leaves and its session waits for it. */
  function Orphaned(b: Broker, k: nat, now: nat): Broker
    requires k < |b.clients|
  {
    var c, b1 := b.clients[k], MakeRoom(b);
    b1.(orphans := [Orphan(c.id, c.expiry, now, c.q2, c.q2Count, c.sid)] + b1.orphans,
        orphanCount := b1.orphanCount + 1, subs := Mapped(b1.subs, Detach(c.ref)), clients := RemoveAt(b.clients, k))
  }

  lemma HoldersSwap(cs: seq<Client>, os: seq<Orphan>, k: nat, o: Orphan, skip: int)
    requires Holders(cs, os, skip) && Sids(cs, os) && k < |cs| && Active(cs[k], skip)
    requires o.id == cs[k].id && o.sid == cs[k].sid && o.expiry != 0
    ensures Holders(RemoveAt(cs, k), [o] + os, skip) && Sids(RemoveAt(cs, k), [o] + os)
  {
    ClientsMinus(cs, os, k, skip);
    var r, os' := RemoveAt(cs, k), [o] + os;
    assert forall i :: 0 <= i < |r| ==> r[i] == cs[if i < k then i else i + 1];
    assert forall j :: 0 < j < |os'| ==> os'[j] == os[j - 1];
    assert ClientOk(cs[k]);
  }

  lemma RecordsSwap(cs: seq<Client>, os: seq<Orphan>, k: nat, o: Orphan, cap: nat, log: seq<Mark>, next: nat)
    requires Pendings(cs, os, cap) && History(cs, os, log, next) && k < |cs| && cs[k].established
    requires o.q2 == cs[k].q2 && o.q2Count == cs[k].q2Count && o.sid == cs[k].sid
    ensures Pendings(RemoveAt(cs, k), [o] + os, cap) && History(RemoveAt(cs, k), [o] + os, log, next)
  {
    hide Open, Pending, Elements;
    var os' := [o] + os;
    assert forall j :: 0 < j < |os'| ==> os'[j] == os[j - 1];
  }

  lemma SubsDetached(cs: seq<Client>, os: seq<Orphan>, k: nat, o: Orphan, subs: seq<Sub>, skip: int)
    requires Refs(cs) && k < |cs| && SubsOk(cs, os, subs, skip) && o.id == cs[k].id
    ensures SubsOk(RemoveAt(cs, k), [o] + os, Mapped(subs, Detach(cs[k].ref)), skip)
  {
    hide Refs, Lookup;
    var f := Detach(cs[k].ref);
    var r := Mapped(subs, f);
    forall i | 0 <= i < |r| ensures SubOk(RemoveAt(cs, k), [o] + os, r[i], skip) {
      assert SubOk(cs, os, subs[i], skip) && r[i] == f(subs[i]);
      HasAfterPush(os, o, subs[i].id);
      ClientAtIs(cs, k);
      if r[i].owner.Some? {
        LookupRemove(cs, k, r[i].owner.value);
      }
    }
  }

  /** Rebinding subscriptions does not change what they are. */
  lemma SubsRelabelled(subs: seq<Sub>, f: Sub -> Sub, cap: nat)
    requires Distinct(subs) && Capped(subs, cap)
    requires forall i :: 0 <= i < |subs| ==> f(subs[i]).id == subs[i].id && f(subs[i]).filter == subs[i].filter
    ensures Distinct(Mapped(subs, f)) && Capped(Mapped(subs, f), cap)
    ensures forall id: bytes :: Count(Mapped(subs, f), Named(id)) == Count(subs, Named(id))
  {
    forall id: bytes ensures Count(Mapped(subs, f), Named(id)) == Count(subs, Named(id)) <= cap {
      CountMapped(subs, f, Named(id), Named(id));
    }
  }

  lemma OrphanedKeeps(b: Broker, k: nat, now: nat, skip: int)
    requires Inv(b, skip) && k < |b.clients| && Active(b.clients[k], skip) && b.clients[k].expiry != 0
    ensures Inv(Orphaned(b, k, now), skip)
  {
    MakeRoomKeeps(b, skip);
    var b1, c := MakeRoom(b), b.clients[k];
    hide Holders, SubsOk, Counted, Capped, Distinct, Pendings, History, Sids, LogOk, MakeRoom, Count;
    Basics(b1, skip);
    var o := Orphan(c.id, c.expiry, now, c.q2, c.q2Count, c.sid);
    HoldersSwap(b.clients, b1.orphans, k, o, skip);
    RecordsSwap(b.clients, b1.orphans, k, o, b.caps.q2, b.log, b.nextSid);
    SubsDetached(b.clients, b1.orphans, k, o, b1.subs, skip);
    var f := Detach(c.ref);
    SubsRelabelled(b1.subs, f, b.caps.subs);
    forall j | 0 <= j < |b.clients| && j != k
      ensures Count(Mapped(b1.subs, f), Owned(b.clients[j].ref)) == Count(b1.subs, Owned(b.clients[j].ref))
    {
      CountMapped(b1.subs, f, Owned(b.clients[j].ref), Owned(b.clients[j].ref));
    }
    CountedMinus(b.clients, b1.subs, k, Mapped(b1.subs, f));
  }

  // ------------------------------------------------------------------ close

  lemma UpdateThenRemove(cs: seq<Client>, k: nat, c: Client)
    requires k < |cs|
    ensures RemoveAt(cs[k := c], k) == RemoveAt(cs, k)
  {
  }

  lemma NoOrphanOfActive(b: Broker, k: nat, skip: int)
    requires Inv(b, skip) && k < |b.clients| && Active(b.clients[k], skip)
    ensures !HasOrphan(b.orphans, b.clients[k].id)
  {
    hide SubsOk, Counted, Capped, Distinct, Pendings, History, Sids, LogOk;
    HasOrphanIff(b.orphans, b.clients[k].id);
  }

  /** What a close does in a state that satisfies the invariant. */
  lemma CloseIs(b: Broker, k: nat, now: nat, skip: int)
    requires Inv(b, skip) && k < |b.clients| && b.clients[k].ref != skip
    ensures CloseAt(b, k, now)
            == if b.clients[k].established && b.clients[k].expiry != 0 then Orphaned(b, k, now) else Dropped(b, k)
  {
    hide Inv, MakeRoom, Without;
    var c := b.clients[k];
    UpdateThenRemove(b.clients, k, c.(subCount := 0));
    UpdateThenRemove(b.clients, k, c.(q2 := [], q2Count := 0));
    if c.established {
      NoOrphanOfActive(b, k, skip);
      if c.expiry != 0 {
        var b1 := MakeRoom(b);
        MappedSame(b1.subs, (s: Sub) => if s.owner == Some(c.ref) then s.(owner := None) else s, Detach(c.ref));
      }
    }
  }

  lemma MappedSame(s: seq<Sub>, f: Sub -> Sub, g: Sub -> Sub)
    requires forall i :: 0 <= i < |s| ==> f(s[i]) == g(s[i])
    ensures Mapped(s, f) == Mapped(s, g)
  {
  }

  lemma CloseKeeps(b: Broker, ref: nat, now: nat, skip: int)
    requires Inv(b, skip) && ref != skip
    ensures var r := Close(b, ref, now);
      && Inv(r, skip) && r.log == b.log && r.nextSid == b.nextSid && r.caps == b.caps
      && (forall x: nat :: x != ref ==> Lookup(r.clients, x) == Lookup(b.clients, x))
  {
    hide Inv, CloseAt, MakeRoom, Lookup, Refs;
    var k := ClientAt(b.clients, ref);
    if k < |b.clients| {
      CloseIs(b, k, now, skip);
      Basics(b, skip);
      MakeRoomKeeps(b, skip);
      if b.clients[k].established && b.clients[k].expiry != 0 {
        OrphanedKeeps(b, k, now, skip);
      } else {
        DroppedKeeps(b, k, skip);
      }
      forall x: nat | x != ref ensures Lookup(Close(b, ref, now).clients, x) == Lookup(b.clients, x) {
        LookupRemove(b.clients, k, x);
      }
    }
  }

  lemma {:induction false} CloseAllKeeps(b: Broker, refs: seq<nat>, now: nat, skip: int, o: nat)
    requires Inv(b, skip) && forall i :: 0 <= i < |refs| ==> refs[i] != skip && refs[i] != o
    ensures var r := CloseAll(b, refs, now);
      && Inv(r, skip) && r.log == b.log && r.nextSid == b.nextSid && r.caps == b.caps
      && Lookup(r.clients, o) == Lookup(b.clients, o)
      && (skip >= 0 ==> Lookup(r.clients, skip) == Lookup(b.clients, skip))
  {
    hide Inv, Close, Lookup;
    if refs != [] {
      CloseAllKeeps(b, refs[..|refs| - 1], now, skip, o);
      CloseKeeps(CloseAll(b, refs[..|refs| - 1], now), refs[|refs| - 1], now, skip);
    }
  }
}
