/** Session ownership and inbound QoS 2 over whole runs. */
module SessionsTheorems {
  import opened Common
  import opened Sessions
  import opened SessionsInvariant
  import opened SessionsSteps
  import opened SessionsConnect

  // ---------------------------------------------------------------- connect

  /** The established client of this identifier, if any. */
  function Holder(b: Broker, id: bytes, r: nat): Option<Client> {
    var j := ClientNamed(b.clients, id, r);
    if j < |b.clients| then Some(b.clients[j]) else None
  }

  function OrphanOf(b: Broker, id: bytes): Option<Orphan> {
    var i := OrphanNamed(b.orphans, id);
    if i < |b.orphans| then Some(b.orphans[i]) else None
  }

  /** What an accepted CONNECT must lead to: resume the live session it takes
      over, resume the orphan, or start a session of its own. */
  ghost predicate Outcome(b: Broker, h: Hello, r: nat, b': Broker, present: bool) {
    var me, live, orphan := Lookup(b'.clients, r), Holder(b, h.id, r), OrphanOf(b, h.id);
    && me.Some? && me.value.established && me.value.id == h.id
    && (if live.Some? && Survives(live.value, h.clean) then
          && me.value.sid == live.value.sid && me.value.q2 == live.value.q2
          && me.value.subCount == live.value.subCount
          && (present <==> live.value.subCount > 0 || live.value.q2 != [])
        else if live.None? && orphan.Some? && !h.clean then
          me.value.sid == orphan.value.sid && me.value.q2 == orphan.value.q2 && present
        else
          me.value.sid == b.nextSid && me.value.q2 == [] && me.value.subCount == 0 && !present)
  }

  lemma GreetedIs(b: Broker, k: nat, h: Hello)
    requires Inv(b, NOBODY) && k < |b.clients| && !b.clients[k].established && h.id != []
    ensures var g, r := Greet(b, k, h), b.clients[k].ref;
      && Inv(g, r) && ClientAt(g.clients, r) == k < |g.clients| && g.clients[k].ref == r && Bare(g.clients[k])
      && g.clients[k].id == h.id && g.clients[k].sid == b.nextSid && g.orphans == b.orphans
      && Holder(g, h.id, r) == Holder(b, h.id, r) && ClientNamed(g.clients, h.id, r) == ClientNamed(b.clients, h.id, r)
  {
    GreetKeeps(b, k, h);
    var g, r := Greet(b, k, h), b.clients[k].ref;
    assert ClientOk(b.clients[k]) && Refs(b.clients);
    hide Inv;
    Basics(g, r);
    ClientAtIs(g.clients, k);
    SameName(b.clients, g.clients, h.id, r);
  }

  /** Clients other than r decide who is found by name. */
  lemma {:induction false} SameName(cs: seq<Client>, cs': seq<Client>, id: bytes, r: nat)
    requires |cs| == |cs'| && forall i :: 0 <= i < |cs| ==> cs'[i].ref == cs[i].ref && (cs[i].ref == r || cs'[i] == cs[i])
    ensures ClientNamed(cs, id, r) == ClientNamed(cs', id, r)
    ensures ClientNamed(cs, id, r) < |cs| ==> cs[ClientNamed(cs, id, r)] == cs'[ClientNamed(cs, id, r)]
  {
    if cs != [] && !(cs[0].ref != r && cs[0].id == id) {
      SameName(cs[1..], cs'[1..], id, r);
    }
  }

  lemma NobodyNamed(b: Broker, k: nat, id: bytes)
    requires k < |b.clients| && Inv(b, b.clients[k].ref) && id != []
    requires ClientNamed(b.clients, id, b.clients[k].ref) == |b.clients|
    ensures Free(b.clients, id, b.clients[k].ref)
  {
  }

  lemma NamedIsActive(b: Broker, k: nat, id: bytes)
    requires k < |b.clients| && Inv(b, b.clients[k].ref) && id != []
    requires ClientNamed(b.clients, id, b.clients[k].ref) < |b.clients|
    ensures Active(b.clients[ClientNamed(b.clients, id, b.clients[k].ref)], b.clients[k].ref)
  {
    var j := ClientNamed(b.clients, id, b.clients[k].ref);
    assert ClientOk(b.clients[j]);
  }

  /** No older connection: start, discard or resume. */
  lemma ConnectAlone(b: Broker, k: nat, h: Hello)
    requires k < |b.clients| && Inv(b, b.clients[k].ref) && Bare(b.clients[k]) && b.clients[k].id == h.id
    requires Free(b.clients, h.id, b.clients[k].ref)
    ensures var r, i := b.clients[k].ref, OrphanNamed(b.orphans, h.id);
      var b1 := if h.clean then Discard(b, k) else Reclaim(Reassociate(b, k).0, k).0;
      && Inv(b1, NOBODY)
      && Lookup(b1.clients, r).Some?
      && (h.clean || i == |b.orphans| ==> Lookup(b1.clients, r).value == b.clients[k])
      && (!h.clean && i < |b.orphans| ==> b1 == Resumed(b, k, i) && Lookup(b1.clients, r) == Some(Resumed(b, k, i).clients[k]))
      && (!h.clean ==> (Reclaim(Reassociate(b, k).0, k).1 <==> i < |b.orphans|))
      && (!h.clean && i == |b.orphans| ==> Reassociate(b, k).1 == 0)
  {
    var r, i := b.clients[k].ref, OrphanNamed(b.orphans, h.id);
    Basics(b, r);
    ClientAtIs(b.clients, k);
    if h.clean {
      DiscardKeeps(b, k);
    } else {
      ResumeIs(b, k);
      if i < |b.orphans| {
        ResumedKeeps(b, k, i);
        LookupUpdate(b.clients, k, Resumed(b, k, i).clients[k], r);
      } else {
        hide Inv, Reassociate, Reclaim;
        NoOrphanHere(b, h.id);
        Admit(b, k);
      }
    }
  }

  lemma NoOrphanHere(b: Broker, id: bytes)
    requires OrphanNamed(b.orphans, id) == |b.orphans|
    ensures !HasOrphan(b.orphans, id)
  {
  }

  lemma LookupAt(cs: seq<Client>, r: nat)
    requires Lookup(cs, r).Some?
    ensures ClientAt(cs, r) < |cs| && cs[ClientAt(cs, r)] == Lookup(cs, r).value
  {
  }

  /** A surviving takeover: the new connection has the session. */
  lemma ConnectSurvives(b: Broker, k: nat, j: nat)
    requires k < |b.clients| && Inv(b, b.clients[k].ref) && Bare(b.clients[k])
    requires j < |b.clients| && j != k && Active(b.clients[j], b.clients[k].ref) && b.clients[j].id == b.clients[k].id
    ensures var r, b1, p := b.clients[k].ref, Inherited(b, k, j), b.clients[j];
      && Inv(b1, NOBODY) && Lookup(b1.clients, r).Some?
      && var c := Lookup(b1.clients, r).value;
         c == b.clients[k].(subCount := p.subCount, q2 := p.q2, q2Count := p.q2Count, sid := p.sid)
         && Reclaim(b1, ClientAt(b1.clients, r)) == (b1, false)
  {
    var r, b1, p := b.clients[k].ref, Inherited(b, k, j), b.clients[j];
    InheritedKeeps(b, k, j);
    OwnedAreNamed(b, k, j);
    Basics(b, r);
    hide Inv, Count;
    var c := b.clients[k].(subCount := p.subCount, q2 := p.q2, q2Count := p.q2Count, sid := p.sid);
    LookupUpdate(b.clients, k, c, r);
    SameRefSame(b.clients, k);
    LookupRemove(b.clients[k := c], j, r);
    LookupAt(b1.clients, r);
  }

  /** A takeover that ends the old session: the identifier is free. */
  lemma ConnectReplaces(b: Broker, k: nat, j: nat)
    requires k < |b.clients| && Inv(b, b.clients[k].ref) && Bare(b.clients[k])
    requires j < |b.clients| && j != k && Active(b.clients[j], b.clients[k].ref) && b.clients[j].id == b.clients[k].id
    ensures var r, b1 := b.clients[k].ref, Dropped(b, j);
      && Inv(b1, r) && Lookup(b1.clients, r) == Some(b.clients[k]) && Free(b1.clients, b.clients[k].id, r)
      && OrphanNamed(b1.orphans, b.clients[k].id) == |b1.orphans|
  {
    var r, b1 := b.clients[k].ref, Dropped(b, j);
    DroppedKeeps(b, j, r);
    OthersFree(b, k, j);
    NoOrphanOfActive(b, j, r);
    Basics(b, r);
    hide Inv;
    SameRefSame(b.clients, k);
    LookupRemove(b.clients, j, r);
    ClientAtIs(b.clients, k);
    assert forall i :: 0 <= i < |b1.clients| ==> b1.clients[i] == b.clients[if i < j then i else i + 1];
  }

  /** Over every way it can go, an accepted CONNECT keeps the invariant and
      resumes exactly the session the identifier has. */
  lemma ConnectOutcome(b: Broker, r: nat, h: Hello, closing: seq<nat>, now: nat)
    requires Inv(b, NOBODY) && h.id != [] && Lookup(b.clients, r).Some? && !Lookup(b.clients, r).value.established
    ensures var (b', present) := Connect(b, r, h, closing, now);
      Inv(b', NOBODY) && Outcome(b, h, r, b', present)
  {
    hide Inv, Count, Close, CloseAll, Takeover, Discard, Reassociate, Reclaim, Greet, Inherited, Dropped, Free;
    var k := ClientAt(b.clients, r);
    LookupAt(b.clients, r);
    GreetedIs(b, k, h);
    var g := Greet(b, k, h);
    var j := ClientNamed(g.clients, h.id, r);
    if j < |g.clients| {
      ConnectTaking(b, g, r, k, j, h, closing, now);
    } else {
      NobodyNamed(g, k, h.id);
      ConnectAlone(g, k, h);
      var (b1, n) := Reassociate(g, k);
      if !h.clean {
        ReassociateFinds(g, k);
      }
    }
  }

  lemma ReassociateFinds(b: Broker, k: nat)
    requires k < |b.clients| && Inv(b, b.clients[k].ref)
    ensures ClientAt(Reassociate(b, k).0.clients, b.clients[k].ref) == k < |Reassociate(b, k).0.clients|
  {
    Basics(b, b.clients[k].ref);
    hide Inv, Count;
    LookupUpdate(b.clients, k, Reassociate(b, k).0.clients[k], b.clients[k].ref);
    ClientAtIs(Reassociate(b, k).0.clients, k);
  }

  /** The takeover branch of ConnectOutcome. */
  lemma ConnectTaking(b: Broker, g: Broker, r: nat, k: nat, j: nat, h: Hello, closing: seq<nat>, now: nat)
    requires k < |g.clients| && Inv(g, r) && g.clients[k].ref == r && ClientAt(g.clients, r) == k
    requires Bare(g.clients[k]) && g.clients[k].id == h.id != [] && g.clients[k].sid == b.nextSid
    requires j == ClientNamed(g.clients, h.id, r) < |g.clients| && Holder(b, h.id, r) == Some(g.clients[j])
    ensures var (b1, present) := Meet(g, r, h, closing, now);
      var k1 := ClientAt(b1.clients, r);
      && k1 < |b1.clients|
      && (h.clean ==> Inv(Discard(b1, k1), NOBODY) && Outcome(b, h, r, Discard(b1, k1), present))
      && (!h.clean ==>
            var (b2, reclaimed) := Reclaim(b1, k1);
            Inv(b2, NOBODY) && Outcome(b, h, r, b2, present || reclaimed))
  {
    hide Inv, Count, Close, CloseAll, Takeover, Discard, Reassociate, Reclaim, Inherited, Dropped, Free, Refs;
    NamedIsActive(g, k, h.id);
    var p, o := g.clients[j], g.clients[j].ref;
    Basics(g, r);
    ClientAtIs(g.clients, j);
    CloseAllKeeps(g, Others(closing, r, o), now, r, o);
    var g1 := CloseAll(g, Others(closing, r, o), now);
    LookupAt(g1.clients, r);
    LookupAt(g1.clients, o);
    var k1, j1 := ClientAt(g1.clients, r), ClientAt(g1.clients, o);
    assert g1.clients[k1] == g.clients[k] && g1.clients[j1] == p;
    TakeoverIs(g1, k1, j1, h.clean);
    if Survives(p, h.clean) {
      ConnectSurvives(g1, k1, j1);
      LookupAt(Inherited(g1, k1, j1).clients, r);
    } else {
      ConnectReplaces(g1, k1, j1);
      var d := Dropped(g1, j1);
      LookupAt(d.clients, r);
      var k2 := ClientAt(d.clients, r);
      if h.clean {
        DiscardKeeps(d, k2);
      } else {
        NoOrphanHere(d, h.id);
        Admit(d, k2);
        NothingToReclaim(d, k2);
      }
    }
  }

  lemma NothingToReclaim(b: Broker, k: nat)
    requires k < |b.clients| && OrphanNamed(b.orphans, b.clients[k].id) == |b.orphans|
    ensures Reclaim(b, k) == (b, false)
  {
  }

  // ------------------------------------------------------------ other steps

  lemma AcceptKeeps(b: Broker, r: nat)
    requires Inv(b, NOBODY)
    ensures Inv(Step(b, EvAccept(r)), NOBODY)
  {
    hide SubsOk, Capped, Distinct, LogOk, Open, Count, Pendings, Counted, Holders, History, Sids;
    if ClientAt(b.clients, r) == |b.clients| {
      var c := Client(r, [], false, false, false, 0, 0, [], 0, 0);
      OwnsNone(b.clients, b.orphans, b.subs, NOBODY, r);
      AcceptSubs(b.clients, c, b.orphans, b.subs);
      AcceptHolders(b.clients, c, b.orphans);
      AcceptRecords(b.clients, c, b.orphans, b.subs, b.caps.q2, b.log, b.nextSid);
    }
  }

  lemma AcceptHolders(cs: seq<Client>, c: Client, os: seq<Orphan>)
    requires Holders(cs, os, NOBODY) && Sids(cs, os) && !c.established && ClientOk(c) && ClientAt(cs, c.ref) == |cs|
    ensures Holders([c] + cs, os, NOBODY) && Sids([c] + cs, os)
  {
    hide ClientOk;
    var cs' := [c] + cs;
    forall i, j | 0 <= i < j < |cs'|
      ensures cs'[i].ref != cs'[j].ref
      ensures cs'[i].established && cs'[j].established ==> cs'[i].id != cs'[j].id && cs'[i].sid != cs'[j].sid
    {
      assert cs'[j] == cs[j - 1];
      if i > 0 {
        assert cs'[i] == cs[i - 1];
        assert cs[i - 1].established && cs[j - 1].established ==> Active(cs[i - 1], NOBODY) && Active(cs[j - 1], NOBODY);
      }
    }
    forall i | 0 <= i < |cs'| ensures ClientOk(cs'[i]) {
      assert i > 0 ==> cs'[i] == cs[i - 1];
    }
    forall i, j | 0 <= i < |cs'| && 0 <= j < |os| && cs'[i].established
      ensures cs'[i].id != os[j].id && cs'[i].sid != os[j].sid
    {
      assert cs'[i] == cs[i - 1] && Active(cs[i - 1], NOBODY);
    }
  }

  lemma AcceptRecords(cs: seq<Client>, c: Client, os: seq<Orphan>, subs: seq<Sub>, cap: nat, log: seq<Mark>, next: nat)
    requires Pendings(cs, os, cap) && History(cs, os, log, next) && Counted(cs, subs)
    requires !c.established && c.q2 == [] && c.q2Count == 0 && c.subCount == 0 == Count(subs, Owned(c.ref))
    ensures Pendings([c] + cs, os, cap) && History([c] + cs, os, log, next) && Counted([c] + cs, subs)
  {
    hide Open, Elements, Count;
    var cs' := [c] + cs;
    assert forall i :: 0 < i < |cs'| ==> cs'[i] == cs[i - 1];
  }

  lemma AcceptSubs(cs: seq<Client>, c: Client, os: seq<Orphan>, subs: seq<Sub>)
    requires SubsOk(cs, os, subs, NOBODY) && forall i :: 0 <= i < |subs| ==> subs[i].owner != Some(c.ref)
    ensures SubsOk([c] + cs, os, subs, NOBODY)
  {
    forall i | 0 <= i < |subs| ensures SubOk([c] + cs, os, subs[i], NOBODY) {
      assert SubOk(cs, os, subs[i], NOBODY);
      assert ([c] + cs)[1..] == cs;
    }
  }

  /** A change to a client that leaves its identity alone. */
  lemma ClientEdited(b: Broker, k: nat, c: Client)
    requires Inv(b, NOBODY) && k < |b.clients| && ClientOk(c) && Pending(c.q2, c.q2Count, b.caps.q2)
    requires var d := b.clients[k];
      c.ref == d.ref && c.id == d.id && c.established == d.established && c.sid == d.sid
    ensures Holders(b.clients[k := c], b.orphans, NOBODY) && Sids(b.clients[k := c], b.orphans)
    ensures Pendings(b.clients[k := c], b.orphans, b.caps.q2)
    ensures SubsOk(b.clients[k := c], b.orphans, b.subs, NOBODY)
  {
    hide Capped, Distinct, LogOk, Open, Count, Pending, Counted, History, HasOrphan, ClientOk;
    var cs, cs' := b.clients, b.clients[k := c];
    assert forall i :: 0 <= i < |cs| && i != k ==> cs'[i] == cs[i];
    assert Holders(cs', b.orphans, NOBODY);
    forall i | 0 <= i < |b.subs| ensures SubOk(cs', b.orphans, b.subs[i], NOBODY) {
      assert SubOk(cs, b.orphans, b.subs[i], NOBODY);
      if b.subs[i].owner.Some? {
        LookupUpdate(cs, k, c, b.subs[i].owner.value);
        ClientAtIs(cs, k);
      }
    }
  }

  lemma SetExpiryKeeps(b: Broker, r: nat, e: nat)
    requires Inv(b, NOBODY)
    ensures Inv(SetExpiry(b, r, e), NOBODY)
  {
    var k := ClientAt(b.clients, r);
    if k < |b.clients| && b.clients[k].v5 && b.clients[k].expiry != 0 {
      var c := b.clients[k].(expiry := e);
      assert ClientOk(b.clients[k]) && Pending(c.q2, c.q2Count, b.caps.q2);
      assert ClientOk(c);
      ClientEdited(b, k, c);
      CountedKept(b.clients, b.subs, k, c);
      hide SubsOk, Capped, Distinct, LogOk, Open, Count, Pending, Counted, Holders, Sids, Pendings;
    }
  }

  lemma HistoryEdited(cs: seq<Client>, os: seq<Orphan>, k: nat, c: Client, log: seq<Mark>, next: nat)
    requires History(cs, os, log, next) && k < |cs| && c.q2 == cs[k].q2 && c.sid == cs[k].sid && c.established == cs[k].established
    ensures History(cs[k := c], os, log, next)
  {
    hide Open, Elements;
  }

  lemma SubscribeKeeps(b: Broker, r: nat, filter: bytes, qos: QoS)
    requires Inv(b, NOBODY)
    ensures Inv(Subscribe(b, r, filter, qos), NOBODY)
  {
    hide Inv;
    var k, i := ClientAt(b.clients, r), SubAt(b.subs, r, filter);
    if k == |b.clients| || !b.clients[k].established {
    } else if i < |b.subs| {
      RequalifyKeeps(b, i, qos);
    } else if b.clients[k].subCount < b.caps.subs {
      FilterIsNew(b, k, filter);
      AddSubKeeps(b, k, filter, qos);
    }
  }

  lemma RequalifyKeeps(b: Broker, i: nat, qos: QoS)
    requires Inv(b, NOBODY) && i < |b.subs|
    ensures Inv(b.(subs := b.subs[i := b.subs[i].(qos := qos)]), NOBODY)
  {
    hide Holders, Pendings, History, Sids, LogOk, Lookup, HasOrphan;
    var s, subs' := b.subs[i].(qos := qos), b.subs[i := b.subs[i].(qos := qos)];
    forall j | 0 <= j < |subs'| ensures SubOk(b.clients, b.orphans, subs'[j], NOBODY) {
      assert SubOk(b.clients, b.orphans, b.subs[j], NOBODY);
    }
    forall x: nat ensures Count(subs', Owned(x)) == Count(b.subs, Owned(x)) { CountUpdate(b.subs, i, s, Owned(x)); }
    forall id: bytes ensures Count(subs', Named(id)) == Count(b.subs, Named(id)) { CountUpdate(b.subs, i, s, Named(id)); }
  }

  lemma CountUpdate(s: seq<Sub>, i: nat, x: Sub, p: Sub -> bool)
    requires i < |s| && p(x) == p(s[i])
    ensures Count(s[i := x], p) == Count(s, p)
  {
    CountAround(s, i, p);
    CountAround(s[i := x], i, p);
    assert RemoveAt(s[i := x], i) == RemoveAt(s, i);
  }

  /** The session's own subscriptions are the ones its client owns. */
  lemma NamedAreOwned(b: Broker, k: nat)
    requires Inv(b, NOBODY) && k < |b.clients| && b.clients[k].established
    ensures forall i :: 0 <= i < |b.subs| && b.subs[i].id == b.clients[k].id ==> b.subs[i].owner == Some(b.clients[k].ref)
    ensures Count(b.subs, Named(b.clients[k].id)) == b.clients[k].subCount
  {
    var cs, ref := b.clients, b.clients[k].ref;
    NoOrphanOfActive(b, k, NOBODY);
    Basics(b, NOBODY);
    ClientAtIs(cs, k);
    assert cs[k].subCount == Count(b.subs, Owned(ref));
    assert SubsOk(cs, b.orphans, b.subs, NOBODY);
    assert forall i :: 0 <= i < |cs| && i != k && Active(cs[i], NOBODY) ==> cs[i].id != cs[k].id;
    hide Inv, Count, HasOrphan, Refs;
    forall i | 0 <= i < |b.subs| ensures b.subs[i].owner == Some(ref) <==> b.subs[i].id == cs[k].id {
      assert SubOk(cs, b.orphans, b.subs[i], NOBODY);
      if b.subs[i].owner.Some? { LookupRef(cs, b.subs[i].owner.value); }
    }
    CountSame(b.subs, Named(cs[k].id), Owned(ref));
  }

  ghost predicate FilterNew(subs: seq<Sub>, id: bytes, filter: bytes) {
    forall i :: 0 <= i < |subs| && subs[i].id == id ==> subs[i].filter != filter
  }

  lemma FilterIsNew(b: Broker, k: nat, filter: bytes)
    requires Inv(b, NOBODY) && k < |b.clients| && b.clients[k].established
    requires SubAt(b.subs, b.clients[k].ref, filter) == |b.subs|
    ensures FilterNew(b.subs, b.clients[k].id, filter)
  {
    NamedAreOwned(b, k);
  }

  lemma AddSubKeeps(b: Broker, k: nat, filter: bytes, qos: QoS)
    requires Inv(b, NOBODY) && k < |b.clients| && b.clients[k].established
    requires FilterNew(b.subs, b.clients[k].id, filter) && b.clients[k].subCount < b.caps.subs
    ensures var c := b.clients[k];
      Inv(b.(subs := [Sub(Some(c.ref), c.id, filter, qos)] + b.subs,
             clients := b.clients[k := c.(subCount := c.subCount + 1)]), NOBODY)
  {
    var c := b.clients[k];
    var c', s := c.(subCount := c.subCount + 1), Sub(Some(c.ref), c.id, filter, qos);
    var cs' := b.clients[k := c'];
    hide Holders, Pendings, History, Sids, LogOk, Pending, Lookup, SubsOk, Distinct, Counted, Capped, Count, ClientOk, Refs;
    hide FilterNew;
    ClientFacts(b, k);
    ClientEdited(b, k, c');
    HistoryEdited(b.clients, b.orphans, k, c', b.log, b.nextSid);
    NamedAreOwned(b, k);
    LookupUpdate(b.clients, k, c', c.ref);
    AddCounted(b.clients, b.subs, k, c', s);
    AddCapped(b.subs, s, b.caps.subs);
    AddDistinct(cs', b.orphans, b.subs, s);
  }

  lemma ClientFacts(b: Broker, k: nat)
    requires Inv(b, NOBODY) && k < |b.clients|
    ensures var c := b.clients[k];
      && ClientOk(c) && Pending(c.q2, c.q2Count, b.caps.q2) && Refs(b.clients)
      && ClientOk(c.(subCount := c.subCount + 1)) && ClientOk(c.(subCount := c.subCount - 1))
  {
    hide SubsOk, Counted, Capped, Distinct, History, Sids, LogOk;
  }

  lemma AddDistinct(cs: seq<Client>, os: seq<Orphan>, subs: seq<Sub>, s: Sub)
    requires SubsOk(cs, os, subs, NOBODY) && SubOk(cs, os, s, NOBODY) && Distinct(subs)
    requires FilterNew(subs, s.id, s.filter)
    ensures SubsOk(cs, os, [s] + subs, NOBODY) && Distinct([s] + subs)
  {
    hide SubOk;
    var subs' := [s] + subs;
    assert forall i :: 0 < i < |subs'| ==> subs'[i] == subs[i - 1];
  }

  lemma AddCounted(cs: seq<Client>, subs: seq<Sub>, k: nat, c: Client, s: Sub)
    requires Counted(cs, subs) && Refs(cs) && k < |cs| && c == cs[k].(subCount := cs[k].subCount + 1) && s.owner == Some(c.ref)
    ensures Counted(cs[k := c], [s] + subs)
  {
    var cs' := cs[k := c];
    forall j | 0 <= j < |cs'| ensures cs'[j].subCount == Count([s] + subs, Owned(cs'[j].ref)) {
      CountHead(s, subs, Owned(cs[j].ref));
    }
  }

  lemma AddCapped(subs: seq<Sub>, s: Sub, cap: nat)
    requires Capped(subs, cap) && Count(subs, Named(s.id)) < cap
    ensures Capped([s] + subs, cap)
  {
    forall id: bytes ensures Count([s] + subs, Named(id)) <= cap {
      CountHead(s, subs, Named(id));
      assert Count(subs, Named(id)) <= cap;
    }
  }

  lemma UnsubscribeKeeps(b: Broker, r: nat, filter: bytes)
    requires Inv(b, NOBODY)
    ensures Inv(Unsubscribe(b, r, filter), NOBODY)
  {
    var k, i := ClientAt(b.clients, r), SubAt(b.subs, r, filter);
    if k < |b.clients| && i < |b.subs| {
      var c := b.clients[k];
      var c' := c.(subCount := c.subCount - 1);
      assert c.subCount == Count(b.subs, Owned(r));
      hide Holders, Pendings, History, Sids, LogOk, Pending, HasOrphan, Lookup, ClientOk, Refs;
      hide SubsOk, Counted, Capped, Distinct;
      ClientEdits(b, k, c');
      ClientEdited(b, k, c');
      HistoryEdited(b.clients, b.orphans, k, c', b.log, b.nextSid);
      CountAround(b.subs, i, Owned(r));
      assert Owned(r)(b.subs[i]);
      LessCounted(b.clients, b.subs, k, c', i);
      LessSubs(b.clients[k := c'], b.orphans, b.subs, i, b.caps.subs);
    }
  }

  lemma ClientEdits(b: Broker, k: nat, c: Client)
    requires Inv(b, NOBODY) && k < |b.clients| && c == b.clients[k].(subCount := c.subCount)
    ensures ClientOk(c) && Pending(c.q2, c.q2Count, b.caps.q2) && Refs(b.clients)
  {
    assert ClientOk(b.clients[k]) && Pending(b.clients[k].q2, b.clients[k].q2Count, b.caps.q2);
  }

  lemma LessCounted(cs: seq<Client>, subs: seq<Sub>, k: nat, c: Client, i: nat)
    requires Counted(cs, subs) && Refs(cs) && k < |cs| && c == cs[k].(subCount := cs[k].subCount - 1)
    requires i < |subs| && subs[i].owner == Some(c.ref)
    ensures Counted(cs[k := c], RemoveAt(subs, i))
  {
    var cs' := cs[k := c];
    forall j | 0 <= j < |cs'| ensures cs'[j].subCount == Count(RemoveAt(subs, i), Owned(cs'[j].ref)) {
      CountAround(subs, i, Owned(cs[j].ref));
    }
  }

  lemma LessSubs(cs: seq<Client>, os: seq<Orphan>, subs: seq<Sub>, i: nat, cap: nat)
    requires SubsOk(cs, os, subs, NOBODY) && Distinct(subs) && Capped(subs, cap) && i < |subs|
    ensures SubsOk(cs, os, RemoveAt(subs, i), NOBODY) && Distinct(RemoveAt(subs, i)) && Capped(RemoveAt(subs, i), cap)
  {
    hide SubOk;
    forall id: bytes ensures Count(RemoveAt(subs, i), Named(id)) <= cap {
      CountAround(subs, i, Named(id));
      assert Count(subs, Named(id)) <= cap;
    }
  }

  // ---------------------------------------------------------- inbound QoS 2

  lemma OpenGrows(log: seq<Mark>, m: Mark, sid: nat)
    ensures Open(log + [m], sid)
            == if m.sid != sid then Open(log, sid) else if m.Fan? then Open(log, sid) + {m.pid} else Open(log, sid) - {m.pid}
  {
    assert (log + [m])[..|log|] == log;
  }

  lemma LogGrows(log: seq<Mark>, m: Mark)
    requires LogOk(log) && (m.Fan? ==> m.pid !in Open(log, m.sid))
    ensures LogOk(log + [m])
  {
    var l := log + [m];
    forall i | 0 <= i < |l| && l[i].Fan? ensures l[i].pid !in Open(l[..i], l[i].sid) {
      if i < |log| {
        assert l[..i] == log[..i];
      } else {
        assert l[..i] == log;
      }
    }
  }

  /** One client's pending set follows the log; the others are untouched. */
  lemma HistoryGrows(cs: seq<Client>, os: seq<Orphan>, k: nat, c: Client, log: seq<Mark>, m: Mark, next: nat)
    requires History(cs, os, log, next) && Sids(cs, os) && k < |cs| && cs[k].established && c.established
    requires c.sid == cs[k].sid == m.sid && Open(log + [m], m.sid) == Elements(c.q2)
    ensures History(cs[k := c], os, log + [m], next)
  {
    hide Elements;
    var cs' := cs[k := c];
    forall sid: nat | sid != m.sid ensures Open(log + [m], sid) == Open(log, sid) { OpenGrows(log, m, sid); }
    forall i | 0 <= i < |cs'| && cs'[i].established
      ensures cs'[i].sid < next && Open(log + [m], cs'[i].sid) == Elements(cs'[i].q2)
    {
      if i != k { assert cs'[i] == cs[i] && cs[i].sid != cs[k].sid; }
    }
  }

  lemma Publish2Keeps(b: Broker, r: nat, pid: nat, now: nat)
    requires Inv(b, NOBODY)
    ensures Inv(Publish2(b, r, pid, now), NOBODY)
  {
    var k := ClientAt(b.clients, r);
    if k < |b.clients| && b.clients[k].established && pid != 0 && pid !in b.clients[k].q2 {
      var c := b.clients[k];
      assert ClientOk(c) && Pending(c.q2, c.q2Count, b.caps.q2) && Open(b.log, c.sid) == Elements(c.q2);
      if c.q2Count >= b.caps.q2 {
        CloseKeeps(b, r, now, NOBODY);
      } else {
        var c', m := c.(q2 := [pid] + c.q2, q2Count := c.q2Count + 1), Fan(c.sid, pid);
        assert ClientOk(c');
        PendingPush(c.q2, c.q2Count, b.caps.q2, pid);
        ClientEdited(b, k, c');
        CountedKept(b.clients, b.subs, k, c');
        OpenGrows(b.log, m, c.sid);
        assert Elements(c'.q2) == Elements(c.q2) + {pid};
        HistoryGrows(b.clients, b.orphans, k, c', b.log, m, b.nextSid);
        LogGrows(b.log, m);
        hide Holders, Pendings, History, Sids, LogOk, Pending, SubsOk, Counted, Capped, Distinct;
      }
    }
  }

  lemma PendingPush(q: seq<nat>, n: int, cap: nat, pid: nat)
    requires Pending(q, n, cap) && n < cap && pid !in q
    ensures Pending([pid] + q, n + 1, cap)
  {
  }

  lemma PendingDrop(q: seq<nat>, n: int, cap: nat, i: nat)
    requires Pending(q, n, cap) && i < |q|
    ensures Pending(RemoveAt(q, i), n - 1, cap) && Elements(RemoveAt(q, i)) == Elements(q) - {q[i]}
  {
    var r := RemoveAt(q, i);
    forall x | x in q && x != q[i] ensures x in r {
      var j :| 0 <= j < |q| && q[j] == x;
      assert r[if j < i then j else j - 1] == x;
    }
    forall x | x in r ensures x in q && x != q[i] {
      var j :| 0 <= j < |r| && r[j] == x;
      assert q[if j < i then j else j + 1] == x;
    }
  }

  lemma Release2Keeps(b: Broker, r: nat, pid: nat)
    requires Inv(b, NOBODY)
    ensures Inv(Release2(b, r, pid), NOBODY)
  {
    var k := ClientAt(b.clients, r);
    if k < |b.clients| && b.clients[k].established && pid != 0 {
      var c, c', m := b.clients[k], Release2(b, r, pid).clients[k], Rel(b.clients[k].sid, pid);
      assert ClientOk(c) && Pending(c.q2, c.q2Count, b.caps.q2) && Open(b.log, c.sid) == Elements(c.q2);
      assert ClientOk(c');
      var i := PidAt(c.q2, pid);
      OpenGrows(b.log, m, c.sid);
      if i < |c.q2| {
        PendingDrop(c.q2, c.q2Count, b.caps.q2, i);
      } else {
        assert pid !in Elements(c.q2);
      }
      ClientEdited(b, k, c');
      CountedKept(b.clients, b.subs, k, c');
      HistoryGrows(b.clients, b.orphans, k, c', b.log, m, b.nextSid);
      LogGrows(b.log, m);
      hide Holders, Pendings, History, Sids, LogOk, Pending, SubsOk, Counted, Capped, Distinct;
    }
  }

  lemma {:induction false} SweepKeeps(b: Broker, now: nat)
    requires Inv(b, NOBODY)
    ensures Inv(Sweep(b, now), NOBODY)
    ensures forall i :: 0 <= i < |Sweep(b, now).orphans| ==> !Expired(Sweep(b, now).orphans[i], now)
    decreases |b.orphans|
  {
    hide Inv, Without;
    var i := FirstExpired(b.orphans, now);
    if i < |b.orphans| {
      DropOrphanKeeps(b, i, NOBODY);
      SweepKeeps(DropOrphan(b, i), now);
    }
  }

  // ------------------------------------------------------------------- runs

  lemma StepKeeps(b: Broker, ev: Event)
    requires Inv(b, NOBODY)
    ensures Inv(Step(b, ev), NOBODY)
  {
    hide Inv, Connect, SetExpiry, Close, Subscribe, Unsubscribe, Publish2, Release2, Sweep, Outcome;
    match ev
    case EvAccept(r) => AcceptKeeps(b, r);
    case EvConnect(r, h, closing, now) =>
      if Lookup(b.clients, r).Some? && !Lookup(b.clients, r).value.established && h.id != [] {
        ConnectOutcome(b, r, h, closing, now);
      } else {
        ConnectRefused(b, r, h, closing, now);
      }
    case EvSetExpiry(r, e) => SetExpiryKeeps(b, r, e);
    case EvClose(r, now) => CloseKeeps(b, r, now, NOBODY);
    case EvSubscribe(r, f, q) => SubscribeKeeps(b, r, f, q);
    case EvUnsubscribe(r, f) => UnsubscribeKeeps(b, r, f);
    case EvPublish2(r, pid, now) => Publish2Keeps(b, r, pid, now);
    case EvRelease2(r, pid) => Release2Keeps(b, r, pid);
    case EvSweep(now) => SweepKeeps(b, now);
  }

  lemma ConnectRefused(b: Broker, r: nat, h: Hello, closing: seq<nat>, now: nat)
    requires !(Lookup(b.clients, r).Some? && !Lookup(b.clients, r).value.established && h.id != [])
    ensures Connect(b, r, h, closing, now) == (b, false)
  {
    hide Meet, Greet;
  }

  lemma InitialOk(caps: Caps)
    requires CapsOk(caps)
    ensures Inv(Initial(caps), NOBODY)
  {
  }

  lemma {:induction false} RunKeeps(caps: Caps, evs: seq<Event>)
    requires CapsOk(caps)
    ensures Inv(Run(Initial(caps), evs), NOBODY)
  {
    hide Inv, Step;
    if evs == [] {
      InitialOk(caps);
    } else {
      RunKeeps(caps, evs[..|evs| - 1]);
      StepKeeps(Run(Initial(caps), evs[..|evs| - 1]), evs[|evs| - 1]);
    }
  }

  // ---------------------------------------------------------------- results

  /** In every reachable state: an unbound subscription has an orphan with its
      client identifier, a bound one points to a linked client with that
      identifier, a client identifier has one holder, the counters are exact
      and the pools keep to their caps. */
  lemma Ownership(caps: Caps, evs: seq<Event>)
    requires CapsOk(caps)
    ensures var b := Run(Initial(caps), evs);
      && (forall i :: 0 <= i < |b.subs| && b.subs[i].owner.None? ==>
            exists j :: 0 <= j < |b.orphans| && b.orphans[j].id == b.subs[i].id)
      && (forall i :: 0 <= i < |b.subs| && b.subs[i].owner.Some? ==>
            exists k :: 0 <= k < |b.clients| && b.clients[k].ref == b.subs[i].owner.value
                        && b.clients[k].established && b.clients[k].id == b.subs[i].id)
      && (forall i, j :: 0 <= i < j < |b.orphans| ==> b.orphans[i].id != b.orphans[j].id)
      && (forall i, j :: 0 <= i < j < |b.clients| && b.clients[i].established && b.clients[j].established ==>
            b.clients[i].id != b.clients[j].id)
      && (forall i, j :: 0 <= i < |b.clients| && 0 <= j < |b.orphans| && b.clients[i].established ==>
            b.clients[i].id != b.orphans[j].id)
      && (forall k :: 0 <= k < |b.clients| ==> b.clients[k].subCount == Count(b.subs, Owned(b.clients[k].ref)))
      && (forall k :: 0 <= k < |b.clients| ==> b.clients[k].subCount <= b.caps.subs)
      && (forall i, j :: 0 <= i < j < |b.subs| ==> !(b.subs[i].id == b.subs[j].id && b.subs[i].filter == b.subs[j].filter))
      && b.orphanCount == |b.orphans| <= b.caps.orphans
  {
    RunKeeps(caps, evs);
    var b := Run(Initial(caps), evs);
    forall i | 0 <= i < |b.subs| && b.subs[i].owner.None?
      ensures exists j :: 0 <= j < |b.orphans| && b.orphans[j].id == b.subs[i].id
    {
      assert SubOk(b.clients, b.orphans, b.subs[i], NOBODY);
      HasOrphanIff(b.orphans, b.subs[i].id);
    }
    forall i | 0 <= i < |b.subs| && b.subs[i].owner.Some?
      ensures exists k :: 0 <= k < |b.clients| && b.clients[k].ref == b.subs[i].owner.value
                          && b.clients[k].established && b.clients[k].id == b.subs[i].id
    {
      assert SubOk(b.clients, b.orphans, b.subs[i], NOBODY);
      LookupAt(b.clients, b.subs[i].owner.value);
      assert b.clients[ClientAt(b.clients, b.subs[i].owner.value)].established;
    }
    forall k | 0 <= k < |b.clients| ensures b.clients[k].subCount <= b.caps.subs { OwnedCapped(b, k); }
    OwnershipHolders(b);
  }

  lemma OwnershipHolders(b: Broker)
    requires Inv(b, NOBODY)
    ensures forall i, j :: 0 <= i < j < |b.orphans| ==> b.orphans[i].id != b.orphans[j].id
    ensures forall i, j :: 0 <= i < j < |b.clients| && b.clients[i].established && b.clients[j].established ==>
      b.clients[i].id != b.clients[j].id
    ensures forall i, j :: 0 <= i < |b.clients| && 0 <= j < |b.orphans| && b.clients[i].established ==>
      b.clients[i].id != b.orphans[j].id
  {
    hide SubsOk, Counted, Capped, Distinct, Pendings, History, Sids, LogOk, ClientOk;
    assert forall i :: 0 <= i < |b.clients| && b.clients[i].established ==> Active(b.clients[i], NOBODY);
  }

  lemma OwnedCapped(b: Broker, k: nat)
    requires Inv(b, NOBODY) && k < |b.clients|
    ensures b.clients[k].subCount <= b.caps.subs
  {
    if b.clients[k].established {
      NamedAreOwned(b, k);
      assert Count(b.subs, Named(b.clients[k].id)) <= b.caps.subs;
    } else {
      Basics(b, NOBODY);
      ClientAtIs(b.clients, k);
      OwnsNone(b.clients, b.orphans, b.subs, NOBODY, b.clients[k].ref);
    }
  }

  /** A fan-out leaves the packet identifier open until its PUBREL. */
  lemma {:induction false} OpenUntilReleased(log: seq<Mark>, i: nat, j: nat)
    requires i < j <= |log| && log[i].Fan?
    requires forall k :: i < k < j ==> log[k] != Rel(log[i].sid, log[i].pid)
    ensures log[i].pid in Open(log[..j], log[i].sid)
    decreases j
  {
    assert log[..j][..j - 1] == log[..j - 1] && log[..j][j - 1] == log[j - 1];
    if j - 1 > i {
      OpenUntilReleased(log, i, j - 1);
    }
  }

  /** Inbound QoS 2, at most once: in every run, between two fan-outs of one
      packet identifier in one session lies a PUBREL for it, through
      duplicates, orphaning, reclaim and surviving takeovers. */
  lemma AtMostOnce(caps: Caps, evs: seq<Event>, i: nat, j: nat)
    requires CapsOk(caps)
    requires var log := Run(Initial(caps), evs).log;
      i < j < |log| && log[i].Fan? && log[j] == log[i]
    ensures var log := Run(Initial(caps), evs).log;
      exists k :: i < k < j && log[k] == Rel(log[i].sid, log[i].pid)
  {
    RunKeeps(caps, evs);
    var log := Run(Initial(caps), evs).log;
    if forall k :: i < k < j ==> log[k] != Rel(log[i].sid, log[i].pid) {
      OpenUntilReleased(log, i, j);
    }
  }

  /** In every reachable state a session's pending set is exactly what it has
      fanned out and not released, without repeats, counted exactly and
      bounded; so a QoS 2 PUBLISH is suppressed exactly when it is a repeat. */
  lemma PendingExact(caps: Caps, evs: seq<Event>, k: nat)
    requires CapsOk(caps)
    requires k < |Run(Initial(caps), evs).clients| && Run(Initial(caps), evs).clients[k].established
    ensures var b := Run(Initial(caps), evs);
      var c := b.clients[k];
      && (forall pid :: pid in c.q2 <==> pid in Open(b.log, c.sid))
      && c.q2Count == |c.q2| <= caps.q2
      && (forall i, j :: 0 <= i < j < |c.q2| ==> c.q2[i] != c.q2[j])
  {
    RunKeeps(caps, evs);
    RunCaps(caps, evs);
    var b := Run(Initial(caps), evs);
    assert Pending(b.clients[k].q2, b.clients[k].q2Count, b.caps.q2);
    assert Open(b.log, b.clients[k].sid) == Elements(b.clients[k].q2);
  }

  lemma {:induction false} RunCaps(caps: Caps, evs: seq<Event>)
    requires CapsOk(caps)
    ensures Run(Initial(caps), evs).caps == caps
  {
    hide Step;
    if evs != [] {
      RunCaps(caps, evs[..|evs| - 1]);
      RunKeeps(caps, evs[..|evs| - 1]);
      StepCaps(Run(Initial(caps), evs[..|evs| - 1]), evs[|evs| - 1]);
    }
  }

  lemma StepCaps(b: Broker, ev: Event)
    ensures Step(b, ev).caps == b.caps
  {
    hide Without, Mapped, Count, Connect, Close, CloseAt, Sweep;
    match ev
    case EvClose(r, now) => CloseCaps(b, r, now);
    case EvConnect(r, h, closing, now) => ConnectCaps(b, r, h, closing, now);
    case EvPublish2(r, pid, now) => CloseCaps(b, r, now); CloseFinds(b, r, now);
    case EvSweep(now) => SweepCaps(b, now);
    case _ =>
  }

  lemma CloseFinds(b: Broker, r: nat, now: nat)
    ensures ClientAt(b.clients, r) < |b.clients| ==> Close(b, r, now) == CloseAt(b, ClientAt(b.clients, r), now)
  {
  }

  lemma ConnectCaps(b: Broker, r: nat, h: Hello, closing: seq<nat>, now: nat)
    ensures Connect(b, r, h, closing, now).0.caps == b.caps
  {
    hide Without, Mapped, Count, Meet;
    var k := ClientAt(b.clients, r);
    if k < |b.clients| {
      MeetCaps(Greet(b, k, h), r, h, closing, now);
    }
  }

  lemma MeetCaps(b: Broker, r: nat, h: Hello, closing: seq<nat>, now: nat)
    ensures Meet(b, r, h, closing, now).0.caps == b.caps
  {
    hide Without, Mapped, Count, CloseAll;
    var j := ClientNamed(b.clients, h.id, r);
    if j < |b.clients| {
      CloseAllCaps(b, Others(closing, r, b.clients[j].ref), now);
    }
  }

  lemma {:induction false} RoomCaps(b: Broker)
    ensures MakeRoom(b).caps == b.caps
    decreases |b.orphans|
  {
    if b.orphanCount >= b.caps.orphans && b.orphans != [] {
      RoomCaps(DropOrphan(b, Oldest(b.orphans, 0, 0)));
    }
  }

  lemma CloseCaps(b: Broker, r: nat, now: nat)
    ensures Close(b, r, now).caps == b.caps
  {
    hide MakeRoom, Without, Mapped;
    var k := ClientAt(b.clients, r);
    if k < |b.clients| {
      var i := OrphanNamed(b.orphans, b.clients[k].id);
      RoomCaps(if i < |b.orphans| then RemoveOrphan(b, i) else b);
    }
  }

  lemma {:induction false} CloseAllCaps(b: Broker, refs: seq<nat>, now: nat)
    ensures CloseAll(b, refs, now).caps == b.caps
  {
    hide Close;
    if refs != [] {
      CloseAllCaps(b, refs[..|refs| - 1], now);
      CloseCaps(CloseAll(b, refs[..|refs| - 1], now), refs[|refs| - 1], now);
    }
  }

  lemma {:induction false} SweepCaps(b: Broker, now: nat)
    ensures Sweep(b, now).caps == b.caps
    decreases |b.orphans|
  {
    var i := FirstExpired(b.orphans, now);
    if i < |b.orphans| {
      SweepCaps(DropOrphan(b, i), now);
    }
  }

  /** A Session Present of 1 always means a resumed session; one of 0 hides a
      resumed session exactly when a live session without subscriptions and
      pending identifiers was taken over. */
  lemma PresentExact(b: Broker, r: nat, h: Hello, closing: seq<nat>, now: nat)
    requires Inv(b, NOBODY) && h.id != [] && Lookup(b.clients, r).Some? && !Lookup(b.clients, r).value.established
    ensures var (b', present) := Connect(b, r, h, closing, now);
      var me, live := Lookup(b'.clients, r), Holder(b, h.id, r);
      && me.Some?
      && (present ==> me.value.sid < b.nextSid)
      && (!present && me.value.sid < b.nextSid <==>
          live.Some? && Survives(live.value, h.clean) && live.value.subCount == 0 && live.value.q2 == [])
  {
    ConnectOutcome(b, r, h, closing, now);
    var j, i := ClientNamed(b.clients, h.id, r), OrphanNamed(b.orphans, h.id);
    if j < |b.clients| {
      assert ClientOk(b.clients[j]) && b.clients[j].established && b.clients[j].sid < b.nextSid;
      assert b.clients[j].subCount == Count(b.subs, Owned(b.clients[j].ref));
    }
    if i < |b.orphans| {
      assert b.orphans[i].sid < b.nextSid;
    }
    hide Inv, Connect;
  }

  /** Such a takeover is reachable. */
  lemma PresentUnderreports()
    ensures var h := Hello([0x61], false, false, 0);
      var b := Run(Initial(Caps(1, 1, 1)), [EvAccept(1), EvConnect(1, h, [], 0), EvAccept(2)]);
      var (b', present) := Connect(b, 2, h, [], 0);
      && Holder(b, h.id, 2).Some? && Lookup(b'.clients, 2).Some?
      && Lookup(b'.clients, 2).value.sid == Holder(b, h.id, 2).value.sid && !present
  {
    var h := Hello([0x61], false, false, 0);
    var b0, e1, e2, e3 := Initial(Caps(1, 1, 1)), EvAccept(1), EvConnect(1, h, [], 0), EvAccept(2);
    var b1 := Step(b0, e1);
    assert [e1, e2, e3][..2] == [e1, e2] && [e1, e2][..1] == [e1] && [e1][..0] == [];
    assert Run(b0, []) == b0 && Run(b0, [e1]) == b1;
    assert b1.clients == [Client(1, [], false, false, false, 0, 0, [], 0, 0)];
    InitialOk(Caps(1, 1, 1));
    StepKeeps(b0, e1);
    StepKeeps(b1, e2);
    FirstConnect(b1, b1.clients[0], h);
    hide Inv, Connect;
    var b2 := Step(b1, e2);
    assert Run(b0, [e1, e2]) == b2;
    assert Run(b0, [e1, e2, e3]) == Step(b2, e3);
    SecondConnect(b2, h);
  }

  /** The broker's only client is r: connected, with nothing to its name. */
  predicate OnlyClient(b: Broker, r: nat) {
    |b.clients| == 1 && b.clients[0].ref == r && b.clients[0].id == [0x61] && b.clients[0].expiry == NEVER
    && b.clients[0].subCount == 0 && b.clients[0].q2 == [] && b.subs == [] && b.orphans == []
  }

  lemma FirstConnect(b: Broker, c: Client, h: Hello)
    requires b.clients == [c] && b.subs == [] && b.orphans == [] && !c.established && c.ref == 1
    requires c.subCount == 0 && c.q2 == [] && h == Hello([0x61], false, false, 0)
    ensures OnlyClient(Connect(b, 1, h, [], 0).0, 1)
  {
    var g := Greet(b, 0, h);
    assert g.clients == [c.(id := h.id, established := true, v5 := false, clean := false, expiry := NEVER, sid := b.nextSid)];
    assert g.clients[1..] == [];
    assert b.clients[1..] == [];
    var (b1, n) := Reassociate(g, 0);
    assert n == 0 && b1.clients == g.clients;
  }

  lemma SecondConnect(b: Broker, h: Hello)
    requires Inv(b, NOBODY) && OnlyClient(b, 1) && h == Hello([0x61], false, false, 0)
    ensures var b3 := Step(b, EvAccept(2));
      var (b', present) := Connect(b3, 2, h, [], 0);
      && Holder(b3, h.id, 2).Some? && Lookup(b'.clients, 2).Some?
      && Lookup(b'.clients, 2).value.sid == Holder(b3, h.id, 2).value.sid && !present
  {
    hide Inv, Connect;
    var b3 := Step(b, EvAccept(2));
    StepKeeps(b, EvAccept(2));
    assert b.clients[1..] == [] && b3.clients[1..] == b.clients;
    ConnectOutcome(b3, 2, h, [], 0);
  }
}
