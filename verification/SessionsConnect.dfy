/** An accepted CONNECT keeps the ownership invariant, whether it starts a
    session, resumes an orphan or takes over a live connection. */
module SessionsConnect {
  import opened Common
  import opened Sessions
  import opened SessionsInvariant
  import opened SessionsSteps

  // ------------------------------------------------------------------ greet

  lemma GreetHolders(cs: seq<Client>, os: seq<Orphan>, k: nat, c: Client)
    requires Holders(cs, os, NOBODY) && k < |cs| && !cs[k].established && c.ref == cs[k].ref && ClientOk(c)
    ensures Holders(cs[k := c], os, c.ref)
  {
    hide ClientOk;
    var r := cs[k := c];
    assert forall i :: 0 <= i < |cs| && i != k ==> r[i] == cs[i];
    assert forall i :: 0 <= i < |r| && Active(r[i], c.ref) ==> i != k && Active(cs[i], NOBODY);
  }

  lemma GreetRecords(cs: seq<Client>, os: seq<Orphan>, k: nat, c: Client, cap: nat, log: seq<Mark>, next: nat)
    requires Pendings(cs, os, cap) && History(cs, os, log, next) && Sids(cs, os)
    requires k < |cs| && c.q2 == cs[k].q2 == [] && c.q2Count == cs[k].q2Count && c.sid == next
    ensures Pendings(cs[k := c], os, cap) && History(cs[k := c], os, log, next + 1) && Sids(cs[k := c], os)
  {
    hide Open, Pending;
    assert Elements([]) == {};
  }

  /** Owners other than k are found as before. */
  lemma SubsKept(cs: seq<Client>, os: seq<Orphan>, subs: seq<Sub>, k: nat, c: Client, skip: int, skip': int)
    requires SubsOk(cs, os, subs, skip) && Refs(cs) && k < |cs| && c.ref == cs[k].ref
    requires forall i :: 0 <= i < |subs| ==> subs[i].owner != Some(c.ref)
    requires skip' == skip || skip' == c.ref
    ensures SubsOk(cs[k := c], os, subs, skip')
  {
    hide Refs, Lookup;
    forall i | 0 <= i < |subs| ensures SubOk(cs[k := c], os, subs[i], skip') {
      assert SubOk(cs, os, subs[i], skip);
      if subs[i].owner.Some? {
        LookupUpdate(cs, k, c, subs[i].owner.value);
        LookupRef(cs, subs[i].owner.value);
      }
    }
  }

  lemma CountedKept(cs: seq<Client>, subs: seq<Sub>, k: nat, c: Client)
    requires Counted(cs, subs) && k < |cs| && c.ref == cs[k].ref && c.subCount == cs[k].subCount
    ensures Counted(cs[k := c], subs)
  {
    hide Count;
  }

  /** The connection has its identifier and owns nothing yet. */
  lemma GreetKeeps(b: Broker, k: nat, h: Hello)
    requires Inv(b, NOBODY) && k < |b.clients| && !b.clients[k].established && h.id != []
    ensures Inv(Greet(b, k, h), b.clients[k].ref)
    ensures Count(b.subs, Owned(b.clients[k].ref)) == 0 && b.clients[k].subCount == 0
  {
    var cs, r := b.clients, b.clients[k].ref;
    assert ClientOk(cs[k]) && cs[k].subCount == Count(b.subs, Owned(r)) && Refs(cs);
    var c := Greet(b, k, h).clients[k];
    assert ClientOk(c);
    hide Holders, SubsOk, Counted, Capped, Distinct, Pendings, History, Sids, LogOk, Count, ClientOk, Refs;
    ClientAtIs(cs, k);
    OwnsNone(cs, b.orphans, b.subs, NOBODY, r);
    GreetHolders(cs, b.orphans, k, c);
    GreetRecords(cs, b.orphans, k, c, b.caps.q2, b.log, b.nextSid);
    SubsKept(cs, b.orphans, b.subs, k, c, NOBODY, r);
    CountedKept(cs, b.subs, k, c);
  }

  // ------------------------------------------------------------- new session

  /** No other connection holds a session of this identifier. */
  ghost predicate Free(cs: seq<Client>, id: bytes, r: int) {
    forall i :: 0 <= i < |cs| && Active(cs[i], r) ==> cs[i].id != id
  }

  lemma SubsActive(cs: seq<Client>, os: seq<Orphan>, subs: seq<Sub>, skip: int)
    requires SubsOk(cs, os, subs, skip)
    ensures SubsOk(cs, os, subs, NOBODY)
  {
    hide Lookup, HasOrphan;
    forall i | 0 <= i < |subs| ensures SubOk(cs, os, subs[i], NOBODY) {
      assert SubOk(cs, os, subs[i], skip);
    }
  }

  lemma AdmitHolders(cs: seq<Client>, os: seq<Orphan>, k: nat)
    requires k < |cs| && Holders(cs, os, cs[k].ref) && Free(cs, cs[k].id, cs[k].ref) && !HasOrphan(os, cs[k].id)
    ensures Holders(cs, os, NOBODY)
  {
    hide ClientOk;
    HasOrphanIff(os, cs[k].id);
    assert forall i :: 0 <= i < |cs| && i != k && cs[i].established ==> Active(cs[i], cs[k].ref);
  }

  lemma Admit(b: Broker, k: nat)
    requires k < |b.clients| && Inv(b, b.clients[k].ref)
    requires Free(b.clients, b.clients[k].id, b.clients[k].ref) && !HasOrphan(b.orphans, b.clients[k].id)
    ensures Inv(b, NOBODY)
  {
    hide Holders, SubsOk, Counted, Capped, Distinct, Pendings, History, Sids, LogOk, HasOrphan, Free;
    AdmitHolders(b.clients, b.orphans, k);
    SubsActive(b.clients, b.orphans, b.subs, b.clients[k].ref);
  }

  // ------------------------------------------------- subscriptions change hands

  function Bind(id: bytes, r: nat): Sub -> Sub {
    (s: Sub) => if s.id == id then s.(owner := Some(r)) else s
  }

  /** Subscriptions of id all belong to r now; everyone else keeps theirs. */
  lemma BoundCounts(cs: seq<Client>, os: seq<Orphan>, subs: seq<Sub>, id: bytes, r: nat, x: nat)
    requires SubsOk(cs, os, subs, r)
    requires x != r && (Lookup(cs, x).Some? && Active(Lookup(cs, x).value, r) ==> Lookup(cs, x).value.id != id)
    ensures Count(Mapped(subs, Bind(id, r)), Owned(r)) == Count(subs, Named(id))
    ensures Count(Mapped(subs, Bind(id, r)), Owned(x)) == Count(subs, Owned(x))
  {
    hide Lookup;
    var f := Bind(id, r);
    forall i | 0 <= i < |subs|
      ensures Owned(r)(f(subs[i])) == Named(id)(subs[i]) && Owned(x)(f(subs[i])) == Owned(x)(subs[i])
    {
      assert SubOk(cs, os, subs[i], r);
      if subs[i].owner.Some? { LookupRef(cs, subs[i].owner.value); }
    }
    CountMapped(subs, f, Owned(r), Named(id));
    CountMapped(subs, f, Owned(x), Owned(x));
  }

  lemma BoundOwners(cs: seq<Client>, os: seq<Orphan>, subs: seq<Sub>, id: bytes, r: nat, cs': seq<Client>, os': seq<Orphan>)
    requires SubsOk(cs, os, subs, r)
    requires Lookup(cs', r).Some? && Active(Lookup(cs', r).value, NOBODY) && Lookup(cs', r).value.id == id
    requires forall x: nat :: x != r && Lookup(cs, x).Some? && Lookup(cs, x).value.id != id ==> Lookup(cs', x) == Lookup(cs, x)
    requires forall i: bytes :: i != id && HasOrphan(os, i) ==> HasOrphan(os', i)
    ensures SubsOk(cs', os', Mapped(subs, Bind(id, r)), NOBODY)
  {
    hide Lookup, HasOrphan;
    var f := Bind(id, r);
    var subs' := Mapped(subs, f);
    forall i | 0 <= i < |subs'| ensures SubOk(cs', os', subs'[i], NOBODY) {
      assert SubOk(cs, os, subs[i], r) && subs'[i] == f(subs[i]);
      if subs[i].owner.Some? { LookupRef(cs, subs[i].owner.value); }
    }
  }

  /** Which subscriptions a reassociation moves. */
  lemma BelongsIsNamed(b: Broker, k: nat)
    requires k < |b.clients| && Inv(b, b.clients[k].ref)
    ensures var id := b.clients[k].id;
      forall i :: 0 <= i < |b.subs| ==> (Belongs(b.clients, id)(b.subs[i]) <==> Named(id)(b.subs[i]))
  {
    hide Holders, Counted, Capped, Distinct, Pendings, History, Sids, LogOk;
    forall i | 0 <= i < |b.subs|
      ensures Belongs(b.clients, b.clients[k].id)(b.subs[i]) <==> Named(b.clients[k].id)(b.subs[i])
    {
      assert SubOk(b.clients, b.orphans, b.subs[i], b.clients[k].ref);
    }
  }

  /** Reassociation in closed form. */
  lemma ReassociateIs(b: Broker, k: nat)
    requires k < |b.clients| && Inv(b, b.clients[k].ref)
    ensures var c := b.clients[k];
      var n := Count(b.subs, Named(c.id));
      Reassociate(b, k) == (b.(subs := Mapped(b.subs, Bind(c.id, c.ref)),
                               clients := b.clients[k := c.(subCount := c.subCount + n)]), n)
  {
    hide Inv, Count;
    var c := b.clients[k];
    BelongsIsNamed(b, k);
    CountSame(b.subs, Belongs(b.clients, c.id), Named(c.id));
    MappedSame(b.subs, (s: Sub) => if Belongs(b.clients, c.id)(s) then s.(owner := Some(c.ref)) else s,
               Bind(c.id, c.ref));
  }

  // ---------------------------------------------------------- orphan resumed

  /** Client k takes over the orphan at i with everything it kept. */
  function Resumed(b: Broker, k: nat, i: nat): Broker
    requires k < |b.clients| && i < |b.orphans|
  {
    var c, o := b.clients[k], b.orphans[i];
    b.(clients := b.clients[k := c.(subCount := Count(b.subs, Named(c.id)),
                                    expiry := if c.expiry == NEVER then o.expiry else c.expiry,
                                    q2 := o.q2, q2Count := o.q2Count, sid := o.sid)],
       subs := Mapped(b.subs, Bind(c.id, c.ref)),
       orphans := RemoveAt(b.orphans, i), orphanCount := b.orphanCount - 1)
  }

  lemma ResumedHolders(cs: seq<Client>, os: seq<Orphan>, k: nat, i: nat, c: Client)
    requires k < |cs| && i < |os| && Holders(cs, os, cs[k].ref) && Free(cs, cs[k].id, cs[k].ref)
    requires os[i].id == cs[k].id == c.id && c.ref == cs[k].ref && ClientOk(c)
    ensures Holders(cs[k := c], RemoveAt(os, i), NOBODY)
  {
    hide ClientOk;
    var cs', os' := cs[k := c], RemoveAt(os, i);
    assert forall j :: 0 <= j < |cs| && j != k && cs[j].established ==> Active(cs[j], cs[k].ref);
    assert forall j :: 0 <= j < |os'| ==> os'[j] == os[if j < i then j else j + 1] && os'[j].id != os[i].id;
    assert forall j :: 0 <= j < |cs'| && j != k ==> cs'[j] == cs[j];
  }

  lemma ResumedRecords(cs: seq<Client>, os: seq<Orphan>, k: nat, i: nat, c: Client, cap: nat, log: seq<Mark>, next: nat)
    requires Pendings(cs, os, cap) && History(cs, os, log, next) && Sids(cs, os) && k < |cs| && i < |os|
    requires c.q2 == os[i].q2 && c.q2Count == os[i].q2Count && c.sid == os[i].sid
    ensures Pendings(cs[k := c], RemoveAt(os, i), cap) && History(cs[k := c], RemoveAt(os, i), log, next)
    ensures Sids(cs[k := c], RemoveAt(os, i))
  {
    hide Open, Pending, Elements;
    var cs', os' := cs[k := c], RemoveAt(os, i);
    assert forall j :: 0 <= j < |os'| ==> os'[j] == os[if j < i then j else j + 1];
  }

  /** No one else holds the identifier, and r owns everything named so. */
  lemma BoundAll(cs: seq<Client>, os: seq<Orphan>, subs: seq<Sub>, id: bytes, r: nat, cs': seq<Client>)
    requires SubsOk(cs, os, subs, r) && Counted(cs, subs) && Refs(cs)
    requires forall j :: 0 <= j < |cs'| ==>
      if cs'[j].ref == r then cs'[j].subCount == Count(subs, Named(id))
      else Lookup(cs, cs'[j].ref) == Some(cs'[j]) && cs'[j] in cs && (Active(cs'[j], r) ==> cs'[j].id != id)
    ensures Counted(cs', Mapped(subs, Bind(id, r)))
  {
    hide Count, Refs, SubsOk, Lookup;
    var subs' := Mapped(subs, Bind(id, r));
    forall j | 0 <= j < |cs'| ensures cs'[j].subCount == Count(subs', Owned(cs'[j].ref)) {
      if cs'[j].ref == r {
        BoundSelf(cs, os, subs, id, r);
      } else {
        BoundCounts(cs, os, subs, id, r, cs'[j].ref);
      }
    }
  }

  lemma BoundSelf(cs: seq<Client>, os: seq<Orphan>, subs: seq<Sub>, id: bytes, r: nat)
    requires SubsOk(cs, os, subs, r)
    ensures Count(Mapped(subs, Bind(id, r)), Owned(r)) == Count(subs, Named(id))
  {
    hide Lookup;
    var f := Bind(id, r);
    forall i | 0 <= i < |subs| ensures Owned(r)(f(subs[i])) == Named(id)(subs[i]) {
      assert SubOk(cs, os, subs[i], r);
      if subs[i].owner.Some? { LookupRef(cs, subs[i].owner.value); }
    }
    CountMapped(subs, f, Owned(r), Named(id));
  }

  lemma ResumedKeeps(b: Broker, k: nat, i: nat)
    requires k < |b.clients| && Inv(b, b.clients[k].ref) && b.clients[k].established
    requires i < |b.orphans| && b.orphans[i].id == b.clients[k].id
    requires Free(b.clients, b.clients[k].id, b.clients[k].ref)
    ensures Inv(Resumed(b, k, i), NOBODY)
  {
    var cs, os, r := b.clients, b.orphans, b.clients[k].ref;
    var c := Resumed(b, k, i).clients[k];
    var cs' := cs[k := c];
    assert ClientOk(cs[k]) && ClientOk(c);
    hide Holders, SubsOk, Counted, Capped, Distinct, Pendings, History, Sids, LogOk, Count, ClientOk, Refs, HasOrphan, Lookup;
    Basics(b, r);
    OrphanIdsDistinct(b, i, r);
    ResumedHolders(cs, os, k, i, c);
    ResumedRecords(cs, os, k, i, c, b.caps.q2, b.log, b.nextSid);
    SubsRelabelled(b.subs, Bind(c.id, r), b.caps.subs);
    LookupUpdate(cs, k, c, r);
    forall x: nat | x != r && Lookup(cs, x).Some? ensures Lookup(cs', x) == Lookup(cs, x) {
      LookupUpdate(cs, k, c, x);
    }
    forall id: bytes | id != c.id && HasOrphan(os, id) ensures HasOrphan(RemoveAt(os, i), id) {
      HasAfterRemove(os, i, id);
    }
    BoundOwners(cs, os, b.subs, c.id, r, cs', RemoveAt(os, i));
    forall j | 0 <= j < |cs'| && cs'[j].ref != r ensures Lookup(cs, cs'[j].ref) == Some(cs'[j]) && cs'[j] in cs {
      assert j != k && cs'[j] == cs[j];
      ClientAtIs(cs, j);
    }
    SameRefSame(cs, k);
    BoundAll(cs, os, b.subs, c.id, r, cs');
  }

  lemma SameRefSame(cs: seq<Client>, k: nat)
    requires Refs(cs) && k < |cs|
    ensures forall j :: 0 <= j < |cs| && cs[j].ref == cs[k].ref ==> j == k
  {
  }

  // ------------------------------------------------------ live session taken

  /** Client k takes over the session of client j, which goes. */
  function Inherited(b: Broker, k: nat, j: nat): Broker
    requires k < |b.clients| && j < |b.clients| && j != k
  {
    var c, p := b.clients[k], b.clients[j];
    b.(clients := RemoveAt(b.clients[k := c.(subCount := Count(b.subs, Named(c.id)), q2 := p.q2,
                                             q2Count := p.q2Count, sid := p.sid)], j),
       subs := Mapped(b.subs, Bind(c.id, c.ref)))
  }

  lemma InheritedHolders(cs: seq<Client>, os: seq<Orphan>, k: nat, j: nat, c: Client)
    requires k < |cs| && j < |cs| && j != k && Holders(cs, os, cs[k].ref) && Active(cs[j], cs[k].ref)
    requires cs[j].id == cs[k].id == c.id && c.ref == cs[k].ref && ClientOk(c)
    ensures Holders(RemoveAt(cs[k := c], j), os, NOBODY)
  {
    hide ClientOk;
    TakenIndices(cs, k, j, c);
    var cs', at := RemoveAt(cs[k := c], j), k - (if j < k then 1 else 0);
    forall i | 0 <= i < |cs| && i != k && i != j && cs[i].established ensures cs[i].id != c.id && Active(cs[i], cs[k].ref) {
      assert Active(cs[i], cs[k].ref) && Active(cs[j], cs[k].ref);
    }
    forall i, m | 0 <= i < m < |cs'|
      ensures cs'[i].ref != cs'[m].ref && (cs'[i].established && cs'[m].established ==> cs'[i].id != cs'[m].id)
    {
      var i', m' := if i < j then i else i + 1, if m < j then m else m + 1;
      assert cs'[i].ref == cs[i'].ref && cs'[m].ref == cs[m'].ref;
      assert i != at ==> cs'[i] == cs[i'];
      assert m != at ==> cs'[m] == cs[m'];
    }
    forall i | 0 <= i < |cs'| ensures ClientOk(cs'[i]) {
      assert i != at ==> cs'[i] == cs[if i < j then i else i + 1];
    }
    forall i, m | 0 <= i < |cs'| && 0 <= m < |os| && cs'[i].established ensures cs'[i].id != os[m].id {
      assert i != at ==> cs'[i] == cs[if i < j then i else i + 1];
    }
  }

  /** Where the clients are after k was updated and j removed. */
  lemma TakenIndices(cs: seq<Client>, k: nat, j: nat, c: Client)
    requires k < |cs| && j < |cs| && j != k
    ensures var cs' := RemoveAt(cs[k := c], j);
      forall i :: 0 <= i < |cs'| ==>
        if i == k - (if j < k then 1 else 0) then cs'[i] == c else cs'[i] == cs[if i < j then i else i + 1]
  {
  }

  lemma InheritedRecords(cs: seq<Client>, os: seq<Orphan>, k: nat, j: nat, c: Client, cap: nat, log: seq<Mark>, next: nat)
    requires Pendings(cs, os, cap) && History(cs, os, log, next) && Sids(cs, os)
    requires k < |cs| && j < |cs| && j != k && cs[j].established
    requires c.q2 == cs[j].q2 && c.q2Count == cs[j].q2Count && c.sid == cs[j].sid
    ensures var cs' := RemoveAt(cs[k := c], j);
      Pendings(cs', os, cap) && History(cs', os, log, next) && Sids(cs', os)
  {
    hide Open, Pending, Elements;
    var cs' := RemoveAt(cs[k := c], j);
    var at := k - (if j < k then 1 else 0);
    assert forall i :: 0 <= i < |cs'| ==> if i == at then cs'[i] == c else cs'[i] == cs[if i < j then i else i + 1];
  }

  lemma InheritedKeeps(b: Broker, k: nat, j: nat)
    requires k < |b.clients| && Inv(b, b.clients[k].ref) && b.clients[k].established
    requires j < |b.clients| && j != k && Active(b.clients[j], b.clients[k].ref) && b.clients[j].id == b.clients[k].id
    ensures Inv(Inherited(b, k, j), NOBODY) && !HasOrphan(b.orphans, b.clients[k].id)
  {
    var cs, os, r := b.clients, b.orphans, b.clients[k].ref;
    var p := cs[j];
    var c := cs[k].(subCount := Count(b.subs, Named(cs[k].id)), q2 := p.q2, q2Count := p.q2Count, sid := p.sid);
    var up := cs[k := c];
    var cs' := RemoveAt(up, j);
    assert ClientOk(cs[k]) && ClientOk(c);
    NoOrphanOfActive(b, j, r);
    OthersFree(b, k, j);
    hide Holders, SubsOk, Counted, Capped, Distinct, Pendings, History, Sids, LogOk, Count, ClientOk, Refs, HasOrphan, Lookup;
    Basics(b, r);
    InheritedHolders(cs, os, k, j, c);
    InheritedRecords(cs, os, k, j, c, b.caps.q2, b.log, b.nextSid);
    SubsRelabelled(b.subs, Bind(c.id, r), b.caps.subs);
    forall x: nat ensures Lookup(cs', x) == if x == p.ref then None else if x == r then Some(c) else Lookup(cs, x) {
      LookupUpdate(cs, k, c, x);
      LookupRemove(up, j, x);
      SameRefSame(cs, k);
    }
    ClientAtIs(cs, j);
    BoundOwners(cs, os, b.subs, c.id, r, cs', os);
    forall i | 0 <= i < |cs'|
      ensures if cs'[i].ref == r then cs'[i].subCount == Count(b.subs, Named(c.id))
              else Lookup(cs, cs'[i].ref) == Some(cs'[i]) && cs'[i] in cs && (Active(cs'[i], r) ==> cs'[i].id != c.id)
    {
      var at := if i < j then i else i + 1;
      assert cs'[i] == up[at];
      if at != k {
        ClientAtIs(cs, at);
        SameRefSame(cs, k);
      }
    }
    BoundAll(cs, os, b.subs, c.id, r, cs');
  }

  lemma OthersFree(b: Broker, k: nat, j: nat)
    requires k < |b.clients| && Inv(b, b.clients[k].ref) && j < |b.clients| && Active(b.clients[j], b.clients[k].ref)
    ensures forall i :: 0 <= i < |b.clients| && i != j && Active(b.clients[i], b.clients[k].ref) ==>
      b.clients[i].id != b.clients[j].id
  {
    hide SubsOk, Counted, Capped, Distinct, Pendings, History, Sids, LogOk, ClientOk;
  }

  // ---------------------------------------------- the branches of a CONNECT

  /** The connecting client as it stands when a session is chosen for it. */
  predicate Bare(c: Client) {
    c.established && c.subCount == 0 && c.q2 == [] && c.q2Count == 0
  }

  lemma NamedAreHeld(b: Broker, k: nat, i: nat)
    requires k < |b.clients| && Inv(b, b.clients[k].ref) && i < |b.subs| && b.subs[i].id == b.clients[k].id
    requires Free(b.clients, b.clients[k].id, b.clients[k].ref)
    ensures b.subs[i].owner.None? && HasOrphan(b.orphans, b.clients[k].id)
  {
    hide Counted, Capped, Distinct, Pendings, History, Sids, LogOk, ClientOk, HasOrphan;
    assert SubOk(b.clients, b.orphans, b.subs[i], b.clients[k].ref);
  }

  /** Clean Start leaves nothing of the session behind. */
  lemma DiscardKeeps(b: Broker, k: nat)
    requires k < |b.clients| && Inv(b, b.clients[k].ref) && Free(b.clients, b.clients[k].id, b.clients[k].ref)
    ensures Inv(Discard(b, k), NOBODY) && Discard(b, k).clients == b.clients
    ensures Discard(b, k).log == b.log
  {
    var id, r := b.clients[k].id, b.clients[k].ref;
    BelongsIsNamed(b, k);
    forall i | 0 <= i < |b.subs|
      ensures Belongs(b.clients, id)(b.subs[i]) == Unbound(id)(b.subs[i])
      ensures Unbound(id)(b.subs[i]) ==> HasOrphan(b.orphans, id)
    {
      assert Belongs(b.clients, id)(b.subs[i]) <==> Named(id)(b.subs[i]);
      if b.subs[i].id == id { NamedAreHeld(b, k, i); }
    }
    WithoutSame(b.subs, Belongs(b.clients, id), Unbound(id));
    var i := OrphanNamed(b.orphans, id);
    hide Inv, Without, Free, Belongs;
    if i < |b.orphans| {
      DropOrphanKeeps(b, i, r);
      OrphanIdsDistinct(b, i, r);
      HasAfterRemove(b.orphans, i, id);
      assert Discard(b, k) == DropOrphan(b, i);
      Admit(DropOrphan(b, i), k);
    } else {
      WithoutNone(b.subs, Unbound(id));
      assert Discard(b, k) == b;
      Admit(b, k);
    }
  }

  /** Without an older connection: reassociation and reclaim together resume
      the orphan, or do nothing. */
  lemma ResumeIs(b: Broker, k: nat)
    requires k < |b.clients| && Inv(b, b.clients[k].ref) && Bare(b.clients[k])
    requires Free(b.clients, b.clients[k].id, b.clients[k].ref)
    ensures var i := OrphanNamed(b.orphans, b.clients[k].id);
      var (b1, n) := Reassociate(b, k);
      && (i < |b.orphans| ==> Reclaim(b1, k) == (Resumed(b, k, i), true))
      && (i == |b.orphans| ==> b1 == b && n == 0 && Reclaim(b, k) == (b, false))
  {
    hide Inv, Count, Free, Reassociate;
    var c := b.clients[k];
    var i := OrphanNamed(b.orphans, c.id);
    ReassociateIs(b, k);
    Basics(b, c.ref);
    if i == |b.orphans| {
      NoneNamed(b, k);
      assert b.clients[k := c] == b.clients;
    } else {
      TwoUpdates(b.clients, k, c.(subCount := c.subCount + Count(b.subs, Named(c.id))), Resumed(b, k, i).clients[k]);
    }
  }

  lemma NoneNamed(b: Broker, k: nat)
    requires k < |b.clients| && Inv(b, b.clients[k].ref) && OrphanNamed(b.orphans, b.clients[k].id) == |b.orphans|
    requires Free(b.clients, b.clients[k].id, b.clients[k].ref)
    ensures Count(b.subs, Named(b.clients[k].id)) == 0
    ensures Mapped(b.subs, Bind(b.clients[k].id, b.clients[k].ref)) == b.subs
  {
    hide Inv, Free;
    var id := b.clients[k].id;
    forall x | 0 <= x < |b.subs| ensures b.subs[x].id != id {
      if b.subs[x].id == id { NamedAreHeld(b, k, x); }
    }
    CountNone(b.subs, Named(id));
  }

  lemma TwoUpdates(cs: seq<Client>, k: nat, c: Client, d: Client)
    requires k < |cs|
    ensures cs[k := c][k := d] == cs[k := d]
  {
  }

  lemma OwnedAreNamed(b: Broker, k: nat, j: nat)
    requires k < |b.clients| && Inv(b, b.clients[k].ref) && j < |b.clients| && j != k
    requires Active(b.clients[j], b.clients[k].ref) && b.clients[j].id == b.clients[k].id
    ensures forall i :: 0 <= i < |b.subs| ==> (b.subs[i].owner == Some(b.clients[j].ref) <==> b.subs[i].id == b.clients[k].id)
    ensures Count(b.subs, Named(b.clients[k].id)) == b.clients[j].subCount
    ensures Persists(b.clients[j]) <==> b.clients[j].expiry != 0
    ensures b.clients[j].q2Count == |b.clients[j].q2|
  {
    var cs, ref := b.clients, b.clients[j].ref;
    NoOrphanOfActive(b, j, cs[k].ref);
    OthersFree(b, k, j);
    Basics(b, cs[k].ref);
    ClientAtIs(cs, j);
    assert ClientOk(cs[j]) && Pending(cs[j].q2, cs[j].q2Count, b.caps.q2) && cs[j].subCount == Count(b.subs, Owned(ref));
    assert SubsOk(cs, b.orphans, b.subs, cs[k].ref);
    hide Inv, Count, HasOrphan, Refs;
    forall i | 0 <= i < |b.subs| ensures b.subs[i].owner == Some(ref) <==> b.subs[i].id == cs[k].id {
      assert SubOk(cs, b.orphans, b.subs[i], cs[k].ref);
      if b.subs[i].owner.Some? { LookupRef(cs, b.subs[i].owner.value); }
    }
    CountSame(b.subs, Named(cs[k].id), Owned(ref));
  }

  /** Inheriting in closed form. */
  lemma InheritIs(b: Broker, k: nat, j: nat)
    requires k < |b.clients| && Inv(b, b.clients[k].ref) && Bare(b.clients[k])
    requires j < |b.clients| && j != k && Active(b.clients[j], b.clients[k].ref) && b.clients[j].id == b.clients[k].id
    requires b.clients[j].expiry != 0
    ensures var c, p, (r, present) := b.clients[k], b.clients[j], Inherit(b, k, j);
      && r == b.(subs := Mapped(b.subs, Bind(c.id, c.ref)), clients := r.clients)
      && |r.clients| == |b.clients|
      && r.clients[k] == c.(subCount := p.subCount, q2 := p.q2, q2Count := p.q2Count, sid := p.sid)
      && r.clients[j].ref == p.ref
      && (forall i :: 0 <= i < |b.clients| && i != k && i != j ==> r.clients[i] == b.clients[i])
      && present == (p.subCount > 0 || p.q2 != [])
  {
    OwnedAreNamed(b, k, j);
    ReassociateIs(b, k);
    hide Inv, Count, Without, Mapped, Persists;
  }

  /** A takeover either passes the whole session on or drops it. */
  lemma TakeoverIs(b: Broker, k: nat, j: nat, clean: bool)
    requires k < |b.clients| && Inv(b, b.clients[k].ref) && Bare(b.clients[k])
    requires j < |b.clients| && j != k && Active(b.clients[j], b.clients[k].ref) && b.clients[j].id == b.clients[k].id
    ensures var r, o := b.clients[k].ref, b.clients[j].ref;
      && ClientAt(b.clients, r) == k && ClientAt(b.clients, o) == j && r != o
      && Takeover(b, r, o, clean)
         == if Survives(b.clients[j], clean) then (Inherited(b, k, j), b.clients[j].subCount > 0 || b.clients[j].q2 != [])
            else (Dropped(b, j), false)
  {
    hide Inv, Count, Refs, Without, Inherit, Persists;
    var cs := b.clients;
    Basics(b, cs[k].ref);
    ClientAtIs(cs, k);
    ClientAtIs(cs, j);
    OwnedAreNamed(b, k, j);
    var c, p := cs[k], cs[j];
    if Survives(p, clean) {
      InheritIs(b, k, j);
      var (b2, present) := Inherit(b, k, j);
      UnboundFrom(b, k, j);
      SameAfterRemoval(cs, k, j, b2.clients[k], b2.clients[j := b2.clients[j].(subCount := 0)]);
    } else {
      UpdateThenRemove(cs, j, p.(subCount := 0));
    }
  }

  lemma UnboundFrom(b: Broker, k: nat, j: nat)
    requires k < |b.clients| && j < |b.clients| && b.clients[j].ref != b.clients[k].ref
    requires forall i :: 0 <= i < |b.subs| ==>
      (b.subs[i].owner == Some(b.clients[j].ref) <==> b.subs[i].id == b.clients[k].id)
    ensures var subs := Mapped(b.subs, Bind(b.clients[k].id, b.clients[k].ref));
      Without(subs, Owned(b.clients[j].ref)) == subs
  {
    WithoutNone(Mapped(b.subs, Bind(b.clients[k].id, b.clients[k].ref)), Owned(b.clients[j].ref));
  }

  lemma SameAfterRemoval(cs: seq<Client>, k: nat, j: nat, c: Client, cs': seq<Client>)
    requires k < |cs| && j < |cs| && j != k && |cs'| == |cs| && cs'[k] == c
    requires forall i :: 0 <= i < |cs| && i != k && i != j ==> cs'[i] == cs[i]
    ensures RemoveAt(cs', j) == RemoveAt(cs[k := c], j)
  {
  }
}
