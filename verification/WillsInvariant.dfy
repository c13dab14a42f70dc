/** Every accepted Will has exactly one fate or one holder. */
module WillsInvariant {
  import opened Common
  import opened Wills
  import opened WillsHistory

  // ------------------------------------------------------------- invariant

  function Lookup(cs: seq<Client>, ref: nat): Option<Client> {
    var k := ClientAt(cs, ref);
    if k < |cs| then Some(cs[k]) else None
  }

  /** Wills whose fate is settled. */
  function Fates(log: seq<Fate>): set<nat> {
    set f | f in log :: f.wid
  }

  function HeldBy(cs: seq<Client>): set<nat> {
    set c | c in cs && c.will.Some? :: c.will.value.wid
  }

  function Waiting(ps: seq<Pend>): set<nat> {
    set p | p in ps :: p.wid
  }

  ghost predicate ClientsOk(cs: seq<Client>) {
    && (forall i, j :: 0 <= i < j < |cs| ==> cs[i].ref != cs[j].ref && cs[i].id != cs[j].id)
    && (forall i, j :: 0 <= i < j < |cs| && cs[i].will.Some? && cs[j].will.Some? ==>
          cs[i].will.value.wid != cs[j].will.value.wid)
    && (forall i :: 0 <= i < |cs| && cs[i].will.Some? && !cs[i].v5 ==> cs[i].will.value.delay == 0)
  }

  ghost predicate PendingOk(ps: seq<Pend>) {
    forall i, j :: 0 <= i < j < |ps| ==> ps[i].id != ps[j].id && ps[i].wid != ps[j].wid
  }

  /** A Will waits only while its client identifier is not connected. */
  ghost predicate Apart(cs: seq<Client>, ps: seq<Pend>) {
    forall i, j :: 0 <= i < |cs| && 0 <= j < |ps| ==> cs[i].id != ps[j].id
  }

  /** No Will has two fates. */
  ghost predicate LogOk(log: seq<Fate>) {
    forall i, j :: 0 <= i < j < |log| ==> log[i].wid != log[j].wid
  }

  /** Conservation: a Will is with a client, waiting, or settled. Those in
      `busy` are being published: settled, but still listed. */
  ghost predicate Kept(held: set<nat>, waiting: set<nat>, fates: set<nat>, next: nat, busy: set<nat>) {
    && held !! waiting
    && (forall w :: w in held || w in waiting || w in fates ==> w < next)
    && (forall w :: w in held || w in waiting ==> (w in fates <==> w in busy))
    && (forall w: nat :: w < next ==> w in held || w in waiting || w in fates)
  }

  /** Clients in `refs` are publishing their Wills. */
  ghost predicate Busy(cs: seq<Client>, busy: set<nat>, refs: set<nat>) {
    forall i :: 0 <= i < |cs| && cs[i].will.Some? && cs[i].will.value.wid in busy ==> cs[i].ref in refs
  }

  ghost predicate Inv(s: State, refs: set<nat>, busy: set<nat>) {
    && ClientsOk(s.clients) && PendingOk(s.pending) && Apart(s.clients, s.pending)
    && LogOk(s.log) && |s.pending| <= s.cap
    && Kept(HeldBy(s.clients), Waiting(s.pending), Fates(s.log), s.nextWid, busy)
    && Busy(s.clients, busy, refs)
  }

  // --------------------------------------------------------------- re-entry

  /** Does this close, followed through the states it meets, close a linked
      client whose Will is being fanned out? Those are the clients in refs. */
  predicate CloseReenters(s: State, ref: nat, closing: Closing, refs: set<nat>)
    decreases closing, 1
  {
    var k := ClientAt(s.clients, ref);
    && k < |s.clients| && s.clients[k].will.Some?
    && (ref in refs
        || (Immediate(s, s.clients[k].will.value)
            && AllReenter(Announce(s, k, s.clients[k].will.value), closing, refs + {ref})))
  }

  predicate AllReenter(s: State, closing: Closing, refs: set<nat>)
    decreases closing, 0
  {
    match closing
    case Quiet => false
    case Closes(ref, inner, rest) =>
      CloseReenters(s, ref, inner, refs) || AllReenter(Close(s, ref, inner), rest, refs)
  }

  function PublishedIn(log: seq<Fate>): set<nat> {
    set f | f in log && f.Published? :: f.wid
  }

  /** Clients in refs are linked with a Will that is out and that closing them
      would send out again. */
  ghost predicate Publishing(s: State, refs: set<nat>) {
    forall x :: x in refs ==>
      var c := Lookup(s.clients, x);
      && c.Some? && c.value.will.Some?
      && c.value.will.value.wid in PublishedIn(s.log) && Immediate(s, c.value.will.value)
  }

  // ------------------------------------------------------------------ lists

  lemma FatesGrow(log: seq<Fate>, f: Fate)
    ensures Fates(log + [f]) == Fates(log) + {f.wid}
  {
    assert forall x :: x in log + [f] <==> x in log || x == f;
  }

  lemma LogGrows(log: seq<Fate>, f: Fate)
    requires LogOk(log) && f.wid !in Fates(log)
    ensures LogOk(log + [f])
  {
    var l := log + [f];
    forall i, j | 0 <= i < j < |l| ensures l[i].wid != l[j].wid {
      assert log[i] in log;
    }
  }

  lemma ClientAtIs(cs: seq<Client>, k: nat)
    requires ClientsOk(cs) && k < |cs|
    ensures ClientAt(cs, cs[k].ref) == k && Lookup(cs, cs[k].ref) == Some(cs[k])
  {
    var j := ClientAt(cs, cs[k].ref);
    assert !(j < k) && !(k < j);
  }

  function WidOf(c: Client): set<nat> {
    if c.will.Some? then {c.will.value.wid} else {}
  }

  lemma ClientsRemove(cs: seq<Client>, k: nat)
    requires ClientsOk(cs) && k < |cs|
    ensures ClientsOk(RemoveAt(cs, k)) && HeldBy(RemoveAt(cs, k)) == HeldBy(cs) - WidOf(cs[k])
  {
    assert ClientsOk(RemoveAt(cs, k)) by { ClientsRest(cs, k); }
    forall w: nat ensures w in HeldBy(RemoveAt(cs, k)) <==> w in HeldBy(cs) && w !in WidOf(cs[k]) {
      HeldRest(cs, k, w);
    }
  }

  lemma ClientsRest(cs: seq<Client>, k: nat)
    requires ClientsOk(cs) && k < |cs|
    ensures ClientsOk(RemoveAt(cs, k))
  {
    var r := RemoveAt(cs, k);
    assert forall i :: 0 <= i < |r| ==> r[i] == cs[if i < k then i else i + 1];
  }

  lemma HeldRest(cs: seq<Client>, k: nat, w: nat)
    requires ClientsOk(cs) && k < |cs|
    ensures w in HeldBy(RemoveAt(cs, k)) <==> w in HeldBy(cs) && w !in WidOf(cs[k])
  {
    var r := RemoveAt(cs, k);
    if w in HeldBy(r) {
      var i := HolderOf(r, w);
      var i' := if i < k then i else i + 1;
      assert r[i] == cs[i'];
      HeldHas(cs, i');
    }
    if w in HeldBy(cs) && w !in WidOf(cs[k]) {
      var i := HolderOf(cs, w);
      var i' := if i < k then i else i - 1;
      assert r[i'] == cs[i];
      HeldHas(r, i');
    }
  }

  lemma HolderOf(cs: seq<Client>, w: nat) returns (i: nat)
    requires w in HeldBy(cs)
    ensures i < |cs| && cs[i].will.Some? && cs[i].will.value.wid == w
  {
    var c :| c in cs && c.will.Some? && c.will.value.wid == w;
    i :| 0 <= i < |cs| && cs[i] == c;
  }

  lemma LookupRemove(cs: seq<Client>, k: nat, x: nat)
    requires ClientsOk(cs) && k < |cs| && x != cs[k].ref
    ensures Lookup(RemoveAt(cs, k), x) == Lookup(cs, x)
  {
    var r, j := RemoveAt(cs, k), ClientAt(cs, x);
    ClientsRemove(cs, k);
    if j < |cs| {
      ClientAtIs(r, if j < k then j else j - 1);
    } else {
      forall i | 0 <= i < |r| ensures r[i].ref != x { assert r[i] == cs[if i < k then i else i + 1]; }
    }
  }

  lemma ClientsPush(cs: seq<Client>, c: Client)
    requires ClientsOk(cs) && ClientAt(cs, c.ref) == |cs| && (forall i :: 0 <= i < |cs| ==> cs[i].id != c.id)
    requires c.will.Some? ==> c.will.value.wid !in HeldBy(cs) && (!c.v5 ==> c.will.value.delay == 0)
    ensures ClientsOk([c] + cs) && HeldBy([c] + cs) == HeldBy(cs) + WidOf(c)
  {
    var r := [c] + cs;
    assert forall i :: 0 < i < |r| ==> r[i] == cs[i - 1];
    forall i | 0 <= i < |cs| && cs[i].will.Some? ensures cs[i].will.value.wid in HeldBy(cs) { assert cs[i] in cs; }
    forall i, j | 0 <= i < j < |r|
      ensures r[i].ref != r[j].ref && r[i].id != r[j].id
      ensures r[i].will.Some? && r[j].will.Some? ==> r[i].will.value.wid != r[j].will.value.wid
    {
      assert r[j] == cs[j - 1];
      if i > 0 { assert r[i] == cs[i - 1]; }
    }
    assert forall x :: x in r <==> x in cs || x == c;
  }

  lemma PendingRemove(ps: seq<Pend>, i: nat)
    requires PendingOk(ps) && i < |ps|
    ensures PendingOk(RemoveAt(ps, i)) && Waiting(RemoveAt(ps, i)) == Waiting(ps) - {ps[i].wid}
  {
    assert PendingOk(RemoveAt(ps, i)) by { PendingRest(ps, i); }
    forall w: nat ensures w in Waiting(RemoveAt(ps, i)) <==> w in Waiting(ps) && w != ps[i].wid {
      WaitingRest(ps, i, w);
    }
  }

  lemma PendingRest(ps: seq<Pend>, i: nat)
    requires PendingOk(ps) && i < |ps|
    ensures PendingOk(RemoveAt(ps, i))
  {
    var r := RemoveAt(ps, i);
    assert forall k :: 0 <= k < |r| ==> r[k] == ps[if k < i then k else k + 1];
  }

  lemma WaitingRest(ps: seq<Pend>, i: nat, w: nat)
    requires PendingOk(ps) && i < |ps|
    ensures w in Waiting(RemoveAt(ps, i)) <==> w in Waiting(ps) && w != ps[i].wid
  {
    var r := RemoveAt(ps, i);
    if w in Waiting(r) {
      var k := WaiterOf(r, w);
      var k' := if k < i then k else k + 1;
      assert r[k] == ps[k'] && ps[k'] in ps;
    }
    if w in Waiting(ps) && w != ps[i].wid {
      var k := WaiterOf(ps, w);
      var k' := if k < i then k else k - 1;
      assert r[k'] == ps[k] && r[k'] in r;
    }
  }

  lemma WaiterOf(ps: seq<Pend>, w: nat) returns (i: nat)
    requires w in Waiting(ps)
    ensures i < |ps| && ps[i].wid == w
  {
    var p :| p in ps && p.wid == w;
    i :| 0 <= i < |ps| && ps[i] == p;
  }

  lemma PendingPush(ps: seq<Pend>, p: Pend)
    requires PendingOk(ps)
    requires p.wid !in Waiting(ps) && forall i :: 0 <= i < |ps| ==> ps[i].id != p.id
    ensures PendingOk([p] + ps) && Waiting([p] + ps) == Waiting(ps) + {p.wid}
  {
    var r := [p] + ps;
    forall i | 0 <= i < |ps| ensures ps[i].wid in Waiting(ps) { assert ps[i] in ps; }
    forall i, j | 0 <= i < j < |r| ensures r[i].id != r[j].id && r[i].wid != r[j].wid {
      assert r[j] == ps[j - 1];
      if i > 0 { assert r[i] == ps[i - 1]; }
    }
    assert forall x :: x in r <==> x in ps || x == p;
  }

  lemma HeldHas(cs: seq<Client>, k: nat)
    requires k < |cs| && cs[k].will.Some?
    ensures cs[k].will.value.wid in HeldBy(cs)
  {
    assert cs[k] in cs;
  }

  lemma ApartRemove(cs: seq<Client>, ps: seq<Pend>, k: nat)
    requires Apart(cs, ps) && k < |cs|
    ensures Apart(RemoveAt(cs, k), ps)
  {
  }

  lemma BusyRemove(cs: seq<Client>, busy: set<nat>, refs: set<nat>, k: nat)
    requires Busy(cs, busy, refs) && k < |cs|
    ensures Busy(RemoveAt(cs, k), busy, refs)
  {
  }

  // -------------------------------------------------------- ways to leave

  /** A client without a Will, or whose Will is dropped, leaves. */
  lemma LeaveKeeps(s: State, k: nat, refs: set<nat>, busy: set<nat>)
    requires Inv(s, refs, busy) && k < |s.clients| && s.clients[k].ref !in refs
    ensures var c := s.clients[k];
      var s' := s.(clients := RemoveAt(s.clients, k));
      && (c.will.None? ==> Inv(s', refs, busy))
      && (c.will.Some? ==> Inv(s'.(log := s.log + [Dropped(c.will.value.wid)]), refs, busy))
  {
    hide HeldBy, Waiting, Fates, ClientsOk, PendingOk, LogOk, Apart;
    var c := s.clients[k];
    ClientsRemove(s.clients, k);
    ApartRemove(s.clients, s.pending, k);
    BusyRemove(s.clients, busy, refs, k);
    if c.will.Some? {
      var w := c.will.value.wid;
      HeldHas(s.clients, k);
      FatesGrow(s.log, Dropped(w));
      LogGrows(s.log, Dropped(w));
    }
  }

  /** The Will moves from its client, which leaves, to the pending list. */
  lemma DeferKeeps(s: State, k: nat, refs: set<nat>, busy: set<nat>, p: Pend)
    requires Inv(s, refs, busy) && k < |s.clients| && s.clients[k].ref !in refs && s.clients[k].will.Some?
    requires |s.pending| < s.cap && p.id == s.clients[k].id && p.wid == s.clients[k].will.value.wid
    ensures Inv(s.(clients := RemoveAt(s.clients, k), pending := [p] + s.pending), refs, busy)
  {
    var ps := [p] + s.pending;
    assert forall i :: 0 <= i < |s.pending| ==> s.pending[i].id != p.id;
    assert Apart(RemoveAt(s.clients, k), ps) by {
      hide Kept, PendingOk;
      forall i, j | 0 <= i < |RemoveAt(s.clients, k)| && 0 <= j < |ps| ensures RemoveAt(s.clients, k)[i].id != ps[j].id {
        var i' := if i < k then i else i + 1;
        assert RemoveAt(s.clients, k)[i] == s.clients[i'];
        if j > 0 { assert ps[j] == s.pending[j - 1]; }
      }
    }
    hide HeldBy, Waiting, Fates, ClientsOk, PendingOk, LogOk, Apart;
    ClientsRemove(s.clients, k);
    HeldHas(s.clients, k);
    BusyRemove(s.clients, busy, refs, k);
    PendingPush(s.pending, p);
  }

  /** Publication begins: the Will is settled and its client busy. */
  lemma BeginKeeps(s: State, k: nat, refs: set<nat>, busy: set<nat>, f: Fate)
    requires Inv(s, refs, busy) && k < |s.clients| && s.clients[k].ref !in refs && s.clients[k].will.Some?
    requires f.wid == s.clients[k].will.value.wid && f.Published?
    ensures Inv(s.(log := s.log + [f]), refs + {s.clients[k].ref}, busy + {f.wid})
  {
    hide HeldBy, Waiting, Fates, PendingOk, LogOk, Apart;
    HeldHas(s.clients, k);
    FatesGrow(s.log, f);
    LogGrows(s.log, f);
    forall i | 0 <= i < |s.clients| && s.clients[i].will.Some? && s.clients[i].will.value.wid in busy + {f.wid}
      ensures s.clients[i].ref in refs + {s.clients[k].ref}
    {
      assert i < k || i == k || k < i;
    }
  }

  /** Publication ends: the client leaves with its Will cleared. */
  lemma EndKeeps(s: State, k: nat, refs: set<nat>, busy: set<nat>)
    requires k < |s.clients| && s.clients[k].will.Some? && s.clients[k].ref !in refs
    requires var w := s.clients[k].will.value.wid;
      w !in busy && Inv(s, refs + {s.clients[k].ref}, busy + {w})
    ensures Inv(s.(clients := RemoveAt(s.clients, k)), refs, busy)
  {
    var w, cs := s.clients[k].will.value.wid, RemoveAt(s.clients, k);
    forall i | 0 <= i < |cs| && cs[i].will.Some? && cs[i].will.value.wid in busy ensures cs[i].ref in refs {
      var i' := if i < k then i else i + 1;
      assert cs[i] == s.clients[i'];
    }
    hide HeldBy, Waiting, Fates, PendingOk, LogOk, Apart, ClientsOk;
    HeldHas(s.clients, k);
    ClientsRemove(s.clients, k);
    ApartRemove(s.clients, s.pending, k);
  }

  // ------------------------------------------------------------------ close

  lemma SetThenRemove(cs: seq<Client>, k: nat, c: Client)
    requires k < |cs|
    ensures RemoveAt(cs[k := c], k) == RemoveAt(cs, k)
  {
  }

  /** What a close does, path by path. */
  lemma CloseIs(s: State, k: nat, closing: Closing)
    requires k < |s.clients| && ClientsOk(s.clients)
    ensures var c := s.clients[k];
      var r := Close(s, c.ref, closing);
      && (c.will.None? ==> r == s.(clients := RemoveAt(s.clients, k)))
      && (c.will.Some? && !Immediate(s, c.will.value) ==>
            r == Defer(s, k, c.will.value).(clients := RemoveAt(s.clients, k)))
      && (c.will.Some? && Immediate(s, c.will.value) ==>
            var s1 := CloseAll(Announce(s, k, c.will.value), closing);
            && r.log == s1.log
            && (ClientAt(s1.clients, c.ref) < |s1.clients| ==>
                  r == s1.(clients := RemoveAt(s1.clients, ClientAt(s1.clients, c.ref)))))
  {
    hide CloseAll, InFront, Announce;
    var c := s.clients[k];
    ClientAtIs(s.clients, k);
    if c.will.Some? {
      var w := c.will.value;
      if !Immediate(s, w) {
        FirstAt(s.clients, k);
        SetThenRemove(s.clients, k, c.(will := None));
      } else {
        var s1 := CloseAll(Announce(s, k, w), closing);
        var k1 := ClientAt(s1.clients, c.ref);
        if k1 < |s1.clients| {
          FirstAt(s1.clients, k1);
          SetThenRemove(s1.clients, k1, s1.clients[k1].(will := None));
        }
      }
    }
  }

  /** Clearing a Will does not move the client. */
  lemma FirstAt(cs: seq<Client>, k: nat)
    requires k < |cs| && ClientAt(cs, cs[k].ref) == k
    ensures ClientAt(cs[k := cs[k].(will := None)], cs[k].ref) == k
  {
    var r := cs[k := cs[k].(will := None)];
    var j := ClientAt(r, cs[k].ref);
    assert r[k].ref == cs[k].ref;
    assert !(k < j) && !(j < k);
  }

  /** Closings keep everything and leave the publishing clients alone. */
  ghost predicate Undisturbed(s: State, r: State, refs: set<nat>, busy: set<nat>) {
    && Inv(r, refs, busy)
    && r.clock == s.clock && r.nextWid == s.nextWid && r.cap == s.cap && r.maxTime == s.maxTime
    && s.log <= r.log
    && forall x :: x in refs ==> Lookup(r.clients, x) == Lookup(s.clients, x)
  }

  /** A later state with the same publishing clients and a pool no emptier. */
  lemma PublishingKept(s: State, r: State, refs: set<nat>)
    requires Publishing(s, refs) && s.log <= r.log && r.cap == s.cap && |s.pending| <= |r.pending|
    requires forall x :: x in refs ==> Lookup(r.clients, x) == Lookup(s.clients, x)
    ensures Publishing(r, refs)
  {
    hide Lookup;
    forall w | w in PublishedIn(s.log) ensures w in PublishedIn(r.log) {
      var f :| f in s.log && f.Published? && f.wid == w;
      assert f in r.log;
    }
  }

  lemma PublishingBegins(s: State, k: nat, refs: set<nat>)
    requires Publishing(s, refs) && ClientsOk(s.clients) && k < |s.clients| && s.clients[k].will.Some?
    requires Immediate(s, s.clients[k].will.value)
    ensures Publishing(Announce(s, k, s.clients[k].will.value), refs + {s.clients[k].ref})
  {
    var w := s.clients[k].will.value;
    var r := Announce(s, k, w);
    ClientAtIs(s.clients, k);
    hide DueAt, ClientsOk, Lookup;
    PublishingKept(s, r, refs);
    var f := r.log[|s.log|];
    assert f in r.log && f.wid == w.wid;
    hide Announce;
  }

  lemma Deferrable(s: State, w: Will)
    requires !Immediate(s, w)
    ensures |s.pending| < s.cap
  {
  }

  lemma InvClients(s: State, refs: set<nat>, busy: set<nat>)
    requires Inv(s, refs, busy)
    ensures ClientsOk(s.clients)
  {
  }

  lemma {:induction false} CloseKeeps(s: State, ref: nat, closing: Closing, refs: set<nat>, busy: set<nat>)
    requires Inv(s, refs, busy) && Publishing(s, refs) && !CloseReenters(s, ref, closing, refs)
    ensures Undisturbed(s, Close(s, ref, closing), refs, busy)
    decreases closing, 2
  {
    hide AllReenter, CloseAll, Inv, ClientsOk, Announce, Immediate, PublishedIn;
    var k := ClientAt(s.clients, ref);
    if k < |s.clients| {
      var c := s.clients[k];
      assert ref !in refs;
      InvClients(s, refs, busy);
      hide Lookup;
      CloseIs(s, k, closing);
      forall x | x in refs ensures Lookup(RemoveAt(s.clients, k), x) == Lookup(s.clients, x) {
        LookupRemove(s.clients, k, x);
      }
      LeaveKeeps(s, k, refs, busy);
      if c.will.Some? {
        if Immediate(s, c.will.value) {
          ImmediateKeeps(s, k, closing, refs, busy);
        } else {
          Deferrable(s, c.will.value);
          DeferKeeps(s, k, refs, busy, Defer(s, k, c.will.value).pending[0]);
        }
      }
    }
  }

  lemma {:induction false} ImmediateKeeps(s: State, k: nat, closing: Closing, refs: set<nat>, busy: set<nat>)
    requires Inv(s, refs, busy) && Publishing(s, refs)
    requires k < |s.clients| && s.clients[k].will.Some? && s.clients[k].ref !in refs
    requires Immediate(s, s.clients[k].will.value)
    requires !AllReenter(Announce(s, k, s.clients[k].will.value), closing, refs + {s.clients[k].ref})
    ensures var c, w := s.clients[k], s.clients[k].will.value;
      var s1 := CloseAll(Announce(s, k, w), closing);
      var k1 := ClientAt(s1.clients, c.ref);
      && k1 < |s1.clients| && s1.clients[k1] == c
      && Undisturbed(s, s1.(clients := RemoveAt(s1.clients, k1)), refs, busy)
      && (forall i :: 0 <= i < |s1.clients| && i != k1 ==> s1.clients[i].id != c.id)
      && (forall i :: 0 <= i < |s1.pending| ==> s1.pending[i].id != c.id)
    decreases closing, 1
  {
    hide AllReenter, CloseAll, Kept, PendingOk, LogOk, Busy, HeldBy, Waiting, Fates, ClientsOk, PublishedIn, Immediate, Publishing, InFront, DueAt;
    var c, w := s.clients[k], s.clients[k].will.value;
    var s0 := Announce(s, k, w);
    var f := s0.log[|s.log|];
    NotBusy(s, k, refs, busy);
    BeginKeeps(s, k, refs, busy, f);
    PublishingBegins(s, k, refs);
    CloseAllKeeps(s0, closing, refs + {c.ref}, busy + {w.wid});
    var s1 := CloseAll(s0, closing);
    ClientAtIs(s.clients, k);
    assert Lookup(s1.clients, c.ref) == Some(c);
    var k1 := ClientAt(s1.clients, c.ref);
    EndKeeps(s1, k1, refs, busy);
    OnlyNamed(s1.clients, k1);
    forall x | x in refs ensures Lookup(RemoveAt(s1.clients, k1), x) == Lookup(s.clients, x) {
      LookupRemove(s1.clients, k1, x);
    }
  }

  lemma OnlyNamed(cs: seq<Client>, k: nat)
    requires ClientsOk(cs) && k < |cs|
    ensures forall i :: 0 <= i < |cs| && i != k ==> cs[i].id != cs[k].id
  {
  }

  lemma NotBusy(s: State, k: nat, refs: set<nat>, busy: set<nat>)
    requires Inv(s, refs, busy) && k < |s.clients| && s.clients[k].will.Some? && s.clients[k].ref !in refs
    ensures s.clients[k].will.value.wid !in busy
  {
  }

  lemma {:induction false} CloseAllKeeps(s: State, closing: Closing, refs: set<nat>, busy: set<nat>)
    requires Inv(s, refs, busy) && Publishing(s, refs) && !AllReenter(s, closing, refs)
    ensures Undisturbed(s, CloseAll(s, closing), refs, busy)
    decreases closing, 0
  {
    hide Inv, Close, Lookup, CloseReenters, Publishing;
    match closing
    case Quiet =>
    case Closes(ref, inner, rest) =>
      CloseKeeps(s, ref, inner, refs, busy);
      PublishingKept(s, Close(s, ref, inner), refs);
      CloseAllKeeps(Close(s, ref, inner), rest, refs, busy);
  }

  // ------------------------------------------------------- published again

  /** Some Will was published twice. */
  ghost predicate Twice(log: seq<Fate>) {
    exists i, j :: 0 <= i < j < |log| && log[i].Published? && log[j].Published? && log[i].wid == log[j].wid
  }

  lemma TwiceLater(log: seq<Fate>, more: seq<Fate>)
    requires Twice(log) && log <= more
    ensures Twice(more)
  {
    var i, j :| 0 <= i < j < |log| && log[i].Published? && log[j].Published? && log[i].wid == log[j].wid;
    assert more[i] == log[i] && more[j] == log[j];
  }

  lemma TwiceNow(log: seq<Fate>, f: Fate)
    requires f.Published? && f.wid in PublishedIn(log)
    ensures Twice(log + [f])
  {
    var g :| g in log && g.Published? && g.wid == f.wid;
    var i :| 0 <= i < |log| && log[i] == g;
    assert (log + [f])[i] == g && (log + [f])[|log|] == f;
  }

  /** Closing a client inside its own Will's fan-out publishes it again. */
  lemma {:induction false} CloseDups(s: State, ref: nat, closing: Closing, refs: set<nat>, busy: set<nat>)
    requires Inv(s, refs, busy) && Publishing(s, refs) && CloseReenters(s, ref, closing, refs)
    ensures Twice(Close(s, ref, closing).log)
    decreases closing, 1
  {
    hide AllReenter, CloseAll, Close, Inv, ClientsOk, Immediate, PublishedIn, Twice, Follows, DueAt, Publishing;
    var k := ClientAt(s.clients, ref);
    var w := s.clients[k].will.value;
    InvClients(s, refs, busy);
    CloseIs(s, k, closing);
    ClientAtIs(s.clients, k);
    var s0 := Announce(s, k, w);
    if ref in refs {
      AgainOut(s, k, refs);
      CloseAllGrows(s0, closing);
      TwiceLater(s0.log, CloseAll(s0, closing).log);
    } else {
      NotBusy(s, k, refs, busy);
      BeginKeeps(s, k, refs, busy, s0.log[|s.log|]);
      PublishingBegins(s, k, refs);
      AllDups(s0, closing, refs + {ref}, busy + {w.wid});
    }
  }

  lemma AgainOut(s: State, k: nat, refs: set<nat>)
    requires Publishing(s, refs) && k < |s.clients| && s.clients[k].will.Some? && s.clients[k].ref in refs
    requires Lookup(s.clients, s.clients[k].ref) == Some(s.clients[k])
    ensures Immediate(s, s.clients[k].will.value) && Twice(Announce(s, k, s.clients[k].will.value).log)
  {
    hide Twice, PublishedIn, DueAt, Lookup;
    TwiceNow(s.log, Announce(s, k, s.clients[k].will.value).log[|s.log|]);
  }

  lemma CloseAllGrows(s: State, closing: Closing)
    ensures s.log <= CloseAll(s, closing).log
  {
    hide CloseAll;
    CloseAllFollows(s, closing);
  }

  lemma {:induction false} AllDups(s: State, closing: Closing, refs: set<nat>, busy: set<nat>)
    requires Inv(s, refs, busy) && Publishing(s, refs) && AllReenter(s, closing, refs)
    ensures Twice(CloseAll(s, closing).log)
    decreases closing, 0
  {
    hide Inv, Close, Lookup, CloseReenters, Publishing, Twice;
    match closing
    case Quiet =>
    case Closes(ref, inner, rest) =>
      var s1 := Close(s, ref, inner);
      if CloseReenters(s, ref, inner, refs) {
        CloseDups(s, ref, inner, refs, busy);
        CloseAllGrows(s1, rest);
        TwiceLater(s1.log, CloseAll(s1, rest).log);
      } else {
        CloseKeeps(s, ref, inner, refs, busy);
        PublishingKept(s, s1, refs);
        AllDups(s1, rest, refs, busy);
      }
  }
}
