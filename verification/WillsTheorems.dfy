/** What becomes of Wills over every run. */
module WillsTheorems {
  import opened Common
  import opened Wills
  import opened WillsHistory
  import opened WillsInvariant

  // ------------------------------------------------------- other departures

  lemma ClearIs(s: State, k: nat)
    requires k < |s.clients| && ClientsOk(s.clients)
    ensures var c := s.clients[k];
      Unlink(Clear(s, k), c.ref)
      == if c.will.None? then s.(clients := RemoveAt(s.clients, k))
         else s.(clients := RemoveAt(s.clients, k), log := s.log + [Dropped(c.will.value.wid)])
  {
    ClientAtIs(s.clients, k);
    FirstAt(s.clients, k);
    SetThenRemove(s.clients, k, s.clients[k].(will := None));
  }

  lemma ClearKeeps(s: State, k: nat)
    requires Inv(s, {}, {}) && k < |s.clients|
    ensures Inv(Unlink(Clear(s, k), s.clients[k].ref), {}, {})
  {
    ClearIs(s, k);
    LeaveKeeps(s, k, {}, {});
  }

  lemma DisconnectKeeps(s: State, ref: nat, withWill: bool, closing: Closing)
    requires Inv(s, {}, {})
    ensures DisconnectReenters(s, ref, withWill, closing) ==> Twice(Disconnect(s, ref, withWill, closing).log)
    ensures !DisconnectReenters(s, ref, withWill, closing) ==> Inv(Disconnect(s, ref, withWill, closing), {}, {})
  {
    hide Inv, PublishWill, CloseReenters, Twice;
    var k := ClientAt(s.clients, ref);
    if k < |s.clients| {
      DisconnectClose(s, ref, withWill, closing);
      if withWill && s.clients[k].v5 {
        CloseOutcome(s, ref, closing);
      } else {
        ClearKeeps(s, k);
      }
    }
  }

  /** The close as an event: its re-entry decides. */
  lemma CloseOutcome(s: State, ref: nat, closing: Closing)
    requires Inv(s, {}, {})
    ensures CloseReenters(s, ref, closing, {}) ==> Twice(Close(s, ref, closing).log)
    ensures !CloseReenters(s, ref, closing, {}) ==> Inv(Close(s, ref, closing), {}, {})
  {
    hide Inv, Close, CloseReenters, Twice;
    if CloseReenters(s, ref, closing, {}) {
      CloseDups(s, ref, closing, {}, {});
    } else {
      CloseKeeps(s, ref, closing, {}, {});
    }
  }

  predicate DisconnectReenters(s: State, ref: nat, withWill: bool, closing: Closing) {
    var k := ClientAt(s.clients, ref);
    k < |s.clients| && withWill && s.clients[k].v5 && CloseReenters(s, ref, closing, {})
  }

  lemma DisconnectClose(s: State, ref: nat, withWill: bool, closing: Closing)
    ensures var k := ClientAt(s.clients, ref);
      && k < |s.clients| && withWill && s.clients[k].v5 ==> Disconnect(s, ref, withWill, closing) == Close(s, ref, closing)
  {
    hide PublishWill;
  }

  lemma CancelKeeps(s: State, id: bytes)
    requires Inv(s, {}, {})
    ensures Inv(Cancel(s, id), {}, {}) && Cancel(s, id).clients == s.clients
    ensures forall j :: 0 <= j < |Cancel(s, id).pending| ==> Cancel(s, id).pending[j].id != id
  {
    var i := PendingFor(s.pending, id);
    if i < |s.pending| {
      var p, ps := s.pending[i], RemoveAt(s.pending, i);
      assert p in s.pending;
      assert p.wid in Waiting(s.pending);
      assert forall j :: 0 <= j < |ps| ==> ps[j] == s.pending[if j < i then j else j + 1] && ps[j].id != id;
      hide HeldBy, Waiting, Fates, ClientsOk, PendingOk, LogOk;
      PendingRemove(s.pending, i);
      FatesGrow(s.log, Cancelled(p.wid));
      LogGrows(s.log, Cancelled(p.wid));
    }
  }

  /** After a takeover the identifier is neither connected nor waiting. */
  ghost predicate Vacant(s: State, id: bytes) {
    && (forall i :: 0 <= i < |s.clients| ==> s.clients[i].id != id)
    && (forall j :: 0 <= j < |s.pending| ==> s.pending[j].id != id)
  }

  predicate TakeOverReenters(s: State, id: bytes, closing: Closing) {
    var k := ClientNamed(s.clients, id);
    k < |s.clients| && !s.clients[k].v5 && CloseReenters(s, s.clients[k].ref, closing, {})
  }

  lemma TakeOverKeeps(s: State, id: bytes, closing: Closing)
    requires Inv(s, {}, {}) && forall j :: 0 <= j < |s.pending| ==> s.pending[j].id != id
    requires !TakeOverReenters(s, id, closing)
    ensures Inv(TakeOver(s, id, closing), {}, {}) && Vacant(TakeOver(s, id, closing), id)
    ensures TakeOver(s, id, closing).nextWid == s.nextWid
  {
    var k := ClientNamed(s.clients, id);
    if k < |s.clients| {
      var c := s.clients[k];
      if c.v5 {
        ClearKeeps(s, k);
        ClearIs(s, k);
        GoneVacant(s.clients, k);
      } else {
        PublishingTakeOver(s, k, closing);
      }
    }
  }

  lemma TakeOverDups(s: State, id: bytes, closing: Closing)
    requires Inv(s, {}, {}) && TakeOverReenters(s, id, closing)
    ensures Twice(TakeOver(s, id, closing).log)
  {
    hide Inv, Close, CloseReenters, Twice, TakeOver;
    var k := ClientNamed(s.clients, id);
    InvClients(s, {}, {});
    ClientAtIs(s.clients, k);
    TakeOverClose(s, k, closing);
    CloseDups(s, s.clients[k].ref, closing, {}, {});
  }

  lemma GoneVacant(cs: seq<Client>, k: nat)
    requires ClientsOk(cs) && k < |cs|
    ensures forall i :: 0 <= i < |RemoveAt(cs, k)| ==> RemoveAt(cs, k)[i].id != cs[k].id
  {
    var r := RemoveAt(cs, k);
    forall i | 0 <= i < |r| ensures r[i].id != cs[k].id {
      assert r[i] == cs[if i < k then i else i + 1];
    }
  }

  /** A version 3.1.1 client taken over publishes its Will at once. */
  lemma PublishingTakeOver(s: State, k: nat, closing: Closing)
    requires Inv(s, {}, {}) && k < |s.clients| && !s.clients[k].v5
    requires !CloseReenters(s, s.clients[k].ref, closing, {})
    requires ClientNamed(s.clients, s.clients[k].id) == k
    requires forall j :: 0 <= j < |s.pending| ==> s.pending[j].id != s.clients[k].id
    ensures var r := TakeOver(s, s.clients[k].id, closing);
      Inv(r, {}, {}) && Vacant(r, s.clients[k].id) && r.nextWid == s.nextWid
  {
    hide Inv, CloseAll, PublishWill, Close, TakeOver, AllReenter, ClientsOk, Lookup, Announce;
    var c := s.clients[k];
    OldClient(s, k);
    ClientAtIs(s.clients, k);
    TakeOverClose(s, k, closing);
    CloseIs(s, k, closing);
    GoneVacant(s.clients, k);
    CloseKeeps(s, c.ref, closing, {}, {});
    if c.will.Some? {
      assert Immediate(s, c.will.value);
      ImmediateKeeps(s, k, closing, {}, {});
    }
  }

  lemma OldClient(s: State, k: nat)
    requires Inv(s, {}, {}) && k < |s.clients| && !s.clients[k].v5
    ensures ClientsOk(s.clients) && (s.clients[k].will.Some? ==> s.clients[k].will.value.delay == 0)
  {
    hide Kept, PendingOk, LogOk, Apart, Busy;
  }

  lemma TakeOverClose(s: State, k: nat, closing: Closing)
    requires k < |s.clients| && !s.clients[k].v5 && ClientNamed(s.clients, s.clients[k].id) == k
    requires ClientAt(s.clients, s.clients[k].ref) == k
    ensures TakeOver(s, s.clients[k].id, closing) == Close(s, s.clients[k].ref, closing)
  {
    hide PublishWill;
  }

  predicate ConnectReenters(s: State, ref: nat, id: bytes, closing: Closing) {
    ClientAt(s.clients, ref) == |s.clients| && TakeOverReenters(Cancel(s, id), id, closing)
  }

  lemma ConnectKeeps(s: State, ref: nat, id: bytes, v5: bool, expiry: nat, will: Option<nat>, closing: Closing)
    requires Inv(s, {}, {})
    ensures ConnectReenters(s, ref, id, closing) ==> Twice(Connect(s, ref, id, v5, expiry, will, closing).log)
    ensures !ConnectReenters(s, ref, id, closing) ==> Inv(Connect(s, ref, id, v5, expiry, will, closing), {}, {})
  {
    hide Inv, CloseAll, Close, PublishWill, TakeOver, Cancel, TakeOverReenters, InFront, Twice;
    if ClientAt(s.clients, ref) == |s.clients| {
      CancelKeeps(s, id);
      var s0 := Cancel(s, id);
      if TakeOverReenters(s0, id, closing) {
        TakeOverDups(s0, id, closing);
      } else {
        TakeOverKeeps(s0, id, closing);
        var s1 := TakeOver(s0, id, closing);
        var c := Client(ref, id, v5, expiry, WillOf(s1, v5, will));
        NotThere(s0, ref, id, closing);
        JoinKeeps(s1, c);
      }
    }
  }

  /** Taking over brings in no client. */
  lemma NotThere(s: State, ref: nat, id: bytes, closing: Closing)
    requires ClientAt(s.clients, ref) == |s.clients|
    ensures ClientAt(TakeOver(s, id, closing).clients, ref) == |TakeOver(s, id, closing).clients|
  {
    var k := ClientNamed(s.clients, id);
    if k < |s.clients| {
      PublishAbsent(s, k, closing, ref);
      ClearAbsent(s, k, ref);
      var s1 := if s.clients[k].v5 then Clear(s, k) else PublishWill(s, k, closing);
      hide PublishWill, Clear;
      UnlinkAbsent(s1, s.clients[k].ref, ref);
    }
  }

  predicate Absent(cs: seq<Client>, ref: nat) {
    forall i :: 0 <= i < |cs| ==> cs[i].ref != ref
  }

  lemma ClearAbsent(s: State, k: nat, ref: nat)
    requires k < |s.clients| && Absent(s.clients, ref)
    ensures Absent(Clear(s, k).clients, ref)
  {
  }

  lemma UnlinkAbsent(s: State, x: nat, ref: nat)
    requires Absent(s.clients, ref)
    ensures Absent(Unlink(s, x).clients, ref)
  {
  }

  lemma {:induction false} PublishAbsent(s: State, k: nat, closing: Closing, ref: nat)
    requires k < |s.clients| && Absent(s.clients, ref)
    ensures Absent(PublishWill(s, k, closing).clients, ref)
    decreases closing, 1
  {
    hide CloseAll, InFront, DueAt;
    match s.clients[k].will
    case None =>
    case Some(w) =>
      if Immediate(s, w) {
        CloseAllAbsent(Announce(s, k, w), closing, ref);
      }
  }

  lemma {:induction false} CloseAllAbsent(s: State, closing: Closing, ref: nat)
    requires Absent(s.clients, ref)
    ensures Absent(CloseAll(s, closing).clients, ref)
    decreases closing, 0
  {
    hide PublishWill, InFront;
    match closing
    case Quiet =>
    case Closes(x, inner, rest) =>
      var k := ClientAt(s.clients, x);
      if k < |s.clients| {
        PublishAbsent(s, k, inner, ref);
        UnlinkAbsent(PublishWill(s, k, inner), x, ref);
      }
      CloseAllAbsent(Close(s, x, inner), rest, ref);
  }

  /** A newly accepted connection and its Will. */
  lemma JoinKeeps(s: State, c: Client)
    requires Inv(s, {}, {}) && Vacant(s, c.id) && ClientAt(s.clients, c.ref) == |s.clients|
    requires c.will.Some? ==> c.will.value.wid == s.nextWid && (!c.v5 ==> c.will.value.delay == 0)
    ensures Inv(s.(clients := [c] + s.clients, nextWid := if c.will.Some? then s.nextWid + 1 else s.nextWid), {}, {})
  {
    var cs := [c] + s.clients;
    assert s.nextWid !in HeldBy(s.clients);
    ClientsPush(s.clients, c);
    assert Apart(cs, s.pending) by {
      hide Kept, PendingOk;
      forall i, j | 0 <= i < |cs| && 0 <= j < |s.pending| ensures cs[i].id != s.pending[j].id {
        if i > 0 { assert cs[i] == s.clients[i - 1]; }
      }
    }
    hide HeldBy, Waiting, Fates, ClientsOk, PendingOk, LogOk, Apart;
  }

  // ------------------------------------------------------------------ sweep

  function NotDue(ps: seq<Pend>, now: nat): seq<Pend> {
    if ps == [] then [] else (if now >= ps[0].due then [] else [ps[0]]) + NotDue(ps[1..], now)
  }

  /** Does one of the sweep's fan-outs close a client inside its own Will's
      fan-out? */
  predicate SweepReenters(s: State, left: nat, now: nat, cs: seq<Closing>)
    requires left <= |s.pending|
    decreases left
  {
    if left == 0 then false
    else
      var p := s.pending[|s.pending| - left];
      if now >= p.due then
        var s1 := CloseAll(Release(s, p), Next(cs));
        || AllReenter(Release(s, p), Next(cs), {})
        || SweepReenters(s1.(pending := RemoveAt(s1.pending, |s1.pending| - left)), left - 1, now, Rest(cs))
      else SweepReenters(s, left - 1, now, cs)
  }

  lemma SweepReentersStep(s: State, left: nat, now: nat, cs: seq<Closing>)
    requires left <= |s.pending|
    ensures left == 0 ==> !SweepReenters(s, left, now, cs)
    ensures left > 0 ==>
      var p := s.pending[|s.pending| - left];
      if now >= p.due then
        var s1 := CloseAll(Release(s, p), Next(cs));
        && InFront(s.pending, s1.pending) && |s.pending| <= |s1.pending|
        && (SweepReenters(s, left, now, cs) <==>
              || AllReenter(Release(s, p), Next(cs), {})
              || SweepReenters(s1.(pending := RemoveAt(s1.pending, |s1.pending| - left)), left - 1, now, Rest(cs)))
      else SweepReenters(s, left, now, cs) <==> SweepReenters(s, left - 1, now, cs)
  {
    hide CloseAll, AllReenter;
  }

  /** Publishing the waiting Will at i, whatever closes meanwhile. */
  lemma PublishPending(s: State, i: nat, closing: Closing)
    requires Inv(s, {}, {}) && i < |s.pending|
    ensures AllReenter(Release(s, s.pending[i]), closing, {}) ==>
      Twice(CloseAll(Release(s, s.pending[i]), closing).log)
    ensures !AllReenter(Release(s, s.pending[i]), closing, {}) ==>
      var p := s.pending[i];
      var f := Published(p.wid, s.clock, p.due, p.end);
      var s1 := CloseAll(Release(s, p), closing);
      var at := |s1.pending| - |s.pending| + i;
      && 0 <= at < |s1.pending| && s1.pending[at] == p
      && Inv(s1.(pending := RemoveAt(s1.pending, at)), {}, {})
      && s1.clock == s.clock && f in s1.log && s.log <= s1.log
  {
    hide Inv, CloseAll, AllReenter, Twice;
    var p := s.pending[i];
    var s0 := Release(s, p);
    var f := s0.log[|s.log|];
    PendingBegins(s, i, f);
    if AllReenter(s0, closing, {}) {
      AllDups(s0, closing, {}, {p.wid});
    } else {
      CloseAllKeeps(s0, closing, {}, {p.wid});
      var s1 := CloseAll(s0, closing);
      var at := |s1.pending| - |s.pending| + i;
      assert s1.pending[|s1.pending| - |s.pending|..][i] == p;
      assert s1.log[|s.log|] == f;
      FinishPending(s1, at);
    }
  }

  lemma PendingBegins(s: State, i: nat, f: Fate)
    requires Inv(s, {}, {}) && i < |s.pending| && f.Published? && f.wid == s.pending[i].wid
    ensures Inv(s.(log := s.log + [f]), {}, {f.wid})
  {
    hide HeldBy, Waiting, Fates, ClientsOk, PendingOk, LogOk, Apart;
    WaitingHas(s.pending, i);
    FatesGrow(s.log, f);
    LogGrows(s.log, f);
    BusyNone(s.clients, f.wid, s.pending);
  }

  lemma BusyNone(cs: seq<Client>, w: nat, ps: seq<Pend>)
    requires HeldBy(cs) !! Waiting(ps) && w in Waiting(ps)
    ensures Busy(cs, {w}, {})
  {
    forall i | 0 <= i < |cs| && cs[i].will.Some? ensures cs[i].will.value.wid != w { HeldHas(cs, i); }
  }

  lemma FinishPending(s: State, at: nat)
    requires at < |s.pending| && Inv(s, {}, {s.pending[at].wid})
    ensures Inv(s.(pending := RemoveAt(s.pending, at)), {}, {})
  {
    hide HeldBy, Waiting, Fates, ClientsOk, PendingOk, LogOk;
    PendingRemove(s.pending, at);
    assert Apart(s.clients, RemoveAt(s.pending, at));
    assert s.pending[at].wid in Waiting(s.pending) by { WaitingHas(s.pending, at); }
  }

  lemma WaitingHas(ps: seq<Pend>, i: nat)
    requires i < |ps|
    ensures ps[i].wid in Waiting(ps)
  {
    assert ps[i] in ps;
  }

  lemma KeepStep(ps: seq<Pend>, n: nat, now: nat)
    requires n < |ps|
    ensures NotDue(ps[n..], now) == (if now >= ps[n].due then [] else [ps[n]]) + NotDue(ps[n + 1..], now)
    ensures now < ps[n].due ==> ps[..n + 1] + NotDue(ps[n + 1..], now) == ps[..n] + NotDue(ps[n..], now)
  {
    assert ps[n..][0] == ps[n] && ps[n..][1..] == ps[n + 1..];
    assert ps[..n + 1] == ps[..n] + [ps[n]];
  }

  /** Taking the published entry out of the list with entries put in front. */
  lemma FrontStep(ps: seq<Pend>, q: seq<Pend>, n: nat, now: nat)
    requires InFront(ps, q) && n < |ps|
    ensures var at := |q| - |ps| + n;
      var q' := RemoveAt(q, at);
      && InFront(ps[..n] + NotDue(ps[n + 1..], now), q'[..at] + NotDue(q'[at..], now))
      && q'[at..] == ps[n + 1..]
  {
    hide NotDue;
    var d := |q| - |ps|;
    var at := d + n;
    var q' := RemoveAt(q, at);
    assert q == q[..d] + ps;
    assert q'[at..] == ps[n + 1..];
    assert q'[..at] == q[..d] + ps[..n];
    var kept := ps[..n] + NotDue(ps[n + 1..], now);
    assert q'[..at] + NotDue(q'[at..], now) == q[..d] + kept;
    assert (q[..d] + kept)[d..] == kept;
  }

  /** What the sweep leaves, from position n on. */
  ghost predicate Swept(s: State, n: nat, now: nat, r: State)
    requires n <= |s.pending|
  {
    && Inv(r, {}, {}) && s.log <= r.log
    && InFront(s.pending[..n] + NotDue(s.pending[n..], now), r.pending)
    && (forall i :: n <= i < |s.pending| && s.pending[i].due <= now ==>
          Published(s.pending[i].wid, s.clock, s.pending[i].due, s.pending[i].end) in r.log)
  }

  /** The sweep publishes every Will that is due, keeps the others in order
      and loses none of those its fan-outs put in front; if one of its fan-outs
      re-enters, a Will goes out twice. */
  lemma {:induction false} SweepExact(s: State, left: nat, now: nat, cs: seq<Closing>)
    requires Inv(s, {}, {}) && left <= |s.pending| && now <= s.clock
    ensures SweepReenters(s, left, now, cs) ==> Twice(Sweep(s, left, now, cs).log)
    ensures !SweepReenters(s, left, now, cs) ==> Swept(s, |s.pending| - left, now, Sweep(s, left, now, cs))
    decreases left
  {
    hide Inv, CloseAll, AllReenter, SweepReenters, InFront, Swept, Sweep, Twice, Release, Follows;
    var n := |s.pending| - left;
    SweepStep(s, left, now, cs);
    SweepReentersStep(s, left, now, cs);
    if left == 0 {
      SweptNothing(s, now);
    } else {
      var p := s.pending[n];
      if now >= p.due {
        PublishPending(s, n, Next(cs));
        var s1 := CloseAll(Release(s, p), Next(cs));
        var s2 := s1.(pending := RemoveAt(s1.pending, |s1.pending| - left));
        if AllReenter(Release(s, p), Next(cs), {}) {
          SweepGrows(s2, left - 1, now, Rest(cs));
          TwiceLater(s1.log, Sweep(s2, left - 1, now, Rest(cs)).log);
        } else {
          SweepExact(s2, left - 1, now, Rest(cs));
          if !SweepReenters(s2, left - 1, now, Rest(cs)) {
            SweptAfter(s, s1, n, now, Sweep(s2, left - 1, now, Rest(cs)));
          }
        }
      } else {
        SweepExact(s, left - 1, now, cs);
        if !SweepReenters(s, left - 1, now, cs) {
          SweptKeep(s, n, now, Sweep(s, left - 1, now, cs));
        }
      }
    }
  }

  lemma {:induction false} SweepGrows(s: State, left: nat, now: nat, cs: seq<Closing>)
    requires left <= |s.pending|
    ensures s.log <= Sweep(s, left, now, cs).log
    decreases left
  {
    hide CloseAll, InFront, Sweep, Timed;
    SweepStep(s, left, now, cs);
    if left > 0 {
      var p := s.pending[|s.pending| - left];
      if now >= p.due {
        var s0 := Release(s, p);
        CloseAllGrows(s0, Next(cs));
        var s1 := CloseAll(s0, Next(cs));
        SweepGrows(s1.(pending := RemoveAt(s1.pending, |s1.pending| - left)), left - 1, now, Rest(cs));
      } else {
        SweepGrows(s, left - 1, now, cs);
      }
    }
  }

  lemma SweptKeep(s: State, n: nat, now: nat, r: State)
    requires n < |s.pending| && now < s.pending[n].due && Swept(s, n + 1, now, r)
    ensures Swept(s, n, now, r)
  {
    hide Inv, NotDue, InFront;
    KeepStep(s.pending, n, now);
  }

  lemma SweptNothing(s: State, now: nat)
    requires Inv(s, {}, {})
    ensures Swept(s, |s.pending|, now, s)
  {
    hide Inv;
    assert s.pending[..|s.pending|] + NotDue([], now) == s.pending;
    assert s.pending[|s.pending|..] == [];
    assert s.pending[0..] == s.pending;
  }

  lemma SweptAfter(s: State, s1: State, n: nat, now: nat, r: State)
    requires n < |s.pending| && now >= s.pending[n].due && InFront(s.pending, s1.pending) && s1.clock == s.clock
    requires Published(s.pending[n].wid, s.clock, s.pending[n].due, s.pending[n].end) in s1.log && s.log <= s1.log
    requires var at := |s1.pending| - |s.pending| + n;
      Swept(s1.(pending := RemoveAt(s1.pending, at)), at, now, r)
    ensures Swept(s, n, now, r)
  {
    hide Inv, NotDue;
    FrontLonger(s.pending, s1.pending);
    hide InFront;
    var at := |s1.pending| - |s.pending| + n;
    var q := RemoveAt(s1.pending, at);
    KeepStep(s.pending, n, now);
    FrontStep(s.pending, s1.pending, n, now);
    InFrontTrans(s.pending[..n] + NotDue(s.pending[n + 1..], now), q[..at] + NotDue(q[at..], now), r.pending);
    forall i | n <= i < |s.pending| && s.pending[i].due <= now
      ensures Published(s.pending[i].wid, s.clock, s.pending[i].due, s.pending[i].end) in r.log
    {
      if i > n {
        var j := i - n - 1;
        assert q[at + j] == q[at..][j] == s.pending[n + 1..][j] == s.pending[i];
      }
    }
  }

  // ------------------------------------------------------------------- runs

  /** Does the event close a linked client inside its own Will's fan-out? */
  predicate EventReenters(s: State, ev: Event) {
    match ev
    case EvConnect(ref, id, _, _, _, closing) => ConnectReenters(s, ref, id, closing)
    case EvClose(ref, closing) => CloseReenters(s, ref, closing, {})
    case EvDisconnect(ref, withWill, closing) => DisconnectReenters(s, ref, withWill, closing)
    case EvProcess(cs) => SweepReenters(s, |s.pending|, s.clock, cs)
    case EvWait(_) => false
  }

  predicate RunReenters(s: State, evs: seq<Event>) {
    evs != [] && (RunReenters(s, evs[..|evs| - 1]) || EventReenters(Run(s, evs[..|evs| - 1]), evs[|evs| - 1]))
  }

  lemma StepKeeps(s: State, ev: Event)
    requires Inv(s, {}, {})
    ensures EventReenters(s, ev) ==> Twice(Step(s, ev).log)
    ensures !EventReenters(s, ev) ==> Inv(Step(s, ev), {}, {})
  {
    hide Connect, Close, Disconnect, Sweep, CloseReenters, ConnectReenters, DisconnectReenters, SweepReenters, Twice;
    hide Kept, PendingOk, LogOk, Apart, ClientsOk, HeldBy, Waiting, Fates;
    match ev
    case EvConnect(ref, id, v5, expiry, will, closing) => ConnectKeeps(s, ref, id, v5, expiry, will, closing);
    case EvClose(ref, closing) => CloseOutcome(s, ref, closing);
    case EvDisconnect(ref, withWill, closing) => DisconnectKeeps(s, ref, withWill, closing);
    case EvProcess(cs) => SweepExact(s, |s.pending|, s.clock, cs);
    case EvWait(n) =>
  }

  lemma {:induction false} RunKeeps(cap: nat, maxTime: nat, evs: seq<Event>)
    ensures RunReenters(Initial(cap, maxTime), evs) ==> Twice(Run(Initial(cap, maxTime), evs).log)
    ensures !RunReenters(Initial(cap, maxTime), evs) ==> Inv(Run(Initial(cap, maxTime), evs), {}, {})
  {
    hide Step, EventReenters, Twice, Timed;
    if evs != [] {
      hide Inv;
      var s, ev := Run(Initial(cap, maxTime), evs[..|evs| - 1]), evs[|evs| - 1];
      RunKeeps(cap, maxTime, evs[..|evs| - 1]);
      if RunReenters(Initial(cap, maxTime), evs[..|evs| - 1]) {
        StepFollows(s, ev);
        TwiceLater(s.log, Step(s, ev).log);
      } else {
        StepKeeps(s, ev);
      }
    }
  }

  // ---------------------------------------------------------------- results

  /** The re-entry condition is exact: over every run, no Will is published
      twice, and none has two fates, if and only if no connection closes inside
      its own Will's fan-out. */
  lemma AtMostOnceExact(cap: nat, maxTime: nat, evs: seq<Event>)
    ensures var log := Run(Initial(cap, maxTime), evs).log;
      && (RunReenters(Initial(cap, maxTime), evs) <==>
            exists i, j :: 0 <= i < j < |log| && log[i].Published? && log[j].Published? && log[i].wid == log[j].wid)
      && (RunReenters(Initial(cap, maxTime), evs) <==>
            exists i, j :: 0 <= i < j < |log| && log[i].wid == log[j].wid)
  {
    RunKeeps(cap, maxTime, evs);
    hide Run, HeldBy, Waiting, Fates, ClientsOk, Kept, PendingOk, Apart, Busy, RunReenters;
  }

  /** Over every run in which no connection closes inside its own Will's
      fan-out: each accepted Will is published, dropped or cancelled at most
      once in all, and until then it is with its client or waiting, in one
      place; waiting Wills keep to the pool and to one per client identifier. */
  lemma WillsConserved(cap: nat, maxTime: nat, evs: seq<Event>)
    requires !RunReenters(Initial(cap, maxTime), evs)
    ensures var s := Run(Initial(cap, maxTime), evs);
      && (forall i, j :: 0 <= i < j < |s.log| ==> s.log[i].wid != s.log[j].wid)
      && HeldBy(s.clients) !! Waiting(s.pending) && HeldBy(s.clients) !! Fates(s.log)
      && Waiting(s.pending) !! Fates(s.log)
      && (forall w: nat :: w < s.nextWid <==> w in HeldBy(s.clients) + Waiting(s.pending) + Fates(s.log))
      && |s.pending| <= s.cap
      && (forall i, j :: 0 <= i < j < |s.pending| ==> s.pending[i].id != s.pending[j].id)
  {
    RunKeeps(cap, maxTime, evs);
    hide Run, HeldBy, Waiting, Fates, ClientsOk, RunReenters;
  }

  /** due is the earliest of the end of the Will Delay, the end of a session
      that expires, and the end of time. */
  predicate Earliest(due: nat, since: nat, delay: nat, expiry: nat, maxTime: nat) {
    && due <= maxTime && due <= since + delay && (expiry != 0xFFFF_FFFF ==> due <= since + expiry)
    && (due == maxTime || due == since + delay || (expiry != 0xFFFF_FFFF && due == since + expiry))
  }

  lemma DueEarliest(end: Ending, maxTime: nat)
    ensures Earliest(DueAt(end, maxTime), end.since, end.delay, end.expiry, maxTime)
    ensures Wait(end.delay, end.expiry) > 0 <==> end.delay > 0 && end.expiry > 0
  {
  }

  /** Over every run: a waiting Will is due at the earlier of the Will Delay and
      a finite Session Expiry, as section 3.1.3.2.2 of MQTT 5.0 has it, and a
      Will is published before its due time if and only if it had time left to
      wait and the pool was full when its connection ended; it then went out at
      that very moment. */
  lemma EarlyExact(cap: nat, maxTime: nat, evs: seq<Event>)
    ensures var s := Run(Initial(cap, maxTime), evs);
      && (forall i :: 0 <= i < |s.pending| ==>
            var p := s.pending[i];
            Earliest(p.due, p.end.since, p.end.delay, p.end.expiry, maxTime))
      && (forall i :: 0 <= i < |s.log| && s.log[i].Published? ==>
            var f := s.log[i];
            && Earliest(f.due, f.end.since, f.end.delay, f.end.expiry, maxTime)
            && (f.at < f.due <==> f.end.delay > 0 && f.end.expiry > 0 && f.end.waiting >= cap && f.end.since < maxTime)
            && (f.at < f.due ==> f.at == f.end.since))
  {
    var s := Run(Initial(cap, maxTime), evs);
    RunFollows(Initial(cap, maxTime), evs);
    hide Run, DueAt, Wait, Earliest;
    forall i | 0 <= i < |s.pending|
      ensures Earliest(s.pending[i].due, s.pending[i].end.since, s.pending[i].end.delay, s.pending[i].end.expiry, maxTime)
    {
      DueEarliest(s.pending[i].end, maxTime);
    }
    forall i | 0 <= i < |s.log| && s.log[i].Published?
      ensures Earliest(s.log[i].due, s.log[i].end.since, s.log[i].end.delay, s.log[i].end.expiry, maxTime)
      ensures Wait(s.log[i].end.delay, s.log[i].end.expiry) > 0 <==> s.log[i].end.delay > 0 && s.log[i].end.expiry > 0
    {
      assert OnTime(s.log[i], s.cap, s.maxTime);
      DueEarliest(s.log[i].end, maxTime);
    }
  }

  /** From CONNECT to the pool, after any run: the Will a connection brought
      waits, when it closes, under the connection's identifier until the
      earliest of its delay, its session's expiry and the end of time; without
      a delay, under version 3.1.1 or with the pool full it goes out at once. */
  lemma WillFollowsConnection(cap: nat, maxTime: nat, evs: seq<Event>, ref: nat, id: bytes, v5: bool, expiry: nat,
                              delay: nat, closing: Closing, later: Closing)
    requires var s0 := Initial(cap, maxTime);
      && !RunReenters(s0, evs + [EvConnect(ref, id, v5, expiry, Some(delay), closing)])
      && ClientAt(Run(s0, evs).clients, ref) == |Run(s0, evs).clients|
    ensures var s := Run(Initial(cap, maxTime), evs);
      var c := Run(Initial(cap, maxTime), evs + [EvConnect(ref, id, v5, expiry, Some(delay), closing)]);
      var r := Step(c, EvClose(ref, later));
      && c.nextWid == s.nextWid + 1
      && (v5 && delay > 0 && |c.pending| < cap ==>
            && |r.pending| == |c.pending| + 1 && r.pending[1..] == c.pending && r.log == c.log
            && r.pending[0].id == id && r.pending[0].wid == s.nextWid
            && Earliest(r.pending[0].due, c.clock, delay, expiry, maxTime))
      && (!(v5 && delay > 0 && |c.pending| < cap) ==>
            && |c.log| < |r.log| && c.log <= r.log
            && r.log[|c.log|].Published? && r.log[|c.log|].wid == s.nextWid && r.log[|c.log|].at == c.clock)
      && Lookup(r.clients, ref).None?
  {
    hide Inv, Run, RunReenters, Close, CloseAll, Connect, EventReenters, Earliest, Timed;
    var s0 := Initial(cap, maxTime);
    var ev := EvConnect(ref, id, v5, expiry, Some(delay), closing);
    var s := Run(s0, evs);
    RunStep(s0, evs, ev);
    RunKeeps(cap, maxTime, evs + [ev]);
    RunFollows(s0, evs);
    RunFollows(s0, evs + [ev]);
    var c := Run(s0, evs + [ev]);
    RunKeeps(cap, maxTime, evs);
    JoinedFirst(s, ref, id, v5, expiry, delay, closing);
    InvClients(c, {}, {});
    ClosesFirst(c, Will(s.nextWid, if v5 then delay else 0), later);
    DueEarliest(Ending(c.clock, delay, expiry, |c.pending|), maxTime);
  }

  /** The new connection heads the list with the Will it brought. */
  lemma JoinedFirst(s: State, ref: nat, id: bytes, v5: bool, expiry: nat, delay: nat, closing: Closing)
    requires Inv(s, {}, {}) && ClientAt(s.clients, ref) == |s.clients|
    ensures var c := Connect(s, ref, id, v5, expiry, Some(delay), closing);
      && c.clients != [] && c.nextWid == s.nextWid + 1
      && c.clients[0] == Client(ref, id, v5, expiry, Some(Will(s.nextWid, if v5 then delay else 0)))
  {
    hide Inv, TakeOver, Cancel;
    TakeOverWids(Cancel(s, id), id, closing);
    assert Cancel(s, id).nextWid == s.nextWid by { CancelWids(s, id); }
  }

  lemma CancelWids(s: State, id: bytes)
    ensures Cancel(s, id).nextWid == s.nextWid
  {
  }

  lemma TakeOverWids(s: State, id: bytes, closing: Closing)
    ensures TakeOver(s, id, closing).nextWid == s.nextWid
  {
    var k := ClientNamed(s.clients, id);
    if k < |s.clients| {
      PublishWids(s, k, closing);
    }
    hide PublishWill;
  }

  lemma {:induction false} PublishWids(s: State, k: nat, closing: Closing)
    requires k < |s.clients|
    ensures PublishWill(s, k, closing).nextWid == s.nextWid
    decreases closing, 1
  {
    hide InFront, DueAt;
    match s.clients[k].will
    case None =>
    case Some(w) => if Immediate(s, w) { CloseAllWids(Announce(s, k, w), closing); }
  }

  lemma {:induction false} CloseAllWids(s: State, closing: Closing)
    ensures CloseAll(s, closing).nextWid == s.nextWid
    decreases closing, 0
  {
    hide PublishWill, InFront;
    match closing
    case Quiet =>
    case Closes(x, inner, rest) =>
      var k := ClientAt(s.clients, x);
      if k < |s.clients| { PublishWids(s, k, inner); }
      CloseAllWids(Close(s, x, inner), rest);
  }

  /** Closing the first client of the list. */
  lemma ClosesFirst(s: State, w: Will, closing: Closing)
    requires s.clients != [] && s.clients[0].will == Some(w) && ClientsOk(s.clients)
    ensures var r, c := Close(s, s.clients[0].ref, closing), s.clients[0];
      && (!Immediate(s, w) ==>
            && r.pending == [Pend(c.id, w.wid, DueAt(Ends(s, 0, w), s.maxTime), Ends(s, 0, w))] + s.pending && r.log == s.log)
      && (Immediate(s, w) ==>
            && |s.log| < |r.log| && s.log <= r.log
            && r.log[|s.log|] == Published(w.wid, s.clock, DueAt(Ends(s, 0, w), s.maxTime), Ends(s, 0, w)))
      && Lookup(r.clients, c.ref).None?
  {
    hide Close, CloseAll, ClientsOk, Lookup, DueAt, Immediate;
    CloseIs(s, 0, closing);
    ClosedIsGone(s, s.clients[0].ref, closing);
    if Immediate(s, w) {
      CloseAllGrows(Announce(s, 0, w), closing);
    }
  }

  /** No two clients share a reference. */
  ghost predicate OneRef(cs: seq<Client>) {
    forall i, j :: 0 <= i < j < |cs| ==> cs[i].ref != cs[j].ref
  }

  lemma RefsRemove(cs: seq<Client>, k: nat)
    requires OneRef(cs) && k < |cs|
    ensures OneRef(RemoveAt(cs, k)) && Absent(RemoveAt(cs, k), cs[k].ref)
  {
    var r := RemoveAt(cs, k);
    assert forall i :: 0 <= i < |r| ==> r[i] == cs[if i < k then i else i + 1];
  }

  lemma UnlinkRefs(s: State, ref: nat)
    requires OneRef(s.clients)
    ensures OneRef(Unlink(s, ref).clients) && Absent(Unlink(s, ref).clients, ref)
  {
    var k := ClientAt(s.clients, ref);
    if k < |s.clients| { RefsRemove(s.clients, k); }
  }

  lemma {:induction false} PublishRefs(s: State, k: nat, closing: Closing)
    requires k < |s.clients| && OneRef(s.clients)
    ensures OneRef(PublishWill(s, k, closing).clients)
    decreases closing, 1
  {
    hide InFront, DueAt;
    match s.clients[k].will
    case None =>
    case Some(w) => if Immediate(s, w) { CloseAllRefs(Announce(s, k, w), closing); }
  }

  lemma {:induction false} CloseAllRefs(s: State, closing: Closing)
    requires OneRef(s.clients)
    ensures OneRef(CloseAll(s, closing).clients)
    decreases closing, 0
  {
    hide PublishWill, InFront, OneRef, Unlink;
    match closing
    case Quiet =>
    case Closes(x, inner, rest) =>
      var k := ClientAt(s.clients, x);
      if k < |s.clients| {
        PublishRefs(s, k, inner);
        UnlinkRefs(PublishWill(s, k, inner), x);
      }
      CloseAllRefs(Close(s, x, inner), rest);
  }

  lemma ClosedIsGone(s: State, ref: nat, closing: Closing)
    requires ClientsOk(s.clients)
    ensures Lookup(Close(s, ref, closing).clients, ref).None?
  {
    hide PublishWill, InFront;
    var k := ClientAt(s.clients, ref);
    assert OneRef(s.clients);
    if k < |s.clients| {
      PublishRefs(s, k, closing);
      hide OneRef, Unlink;
      UnlinkRefs(PublishWill(s, k, closing), ref);
    }
  }

  /** A reachable early publication: the pool of one is taken, so the second
      connection's Will, due at 1000, goes out at 0. */
  lemma PublishesEarly()
    ensures var evs := [EvConnect(1, [1], true, NEVER, Some(1000), Quiet), EvConnect(2, [2], true, NEVER, Some(1000), Quiet),
                        EvClose(1, Quiet), EvClose(2, Quiet)];
      && Run(Initial(1, 5000), evs).log == [Published(1, 0, 1000, Ending(0, 1000, NEVER, 1))]
      && !RunReenters(Initial(1, 5000), evs)
  {
    hide Step, EventReenters;
    var s0 := Initial(1, 5000);
    var a, b := EvConnect(1, [1], true, NEVER, Some(1000), Quiet), EvConnect(2, [2], true, NEVER, Some(1000), Quiet);
    var c, d := EvClose(1, Quiet), EvClose(2, Quiet);
    EarlyConnect(s0, 1, [1]);
    var s1 := Step(s0, a);
    assert s1.clients == [Client(1, [1], true, NEVER, Some(Will(0, 1000)))];
    EarlyConnect(s1, 2, [2]);
    FirstClose(Step(s1, b));
    LastClose(Step(Step(s1, b), c));
    FourSteps(s0, a, b, c, d);
  }

  lemma FourSteps(s: State, a: Event, b: Event, c: Event, d: Event)
    ensures var s1, s2 := Step(s, a), Step(Step(s, a), b);
      var s3 := Step(s2, c);
      && Run(s, [a, b, c, d]) == Step(s3, d)
      && (RunReenters(s, [a, b, c, d]) <==>
            EventReenters(s, a) || EventReenters(s1, b) || EventReenters(s2, c) || EventReenters(s3, d))
  {
    hide Step, EventReenters, Run, RunReenters;
    RunStep(s, [], a);
    RunStep(s, [a], b);
    RunStep(s, [a, b], c);
    RunStep(s, [a, b, c], d);
    assert [] + [a] == [a] && [a] + [b] == [a, b] && [a, b] + [c] == [a, b, c] && [a, b, c] + [d] == [a, b, c, d];
  }

  lemma RunStep(s: State, evs: seq<Event>, ev: Event)
    ensures Run(s, evs + [ev]) == Step(Run(s, evs), ev)
    ensures RunReenters(s, evs + [ev]) <==> RunReenters(s, evs) || EventReenters(Run(s, evs), ev)
    ensures Run(s, []) == s && !RunReenters(s, [])
  {
    hide Step, EventReenters;
    assert (evs + [ev])[..|evs|] == evs;
  }

  lemma EarlyConnect(s: State, ref: nat, id: bytes)
    requires s.pending == [] && ClientAt(s.clients, ref) == |s.clients| && ClientNamed(s.clients, id) == |s.clients|
    ensures var ev := EvConnect(ref, id, true, NEVER, Some(1000), Quiet);
      && Step(s, ev) == s.(clients := [Client(ref, id, true, NEVER, Some(Will(s.nextWid, 1000)))] + s.clients,
                           nextWid := s.nextWid + 1)
      && !EventReenters(s, ev)
  {
    assert Cancel(s, id) == s;
    assert TakeOver(s, id, Quiet) == s;
  }

  lemma FirstClose(s: State)
    requires s.clients == [Client(2, [2], true, NEVER, Some(Will(1, 1000))), Client(1, [1], true, NEVER, Some(Will(0, 1000)))]
    requires s.pending == [] && s.cap == 1 && s.clock == 0 && s.maxTime == 5000
    ensures var r := Step(s, EvClose(1, Quiet));
      && r.clients == s.clients[..1] && r.pending == [Pend([1], 0, 1000, Ending(0, 1000, NEVER, 0))] && r.log == s.log
      && r.clock == s.clock && r.cap == s.cap && r.maxTime == s.maxTime && !EventReenters(s, EvClose(1, Quiet))
  {
    assert ClientsOk(s.clients);
    assert ClientAt(s.clients, 1) == 1;
    CloseIs(s, 1, Quiet);
    hide Close;
  }

  lemma LastClose(s: State)
    requires s.clients == [Client(2, [2], true, NEVER, Some(Will(1, 1000)))]
    requires |s.pending| == 1 && s.cap == 1 && s.clock == 0 && s.maxTime == 5000
    ensures Step(s, EvClose(2, Quiet)).log == s.log + [Published(1, 0, 1000, Ending(0, 1000, NEVER, 1))]
    ensures !EventReenters(s, EvClose(2, Quiet))
  {
    CloseIs(s, 0, Quiet);
    hide Close;
  }

  /** A Will dropped by DISCONNECT or cancelled by a reconnect is never
      published, before or after. */
  lemma NeverAfterDropped(cap: nat, maxTime: nat, evs: seq<Event>, i: nat, j: nat)
    requires !RunReenters(Initial(cap, maxTime), evs)
    requires var log := Run(Initial(cap, maxTime), evs).log;
      i < |log| && j < |log| && !log[i].Published? && log[j].Published?
    ensures var log := Run(Initial(cap, maxTime), evs).log;
      log[i].wid != log[j].wid
  {
    WillsConserved(cap, maxTime, evs);
    var log := Run(Initial(cap, maxTime), evs).log;
    hide Run, RunReenters;
    assert i < j || j < i;
  }

  // ------------------------------------------------------- settled for good

  /** w is in no publication of the log. */
  ghost predicate NeverOut(log: seq<Fate>, w: nat) {
    forall i :: 0 <= i < |log| && log[i].Published? ==> log[i].wid != w
  }

  /** A Will settled other than by publication stays unpublished, whatever
      follows and whatever re-enters later. */
  lemma SettledSilent(s: State, r: State, w: nat, evs: seq<Event>)
    requires w !in Fates(s.log) && Gone(r, w) && s.log <= r.log
    requires forall i :: |s.log| <= i < |r.log| && r.log[i].Published? ==> r.log[i].wid != w
    ensures NeverOut(Run(r, evs).log, w)
  {
    RunSilent(r, evs, w);
    hide Run, Gone;
    var log := Run(r, evs).log;
    forall i | 0 <= i < |log| && log[i].Published? ensures log[i].wid != w {
      if i < |s.log| {
        assert log[i] == s.log[i] && s.log[i] in s.log;
      }
    }
  }

  /** After a normal DISCONNECT of the client that holds w, no continuation of
      the run ever publishes w. Version 3.1.1 has no other DISCONNECT. */
  lemma DisconnectDrops(cap: nat, maxTime: nat, evs: seq<Event>, ref: nat, withWill: bool, closing: Closing, more: seq<Event>)
    requires !RunReenters(Initial(cap, maxTime), evs)
    requires var cs := Run(Initial(cap, maxTime), evs).clients;
      ClientAt(cs, ref) < |cs| && cs[ClientAt(cs, ref)].will.Some? && !(withWill && cs[ClientAt(cs, ref)].v5)
    ensures var cs := Run(Initial(cap, maxTime), evs).clients;
      NeverOut(Run(Initial(cap, maxTime), evs + [EvDisconnect(ref, withWill, closing)] + more).log,
               cs[ClientAt(cs, ref)].will.value.wid)
  {
    hide Inv, NeverOut, ClientsOk;
    var s0 := Initial(cap, maxTime);
    var s, ev := Run(s0, evs), EvDisconnect(ref, withWill, closing);
    var k := ClientAt(s.clients, ref);
    var w := s.clients[k].will.value.wid;
    RunKeeps(cap, maxTime, evs);
    HeldFacts(s, k);
    ClearIs(s, k);
    DropGone(s, k, w);
    var r := Step(s, ev);
    hide Run, Fates, Gone, PublishWill;
    SettledSilent(s, r, w, more);
    RunAppend(s0, evs + [ev], more);
    RunStep(s0, evs, ev);
  }

  lemma HeldFacts(s: State, k: nat)
    requires Inv(s, {}, {}) && k < |s.clients| && s.clients[k].will.Some?
    ensures var w := s.clients[k].will.value.wid;
      && w !in Fates(s.log) && w < s.nextWid && ClientsOk(s.clients)
      && (forall i :: 0 <= i < |s.clients| && i != k && s.clients[i].will.Some? ==> s.clients[i].will.value.wid != w)
      && (forall i :: 0 <= i < |s.pending| ==> s.pending[i].wid != w)
  {
    hide Fates, LogOk, PendingOk, Apart, Busy, HeldBy, Waiting;
    HeldHas(s.clients, k);
    forall i | 0 <= i < |s.pending| ensures s.pending[i].wid != s.clients[k].will.value.wid { WaitingHas(s.pending, i); }
  }

  lemma DropGone(s: State, k: nat, w: nat)
    requires k < |s.clients| && w < s.nextWid
    requires forall i :: 0 <= i < |s.clients| && i != k && s.clients[i].will.Some? ==> s.clients[i].will.value.wid != w
    requires forall i :: 0 <= i < |s.pending| ==> s.pending[i].wid != w
    ensures Gone(s.(clients := RemoveAt(s.clients, k), log := s.log + [Dropped(w)]), w)
  {
    var r := RemoveAt(s.clients, k);
    assert forall i :: 0 <= i < |r| ==> r[i] == s.clients[if i < k then i else i + 1];
  }

  /** After a CONNECT whose client identifier has w waiting, no continuation of
      the run ever publishes w. */
  lemma ConnectCancels(cap: nat, maxTime: nat, evs: seq<Event>, ev: Event, more: seq<Event>)
    requires !RunReenters(Initial(cap, maxTime), evs) && ev.EvConnect?
    requires var s := Run(Initial(cap, maxTime), evs);
      ClientAt(s.clients, ev.ref) == |s.clients| && PendingFor(s.pending, ev.id) < |s.pending|
    ensures var s := Run(Initial(cap, maxTime), evs);
      NeverOut(Run(Initial(cap, maxTime), evs + [ev] + more).log, s.pending[PendingFor(s.pending, ev.id)].wid)
  {
    hide Inv, NeverOut, ClientsOk;
    var s0 := Initial(cap, maxTime);
    var s := Run(s0, evs);
    var i := PendingFor(s.pending, ev.id);
    var w := s.pending[i].wid;
    RunKeeps(cap, maxTime, evs);
    WaitFacts(s, i);
    CancelGone(s, i, w);
    var s1, r := Cancel(s, ev.id), Step(s, ev);
    assert ClientNamed(s1.clients, ev.id) == |s1.clients|;
    assert TakeOver(s1, ev.id, ev.closing) == s1;
    JoinSilent(s1, r.clients[0], r.nextWid, w);
    hide Run, Fates, Gone;
    SettledSilent(s, r, w, more);
    RunAppend(s0, evs + [ev], more);
    RunStep(s0, evs, ev);
  }

  lemma WaitFacts(s: State, i: nat)
    requires Inv(s, {}, {}) && i < |s.pending|
    ensures var w := s.pending[i].wid;
      && w !in Fates(s.log) && w < s.nextWid
      && (forall j :: 0 <= j < |s.clients| ==> s.clients[j].id != s.pending[i].id)
      && (forall j :: 0 <= j < |s.clients| && s.clients[j].will.Some? ==> s.clients[j].will.value.wid != w)
      && (forall j :: 0 <= j < |s.pending| && j != i ==> s.pending[j].wid != w)
  {
    hide Fates, LogOk, ClientsOk, Busy, HeldBy, Waiting;
    WaitingHas(s.pending, i);
    forall j | 0 <= j < |s.clients| && s.clients[j].will.Some? ensures s.clients[j].will.value.wid != s.pending[i].wid {
      HeldHas(s.clients, j);
    }
  }

  lemma CancelGone(s: State, i: nat, w: nat)
    requires i < |s.pending| && w < s.nextWid
    requires forall j :: 0 <= j < |s.clients| && s.clients[j].will.Some? ==> s.clients[j].will.value.wid != w
    requires forall j :: 0 <= j < |s.pending| && j != i ==> s.pending[j].wid != w
    ensures Gone(s.(pending := RemoveAt(s.pending, i), log := s.log + [Cancelled(w)]), w)
  {
    var r := RemoveAt(s.pending, i);
    assert forall j :: 0 <= j < |r| ==> r[j] == s.pending[if j < i then j else j + 1];
  }

  /** A version 5 DISCONNECT with reason 0x04, after any run, does with the Will
      what a lost connection would: it waits until the earliest of its delay,
      the session's expiry and the end of time, or goes out at once. */
  lemma DisconnectWithWill(cap: nat, maxTime: nat, evs: seq<Event>, ref: nat, closing: Closing)
    requires !RunReenters(Initial(cap, maxTime), evs)
    requires var cs := Run(Initial(cap, maxTime), evs).clients;
      ClientAt(cs, ref) < |cs| && cs[ClientAt(cs, ref)].v5 && cs[ClientAt(cs, ref)].will.Some?
    ensures var s := Run(Initial(cap, maxTime), evs);
      var r, c := Step(s, EvDisconnect(ref, true, closing)), s.clients[ClientAt(s.clients, ref)];
      var w := c.will.value;
      && (w.delay > 0 && |s.pending| < cap ==>
            && |r.pending| == |s.pending| + 1 && r.pending[1..] == s.pending && r.log == s.log
            && r.pending[0].id == c.id && r.pending[0].wid == w.wid
            && Earliest(r.pending[0].due, s.clock, w.delay, c.expiry, maxTime))
      && (!(w.delay > 0 && |s.pending| < cap) ==>
            && |s.log| < |r.log| && s.log <= r.log
            && r.log[|s.log|].Published? && r.log[|s.log|].wid == w.wid && r.log[|s.log|].at == s.clock)
  {
    hide Inv, Run, RunReenters, Close, CloseAll, Disconnect, Earliest, Timed, ClientsOk, Announce;
    var s := Run(Initial(cap, maxTime), evs);
    var k := ClientAt(s.clients, ref);
    var c := s.clients[k];
    RunKeeps(cap, maxTime, evs);
    RunFollows(Initial(cap, maxTime), evs);
    InvClients(s, {}, {});
    DisconnectClose(s, ref, true, closing);
    CloseIs(s, k, closing);
    CloseAllGrows(Announce(s, k, c.will.value), closing);
    Announced(s, k, c.will.value);
    DueEarliest(Ending(s.clock, c.will.value.delay, c.expiry, |s.pending|), maxTime);
  }

  /** A takeover settles the Will of the connection it replaces, after any run:
      under version 5 it is never published, under version 3.1.1 it goes out. */
  lemma TakeoverSettles(cap: nat, maxTime: nat, evs: seq<Event>, ev: Event, more: seq<Event>)
    requires !RunReenters(Initial(cap, maxTime), evs) && ev.EvConnect?
    requires var cs := Run(Initial(cap, maxTime), evs).clients;
      && ClientAt(cs, ev.ref) == |cs| && ClientNamed(cs, ev.id) < |cs| && cs[ClientNamed(cs, ev.id)].will.Some?
    ensures var s := Run(Initial(cap, maxTime), evs);
      var c := s.clients[ClientNamed(s.clients, ev.id)];
      var w := c.will.value.wid;
      && (c.v5 ==> NeverOut(Run(Initial(cap, maxTime), evs + [ev] + more).log, w))
      && (!c.v5 ==>
            var log := Step(s, ev).log;
            |s.log| < |log| && s.log <= log && log[|s.log|].Published? && log[|s.log|].wid == w && log[|s.log|].at == s.clock)
  {
    hide Inv, NeverOut, ClientsOk, Run, Gone, Close, CloseAll, Announce;
    var s0 := Initial(cap, maxTime);
    var s := Run(s0, evs);
    var k := ClientNamed(s.clients, ev.id);
    var c := s.clients[k];
    var w := c.will.value.wid;
    RunKeeps(cap, maxTime, evs);
    HeldFacts(s, k);
    NothingWaits(s, k);
    assert Cancel(s, ev.id) == s;
    if c.v5 {
      ClearIs(s, k);
      DropGone(s, k, w);
      var s1, r := TakeOver(s, ev.id, ev.closing), Step(s, ev);
      JoinSilent(s1, r.clients[0], r.nextWid, w);
      hide Fates, Connect, TakeOver;
      SettledSilent(s, r, w, more);
      RunAppend(s0, evs + [ev], more);
      RunStep(s0, evs, ev);
    } else {
      OldClient(s, k);
      ClientAtIs(s.clients, k);
      TakeOverClose(s, k, ev.closing);
      CloseIs(s, k, ev.closing);
      CloseAllGrows(Announce(s, k, c.will.value), ev.closing);
      Announced(s, k, c.will.value);
      hide TakeOver;
    }
  }

  lemma Announced(s: State, k: nat, w: Will)
    requires k < |s.clients|
    ensures var log := Announce(s, k, w).log;
      |log| == |s.log| + 1 && s.log <= log && log[|s.log|].Published? && log[|s.log|].wid == w.wid && log[|s.log|].at == s.clock
  {
  }

  lemma NothingWaits(s: State, k: nat)
    requires Inv(s, {}, {}) && k < |s.clients|
    ensures PendingFor(s.pending, s.clients[k].id) == |s.pending|
  {
    hide Kept, PendingOk, LogOk, Busy, ClientsOk;
  }

  // --------------------------------------------------------------- re-entry

  /** A reachable double publication: the Will stays set during its own
      fan-out, inside which its connection closes again. */
  lemma ReentryPublishesTwice(cap: nat, maxTime: nat)
    ensures var evs := [EvConnect(1, [1], false, 0, Some(0), Quiet), EvClose(1, Closes(1, Quiet, Quiet))];
      var f := Published(0, 0, 0, Ending(0, 0, 0, 0));
      Run(Initial(cap, maxTime), evs).log == [f, f] && RunReenters(Initial(cap, maxTime), evs)
  {
    hide Close, CloseAll, Step, EventReenters;
    var s0 := Initial(cap, maxTime);
    var a, b := EvConnect(1, [1], false, 0, Some(0), Quiet), EvClose(1, Closes(1, Quiet, Quiet));
    RunStep(s0, [], a);
    RunStep(s0, [a], b);
    assert [] + [a] == [a] && [a] + [b] == [a, b];
    var c, w := Client(1, [1], false, 0, Some(Will(0, 0))), Will(0, 0);
    OldConnect(s0, c);
    CloseTwice(Step(s0, a), c, w);
  }

  lemma OldConnect(s: State, c: Client)
    requires s.clients == [] && s.pending == [] && s.nextWid == 0 && c == Client(1, [1], false, 0, Some(Will(0, 0)))
    ensures Step(s, EvConnect(1, [1], false, 0, Some(0), Quiet)) == s.(clients := [c], nextWid := 1)
    ensures !EventReenters(s, EvConnect(1, [1], false, 0, Some(0), Quiet))
  {
    assert Cancel(s, [1]) == s;
    assert TakeOver(s, [1], Quiet) == s;
  }

  lemma CloseTwice(s: State, c: Client, w: Will)
    requires s.clients == [c] && c.will == Some(w) && w.delay == 0 && c.ref == 1 && s.clock <= s.maxTime
    ensures var f := Published(w.wid, s.clock, s.clock, Ending(s.clock, 0, c.expiry, |s.pending|));
      Step(s, EvClose(1, Closes(1, Quiet, Quiet))).log == s.log + [f, f]
    ensures EventReenters(s, EvClose(1, Closes(1, Quiet, Quiet)))
  {
    hide Close, CloseAll, CloseReenters, Announce;
    var f := Published(w.wid, s.clock, s.clock, Ending(s.clock, 0, c.expiry, |s.pending|));
    var s1 := s.(log := s.log + [f]);
    CloseOnly(s, c, w, Closes(1, Quiet, Quiet));
    CloseOnly(s1, c, w, Quiet);
    CloseAllOne(s1, 1);
    CloseAllNone(s1.(log := s1.log + [f]));
    assert s.log + [f] + [f] == s.log + [f, f];
    ReentersOnly(s, c, w);
  }

  /** Closing the only client, whose Will has no delay. */
  lemma CloseOnly(s: State, c: Client, w: Will, closing: Closing)
    requires s.clients == [c] && c.will == Some(w) && w.delay == 0 && s.clock <= s.maxTime
    ensures var f := Published(w.wid, s.clock, s.clock, Ending(s.clock, 0, c.expiry, |s.pending|));
      Close(s, c.ref, closing).log == CloseAll(s.(log := s.log + [f]), closing).log
  {
    hide Close, CloseAll, Announce, ClientsOk, Immediate;
    OneClient(s, c, w);
    CloseIs(s, 0, closing);
  }

  lemma OneClient(s: State, c: Client, w: Will)
    requires s.clients == [c] && c.will == Some(w) && w.delay == 0 && s.clock <= s.maxTime
    ensures ClientsOk(s.clients) && ClientAt(s.clients, c.ref) == 0 && Immediate(s, w)
    ensures Announce(s, 0, w)
            == s.(log := s.log + [Published(w.wid, s.clock, s.clock, Ending(s.clock, 0, c.expiry, |s.pending|))])
  {
  }

  lemma ReentersOnly(s: State, c: Client, w: Will)
    requires s.clients == [c] && c.will == Some(w) && w.delay == 0 && s.clock <= s.maxTime
    ensures CloseReenters(s, c.ref, Closes(c.ref, Quiet, Quiet), {})
  {
    hide Close;
    OneClient(s, c, w);
    var s1 := Announce(s, 0, w);
    OneClient(s1, c, w);
    hide Announce, Immediate, ClientsOk;
    assert CloseReenters(s1, c.ref, Quiet, {} + {c.ref});
  }

  lemma CloseAllNone(s: State)
    ensures CloseAll(s, Quiet) == s
  {
  }

  lemma CloseAllOne(s: State, ref: nat)
    ensures CloseAll(s, Closes(ref, Quiet, Quiet)) == Close(s, ref, Quiet)
  {
    hide Close;
    CloseAllNone(Close(s, ref, Quiet));
  }
}
