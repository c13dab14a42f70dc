/** What every run does to the history of Wills, whatever closes inside which
    fan-out: publications keep to their times, and a Will nobody holds any more
    stays silent. */
module WillsHistory {
  import opened Common
  import opened Wills

  // ----------------------------------------------------------------- timing

  /** The pool was full when the connection ended, so the wait was lost. */
  predicate Early(end: Ending, cap: nat, maxTime: nat) {
    Wait(end.delay, end.expiry) > 0 && end.waiting >= cap && end.since < maxTime
  }

  predicate OnTime(f: Fate, cap: nat, maxTime: nat) {
    f.Published? ==>
      && f.due == DueAt(f.end, maxTime)
      && (f.at < f.due <==> Early(f.end, cap, maxTime))
      && (Early(f.end, cap, maxTime) ==> f.at == f.end.since)
  }

  ghost predicate Timed(s: State) {
    && s.clock <= s.maxTime
    && (forall i :: 0 <= i < |s.pending| ==>
          s.pending[i].due == DueAt(s.pending[i].end, s.maxTime) && s.pending[i].end.waiting < s.cap)
    && (forall i :: 0 <= i < |s.log| ==> OnTime(s.log[i], s.cap, s.maxTime))
  }

  /** r comes after s: history only grows, and keeps to its times. */
  ghost predicate Follows(s: State, r: State) {
    && s.log <= r.log && s.clock <= r.clock && r.cap == s.cap && r.maxTime == s.maxTime
    && (Timed(s) ==> Timed(r))
  }

  lemma FollowsTrans(a: State, b: State, c: State)
    requires Follows(a, b) && Follows(b, c)
    ensures Follows(a, c)
  {
    hide Timed;
  }

  lemma AnnounceFollows(s: State, k: nat, w: Will)
    requires k < |s.clients| && Immediate(s, w)
    ensures Follows(s, Announce(s, k, w))
  {
  }

  lemma DeferFollows(s: State, k: nat, w: Will)
    requires k < |s.clients| && !Immediate(s, w)
    ensures Follows(s, Defer(s, k, w))
  {
    hide DueAt, Early;
    var r := Defer(s, k, w);
    assert forall i :: 0 < i < |r.pending| ==> r.pending[i] == s.pending[i - 1];
  }

  lemma ClientsFollow(s: State, cs: seq<Client>, next: nat)
    ensures Follows(s, s.(clients := cs)) && Follows(s, s.(clients := cs, nextWid := next))
  {
  }

  lemma {:induction false} PublishFollows(s: State, k: nat, closing: Closing)
    requires k < |s.clients|
    ensures Follows(s, PublishWill(s, k, closing))
    decreases closing, 1
  {
    hide Follows, Announce, Defer, CloseAll;
    ClientsFollow(s, s.clients, s.nextWid);
    match s.clients[k].will
    case None =>
    case Some(w) =>
      if Immediate(s, w) {
        var s0 := Announce(s, k, w);
        AnnounceFollows(s, k, w);
        CloseAllFollows(s0, closing);
        var s1 := CloseAll(s0, closing);
        FollowsTrans(s, s0, s1);
        var r := PublishWill(s, k, closing);
        ClientsFollow(s1, r.clients, s1.nextWid);
        FollowsTrans(s, s1, r);
      } else {
        DeferFollows(s, k, w);
      }
  }

  lemma {:induction false} CloseFollows(s: State, ref: nat, closing: Closing)
    ensures Follows(s, Close(s, ref, closing))
    decreases closing, 2
  {
    hide Follows, PublishWill;
    var k := ClientAt(s.clients, ref);
    ClientsFollow(s, s.clients, s.nextWid);
    if k < |s.clients| {
      var s1, r := PublishWill(s, k, closing), Close(s, ref, closing);
      PublishFollows(s, k, closing);
      ClientsFollow(s1, r.clients, s1.nextWid);
      FollowsTrans(s, s1, r);
    }
  }

  lemma {:induction false} CloseAllFollows(s: State, closing: Closing)
    ensures Follows(s, CloseAll(s, closing))
    decreases closing, 0
  {
    hide Follows, Close;
    ClientsFollow(s, s.clients, s.nextWid);
    match closing
    case Quiet =>
    case Closes(ref, inner, rest) =>
      var s1 := Close(s, ref, inner);
      CloseFollows(s, ref, inner);
      CloseAllFollows(s1, rest);
      FollowsTrans(s, s1, CloseAll(s1, rest));
  }

  lemma ClearFollows(s: State, k: nat)
    requires k < |s.clients|
    ensures Follows(s, Clear(s, k))
  {
  }

  lemma CancelFollows(s: State, id: bytes)
    ensures Follows(s, Cancel(s, id))
  {
    var i := PendingFor(s.pending, id);
    if i < |s.pending| {
      PendingDrops(s, i);
    }
  }

  lemma PendingDrops(s: State, i: nat)
    requires i < |s.pending|
    ensures Timed(s) ==> Timed(s.(pending := RemoveAt(s.pending, i)))
  {
    hide DueAt, OnTime;
    var ps := RemoveAt(s.pending, i);
    assert forall j :: 0 <= j < |ps| ==> ps[j] == s.pending[if j < i then j else j + 1];
  }

  lemma UnlinkFollows(s: State, ref: nat)
    ensures Follows(s, Unlink(s, ref))
  {
    ClientsFollow(s, Unlink(s, ref).clients, s.nextWid);
    hide Follows;
  }

  lemma DisconnectFollows(s: State, ref: nat, withWill: bool, closing: Closing)
    ensures Follows(s, Disconnect(s, ref, withWill, closing))
  {
    hide Follows, PublishWill, Clear, Unlink;
    ClientsFollow(s, s.clients, s.nextWid);
    var k := ClientAt(s.clients, ref);
    if k < |s.clients| {
      PublishFollows(s, k, closing);
      ClearFollows(s, k);
      var s1 := if withWill && s.clients[k].v5 then PublishWill(s, k, closing) else Clear(s, k);
      UnlinkFollows(s1, ref);
      FollowsTrans(s, s1, Unlink(s1, ref));
    }
  }

  lemma ConnectFollows(s: State, ref: nat, id: bytes, v5: bool, expiry: nat, will: Option<nat>, closing: Closing)
    ensures Follows(s, Connect(s, ref, id, v5, expiry, will, closing))
  {
    hide Follows, TakeOver, Cancel;
    ClientsFollow(s, s.clients, s.nextWid);
    if ClientAt(s.clients, ref) == |s.clients| {
      var s0 := Cancel(s, id);
      var s1, r := TakeOver(s0, id, closing), Connect(s, ref, id, v5, expiry, will, closing);
      CancelFollows(s, id);
      TakeOverFollows(s0, id, closing);
      ClientsFollow(s1, r.clients, r.nextWid);
      FollowsTrans(s, s0, s1);
      FollowsTrans(s, s1, r);
    }
  }

  lemma TakeOverFollows(s: State, id: bytes, closing: Closing)
    ensures Follows(s, TakeOver(s, id, closing))
  {
    hide Follows, PublishWill, Clear, Unlink;
    ClientsFollow(s, s.clients, s.nextWid);
    var k := ClientNamed(s.clients, id);
    if k < |s.clients| {
      PublishFollows(s, k, closing);
      ClearFollows(s, k);
      var s1 := if s.clients[k].v5 then Clear(s, k) else PublishWill(s, k, closing);
      UnlinkFollows(s1, s.clients[k].ref);
      FollowsTrans(s, s1, TakeOver(s, id, closing));
    }
  }

  lemma ReleaseFollows(s: State, i: nat)
    requires i < |s.pending| && s.pending[i].due <= s.clock
    ensures Follows(s, Release(s, s.pending[i]))
  {
    hide DueAt;
  }

  lemma RemoveFollows(s: State, i: nat)
    requires i < |s.pending|
    ensures Follows(s, s.(pending := RemoveAt(s.pending, i)))
  {
    PendingDrops(s, i);
    hide Timed;
  }

  lemma {:induction false} SweepFollows(s: State, left: nat, now: nat, cs: seq<Closing>)
    requires left <= |s.pending| && now <= s.clock
    ensures Follows(s, Sweep(s, left, now, cs))
    decreases left
  {
    hide Timed, CloseAll, InFront, Sweep, Release;
    SweepStep(s, left, now, cs);
    if left > 0 {
      var p := s.pending[|s.pending| - left];
      if now >= p.due {
        var s0 := Release(s, p);
        ReleaseFollows(s, |s.pending| - left);
        CloseAllFollows(s0, Next(cs));
        var s1 := CloseAll(s0, Next(cs));
        RemoveFollows(s1, |s1.pending| - left);
        var s2 := s1.(pending := RemoveAt(s1.pending, |s1.pending| - left));
        SweepFollows(s2, left - 1, now, Rest(cs));
      } else {
        SweepFollows(s, left - 1, now, cs);
      }
    }
  }

  lemma StepFollows(s: State, ev: Event)
    ensures Follows(s, Step(s, ev))
  {
    hide Connect, Close, Disconnect, Sweep;
    match ev
    case EvConnect(ref, id, v5, expiry, will, closing) => ConnectFollows(s, ref, id, v5, expiry, will, closing);
    case EvClose(ref, closing) => CloseFollows(s, ref, closing);
    case EvDisconnect(ref, withWill, closing) => DisconnectFollows(s, ref, withWill, closing);
    case EvProcess(cs) => SweepFollows(s, |s.pending|, s.clock, cs);
    case EvWait(n) =>
  }

  lemma {:induction false} RunFollows(s: State, evs: seq<Event>)
    ensures Follows(s, Run(s, evs))
  {
    hide Follows, Step;
    if evs == [] {
      ClientsFollow(s, s.clients, s.nextWid);
    } else {
      var s1 := Run(s, evs[..|evs| - 1]);
      RunFollows(s, evs[..|evs| - 1]);
      StepFollows(s1, evs[|evs| - 1]);
      FollowsTrans(s, s1, Run(s, evs));
    }
  }

  lemma {:induction false} RunAppend(s: State, evs: seq<Event>, more: seq<Event>)
    ensures Run(s, evs + more) == Run(Run(s, evs), more)
  {
    hide Step;
    if more == [] {
      assert evs + more == evs;
    } else {
      var l := |more| - 1;
      assert (evs + more)[..|evs + more| - 1] == evs + more[..l];
      RunAppend(s, evs, more[..l]);
    }
  }

  // ---------------------------------------------------------------- silence

  /** Nobody holds the accepted Will w any more, and it is not waiting. */
  ghost predicate Gone(s: State, w: nat) {
    && w < s.nextWid
    && (forall i :: 0 <= i < |s.clients| && s.clients[i].will.Some? ==> s.clients[i].will.value.wid != w)
    && (forall i :: 0 <= i < |s.pending| ==> s.pending[i].wid != w)
  }

  /** From s to r the history says nothing more of w. */
  ghost predicate Silent(s: State, r: State, w: nat) {
    && Gone(r, w) && s.log <= r.log
    && forall i :: |s.log| <= i < |r.log| ==> r.log[i].wid != w
  }

  lemma SilentTrans(a: State, b: State, c: State, w: nat)
    requires Silent(a, b, w) && Silent(b, c, w)
    ensures Silent(a, c, w)
  {
    hide Gone;
  }

  lemma ClientGone(cs: seq<Client>, k: nat, w: nat)
    requires k < |cs| && forall i :: 0 <= i < |cs| && cs[i].will.Some? ==> cs[i].will.value.wid != w
    ensures var r := RemoveAt(cs, k); forall i :: 0 <= i < |r| && r[i].will.Some? ==> r[i].will.value.wid != w
  {
    var r := RemoveAt(cs, k);
    assert forall i :: 0 <= i < |r| ==> r[i] == cs[if i < k then i else i + 1];
  }

  lemma UnlinkSilent(s: State, ref: nat, w: nat)
    requires Gone(s, w)
    ensures Silent(s, Unlink(s, ref), w)
  {
    var k := ClientAt(s.clients, ref);
    if k < |s.clients| {
      ClientGone(s.clients, k, w);
    }
  }

  lemma {:induction false} PublishSilent(s: State, k: nat, closing: Closing, w: nat)
    requires k < |s.clients| && Gone(s, w)
    ensures Silent(s, PublishWill(s, k, closing), w)
    decreases closing, 1
  {
    hide CloseAll, InFront, DueAt;
    match s.clients[k].will
    case None =>
    case Some(own) =>
      if Immediate(s, own) {
        var s0 := Announce(s, k, own);
        CloseAllSilent(s0, closing, w);
        SilentTrans(s, s0, CloseAll(s0, closing), w);
      } else {
        var r := Defer(s, k, own);
        assert forall i :: 0 < i < |r.pending| ==> r.pending[i] == s.pending[i - 1];
      }
  }

  lemma {:induction false} CloseSilent(s: State, ref: nat, closing: Closing, w: nat)
    requires Gone(s, w)
    ensures Silent(s, Close(s, ref, closing), w)
    decreases closing, 2
  {
    hide PublishWill, InFront, Unlink;
    var k := ClientAt(s.clients, ref);
    if k < |s.clients| {
      var s1 := PublishWill(s, k, closing);
      PublishSilent(s, k, closing, w);
      UnlinkSilent(s1, ref, w);
      SilentTrans(s, s1, Unlink(s1, ref), w);
    }
  }

  lemma {:induction false} CloseAllSilent(s: State, closing: Closing, w: nat)
    requires Gone(s, w)
    ensures Silent(s, CloseAll(s, closing), w)
    decreases closing, 0
  {
    hide Close, InFront;
    match closing
    case Quiet =>
    case Closes(ref, inner, rest) =>
      var s1 := Close(s, ref, inner);
      CloseSilent(s, ref, inner, w);
      CloseAllSilent(s1, rest, w);
      SilentTrans(s, s1, CloseAll(s1, rest), w);
  }

  lemma CancelSilent(s: State, id: bytes, w: nat)
    requires Gone(s, w)
    ensures Silent(s, Cancel(s, id), w)
  {
    var i := PendingFor(s.pending, id);
    if i < |s.pending| {
      PendingGone(s.pending, i, w);
    }
  }

  lemma PendingGone(ps: seq<Pend>, i: nat, w: nat)
    requires i < |ps| && forall j :: 0 <= j < |ps| ==> ps[j].wid != w
    ensures forall j :: 0 <= j < |RemoveAt(ps, i)| ==> RemoveAt(ps, i)[j].wid != w
  {
    var r := RemoveAt(ps, i);
    assert forall j :: 0 <= j < |r| ==> r[j] == ps[if j < i then j else j + 1];
  }

  lemma ClearSilent(s: State, k: nat, w: nat)
    requires k < |s.clients| && Gone(s, w)
    ensures Silent(s, Clear(s, k), w)
  {
  }

  lemma DepartSilent(s: State, k: nat, publish: bool, closing: Closing, w: nat)
    requires k < |s.clients| && Gone(s, w)
    ensures Silent(s, Unlink(if publish then PublishWill(s, k, closing) else Clear(s, k), s.clients[k].ref), w)
  {
    hide PublishWill, Clear, Unlink, Gone;
    PublishSilent(s, k, closing, w);
    ClearSilent(s, k, w);
    var s1 := if publish then PublishWill(s, k, closing) else Clear(s, k);
    UnlinkSilent(s1, s.clients[k].ref, w);
    SilentTrans(s, s1, Unlink(s1, s.clients[k].ref), w);
  }

  lemma DisconnectSilent(s: State, ref: nat, withWill: bool, closing: Closing, w: nat)
    requires Gone(s, w)
    ensures Silent(s, Disconnect(s, ref, withWill, closing), w)
  {
    hide PublishWill, Clear, Unlink, Gone;
    var k := ClientAt(s.clients, ref);
    if k < |s.clients| {
      DepartSilent(s, k, withWill && s.clients[k].v5, closing, w);
    }
  }

  lemma ConnectSilent(s: State, ref: nat, id: bytes, v5: bool, expiry: nat, will: Option<nat>, closing: Closing, w: nat)
    requires Gone(s, w)
    ensures Silent(s, Connect(s, ref, id, v5, expiry, will, closing), w)
  {
    hide PublishWill, Clear, Unlink, Gone, Cancel;
    if ClientAt(s.clients, ref) == |s.clients| {
      var s0 := Cancel(s, id);
      var s1, r := TakeOver(s0, id, closing), Connect(s, ref, id, v5, expiry, will, closing);
      CancelSilent(s, id, w);
      var k := ClientNamed(s0.clients, id);
      if k < |s0.clients| {
        DepartSilent(s0, k, !s0.clients[k].v5, closing, w);
      }
      SilentTrans(s, s0, s1, w);
      JoinSilent(s1, r.clients[0], r.nextWid, w);
      SilentTrans(s, s1, r, w);
    }
  }

  lemma JoinSilent(s: State, c: Client, next: nat, w: nat)
    requires Gone(s, w) && s.nextWid <= next && (c.will.Some? ==> c.will.value.wid == s.nextWid)
    ensures Silent(s, s.(clients := [c] + s.clients, nextWid := next), w)
  {
    var cs := [c] + s.clients;
    assert forall i :: 0 < i < |cs| ==> cs[i] == s.clients[i - 1];
  }

  lemma {:induction false} SweepSilent(s: State, left: nat, now: nat, cs: seq<Closing>, w: nat)
    requires left <= |s.pending| && Gone(s, w)
    ensures Silent(s, Sweep(s, left, now, cs), w)
    decreases left
  {
    hide CloseAll, InFront, Sweep;
    SweepStep(s, left, now, cs);
    if left > 0 {
      var p := s.pending[|s.pending| - left];
      if now >= p.due {
        var s0 := Release(s, p);
        CloseAllSilent(s0, Next(cs), w);
        var s1 := CloseAll(s0, Next(cs));
        SilentTrans(s, s0, s1, w);
        PendingGone(s1.pending, |s1.pending| - left, w);
        var s2 := s1.(pending := RemoveAt(s1.pending, |s1.pending| - left));
        SweepSilent(s2, left - 1, now, Rest(cs), w);
        SilentTrans(s, s2, Sweep(s2, left - 1, now, Rest(cs)), w);
      } else {
        SweepSilent(s, left - 1, now, cs, w);
      }
    }
  }

  lemma StepSilent(s: State, ev: Event, w: nat)
    requires Gone(s, w)
    ensures Silent(s, Step(s, ev), w)
  {
    hide Connect, Close, Disconnect, Sweep;
    match ev
    case EvConnect(ref, id, v5, expiry, will, closing) => ConnectSilent(s, ref, id, v5, expiry, will, closing, w);
    case EvClose(ref, closing) => CloseSilent(s, ref, closing, w);
    case EvDisconnect(ref, withWill, closing) => DisconnectSilent(s, ref, withWill, closing, w);
    case EvProcess(cs) => SweepSilent(s, |s.pending|, s.clock, cs, w);
    case EvWait(n) =>
  }

  lemma {:induction false} RunSilent(s: State, evs: seq<Event>, w: nat)
    requires Gone(s, w)
    ensures Silent(s, Run(s, evs), w)
  {
    hide Step, Gone;
    if evs != [] {
      var s1 := Run(s, evs[..|evs| - 1]);
      RunSilent(s, evs[..|evs| - 1], w);
      StepSilent(s1, evs[|evs| - 1], w);
      SilentTrans(s, s1, Run(s, evs), w);
    }
  }
}
