/** At-least-once: what may take a QoS > 0 message out of the queue. */
module OutQueueLoss {
  import opened Common
  import opened PacketId
  import opened OutQueue
  import opened OutQueueInvariant

  /** The queue still holds message n. */
  ghost predicate Holds(q: seq<Entry>, n: nat) {
    exists k :: 0 <= k < |q| && q[k].seqno == n && q[k].qos > 0 && q[k].encLen != 0
  }

  lemma HoldsAt(q: seq<Entry>, k: nat)
    requires k < |q| && q[k].qos > 0 && q[k].encLen != 0
    ensures Holds(q, q[k].seqno)
  {
  }

  lemma RemoveHolds(q: seq<Entry>, i: nat, n: nat)
    requires i < |q| && Holds(q, n)
    requires q[i].seqno == n ==> q[i].qos == 0 || q[i].encLen == 0
    ensures Holds(RemoveAt(q, i), n)
  {
    var k :| 0 <= k < |q| && q[k].seqno == n && q[k].qos > 0 && q[k].encLen != 0;
    HoldsAt(RemoveAt(q, i), if k < i then k else k - 1);
  }

  lemma UpdateHolds(q: seq<Entry>, i: nat, e: Entry, n: nat)
    requires i < |q| && Holds(q, n)
    requires e.seqno == q[i].seqno && e.qos == q[i].qos && e.encLen == q[i].encLen
    ensures Holds(q[i := e], n)
  {
    var k :| 0 <= k < |q| && q[k].seqno == n && q[k].qos > 0 && q[k].encLen != 0;
    HoldsAt(q[i := e], k);
  }

  lemma VisitHolds(s: Session, i: nat, w: Write, n: nat)
    requires i < |s.q| && Holds(s.q, n)
    ensures Holds(Visit(s, i, w).0.q, n)
  {
    hide Holds;
    var e, q' := s.q[i], Visit(s, i, w).0.q;
    if e.qos == 0 || e.encLen == 0 {
      RemoveHolds(s.q, i, n);
    }
    UpdateHolds(s.q, i, e.(dup := false), n);
    UpdateHolds(s.q, i, e.(phase := PublishSent, dup := false), n);
    UpdateHolds(s.q, i, e.(dup := true), n);
    assert s.q[i := e] == s.q;
    assert q' == s.q || q' == s.q[i := e.(dup := false)] || q' == s.q[i := e.(dup := true)]
      || q' == s.q[i := e.(phase := PublishSent, dup := false)]
      || ((e.qos == 0 || e.encLen == 0) && q' == RemoveAt(s.q, i));
  }

  lemma {:induction false} DrainHolds(s: Session, i: nat, ws: seq<Write>, n: nat)
    requires i <= |s.q| && Holds(s.q, n)
    ensures Holds(DrainFrom(s, i, ws).0.q, n)
    decreases |s.q| - i
  {
    hide Holds;
    if i < |s.q| {
      VisitHolds(s, i, First(ws), n);
      var ws' := if Writes(s, i) then Rest(ws) else ws;
      var (s', v) := Visit(s, i, First(ws));
      match v
      case Onward => DrainHolds(s', i + 1, ws', n);
      case Again => DrainHolds(s', i, ws', n);
      case Stop(_) =>
    }
  }

  /** Eviction drops the oldest entries, and no more than it must. */
  lemma {:induction false} EvictsOldest(s: Session)
    requires s.count == |s.q| && s.lim.offline > 0
    ensures var m := Max(0, |s.q| - s.lim.offline + 1); m <= |s.q| && Evict(s).q == s.q[m..]
    decreases |s.q|
  {
    if s.count >= s.lim.offline && s.q != [] {
      assert EvictHead(s).q == s.q[1..];
      EvictsOldest(EvictHead(s));
      var m := |s.q| - s.lim.offline + 1;
      assert s.q[1..][m - 1..] == s.q[m..];
    } else {
      assert s.q[0..] == s.q;
    }
  }

  /** The acknowledgement an event carries, if any. */
  predicate Acknowledges(ev: Event, pid: nat) {
    match ev
    case EvPubAck(p, _) => p == pid
    case EvPubReject(p, _) => p == pid
    case EvPubComp(p, _) => p == pid
    case _ => false
  }

  lemma AckHolds(s: Session, i: nat, k: nat, ws: seq<Write>)
    requires Inv(s) && i < |s.q| && k < |s.q| && i != k && s.q[k].qos > 0 && s.q[k].encLen != 0
    ensures Holds(Drain(Unlink(s, i), ws).0.q, s.q[k].seqno)
  {
    hide Holds;
    HoldsAt(s.q, k);
    assert s.q[i].seqno != s.q[k].seqno;
    RemoveHolds(s.q, i, s.q[k].seqno);
    DrainHolds(Unlink(s, i), 0, ws, s.q[k].seqno);
  }

  /** An entry past the Queued phase was published in full. */
  lemma SentInFull(s: Session, k: nat)
    requires Inv(s) && k < |s.q|
    ensures s.q[k].phase != Queued ==> s.q[k].seqno in Finished(s.log)
  {
    assert FlagsOk(s.q[k], Wired(s.log), Finished(s.log), Accepted(s.log), k == At(s));
  }

  /** In every state satisfying the invariant, a QoS > 0 message whose PUBLISH
      encodes leaves the queue only when its own acknowledgement arrives after
      it was published in full, when it is among the oldest of a full offline
      queue, when the session ends, or when its live connection is taken over,
      which frees the queue although the session goes on. */
  lemma LeavesOnlyWhen(s: Session, ev: Event, k: nat)
    requires Inv(s) && k < |s.q| && s.q[k].qos > 0 && s.q[k].encLen != 0
    ensures
      || Holds(Step(s, ev).q, s.q[k].seqno)
      || (Acknowledges(ev, s.q[k].pid) && s.q[k].phase != Queued && s.q[k].seqno in Finished(s.log))
      || (ev.EvEnqueue? && !s.live && k <= |s.q| - s.lim.offline)
      || ev.EvFresh?
      || (ev.EvTakeover? && s.live)
  {
    hide Holds, Inv, DrainFrom, Finished, Evict;
    var n := s.q[k].seqno;
    HoldsAt(s.q, k);
    SentInFull(s, k);
    match ev
    case EvEnqueue(qos, encLen, m, nextPid) => EnqueueHolds(s, ev, k);
    case EvDrain(ws) => DrainHolds(s, 0, ws, n);
    case EvPubAck(pid, ws) =>
      var i := Find(s.q, pid, PublishSent);
      if i < |s.q| && i != k { AckHolds(s, i, k, ws); }
    case EvPubReject(pid, ws) =>
      var i := Find(s.q, pid, PublishSent);
      if i < |s.q| && i != k { AckHolds(s, i, k, ws); }
    case EvPubComp(pid, ws) =>
      var i := Find(s.q, pid, PubrelSent);
      if i < |s.q| && i != k { AckHolds(s, i, k, ws); }
    case EvPubRec(pid) =>
      var i := Find(s.q, pid, PublishSent);
      if i < |s.q| { UpdateHolds(s.q, i, s.q[i].(phase := PubrelSent), n); }
    case EvOrphan => OrphanHolds(s, k);
    case EvReclaim(rm) => HoldsAt(Reclaim(s, rm).q, k);
    case EvFresh(_) =>
    case EvTakeover(_) =>
  }

  /** A live enqueue removes nothing; an offline one at most the oldest. */
  lemma EnqueueHolds(s: Session, ev: Event, k: nat)
    requires Inv(s) && k < |s.q| && s.q[k].qos > 0 && s.q[k].encLen != 0 && ev.EvEnqueue?
    ensures Holds(Step(s, ev).q, s.q[k].seqno) || (!s.live && k <= |s.q| - s.lim.offline)
  {
    hide Holds, FirstFree, Inv, Evict;
    InvBasics(s);
    EvictsOldest(s);
    var m, q' := if s.live then 0 else Max(0, |s.q| - s.lim.offline + 1), Step(s, ev).q;
    assert q' == s.q || s.q[m..] <= q';
    if q' == s.q {
      HoldsAt(q', k);
    } else if k >= m {
      assert q'[k - m] == s.q[m..][k - m] == s.q[k];
      HoldsAt(q', k - m);
    }
  }

  lemma OrphanHolds(s: Session, k: nat)
    requires k < |s.q| && s.q[k].qos > 0 && s.q[k].encLen != 0
    ensures Holds(Orphan(s).q, s.q[k].seqno)
  {
    var q := DropHalfSent(s).q;
    HoldsAt(s.q, k);
    var f := FirstQueued(s.q);
    if q != s.q {
      assert q == RemoveAt(s.q, f);
      HoldsAt(Orphan(s).q, if k < f then k else k - 1);
    } else {
      HoldsAt(Orphan(s).q, k);
    }
  }
}
