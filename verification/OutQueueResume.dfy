/** Session resumption: which messages one drain after a reclaim re-sends, and
    what may leave the queue at all. */
module OutQueueResume {
  import opened Common
  import opened PacketId
  import opened OutQueue
  import opened OutQueueInvariant

  // ------------------------------------------------- how far a drain reaches

  /** A drain from i leaves earlier entries and the old history alone, and
      raises the in-flight count only below the cap. */
  lemma {:induction false} DrainExtends(s: Session, i: nat, ws: seq<Write>)
    requires i <= |s.q|
    ensures var d := DrainFrom(s, i, ws).0;
      && i <= |d.q| && d.q[..i] == s.q[..i] && s.log <= d.log && d.conn == s.conn
      && d.inflight <= Max(s.inflight, s.cap)
    decreases |s.q| - i
  {
    hide Visit, Writes;
    if i < |s.q| {
      var ws' := if Writes(s, i) then Rest(ws) else ws;
      var (s', v) := Visit(s, i, First(ws));
      VisitExtends(s, i, First(ws));
      match v
      case Onward =>
        DrainExtends(s', i + 1, ws');
        var d := DrainFrom(s', i + 1, ws').0;
        assert d.q[..i] == d.q[..i + 1][..i] && s'.q[..i] == s'.q[..i + 1][..i];
      case Again => DrainExtends(s', i, ws');
      case Stop(_) =>
    }
  }

  ghost predicate Extends(s: Session, i: nat, r: (Session, Verdict))
    requires i < |s.q|
  {
    && i <= |r.0.q| && r.0.q[..i] == s.q[..i] && s.log <= r.0.log
    && r.0.conn == s.conn && r.0.cap == s.cap
    && r.0.inflight <= Max(s.inflight, s.cap)
    && (r.1 == Onward ==> |r.0.q| == |s.q|)
    && (r.1 == Again ==> |r.0.q| < |s.q|)
  }

  lemma VisitPublishExtends(s: Session, i: nat, w: Write)
    requires i < |s.q| && (s.q[i].qos > 0 ==> s.inflight < s.cap)
    ensures Extends(s, i, VisitPublish(s, i, w))
  {
    var e := s.q[i];
    match w
    case Complete =>
    case Deferred(b) =>
    case Failed(b, t) =>
  }

  lemma VisitExtends(s: Session, i: nat, w: Write)
    requires i < |s.q|
    ensures Extends(s, i, Visit(s, i, w))
  {
    hide VisitPublish;
    if !(s.q[i].qos > 0 && s.inflight >= s.cap) {
      VisitPublishExtends(s, i, w);
    }
  }

  // ------------------------------------------------------ the sent prefix

  /** Length of the prefix of messages already published in full. */
  function PrefixLen(q: seq<Entry>, f: set<nat>): (n: nat)
    ensures n <= |q|
    ensures forall k :: 0 <= k < n ==> q[k].seqno in f
    ensures n < |q| ==> q[n].seqno !in f
  {
    if q == [] || q[0].seqno !in f then 0 else 1 + PrefixLen(q[1..], f)
  }

  /** How many messages of the session have been published and not completed. */
  function Outstanding(s: Session): nat {
    PrefixLen(s.q, Finished(s.log))
  }

  function QueuedCount(q: seq<Entry>): nat {
    if q == [] then 0 else (if q[0].phase == Queued then 1 else 0) + QueuedCount(q[1..])
  }

  lemma {:induction false} QueuedOrFlying(q: seq<Entry>)
    ensures QueuedCount(q) + Flying(q) == |q|
  {
    if q != [] {
      QueuedOrFlying(q[1..]);
    }
  }

  lemma {:induction false} NoneFlying(q: seq<Entry>)
    requires forall k :: 0 <= k < |q| ==> q[k].phase == Queued
    ensures Flying(q) == 0
  {
    if q != [] {
      NoneFlying(q[1..]);
    }
  }

  lemma {:induction false} NoneQueued(q: seq<Entry>)
    ensures QueuedCount(q) == 0 <==> forall k :: 0 <= k < |q| ==> q[k].phase != Queued
  {
    if q != [] {
      NoneQueued(q[1..]);
      if QueuedCount(q) == 0 {
        forall k | 0 <= k < |q| ensures q[k].phase != Queued {
          assert k > 0 ==> q[k] == q[1..][k - 1];
        }
      } else if q[0].phase != Queued {
        var k :| 0 <= k < |q[1..]| && q[1..][k].phase == Queued;
        assert q[k + 1].phase == Queued;
      }
    }
  }

  // ------------------------------------------------------------- resending

  /** Entry k of the reclaimed session s has been sent again in d: a PUBREL
      if it had got that far, otherwise its PUBLISH with DUP=1. */
  ghost predicate Resent(s: Session, d: Session, k: nat)
    requires k < |s.q|
  {
    var e := s.q[k];
    && k < |d.q| && d.q[k].seqno == e.seqno && |s.log| <= |d.log|
    && (e.phase == PubrelSent ==>
          d.q[k].phase == PubrelSent && Rel(s.conn, e.seqno) in d.log[|s.log|..])
    && (e.phase == Queued ==>
          d.q[k].phase == PublishSent && Header(s.conn, e.seqno, e.qos, true) in d.log[|s.log|..])
  }

  /** The first n entries await retransmission. */
  ghost predicate Awaiting(s: Session, i: nat, n: nat) {
    && i <= n <= |s.q| <= s.count && s.pendLen == 0 && !s.partial
    && forall k :: i <= k < n ==>
      && s.q[k].dup && s.q[k].qos > 0 && s.q[k].encLen != 0
      && (s.q[k].phase == PubrelSent || s.q[k].phase == Queued)
  }

  /** What a completed visit leaves of an awaiting entry. */
  lemma VisitResends(s: Session, i: nat, n: nat)
    requires Awaiting(s, i, n) && i < n && (s.q[i].phase == Queued ==> s.inflight < s.cap)
    ensures var e, s', v := s.q[i], Visit(s, i, Complete).0, Visit(s, i, Complete).1;
      && v == Onward && Awaiting(s', i + 1, n) && s'.cap == s.cap && s'.conn == s.conn
      && |s'.q| == |s.q| && s'.q[i + 1..] == s.q[i + 1..]
      && s'.inflight == s.inflight + (if e.phase == Queued then 1 else 0)
      && |s.log| < |s'.log| && s.log <= s'.log
      && s'.q[i] == e.(dup := false, phase := if e.phase == Queued then PublishSent else PubrelSent)
      && s'.log[|s.log|] == (if e.phase == Queued then Header(s.conn, e.seqno, e.qos, true)
                             else Rel(s.conn, e.seqno))
  {
  }

  /** Later events keep what an earlier visit achieved. */
  lemma ResentStays(s: Session, s': Session, d: Session, k: nat)
    requires k < |s.q| && k < |s'.q| && s.q[k] == s'.q[k] && s.conn == s'.conn && s.log <= s'.log
    requires Resent(s', d, k)
    ensures Resent(s, d, k)
  {
    assert d.log[|s'.log|..] == d.log[|s.log|..][|s'.log| - |s.log|..];
  }

  /** With room for the unacknowledged PUBLISH packets, one drain whose writes
      complete reaches the end of the prefix. */
  lemma {:induction false} ResendPrefix(s: Session, i: nat, n: nat)
    requires Awaiting(s, i, n)
    requires var m := QueuedCount(s.q[i..n]); m == 0 || s.inflight + m <= s.cap
    ensures var d := DrainFrom(s, i, []).0; forall k :: i <= k < n ==> Resent(s, d, k)
    decreases n - i
  {
    hide Visit, Writes;
    var d := DrainFrom(s, i, []).0;
    if i < n {
      assert s.q[i..n][1..] == s.q[i + 1..n];
      VisitResends(s, i, n);
      var s' := Visit(s, i, Complete).0;
      assert s'.q[i + 1..n] == s'.q[i + 1..][..n - i - 1] == s.q[i + 1..n];
      ResendPrefix(s', i + 1, n);
      DrainExtends(s', i + 1, []);
      assert d == DrainFrom(s', i + 1, []).0;
      assert d.q[i] == d.q[..i + 1][i] == s'.q[..i + 1][i] == s'.q[i];
      assert d.log[|s.log|] == s'.log[|s.log|] && d.log[|s.log|..][0] == s'.log[|s.log|];
      forall k | i < k < n ensures Resent(s, d, k) {
        assert s.q[k] == s.q[i + 1..][k - i - 1] == s'.q[k];
        ResentStays(s, s', d, k);
      }
    }
  }

  /** In an orphan, exactly the outstanding messages need resending. */
  lemma OrphanPhases(s: Session, k: nat)
    requires Inv(s) && !s.live && k < |s.q|
    ensures k < Outstanding(s) ==>
      s.q[k].qos > 0 && s.q[k].encLen != 0 && (s.q[k].phase == Queued ==> s.q[k].dup)
    ensures k >= Outstanding(s) ==> s.q[k].phase == Queued
  {
    var n, f := Outstanding(s), Finished(s.log);
    assert FlagsOk(s.q[k], Wired(s.log), f, Accepted(s.log), k == -1);
    if k < n {
      FinishedIsWired(s.log, s.q[k].seqno);
    } else {
      assert s.q[n].seqno !in f;
    }
  }

  /** What a reclaimed session looks like. */
  lemma ReclaimedShape(s: Session, receiveMax: nat)
    requires Inv(s) && !s.live
    ensures var r, n := Reclaim(s, receiveMax), Outstanding(s);
      Awaiting(r, 0, n) && r.inflight + QueuedCount(r.q[..n]) == n
  {
    var r, n := Reclaim(s, receiveMax), Outstanding(s);
    forall k | 0 <= k < |s.q|
      ensures k < n ==> r.q[k].dup && r.q[k].qos > 0 && r.q[k].encLen != 0
      ensures r.q[k].phase == PubrelSent || r.q[k].phase == Queued
      ensures k >= n ==> r.q[k].phase == Queued
    {
      OrphanPhases(s, k);
      assert r.q[k] == ResumedEntry(s.q[k]);
    }
    ResumedFlying(s.q);
    CountPrefix(r.q, n);
  }

  lemma CountPrefix(q: seq<Entry>, n: nat)
    requires n <= |q| && forall k :: n <= k < |q| ==> q[k].phase == Queued
    ensures Flying(q) + QueuedCount(q[..n]) == n
  {
    assert q == q[..n] + q[n..];
    FlyingSplit(q[..n], q[n..]);
    NoneFlying(q[n..]);
    QueuedOrFlying(q[..n]);
  }

  /** A message published in full was announced first. */
  lemma {:induction false} FinishedIsWired(log: seq<Wire>, n: nat)
    requires LogOk(log) && n in Finished(log)
    ensures n in Wired(log)
  {
    var front := log[..|log| - 1];
    if n in Finished(front) {
      FinishedIsWired(front, n);
    }
  }

  lemma FlyingAtLeast(q: seq<Entry>, n: nat)
    requires n <= |q| && forall k :: 0 <= k < n ==> q[k].phase != Queued
    ensures Flying(q) >= n
  {
    assert q == q[..n] + q[n..];
    FlyingSplit(q[..n], q[n..]);
    FlyingPrefix(q[..n], n);
  }

  /** The messages published and not yet completed are a prefix of the queue,
      within the widest window the session has had. */
  lemma OutstandingIsPrefix(s: Session)
    requires Inv(s)
    ensures Outstanding(s) <= s.peakCap
    ensures forall k :: 0 <= k < |s.q| ==> (s.q[k].seqno in Finished(s.log) <==> k < Outstanding(s))
  {
    var n := Outstanding(s);
    if n > 0 {
      assert s.q[n - 1].seqno in Finished(s.log);
    }
  }

  lemma InflightExact(s: Session)
    requires Inv(s)
    ensures s.inflight == Flying(s.q)
  {
  }

  /** Nothing is resent beyond what the window lets through. */
  lemma NotAllResent(s: Session, receiveMax: nat)
    requires Inv(s) && !s.live
    requires var r, n := Reclaim(s, receiveMax), Outstanding(s);
      r.cap < n && exists k :: 0 <= k < n && s.q[k].phase != PubrelSent
    ensures var r := Reclaim(s, receiveMax);
      exists k :: 0 <= k < Outstanding(s) && !Resent(r, Drain(r, []).0, k)
  {
    hide Inv, Visit, Writes, Outstanding, Flying;
    var r, n := Reclaim(s, receiveMax), Outstanding(s);
    var d := Drain(r, []).0;
    ReclaimKeeps(s, receiveMax);
    ReclaimedShape(s, receiveMax);
    DrainKeeps(r, 0, []);
    InflightExact(d);
    DrainExtends(r, 0, []);
    var k :| 0 <= k < n && s.q[k].phase != PubrelSent;
    assert r.q[..n][k] == ResumedEntry(s.q[k]) && r.q[..n][k].phase == Queued;
    NoneQueued(r.q[..n]);
    if forall k :: 0 <= k < n ==> Resent(r, d, k) {
      assert Resent(r, d, n - 1);
      forall j | 0 <= j < n ensures d.q[j].phase != Queued {
        assert Resent(r, d, j) && (r.q[j].phase == PubrelSent || r.q[j].phase == Queued);
      }
      FlyingAtLeast(d.q, n);
      assert false;
    }
  }

  /** Resume completeness, exactly. After any run, reclaiming an orphaned
      session and draining once with every write completing re-sends all
      outstanding messages if and only if they fit the new connection's
      window, or none of them still waits for its first acknowledgement. */
  lemma ResumeExact(lim: Limits, rm: nat, evs: seq<Event>, receiveMax: nat)
    requires LimitsOk(lim) && !Run(Initial(lim, rm), evs).live
    ensures var s := Run(Initial(lim, rm), evs);
      var r, n := Reclaim(s, receiveMax), Outstanding(s);
      (forall k :: 0 <= k < n ==> Resent(r, Drain(r, []).0, k))
      <==> (n <= r.cap || forall k :: 0 <= k < n ==> s.q[k].phase == PubrelSent)
  {
    hide Inv, Run, Visit, Writes;
    var s := Run(Initial(lim, rm), evs);
    InitialOk(lim, rm);
    RunKeeps(Initial(lim, rm), evs);
    var r, n := Reclaim(s, receiveMax), Outstanding(s);
    ReclaimedShape(s, receiveMax);
    assert r.q[0..n] == r.q[..n] && Drain(r, []) == DrainFrom(r, 0, []);
    if forall k :: 0 <= k < n ==> s.q[k].phase == PubrelSent {
      NoneQueued(r.q[..n]);
      ResendPrefix(r, 0, n);
      assert forall k :: 0 <= k < n ==> Resent(r, Drain(r, []).0, k);
    } else if n <= r.cap {
      ResendPrefix(r, 0, n);
      assert forall k :: 0 <= k < n ==> Resent(r, Drain(r, []).0, k);
    } else {
      NotAllResent(s, receiveMax);
    }
  }

  /** A connection whose window is no smaller than any before resumes fully. */
  lemma WideEnoughResumesAll(lim: Limits, rm: nat, evs: seq<Event>, receiveMax: nat)
    requires LimitsOk(lim) && !Run(Initial(lim, rm), evs).live
    requires EffectiveCap(Run(Initial(lim, rm), evs).lim, receiveMax) >= Run(Initial(lim, rm), evs).peakCap
    ensures var s := Run(Initial(lim, rm), evs); var r := Reclaim(s, receiveMax);
      && Outstanding(s) <= s.peakCap
      && forall k :: 0 <= k < |s.q| && s.q[k].seqno in Finished(s.log) ==>
           Resent(r, Drain(r, []).0, k)
  {
    InitialOk(lim, rm);
    RunKeeps(Initial(lim, rm), evs);
    OutstandingIsPrefix(Run(Initial(lim, rm), evs));
    ResumeExact(lim, rm, evs, receiveMax);
  }

  /** The other side of the condition is reachable: two QoS 2 messages, the
      second past PUBREC, reconnect with Receive Maximum 1. The unacknowledged
      PUBLISH waits for a window that only the unsent PUBREL could reopen, and
      no drain, however its writes go, sends anything. */
  lemma SmallerWindowStrands(m: Message, ws: seq<Write>)
    ensures var evs := [EvEnqueue(2, 9, m, 1), EvEnqueue(2, 9, m, 2), EvDrain([]), EvPubRec(2),
                        EvOrphan, EvReclaim(1)];
      var s := Run(Initial(Limits(2, 4, 4), 0), evs);
      s.live && Outstanding(s) == 2 && Drain(s, ws) == (s, Capped)
  {
    hide Step, Drain, Outstanding, Run;
    var s0 := Initial(Limits(2, 4, 4), 0);
    var a, b := Entry(0, 2, 1, Queued, false, 9, 0, m), Entry(1, 2, 2, Queued, false, 9, 0, m);
    var s2 := s0.(q := [a, b], count := 2, next := 2);
    var l := [Header(0, 0, 2, false), Done(0, 0), Header(0, 1, 2, false), Done(0, 1)];
    var s3 := s2.(q := [a.(phase := PublishSent), b.(phase := PublishSent)], inflight := 2, log := l);
    var s4 := s3.(q := [a.(phase := PublishSent), b.(phase := PubrelSent)], log := l + [RecAccepted(1)]);
    RunUnfold(s0, EvEnqueue(2, 9, m, 1), EvEnqueue(2, 9, m, 2), EvDrain([]), EvPubRec(2));
    StrandedQueues(s0, s2, a, b, m);
    StrandedSends(s2, s3, a, b);
    StrandedRec(s3, s4, a, b);
    StrandedResumes(s4, Step(Step(s4, EvOrphan), EvReclaim(1)), a, b, l, ws);
  }

  lemma StrandedQueues(s0: Session, s2: Session, a: Entry, b: Entry, m: Message)
    requires s0 == Initial(Limits(2, 4, 4), 0) && s2 == s0.(q := [a, b], count := 2, next := 2)
    requires a == Entry(0, 2, 1, Queued, false, 9, 0, m) && b == Entry(1, 2, 2, Queued, false, 9, 0, m)
    ensures Step(Step(s0, EvEnqueue(2, 9, m, 1)), EvEnqueue(2, 9, m, 2)) == s2
  {
    hide Step;
    EnqueueAt(s0, 2, 9, m, 1);
    assert s0.q + [a] == [a] && [a] + [b] == [a, b];
    EnqueueAt(s0.(q := [a], count := 1, next := 1), 2, 9, m, 2);
  }

  lemma StrandedRec(s3: Session, s4: Session, a: Entry, b: Entry)
    requires s3.q == [a.(phase := PublishSent), b.(phase := PublishSent)] && CanRead(s3)
    requires a.pid == 1 && b.pid == 2 && b.qos == 2
    requires s4 == s3.(q := [a.(phase := PublishSent), b.(phase := PubrelSent)],
                       log := s3.log + [RecAccepted(b.seqno)])
    ensures Step(s3, EvPubRec(2)) == s4
  {
    assert Find(s3.q, 2, PublishSent) == 1;
  }

  /** An enqueue whose first candidate identifier is free takes it. */
  lemma EnqueueAt(s: Session, qos: QoS, encLen: nat, m: Message, pid: nat)
    requires s.live && s.count < s.lim.queued && qos > 0 && 1 <= pid <= MAX_ID
    requires forall k :: 0 <= k < |s.q| ==> s.q[k].pid != pid
    ensures Step(s, EvEnqueue(qos, encLen, m, pid))
      == s.(q := s.q + [Entry(s.next, qos, pid, Queued, false, encLen, 0, m)],
            count := s.count + 1, next := s.next + 1)
  {
    assert pid !in Pids(s.q);
    assert NextFree(pid, Pids(s.q)) == pid;
  }

  lemma StrandedSends(s2: Session, s3: Session, a: Entry, b: Entry)
    requires s2.q == [a, b] && s2.live && s2.inflight == 0 && s2.cap == 2 && s2.conn == 0
    requires s2.pendLen == 0 && !s2.partial && s2.log == []
    requires a.qos == b.qos == 2 && a.encLen == b.encLen == 9 && a.phase == b.phase == Queued
    requires !a.dup && !b.dup && a.seqno == 0 && b.seqno == 1
    requires s3 == s2.(q := [a.(phase := PublishSent), b.(phase := PublishSent)], inflight := 2,
      log := [Header(0, 0, 2, false), Done(0, 0), Header(0, 1, 2, false), Done(0, 1)])
    ensures Step(s2, EvDrain([])) == s3
  {
    var v1 := Visit(s2, 0, Complete).0;
    assert v1.q == [a.(phase := PublishSent), b];
    var v2 := Visit(v1, 1, Complete).0;
    assert v2.q == s3.q && v2.log == s3.log;
    assert DrainFrom(s2, 0, []) == DrainFrom(v1, 1, []) == DrainFrom(v2, 2, []);
  }

  lemma StrandedResumes(s4: Session, s: Session, a: Entry, b: Entry, l: seq<Wire>, ws: seq<Write>)
    requires s4.q == [a.(phase := PublishSent), b.(phase := PubrelSent)]
    requires s4.live && !s4.partial && s4.lim == Limits(2, 4, 4)
    requires a.qos == 2 && a.seqno == 0 && b.seqno == 1
    requires l == [Header(0, 0, 2, false), Done(0, 0), Header(0, 1, 2, false), Done(0, 1)]
    requires s4.log == l + [RecAccepted(1)]
    requires s == Step(Step(s4, EvOrphan), EvReclaim(1))
    ensures s.live && Outstanding(s) == 2 && Drain(s, ws) == (s, Capped)
  {
    var o := Step(s4, EvOrphan);
    assert o.q[1..][1..] == [] && PubrelCount(o.q) == PubrelCount(o.q[1..]) == 1;
    StrandedLog(l);
  }

  lemma StrandedLog(l: seq<Wire>)
    requires l == [Header(0, 0, 2, false), Done(0, 0), Header(0, 1, 2, false), Done(0, 1)]
    ensures Finished(l + [RecAccepted(1)]) == {0, 1}
  {
    LogGrows([], l[0]);
    LogGrows([l[0]], l[1]);
    LogGrows([l[0], l[1]], l[2]);
    LogGrows([l[0], l[1], l[2]], l[3]);
    LogGrows(l, RecAccepted(1));
    assert [] + [l[0]] == [l[0]] && [l[0]] + [l[1]] == [l[0], l[1]];
    assert [l[0], l[1]] + [l[2]] == [l[0], l[1], l[2]] && [l[0], l[1], l[2]] + [l[3]] == l;
  }

  lemma RunLast(s: Session, evs: seq<Event>, ev: Event)
    ensures Run(s, evs + [ev]) == Step(Run(s, evs), ev)
  {
    assert (evs + [ev])[..|evs|] == evs;
  }

  lemma RunNone(s: Session)
    ensures Run(s, []) == s
  {
  }

  lemma RunUnfold(s: Session, e1: Event, e2: Event, e3: Event, e4: Event)
    ensures Run(s, [e1, e2, e3, e4, EvOrphan, EvReclaim(1)])
      == Step(Step(Step(Step(Step(Step(s, e1), e2), e3), e4), EvOrphan), EvReclaim(1))
  {
    RunNone(s);
    hide Step, Run;
    RunLast(s, [], e1);
    RunLast(s, [e1], e2);
    RunLast(s, [e1, e2], e3);
    RunLast(s, [e1, e2, e3], e4);
    RunLast(s, [e1, e2, e3, e4], EvOrphan);
    RunLast(s, [e1, e2, e3, e4, EvOrphan], EvReclaim(1));
    assert [] + [e1] == [e1] && [e1] + [e2] == [e1, e2] && [e1, e2] + [e3] == [e1, e2, e3];
    assert [e1, e2, e3] + [e4] == [e1, e2, e3, e4];
    assert [e1, e2, e3, e4] + [EvOrphan] == [e1, e2, e3, e4, EvOrphan];
    assert [e1, e2, e3, e4, EvOrphan] + [EvReclaim(1)] == [e1, e2, e3, e4, EvOrphan, EvReclaim(1)];
  }
}
