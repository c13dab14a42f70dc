/** What the outbound queue promises over whole runs: ordered delivery, exact
    DUP flags, no re-publication after PUBREC, bounded in-flight windows, no
    silent loss, and complete resumption. */
module OutQueueTheorems {
  import opened Common
  import opened PacketId
  import opened OutQueue
  import opened OutQueueInvariant

  // --------------------------------------------------- reading the history

  lemma {:induction false} LogOkPrefix(log: seq<Wire>, j: nat)
    requires LogOk(log) && j < |log|
    ensures EventOk(log[..j], log[j])
  {
    var front := log[..|log| - 1];
    if j < |log| - 1 {
      LogOkPrefix(front, j);
      assert front[..j] == log[..j];
    }
  }

  lemma {:induction false} WiredMeans(log: seq<Wire>, n: nat)
    ensures n in Wired(log) <==> exists i :: 0 <= i < |log| && log[i].Header? && log[i].seqno == n
  {
    if log != [] {
      var front := log[..|log| - 1];
      WiredMeans(front, n);
      if n in Wired(front) {
        var i :| 0 <= i < |front| && front[i].Header? && front[i].seqno == n;
        assert log[i].Header? && log[i].seqno == n;
      }
      assert forall i :: 0 <= i < |front| ==> front[i] == log[i];
    }
  }

  lemma {:induction false} AcceptedMeans(log: seq<Wire>, i: nat)
    requires i < |log| && log[i].RecAccepted?
    ensures log[i].seqno in Accepted(log)
  {
    if i < |log| - 1 {
      AcceptedMeans(log[..|log| - 1], i);
    }
  }

  lemma {:induction false} LastIsLargest(log: seq<Wire>, i: nat)
    requires LogOk(log) && i < |log| && log[i].Header?
    ensures log[i].seqno <= LastOn(log, log[i].conn)
  {
    if i < |log| - 1 {
      LastIsLargest(log[..|log| - 1], i);
    }
  }

  // --------------------------------------------------- theorems about runs

  /** On every connection the PUBLISH packets appear in enqueue order. */
  lemma OrderedDelivery(lim: Limits, rm: nat, evs: seq<Event>, i: nat, j: nat)
    requires LimitsOk(lim)
    requires var log := Run(Initial(lim, rm), evs).log;
      i < j < |log| && log[i].Header? && log[j].Header? && log[i].conn == log[j].conn
    ensures var log := Run(Initial(lim, rm), evs).log; log[i].seqno < log[j].seqno
  {
    var log := Run(Initial(lim, rm), evs).log;
    InitialOk(lim, rm);
    RunKeeps(Initial(lim, rm), evs);
    LogOkPrefix(log, j);
    LogOkFront(log, j);
    LastIsLargest(log[..j], i);
  }

  lemma {:induction false} LogOkFront(log: seq<Wire>, j: nat)
    requires LogOk(log) && j <= |log|
    ensures LogOk(log[..j])
  {
    if j < |log| {
      LogOkFront(log[..|log| - 1], j);
      assert log[..|log| - 1][..j] == log[..j];
    } else {
      assert log[..j] == log;
    }
  }

  /** A PUBLISH carries DUP=1 exactly when an earlier transmission of the same
      message put bytes on the wire; a QoS 0 message is transmitted at most
      once. */
  lemma DupExact(lim: Limits, rm: nat, evs: seq<Event>, j: nat)
    requires LimitsOk(lim)
    requires j < |Run(Initial(lim, rm), evs).log| && Run(Initial(lim, rm), evs).log[j].Header?
    ensures var log := Run(Initial(lim, rm), evs).log;
      && (log[j].dup <==> exists i :: 0 <= i < j && log[i].Header? && log[i].seqno == log[j].seqno)
      && (log[j].qos == 0 ==> !log[j].dup)
  {
    var log := Run(Initial(lim, rm), evs).log;
    InitialOk(lim, rm);
    RunKeeps(Initial(lim, rm), evs);
    LogOkPrefix(log, j);
    WiredMeans(log[..j], log[j].seqno);
    var front := log[..j];
    assert forall i :: 0 <= i < j ==> front[i] == log[i];
  }

  /** Once its PUBREC is accepted a message is never sent as PUBLISH again. */
  lemma NeverRepublished(lim: Limits, rm: nat, evs: seq<Event>, i: nat, j: nat)
    requires LimitsOk(lim)
    requires var log := Run(Initial(lim, rm), evs).log;
      i < j < |log| && log[i].RecAccepted? && log[j].Header?
    ensures var log := Run(Initial(lim, rm), evs).log; log[j].seqno != log[i].seqno
  {
    var log := Run(Initial(lim, rm), evs).log;
    InitialOk(lim, rm);
    RunKeeps(Initial(lim, rm), evs);
    LogOkPrefix(log, j);
    AcceptedMeans(log[..j], i);
  }

  /** The counters are exact and the entries lawful in every reachable state. */
  lemma QueueConsistent(lim: Limits, rm: nat, evs: seq<Event>)
    requires LimitsOk(lim)
    ensures var s := Run(Initial(lim, rm), evs);
      && s.count == |s.q| <= Max(lim.queued, lim.offline)
      && s.inflight == Flying(s.q) <= s.peakCap <= lim.inflight
      && (forall k :: 0 <= k < |s.q| && s.q[k].qos == 0 ==> s.q[k].phase == Queued)
      && (forall k :: 0 <= k < |s.q| && s.q[k].phase == PubrelSent ==> s.q[k].qos == 2)
      && (forall k :: 0 <= k < |s.q| && s.q[k].qos > 0 ==> 1 <= s.q[k].pid <= MAX_ID)
      && (forall j, k :: 0 <= j < k < |s.q| && s.q[j].qos > 0 && s.q[k].qos > 0 ==>
            s.q[j].pid != s.q[k].pid)
  {
    var s := Run(Initial(lim, rm), evs);
    InitialOk(lim, rm);
    RunKeeps(Initial(lim, rm), evs);
    PeakBounded(Initial(lim, rm), evs);
    assert forall k :: 0 <= k < |s.q| ==> EntryOk(s.q[k]);
    var f := Finished(s.log);
    assert forall k :: 0 <= k < |s.q| ==>
      FlagsOk(s.q[k], Wired(s.log), f, Accepted(s.log), k == At(s));
    FlyingInsidePeak(s.q, s.peakCap);
  }

  lemma {:induction false} FlyingInsidePeak(q: seq<Entry>, peak: nat)
    requires forall k :: 0 <= k < |q| && q[k].phase != Queued ==> k < peak
    ensures Flying(q) <= peak
    decreases |q|
  {
    if q != [] {
      if peak == 0 {
        FlyingInsidePeak(q[1..], 0);
      } else {
        FlyingInsidePeak(q[1..], peak - 1);
      }
    }
  }

  lemma {:induction false} PeakBounded(s: Session, evs: seq<Event>)
    requires s.peakCap <= s.lim.inflight
    ensures Run(s, evs).lim == s.lim && Run(s, evs).peakCap <= s.lim.inflight
  {
    if evs != [] {
      PeakBounded(s, evs[..|evs| - 1]);
      StepLimits(Run(s, evs[..|evs| - 1]), evs[|evs| - 1]);
    }
  }

  lemma {:induction false} DrainLimits(s: Session, i: nat, ws: seq<Write>)
    requires i <= |s.q|
    ensures DrainFrom(s, i, ws).0.lim == s.lim && DrainFrom(s, i, ws).0.peakCap == s.peakCap
    decreases |s.q| - i
  {
    if i < |s.q| {
      var ws' := if Writes(s, i) then Rest(ws) else ws;
      var (s', v) := Visit(s, i, First(ws));
      match v
      case Onward => DrainLimits(s', i + 1, ws');
      case Again => DrainLimits(s', i, ws');
      case Stop(_) =>
    }
  }

  lemma {:induction false} EvictLimits(s: Session)
    ensures Evict(s).lim == s.lim && Evict(s).peakCap == s.peakCap
    decreases |s.q|
  {
    if s.count >= s.lim.offline && s.q != [] {
      EvictLimits(EvictHead(s));
    }
  }

  lemma StepLimits(s: Session, ev: Event)
    requires s.peakCap <= s.lim.inflight
    ensures Step(s, ev).lim == s.lim && Step(s, ev).peakCap <= s.lim.inflight
  {
    match ev
    case EvEnqueue(_, _, _, _) => EvictLimits(s);
    case EvDrain(ws) => DrainLimits(s, 0, ws);
    case EvPubAck(pid, ws) =>
      var k := Find(s.q, pid, PublishSent);
      if k < |s.q| { DrainLimits(Unlink(s, k), 0, ws); }
    case EvPubReject(pid, ws) =>
      var k := Find(s.q, pid, PublishSent);
      if k < |s.q| { DrainLimits(Unlink(s, k), 0, ws); }
    case EvPubComp(pid, ws) =>
      var k := Find(s.q, pid, PubrelSent);
      if k < |s.q| { DrainLimits(Unlink(s, k), 0, ws); }
    case _ =>
  }

  /** The drain's length cross-check never fires: a deferred write is always
      resumed with the packet it belongs to. */
  lemma ResumesTheSamePacket(lim: Limits, rm: nat, evs: seq<Event>, ws: seq<Write>)
    requires LimitsOk(lim) && Run(Initial(lim, rm), evs).live
    ensures Drain(Run(Initial(lim, rm), evs), ws).1 != LengthMismatch
  {
    InitialOk(lim, rm);
    RunKeeps(Initial(lim, rm), evs);
    DrainKeeps(Run(Initial(lim, rm), evs), 0, ws);
  }
}
