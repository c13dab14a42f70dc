/** The outbound queue as the broker runs it: client and orphan records whose
    fields the handlers update in place, each handler proved to perform the
    transition of the same name. The outcome of each write is a parameter;
    `next` numbers accepted messages and, like the ghost fields, is history. */
module OutQueueImpl {
  import opened Common
  import opened PacketId
  import opened OutQueue

  /** The out_q_* fields of a BrokerClient. `partial` is client.write.pos != 0
      and `pendLen` is out_q_pending_len. */
  class BrokerClient {
    const lim: Limits
    var cap: nat
    var q: seq<Entry>
    var count: int
    var inflight: int
    var pendLen: nat
    var partial: bool
    var next: nat
    ghost var conn: nat
    ghost var peakCap: nat
    ghost var log: seq<Wire>

    ghost function Abs(): Session
      reads this
    {
      Session(true, conn, cap, q, count, inflight, pendLen, partial, lim, next, peakCap, log)
    }

    /** A freshly connected client with no queue inherited. */
    constructor (lim: Limits, receiveMax: nat, next: nat, ghost past: Session)
      requires past.lim == lim && past.next == next
      ensures Abs() == Fresh(past, receiveMax)
    {
      this.lim := lim;
      cap := EffectiveCap(lim, receiveMax);
      q, count, inflight, pendLen, partial := [], 0, 0, 0, false;
      this.next := next;
      conn, peakCap, log := past.conn + 1, EffectiveCap(lim, receiveMax), past.log;
    }

    /** The fan-out's enqueue of one message on a connected subscriber. */
    method EnqueueOutPub(qos: QoS, encLen: nat, msg: Message, nextPid: nat) returns (accepted: bool)
      requires nextPid <= MAX_ID
      modifies this
      ensures Abs() == Enqueue(old(Abs()), qos, encLen, msg, nextPid)
      ensures accepted <==> |q| == |old(q)| + 1
    {
      if count >= lim.queued {
        return false;
      }
      var pid, counter := 0, nextPid;
      if qos > 0 {
        pid, counter := NextPacketIdForQueue(nextPid, Pids(q));
        if pid == 0 {
          return false;
        }
      }
      q := q + [Entry(next, qos, pid, Queued, false, encLen, 0, msg)];
      count := count + 1;
      next := next + 1;
      return true;
    }

    /** Unlink the entry at i without touching the in-flight count. */
    method DropAt(i: nat)
      requires i < |q|
      modifies this`q, this`count
      ensures Abs() == Drop(old(Abs()), i)
    {
      q := RemoveAt(q, i);
      count := count - 1;
    }

    /** The PUBREL re-send for the entry at i. */
    method SendRel(i: nat, w: Write) returns (v: Verdict)
      requires i < |q|
      modifies this
      ensures (Abs(), v) == VisitRel(old(Abs()), i, w)
    {
      if pendLen != 0 && pendLen != REL_LEN {
        return Stop(LengthMismatch);
      }
      match w
      case Deferred(b) =>
        pendLen := REL_LEN;
        partial := partial || b;
        return Stop(InProgress);
      case Failed(b, _) =>
        pendLen := 0;
        partial := partial || b;
        return Stop(WriteError);
      case Complete =>
        pendLen := 0;
        partial := false;
        log := log + [Rel(conn, q[i].seqno)];
        q := q[i := q[i].(dup := false)];
        return Onward;
    }

    /** The PUBLISH write for the entry at i. */
    method SendPublish(i: nat, w: Write) returns (v: Verdict)
      requires i < |q|
      modifies this
      ensures (Abs(), v) == VisitPublish(old(Abs()), i, w)
    {
      var e := q[i];
      if pendLen != 0 && pendLen != e.encLen {
        return Stop(LengthMismatch);
      }
      var before := partial;
      match w
      case Deferred(b) =>
        partial := partial || b;
        pendLen := e.encLen;
        if partial && !before {
          log := log + [Header(conn, e.seqno, e.qos, e.dup)];
        }
        assert q[i := e] == q;
        if e.qos > 0 && partial {
          q := q[i := e.(dup := true)];
        }
        return Stop(InProgress);
      case Failed(b, timeout) =>
        partial := partial || b;
        pendLen := 0;
        if partial && !before {
          log := log + [Header(conn, e.seqno, e.qos, e.dup)];
        }
        assert q[i := e] == q;
        if partial && e.qos > 0 {
          q := q[i := e.(dup := true)];
        } else if partial && !timeout {
          DropAt(i);
          partial := false;
        }
        return Stop(WriteError);
      case Complete =>
        pendLen := 0;
        partial := false;
        if !before {
          log := log + [Header(conn, e.seqno, e.qos, e.dup)];
        }
        log := log + [Done(conn, e.seqno)];
        if e.qos == 0 {
          DropAt(i);
          return Again;
        }
        q := q[i := e.(phase := PublishSent, dup := false)];
        inflight := inflight + 1;
        return Onward;
    }

    /** BrokerClient_DrainOutQueue. */
    method DrainOutQueue(ws: seq<Write>) returns (rc: Rc)
      modifies this
      ensures (Abs(), rc) == Drain(old(Abs()), ws)
    {
      var i, rest := 0, ws;
      while i < |q|
        invariant i <= |q|
        invariant DrainFrom(Abs(), i, rest) == Drain(old(Abs()), ws)
        decreases |q| - i
      {
        ghost var s, rest0 := Abs(), rest;
        var e, w := q[i], First(rest);
        var v := Onward;
        if e.phase != Queued {
          if e.phase == PubrelSent && e.dup {
            if pendLen == 0 || pendLen == REL_LEN {
              rest := Rest(rest);
            }
            v := SendRel(i, w);
          }
        } else if e.qos > 0 && inflight >= cap {
          v := Stop(Capped);
        } else if e.encLen == 0 {
          if pendLen != 0 {
            v := Stop(EncodeError);
          } else {
            DropAt(i);
            v := Again;
          }
        } else {
          if pendLen == 0 || pendLen == e.encLen {
            rest := Rest(rest);
          }
          v := SendPublish(i, w);
        }
        assert (Abs(), v) == Visit(s, i, w);
        assert rest == if Writes(s, i) then Rest(rest0) else rest0;
        match v
        case Onward => i := i + 1;
        case Again =>
        case Stop(c) => return c;
      }
      return Sent;
    }

    /** A QoS 0 PUBLISH partly on the wire does not follow the session. */
    method DropHalfSentEntry()
      modifies this`q, this`count
      ensures Abs() == DropHalfSent(old(Abs()))
    {
      if partial {
        var k := 0;
        while k < |q| && q[k].phase != Queued
          invariant k <= |q| && forall j :: 0 <= j < k ==> q[j].phase != Queued
        {
          k := k + 1;
        }
        if k < |q| && q[k].qos == 0 {
          DropAt(k);
        }
      }
    }

    /** BrokerClient_FindOutPub. */
    method FindOutPub(pid: nat, phase: Phase) returns (k: nat)
      ensures k == if pid == 0 then |q| else Find(q, pid, phase)
    {
      if pid == 0 {
        return |q|;
      }
      k := 0;
      while k < |q| && !(q[k].pid == pid && q[k].phase == phase)
        invariant k <= |q|
        invariant forall j :: 0 <= j < k ==> !(q[j].pid == pid && q[j].phase == phase)
      {
        k := k + 1;
      }
    }

    /** BrokerClient_UnlinkOutPub. */
    method UnlinkOutPub(k: nat)
      requires k < |q|
      modifies this`q, this`count, this`inflight
      ensures Abs() == Unlink(old(Abs()), k)
    {
      var e := q[k];
      DropAt(k);
      if e.phase != Queued && inflight > 0 {
        inflight := inflight - 1;
      }
    }

    method PubAck(pid: nat, ws: seq<Write>)
      modifies this
      ensures Abs() == OnPubAck(old(Abs()), pid, ws)
    {
      var k := FindOutPub(pid, PublishSent);
      if k < |q| {
        UnlinkOutPub(k);
        var _ := DrainOutQueue(ws);
      }
    }

    /** Returns -1 for a PUBREC naming a QoS 1 delivery, 1 when an entry
        advanced, 0 when none matched. */
    method PubRec(pid: nat) returns (r: int)
      modifies this
      ensures Abs() == OnPubRec(old(Abs()), pid)
      ensures r == 1 <==> Abs() != old(Abs())
      ensures r == -1 ==> exists k :: 0 <= k < |q| && q[k].pid == pid && q[k].qos != 2
    {
      var k := FindOutPub(pid, PublishSent);
      if k == |q| {
        return 0;
      }
      if q[k].qos != 2 {
        return -1;
      }
      log := log + [RecAccepted(q[k].seqno)];
      q := q[k := q[k].(phase := PubrelSent)];
      return 1;
    }

    method PubReject(pid: nat, ws: seq<Write>)
      modifies this
      ensures Abs() == OnPubReject(old(Abs()), pid, ws)
    {
      var k := FindOutPub(pid, PublishSent);
      if k < |q| && q[k].qos == 2 {
        UnlinkOutPub(k);
        var _ := DrainOutQueue(ws);
      }
    }

    method PubComp(pid: nat, ws: seq<Write>)
      modifies this
      ensures Abs() == OnPubComp(old(Abs()), pid, ws)
    {
      var k := FindOutPub(pid, PubrelSent);
      if k < |q| {
        UnlinkOutPub(k);
        var _ := DrainOutQueue(ws);
      }
    }

    /** The reclaim walk: an unacknowledged PUBLISH is queued again with DUP,
        a pending PUBREL is due again and stays in flight. */
    method MarkForResend()
      requires inflight == 0
      modifies this`q, this`inflight
      ensures q == Resumed(old(q)) && inflight == PubrelCount(old(q))
    {
      ghost var was := q;
      var k := 0;
      while k < |q|
        invariant k <= |q| == |was|
        invariant forall j :: 0 <= j < k ==> q[j] == ResumedEntry(was[j])
        invariant forall j :: k <= j < |was| ==> q[j] == was[j]
        invariant inflight + PubrelCount(was[k..]) == PubrelCount(was)
      {
        var e := q[k];
        assert was[k..][1..] == was[k + 1..];
        if e.phase == PublishSent {
          q := q[k := e.(phase := Queued, dup := true)];
        } else if e.phase == PubrelSent {
          q := q[k := e.(dup := true)];
          inflight := inflight + 1;
        }
        k := k + 1;
      }
    }
  }

  /** The queue fields of a BrokerOrphanSession. */
  class OrphanSession {
    const lim: Limits
    var q: seq<Entry>
    var count: int
    var inflight: int
    var next: nat
    ghost var conn: nat
    ghost var cap: nat
    ghost var peakCap: nat
    ghost var log: seq<Wire>

    ghost function Abs(): Session
      reads this
    {
      Session(false, conn, cap, q, count, inflight, 0, false, lim, next, peakCap, log)
    }

    /** BrokerOrphan_Take: the queue moves from the client, half-sent QoS 0
        entry dropped and enqueue_seq renumbered from 1. */
    constructor Take(bc: BrokerClient)
      modifies bc
      ensures Abs() == Orphan(old(bc.Abs()))
      ensures bc.q == [] && bc.count == 0 && bc.inflight == 0
    {
      lim := bc.lim;
      new;
      bc.DropHalfSentEntry();
      q, count, inflight, next := bc.q, bc.count, bc.inflight, bc.next;
      conn, cap, peakCap, log := bc.conn, bc.cap, bc.peakCap, bc.log;
      bc.q, bc.count, bc.inflight := [], 0, 0;
      Renumber();
    }

    /** Fresh enqueue_seq values in queue order. */
    method Renumber()
      modifies this`q
      ensures q == Renumbered(old(q))
    {
      var k := 0;
      while k < |q|
        invariant k <= |q| == |old(q)|
        invariant forall j :: 0 <= j < k ==> q[j] == old(q)[j].(diskSeq := j + 1)
        invariant forall j :: k <= j < |q| ==> q[j] == old(q)[j]
      {
        q := q[k := q[k].(diskSeq := k + 1)];
        k := k + 1;
      }
    }

    /** The drop-oldest loop. */
    method MakeRoom()
      modifies this`q, this`count, this`inflight
      ensures Abs() == Evict(old(Abs()))
    {
      while count >= lim.offline && q != []
        invariant Evict(Abs()) == Evict(old(Abs()))
        decreases |q|
      {
        DropOldest();
      }
    }

    method DropOldest()
      requires q != []
      modifies this`q, this`count, this`inflight
      ensures Abs() == EvictHead(old(Abs()))
    {
      var head := q[0];
      assert q[1..] == RemoveAt(q, 0);
      q := q[1..];
      count := count - 1;
      if head.phase != Queued && inflight > 0 {
        inflight := inflight - 1;
      }
    }

    /** BrokerOrphan_Enqueue. */
    method EnqueueOffline(qos: QoS, encLen: nat, msg: Message, nextPid: nat)
      requires nextPid <= MAX_ID
      modifies this
      ensures Abs() == OfflineEnqueue(old(Abs()), qos, encLen, msg, nextPid)
    {
      hide Evict, FirstFree;
      if qos == 0 {
        return;
      }
      MakeRoom();
      var pid, counter := NextPacketIdForQueue(nextPid, Pids(q));
      if pid == 0 {
        return;
      }
      var dseq := 1;
      if q != [] {
        if q[|q| - 1].diskSeq == MAX_SEQ {
          return;
        }
        dseq := q[|q| - 1].diskSeq + 1;
      }
      q := q + [Entry(next, qos, pid, Queued, false, encLen, dseq, msg)];
      count := count + 1;
      next := next + 1;
    }

    /** BrokerOrphan_Reclaim: the queue moves to a new client and what was in
        flight is marked for retransmission. */
    method ReclaimInto(bc: BrokerClient, receiveMax: nat)
      requires bc.q == [] && bc.pendLen == 0 && !bc.partial
      requires bc.lim == lim && bc.cap == EffectiveCap(lim, receiveMax)
      modifies this, bc
      ensures bc.Abs() == Reclaim(old(Abs()), receiveMax)
      ensures q == [] && count == 0 && inflight == 0
    {
      bc.q, bc.count, bc.inflight, bc.next := q, count, 0, next;
      bc.conn, bc.peakCap, bc.log := conn + 1, Max(peakCap, bc.cap), log;
      q, count, inflight := [], 0, 0;
      bc.MarkForResend();
    }
  }
}
