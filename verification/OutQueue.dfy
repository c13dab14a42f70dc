/** One subscriber session's outbound publish queue, live or orphaned
    (src/mqtt_broker.c, dynamic-memory build): the transition functions.

    `log` is a history of what reached the wire; no transition reads it. */
module OutQueue {
  import opened Common
  import opened PacketId

  datatype Phase = Queued | PublishSent | PubrelSent

  /** The application message a queue entry carries. */
  datatype Message = Message(topic: bytes, payload: bytes, retain: byte, level: byte,
                             enqTime: nat, expiry: nat)

  /** A BrokerOutPub. `seqno` is history: the position in the order in which
      this session accepted messages. `encLen` is the length of the PUBLISH
      the entry encodes to, zero when the encoder refuses it; the encoder
      reads nothing that changes while the entry is queued except DUP, which
      does not alter the length. `diskSeq` is enqueue_seq. */
  datatype Entry = Entry(seqno: nat, qos: QoS, pid: nat, phase: Phase, dup: bool,
                         encLen: nat, diskSeq: nat, msg: Message)

  /** What one call of MqttPacket_Write did. `bytes` says whether
      client.write.pos is nonzero afterwards. */
  datatype Write = Complete | Deferred(bytes: bool) | Failed(bytes: bool, timeout: bool)

  /** History. A Header is the first byte of a PUBLISH, the one that carries
      DUP, reaching the subscriber. */
  datatype Wire =
    | Header(conn: nat, seqno: nat, qos: QoS, dup: bool)
    | Done(conn: nat, seqno: nat)
    | Rel(conn: nat, seqno: nat)
    | RecAccepted(seqno: nat)

  datatype Limits = Limits(inflight: nat, queued: nat, offline: nat)

  datatype Session = Session(
    live: bool, conn: nat, cap: nat,
    q: seq<Entry>, count: int, inflight: int,
    pendLen: nat, partial: bool,
    lim: Limits, next: nat, peakCap: nat, log: seq<Wire>)

  const REL_LEN: nat := 4
  const MAX_SEQ: nat := 0xFFFF_FFFF_FFFF_FFFF

  /** Positive caps; the header refuses queue bounds that could use up every
      packet identifier. */
  predicate LimitsOk(lim: Limits) {
    lim.inflight > 0 && 0 < lim.queued < MAX_ID && 0 < lim.offline < MAX_ID
  }

  /** BROKER_MAX_INFLIGHT_PER_SUB narrowed by the client's Receive Maximum. */
  function EffectiveCap(lim: Limits, receiveMax: nat): (r: nat)
    ensures r <= lim.inflight && (receiveMax != 0 ==> r <= receiveMax)
    ensures r == lim.inflight || (receiveMax != 0 && r == receiveMax)
  {
    if receiveMax != 0 && receiveMax < lim.inflight then receiveMax else lim.inflight
  }

  function Pids(q: seq<Entry>): (r: seq<nat>)
    ensures |r| == |q| && forall k :: 0 <= k < |q| ==> r[k] == q[k].pid
  {
    seq(|q|, k requires 0 <= k < |q| => q[k].pid)
  }

  // ---------------------------------------------------------------- drain

  datatype Rc = Sent | Capped | InProgress | WriteError | EncodeError | LengthMismatch

  /** Where the drain goes after visiting an entry: on to the next one, to
      the same position again because the entry was unlinked, or out. */
  datatype Verdict = Onward | Again | Stop(rc: Rc)

  function Drop(s: Session, i: nat): Session
    requires i < |s.q|
  {
    s.(q := RemoveAt(s.q, i), count := s.count - 1)
  }

  /** Record the first byte of the PUBLISH at i, unless an earlier call
      already put it on the wire or none went out. */
  function Announce(s: Session, i: nat, bytes: bool): Session
    requires i < |s.q|
  {
    if bytes && !s.partial then
      s.(log := s.log + [Header(s.conn, s.q[i].seqno, s.q[i].qos, s.q[i].dup)])
    else s
  }

  function VisitRel(s: Session, i: nat, w: Write): (Session, Verdict)
    requires i < |s.q|
  {
    if s.pendLen != 0 && s.pendLen != REL_LEN then (s, Stop(LengthMismatch))
    else match w
      case Complete =>
        (s.(pendLen := 0, partial := false, q := s.q[i := s.q[i].(dup := false)],
            log := s.log + [Rel(s.conn, s.q[i].seqno)]), Onward)
      case Deferred(b) =>
        (s.(pendLen := REL_LEN, partial := s.partial || b), Stop(InProgress))
      case Failed(b, _) =>
        (s.(pendLen := 0, partial := s.partial || b), Stop(WriteError))
  }

  function VisitPublish(s: Session, i: nat, w: Write): (Session, Verdict)
    requires i < |s.q|
  {
    var e := s.q[i];
    if s.pendLen != 0 && s.pendLen != e.encLen then (s, Stop(LengthMismatch))
    else match w
      case Complete =>
        var s1 := Announce(s, i, true);
        var s2 := s1.(pendLen := 0, partial := false, log := s1.log + [Done(s.conn, e.seqno)]);
        if e.qos == 0 then (Drop(s2, i), Again)
        else (s2.(q := s.q[i := e.(phase := PublishSent, dup := false)],
                  inflight := s.inflight + 1), Onward)
      case Deferred(b) =>
        var p := s.partial || b;
        (Announce(s, i, p).(q := s.q[i := e.(dup := e.dup || (e.qos > 0 && p))],
                            pendLen := e.encLen, partial := p), Stop(InProgress))
      case Failed(b, timeout) =>
        var p := s.partial || b;
        var s1 := Announce(s, i, p).(pendLen := 0);
        if e.qos > 0 then
          (s1.(q := s.q[i := e.(dup := e.dup || p)], partial := p), Stop(WriteError))
        else if p && !timeout then (Drop(s1.(partial := false), i), Stop(WriteError))
        else (s1.(partial := p), Stop(WriteError))
  }

  /** Does visiting the entry at i call MqttPacket_Write? */
  predicate Writes(s: Session, i: nat)
    requires i < |s.q|
  {
    var e := s.q[i];
    if e.phase != Queued then
      e.phase == PubrelSent && e.dup && (s.pendLen == 0 || s.pendLen == REL_LEN)
    else
      !(e.qos > 0 && s.inflight >= s.cap) && e.encLen != 0
      && (s.pendLen == 0 || s.pendLen == e.encLen)
  }

  /** One iteration of the loop of BrokerClient_DrainOutQueue. */
  function Visit(s: Session, i: nat, w: Write): (Session, Verdict)
    requires i < |s.q|
  {
    var e := s.q[i];
    if e.phase != Queued then
      if e.phase == PubrelSent && e.dup then VisitRel(s, i, w) else (s, Onward)
    else if e.qos > 0 && s.inflight >= s.cap then (s, Stop(Capped))
    else if e.encLen == 0 then
      if s.pendLen != 0 then (s, Stop(EncodeError)) else (Drop(s, i), Again)
    else VisitPublish(s, i, w)
  }

  function First(ws: seq<Write>): Write {
    if ws == [] then Complete else ws[0]
  }

  function Rest(ws: seq<Write>): seq<Write> {
    if ws == [] then [] else ws[1..]
  }

  /** The drain from position i. `ws` are the outcomes of its writes in
      order; writes beyond the end of ws complete. */
  function DrainFrom(s: Session, i: nat, ws: seq<Write>): (Session, Rc)
    requires i <= |s.q|
    decreases |s.q| - i
  {
    if i == |s.q| then (s, Sent)
    else
      var ws' := if Writes(s, i) then Rest(ws) else ws;
      var (s', v) := Visit(s, i, First(ws));
      match v
      case Onward => DrainFrom(s', i + 1, ws')
      case Again => DrainFrom(s', i, ws')
      case Stop(rc) => (s', rc)
  }

  function Drain(s: Session, ws: seq<Write>): (Session, Rc) {
    DrainFrom(s, 0, ws)
  }

  // ------------------------------------------------------ acknowledgements

  /** BrokerClient_FindOutPub: index of the first match, or |q|. */
  function Find(q: seq<Entry>, pid: nat, phase: Phase): (k: nat)
    ensures k <= |q|
    ensures forall j :: 0 <= j < k ==> !(q[j].pid == pid && q[j].phase == phase)
    ensures k < |q| ==> q[k].pid == pid && q[k].phase == phase
  {
    if q == [] then 0
    else if q[0].pid == pid && q[0].phase == phase then 0
    else 1 + Find(q[1..], pid, phase)
  }

  /** BrokerClient_UnlinkOutPub. */
  function Unlink(s: Session, i: nat): Session
    requires i < |s.q|
  {
    Drop(s, i).(inflight :=
      if s.q[i].phase != Queued && s.inflight > 0 then s.inflight - 1 else s.inflight)
  }

  /** Acknowledgements are read only while no queued write is unfinished:
      BrokerClient_Process drains first and does not read after a deferred or
      failed write. */
  predicate CanRead(s: Session) {
    s.live && !s.partial && s.pendLen == 0
  }

  function OnPubAck(s: Session, pid: nat, ws: seq<Write>): Session {
    var k := Find(s.q, pid, PublishSent);
    if pid == 0 || k == |s.q| then s else Drain(Unlink(s, k), ws).0
  }

  function OnPubRec(s: Session, pid: nat): Session {
    var k := Find(s.q, pid, PublishSent);
    if pid == 0 || k == |s.q| || s.q[k].qos != 2 then s
    else s.(q := s.q[k := s.q[k].(phase := PubrelSent)],
            log := s.log + [RecAccepted(s.q[k].seqno)])
  }

  function OnPubReject(s: Session, pid: nat, ws: seq<Write>): Session {
    var k := Find(s.q, pid, PublishSent);
    if pid == 0 || k == |s.q| || s.q[k].qos != 2 then s else Drain(Unlink(s, k), ws).0
  }

  function OnPubComp(s: Session, pid: nat, ws: seq<Write>): Session {
    var k := Find(s.q, pid, PubrelSent);
    if pid == 0 || k == |s.q| then s else Drain(Unlink(s, k), ws).0
  }

  // -------------------------------------------------------------- enqueue

  /** The fan-out's enqueue on a connected subscriber: refused at the queue
      bound (the broker then disconnects the subscriber) or when no packet
      identifier is free. */
  function Enqueue(s: Session, qos: QoS, encLen: nat, msg: Message, nextPid: nat): Session
    requires nextPid <= MAX_ID
  {
    var pid := if qos == 0 then 0 else NextFree(nextPid, Pids(s.q));
    if s.count >= s.lim.queued || (qos > 0 && pid == 0) then s
    else s.(q := s.q + [Entry(s.next, qos, pid, Queued, false, encLen, 0, msg)],
            count := s.count + 1, next := s.next + 1)
  }

  // ----------------------------------------------------- orphan and resume

  /** Index of the first Queued entry, or |q|. */
  function FirstQueued(q: seq<Entry>): (k: nat)
    ensures k <= |q|
    ensures forall j :: 0 <= j < k ==> q[j].phase != Queued
    ensures k < |q| ==> q[k].phase == Queued
  {
    if q == [] then 0 else if q[0].phase == Queued then 0 else 1 + FirstQueued(q[1..])
  }

  function Renumbered(q: seq<Entry>): (r: seq<Entry>)
    ensures |r| == |q|
    ensures forall k :: 0 <= k < |q| ==> r[k] == q[k].(diskSeq := k + 1)
  {
    seq(|q|, k requires 0 <= k < |q| => q[k].(diskSeq := k + 1))
  }

  /** The half-sent QoS 0 entry that must not follow the session. */
  function DropHalfSent(s: Session): Session {
    var k := FirstQueued(s.q);
    if s.partial && k < |s.q| && s.q[k].qos == 0 then Drop(s, k) else s
  }

  /** BrokerOrphan_Take. */
  function Orphan(s: Session): Session {
    var s1 := DropHalfSent(s);
    s1.(live := false, partial := false, pendLen := 0, q := Renumbered(s1.q))
  }

  function EvictHead(s: Session): Session
    requires s.q != []
  {
    Drop(s, 0).(inflight :=
      if s.q[0].phase != Queued && s.inflight > 0 then s.inflight - 1 else s.inflight)
  }

  /** Drop-oldest until the offline queue has room. */
  function Evict(s: Session): (r: Session)
    ensures |r.q| <= |s.q|
    decreases |s.q|
  {
    if s.count >= s.lim.offline && s.q != [] then Evict(EvictHead(s)) else s
  }

  /** enqueue_seq of the entry appended next, zero when exhausted. */
  function NextDiskSeq(q: seq<Entry>): nat {
    if q == [] then 1
    else if q[|q| - 1].diskSeq == MAX_SEQ then 0
    else q[|q| - 1].diskSeq + 1
  }

  /** BrokerOrphan_Enqueue. */
  function OfflineEnqueue(s: Session, qos: QoS, encLen: nat, msg: Message, nextPid: nat): Session
    requires nextPid <= MAX_ID
  {
    if qos == 0 then s
    else
      var s1 := Evict(s);
      var pid := NextFree(nextPid, Pids(s1.q));
      var dseq := NextDiskSeq(s1.q);
      if pid == 0 || dseq == 0 then s1
      else s1.(q := s1.q + [Entry(s1.next, qos, pid, Queued, false, encLen, dseq, msg)],
               count := s1.count + 1, next := s1.next + 1)
  }

  function ResumedEntry(e: Entry): Entry {
    match e.phase
    case PublishSent => e.(phase := Queued, dup := true)
    case PubrelSent => e.(dup := true)
    case Queued => e
  }

  function Resumed(q: seq<Entry>): (r: seq<Entry>)
    ensures |r| == |q|
    ensures forall k :: 0 <= k < |q| ==> r[k] == ResumedEntry(q[k])
  {
    seq(|q|, k requires 0 <= k < |q| => ResumedEntry(q[k]))
  }

  /** Entries counted against the in-flight cap. */
  function Flying(q: seq<Entry>): nat {
    if q == [] then 0 else (if q[0].phase != Queued then 1 else 0) + Flying(q[1..])
  }

  function PubrelCount(q: seq<Entry>): nat {
    if q == [] then 0 else (if q[0].phase == PubrelSent then 1 else 0) + PubrelCount(q[1..])
  }

  /** BrokerOrphan_Reclaim onto a connection with the given Receive Maximum. */
  function Reclaim(s: Session, receiveMax: nat): Session {
    var cap := EffectiveCap(s.lim, receiveMax);
    s.(live := true, conn := s.conn + 1, cap := cap, peakCap := Max(s.peakCap, cap),
       q := Resumed(s.q), inflight := PubrelCount(s.q))
  }

  /** An empty queue on a new connection. */
  function Fresh(s: Session, receiveMax: nat): Session {
    var cap := EffectiveCap(s.lim, receiveMax);
    s.(live := true, conn := s.conn + 1, cap := cap, peakCap := cap, q := [], count := 0,
       inflight := 0, pendLen := 0, partial := false)
  }

  // ------------------------------------------------------------------ runs

  datatype Event =
    | EvEnqueue(qos: QoS, encLen: nat, msg: Message, nextPid: nat)
    | EvDrain(ws: seq<Write>)
    | EvPubAck(pid: nat, ws: seq<Write>)
    | EvPubRec(pid: nat)
    | EvPubReject(pid: nat, ws: seq<Write>)
    | EvPubComp(pid: nat, ws: seq<Write>)
    | EvOrphan
    | EvReclaim(receiveMax: nat)
    /** A CONNECT that wipes the stored queue: a new session, or the takeover
        of a live one that ends it, reports Session Present 0 or has a zero
        expiry. */
    | EvFresh(receiveMax: nat)
    /** A CONNECT that takes over a live connection whose session goes on,
        with Session Present 1 and a nonzero expiry: the old client's queue is
        freed with it. */
    | EvTakeover(receiveMax: nat)

  /** What an event does; one that is not possible in s leaves s as it is. */
  function Step(s: Session, ev: Event): Session {
    match ev
    case EvEnqueue(qos, encLen, msg, nextPid) =>
      if nextPid > MAX_ID then s
      else if s.live then Enqueue(s, qos, encLen, msg, nextPid)
      else OfflineEnqueue(s, qos, encLen, msg, nextPid)
    case EvDrain(ws) => if s.live then Drain(s, ws).0 else s
    case EvPubAck(pid, ws) => if CanRead(s) then OnPubAck(s, pid, ws) else s
    case EvPubRec(pid) => if CanRead(s) then OnPubRec(s, pid) else s
    case EvPubReject(pid, ws) => if CanRead(s) then OnPubReject(s, pid, ws) else s
    case EvPubComp(pid, ws) => if CanRead(s) then OnPubComp(s, pid, ws) else s
    case EvOrphan => if s.live then Orphan(s) else s
    case EvReclaim(rm) => if s.live then s else Reclaim(s, rm)
    case EvFresh(rm) => Fresh(s, rm)
    case EvTakeover(rm) => if s.live then Fresh(s, rm) else s
  }

  function Run(s: Session, evs: seq<Event>): Session {
    if evs == [] then s else Step(Run(s, evs[..|evs| - 1]), evs[|evs| - 1])
  }

  function Initial(lim: Limits, receiveMax: nat): Session {
    var cap := EffectiveCap(lim, receiveMax);
    Session(true, 0, cap, [], 0, 0, 0, false, lim, 0, cap, [])
  }
}
