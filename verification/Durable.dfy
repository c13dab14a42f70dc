/** The outbound queue together with its shadow records: what the store holds
    over every run, and when a restart rebuilds the queue from it
    (src/mqtt_broker.c shadow writes and deletes, src/mqtt_broker_persist.c
    PutOutPub, DelOutPub and DelOutQueue). */
module Durable {
  import opened Common
  import opened PacketId
  import opened BigEndian
  import opened OutQueue
  import opened OutQueueInvariant
  import opened OutQueueLoss
  import opened Records
  import opened Restore

  /** A session of client cid and the NS_OUTQ namespace. `left` is history:
      identifiers whose record belongs to a queue a takeover freed, and has
      been neither rewritten nor deleted since. */
  datatype Durable = Durable(s: Session, disk: map<bytes, bytes>, left: set<nat>)

  function StateByte(p: Phase): byte {
    match p
    case Queued => 0
    case PublishSent => STATE_PUBLISH_SENT
    case PubrelSent => STATE_PUBREL_SENT
  }

  /** The stored form of an entry. */
  function Image(e: Entry): OutRec {
    OutRec(StateByte(e.phase), e.qos, e.msg.retain, e.msg.level, if e.dup then 1 else 0, e.pid,
           e.msg.enqTime, e.diskSeq, e.msg.expiry, e.msg.topic, e.msg.payload)
  }

  /** A decoded PUBLISH fits the record's field widths. */
  predicate MessageOk(m: Message) {
    && m.enqTime < 0x1_0000_0000_0000_0000 && m.expiry < 0x1_0000_0000
    && |m.topic| < 0x1_0000 && |m.payload| < 0x1000_0000
  }

  /** The entries that are persisted, in order. */
  function Persistent(q: seq<Entry>): seq<Entry> {
    if q == [] then []
    else
      var front := Persistent(q[..|q| - 1]);
      if q[|q| - 1].qos > 0 then front + [q[|q| - 1]] else front
  }

  function Images(q: seq<Entry>): (r: seq<OutRec>)
    ensures |r| == |q| && forall k :: 0 <= k < |q| ==> r[k] == Image(q[k])
  {
    seq(|q|, k requires 0 <= k < |q| => Image(q[k]))
  }

  /** BrokerPersist_PutOutPub. */
  function PutOut(disk: map<bytes, bytes>, cid: bytes, e: Entry): map<bytes, bytes> {
    if e.qos == 0 || e.diskSeq == 0 || !KeyFits(cid) then disk
    else disk[OutKey(cid, e.pid) := EncodeOut(Image(e))]
  }

  /** The shadow-write loop of BrokerOrphan_Take. */
  function PutAll(disk: map<bytes, bytes>, cid: bytes, q: seq<Entry>): map<bytes, bytes> {
    if q == [] then disk
    else PutOut(PutAll(disk, cid, q[..|q| - 1]), cid, q[|q| - 1])
  }

  // --------------------------------------------------- deletes, by handler

  /** An entry the drain drops because it does not encode. */
  function VisitDeletes(s: Session, i: nat): set<nat>
    requires i < |s.q|
  {
    var e := s.q[i];
    if e.phase == Queued && e.qos > 0 && s.inflight < s.cap && e.encLen == 0 && s.pendLen == 0 then {e.pid} else {}
  }

  /** What BrokerClient_DrainOutQueue deletes from position i on. */
  function DrainDeletes(s: Session, i: nat, ws: seq<Write>): set<nat>
    requires i <= |s.q|
    decreases |s.q| - i
  {
    if i == |s.q| then {}
    else
      var ws' := if Writes(s, i) then Rest(ws) else ws;
      var (s', v) := Visit(s, i, First(ws));
      VisitDeletes(s, i) +
      match v
      case Onward => DrainDeletes(s', i + 1, ws')
      case Again => DrainDeletes(s', i, ws')
      case Stop(_) => {}
  }

  /** An acknowledgement deletes its own record, then drains on. */
  function AckDeletes(s: Session, k: nat, ws: seq<Write>): set<nat>
    requires k < |s.q|
  {
    {s.q[k].pid} + DrainDeletes(Unlink(s, k), 0, ws)
  }

  /** The drop-oldest loop deletes the record of every head it drops. */
  function EvictDeletes(s: Session): set<nat>
    decreases |s.q|
  {
    if s.count >= s.lim.offline && s.q != [] then
      (if s.q[0].pid != 0 then {s.q[0].pid} else {}) + EvictDeletes(EvictHead(s))
    else {}
  }

  /** The DelOutPub calls an event makes. */
  function Deletes(s: Session, ev: Event): set<nat> {
    match ev
    case EvEnqueue(qos, _, _, nextPid) =>
      if nextPid <= MAX_ID && !s.live && qos > 0 then EvictDeletes(s) else {}
    case EvDrain(ws) => if s.live then DrainDeletes(s, 0, ws) else {}
    case EvPubAck(pid, ws) =>
      var k := Find(s.q, pid, PublishSent);
      if CanRead(s) && pid != 0 && k < |s.q| then AckDeletes(s, k, ws) else {}
    case EvPubReject(pid, ws) =>
      var k := Find(s.q, pid, PublishSent);
      if CanRead(s) && pid != 0 && k < |s.q| && s.q[k].qos == 2 then AckDeletes(s, k, ws) else {}
    case EvPubComp(pid, ws) =>
      var k := Find(s.q, pid, PubrelSent);
      if CanRead(s) && pid != 0 && k < |s.q| then AckDeletes(s, k, ws) else {}
    case _ => {}
  }

  function Erase(disk: map<bytes, bytes>, cid: bytes, pids: set<nat>): map<bytes, bytes> {
    disk - (set p | p in pids :: OutKey(cid, p))
  }

  /** Entries that have been shadow-written: enqueue_seq is set. */
  function Recorded(q: seq<Entry>): set<nat> {
    set k | 0 <= k < |q| && q[k].qos > 0 && q[k].diskSeq > 0 :: q[k].pid
  }

  function Lasting(q: seq<Entry>): set<nat> {
    set k | 0 <= k < |q| && q[k].qos > 0 :: q[k].pid
  }

  /** One event and its effect on the store. A session start deletes the
      client's records with the prefix test; a takeover of a session that goes
      on frees the queue and deletes nothing. */
  function DStep(d: Durable, cid: bytes, ev: Event): Durable {
    var s' := Step(d.s, ev);
    if ev.EvFresh? then
      Durable(s', map key | key in d.disk && !DelMatches(cid, key) :: d.disk[key], {})
    else if ev.EvTakeover? && d.s.live then
      Durable(s', d.disk, d.left + Recorded(d.s.q))
    else
      var dels := Deletes(d.s, ev);
      var disk, left := Erase(d.disk, cid, dels), d.left - dels;
      if ev.EvOrphan? && d.s.live then Durable(s', PutAll(disk, cid, s'.q), left - Lasting(s'.q))
      else if ev.EvEnqueue? && !d.s.live && s'.next > d.s.next && s'.q != [] then
        var e := s'.q[|s'.q| - 1];
        Durable(s', PutOut(disk, cid, e), left - {e.pid})
      else Durable(s', disk, left)
  }

  function DRun(d: Durable, cid: bytes, evs: seq<Event>): Durable {
    if evs == [] then d else DStep(DRun(d, cid, evs[..|evs| - 1]), cid, evs[|evs| - 1])
  }

  ghost predicate EventsOk(evs: seq<Event>) {
    forall i :: 0 <= i < |evs| && evs[i].EvEnqueue? ==> MessageOk(evs[i].msg)
  }

  // ------------------------------------------------------------- invariant

  /** Ascending enqueue_seq values that fit. */
  ghost predicate InOrder(q: seq<Entry>) {
    && (forall k :: 0 <= k < |q| ==> 0 < q[k].diskSeq <= MAX_SEQ)
    && (forall j, k :: 0 <= j < k < |q| ==> q[j].diskSeq < q[k].diskSeq)
  }

  ghost predicate Messages(q: seq<Entry>) {
    forall k :: 0 <= k < |q| ==> MessageOk(q[k].msg)
  }

  /** The client's keys in the store are those of the given identifiers. */
  ghost predicate Keys(disk: map<bytes, bytes>, cid: bytes, pids: set<nat>) {
    && (forall p :: p in pids ==> 1 <= p <= MAX_ID && OutKey(cid, p) in disk)
    && (forall key :: key in disk && KeyOwner(key) == Some(cid) ==> exists p :: p in pids && key == OutKey(cid, p))
  }

  /** Each of them holds a record of its own identifier. */
  ghost predicate Readable(disk: map<bytes, bytes>, cid: bytes, pids: set<nat>) {
    forall p :: p in pids && OutKey(cid, p) in disk ==>
      DecodeOut(disk[OutKey(cid, p)]).Some? && DecodeOut(disk[OutKey(cid, p)]).value.pid == p
  }

  /** Every persistent entry has its record. */
  ghost predicate Shadowed(disk: map<bytes, bytes>, cid: bytes, q: seq<Entry>) {
    forall k :: 0 <= k < |q| && q[k].qos > 0 ==>
      OutKey(cid, q[k].pid) in disk && disk[OutKey(cid, q[k].pid)] == EncodeOut(Image(q[k]))
  }

  ghost predicate DInv(d: Durable, cid: bytes) {
    && Inv(d.s) && Messages(d.s.q)
    && Keys(d.disk, cid, d.left + Recorded(d.s.q)) && Readable(d.disk, cid, d.left + Recorded(d.s.q))
    && (!d.s.live ==> InOrder(d.s.q) && Shadowed(d.disk, cid, d.s.q) && d.left !! Lasting(d.s.q))
  }

  // -------------------------------------------- what a step does to entries

  /** Same message, same identity, same record. */
  predicate Same(a: Entry, b: Entry) {
    a.seqno == b.seqno && a.qos == b.qos && a.pid == b.pid && a.msg == b.msg && a.diskSeq == b.diskSeq
  }

  ghost predicate From(e: Entry, q: seq<Entry>) {
    exists j :: 0 <= j < |q| && Same(e, q[j])
  }

  /** Every entry of q' was in q. */
  ghost predicate Within(q': seq<Entry>, q: seq<Entry>) {
    forall k :: 0 <= k < |q'| ==> From(q'[k], q)
  }

  /** A QoS > 0 entry goes exactly when its record is deleted. */
  ghost predicate Shrinks(q: seq<Entry>, q': seq<Entry>, dels: set<nat>) {
    && Within(q', q)
    && (forall k :: 0 <= k < |q| && q[k].qos > 0 ==> q[k].pid in dels || From(q[k], q'))
    && (forall k :: 0 <= k < |q'| && q'[k].qos > 0 ==> q'[k].pid !in dels)
  }

  ghost predicate PidsDiffer(q: seq<Entry>) {
    forall j, k :: 0 <= j < k < |q| && q[j].qos > 0 ==> q[j].pid != q[k].pid
  }

  lemma FromIndex(e: Entry, q: seq<Entry>) returns (j: nat)
    requires From(e, q)
    ensures j < |q| && Same(e, q[j])
  {
    j :| 0 <= j < |q| && Same(e, q[j]);
  }

  lemma FromHas(e: Entry, q: seq<Entry>, j: nat)
    requires j < |q| && Same(e, q[j])
    ensures From(e, q)
  {
  }

  /** A QoS > 0 entry that goes has its record deleted. */
  lemma KeptAt(q: seq<Entry>, q': seq<Entry>, dels: set<nat>, k: nat)
    requires Shrinks(q, q', dels) && k < |q| && q[k].qos > 0
    ensures q[k].pid in dels || From(q[k], q')
  {
    hide Within, From;
  }

  lemma WasAt(q: seq<Entry>, q': seq<Entry>, dels: set<nat>, k: nat)
    requires Shrinks(q, q', dels) && k < |q'|
    ensures From(q'[k], q) && (q'[k].qos > 0 ==> q'[k].pid !in dels)
  {
    hide From;
  }

  lemma ShrinksTrans(a: seq<Entry>, b: seq<Entry>, c: seq<Entry>, d: set<nat>, e: set<nat>)
    requires Shrinks(a, b, d) && Shrinks(b, c, e)
    ensures Shrinks(a, c, d + e)
  {
    hide From;
    forall k | 0 <= k < |c|
      ensures From(c[k], a) && (c[k].qos > 0 ==> c[k].pid !in d + e)
    {
      StillThere(c, b, a, d, e, k);
    }
    forall k | 0 <= k < |a| && a[k].qos > 0 ensures a[k].pid in d + e || From(a[k], c) {
      GoneOrKept(a, b, c, d, e, k);
    }
  }

  lemma StillThere(c: seq<Entry>, b: seq<Entry>, a: seq<Entry>, d: set<nat>, e: set<nat>, k: nat)
    requires Shrinks(a, b, d) && Shrinks(b, c, e) && k < |c|
    ensures From(c[k], a) && (c[k].qos > 0 ==> c[k].pid !in d + e)
  {
    hide Shrinks, From;
    WasAt(b, c, e, k);
    var j := FromIndex(c[k], b);
    WasAt(a, b, d, j);
    var i := FromIndex(b[j], a);
    FromHas(c[k], a, i);
  }

  lemma GoneOrKept(a: seq<Entry>, b: seq<Entry>, c: seq<Entry>, d: set<nat>, e: set<nat>, k: nat)
    requires Shrinks(a, b, d) && Shrinks(b, c, e) && k < |a| && a[k].qos > 0
    ensures a[k].pid in d + e || From(a[k], c)
  {
    hide Shrinks, From;
    KeptAt(a, b, d, k);
    if a[k].pid !in d {
      var j := FromIndex(a[k], b);
      KeptAt(b, c, e, j);
      if b[j].pid !in e {
        var i := FromIndex(b[j], c);
        FromHas(a[k], c, i);
      }
    }
  }

  lemma ShrinksSelf(q: seq<Entry>)
    ensures Shrinks(q, q, {})
  {
    forall k | 0 <= k < |q| ensures From(q[k], q) { assert Same(q[k], q[k]); }
  }

  /** Entry by entry the same. */
  lemma ShrinksAlike(q: seq<Entry>, r: seq<Entry>)
    requires |q| == |r| && forall k :: 0 <= k < |q| ==> Same(r[k], q[k])
    ensures Shrinks(q, r, {})
  {
    forall k | 0 <= k < |q| ensures From(q[k], r) && From(r[k], q) {
      assert Same(q[k], r[k]) && Same(r[k], q[k]);
    }
  }

  lemma ShrinksUpdate(q: seq<Entry>, i: nat, e: Entry)
    requires i < |q| && Same(e, q[i])
    ensures Shrinks(q, q[i := e], {}) && (PidsDiffer(q) ==> PidsDiffer(q[i := e]))
  {
    ShrinksAlike(q, q[i := e]);
  }

  lemma ShrinksRemove(q: seq<Entry>, i: nat)
    requires i < |q| && PidsDiffer(q)
    ensures Shrinks(q, RemoveAt(q, i), if q[i].qos > 0 then {q[i].pid} else {})
    ensures PidsDiffer(RemoveAt(q, i))
  {
    var r := RemoveAt(q, i);
    forall k | 0 <= k < |r| ensures From(r[k], q) && (q[i].qos > 0 && r[k].qos > 0 ==> r[k].pid != q[i].pid) {
      RemainsFrom(q, i, k);
    }
    forall k | 0 <= k < |q| && k != i ensures From(q[k], r) {
      var k' := if k < i then k else k - 1;
      assert r[k'] == q[k] && Same(q[k], r[k']);
    }
    PidsRemove(q, i);
  }

  lemma RemainsFrom(q: seq<Entry>, i: nat, k: nat)
    requires i < |q| && PidsDiffer(q) && k < |q| - 1
    ensures var r := RemoveAt(q, i);
      From(r[k], q) && (q[i].qos > 0 && r[k].qos > 0 ==> r[k].pid != q[i].pid)
  {
    var r, k' := RemoveAt(q, i), if k < i then k else k + 1;
    assert r[k] == q[k'] && Same(r[k], q[k']);
    assert k' < i || i < k';
  }

  lemma PidsRemove(q: seq<Entry>, i: nat)
    requires i < |q| && PidsDiffer(q)
    ensures PidsDiffer(RemoveAt(q, i))
  {
    var r := RemoveAt(q, i);
    forall j, k | 0 <= j < k < |r| && r[j].qos > 0 ensures r[j].pid != r[k].pid {
      assert r[j] == q[if j < i then j else j + 1] && r[k] == q[if k < i then k else k + 1];
    }
  }

  ghost predicate Lawful(q: seq<Entry>) {
    PidsDiffer(q) && forall k :: 0 <= k < |q| && q[k].qos == 0 ==> q[k].pid == 0
  }

  lemma ShrinksLawful(q: seq<Entry>, r: seq<Entry>, d: set<nat>)
    requires Lawful(q) && Shrinks(q, r, d) && PidsDiffer(r)
    ensures Lawful(r)
  {
    forall k | 0 <= k < |r| && r[k].qos == 0 ensures r[k].pid == 0 {
      assert From(r[k], q);
    }
  }

  lemma VisitShrinks(s: Session, i: nat, w: Write)
    requires i < |s.q| && Lawful(s.q)
    ensures Shrinks(s.q, Visit(s, i, w).0.q, VisitDeletes(s, i)) && Lawful(Visit(s, i, w).0.q)
  {
    hide Shrinks, PidsDiffer;
    var e, q' := s.q[i], Visit(s, i, w).0.q;
    ShrinksSelf(s.q);
    ShrinksRemove(s.q, i);
    ShrinksUpdate(s.q, i, e.(dup := false));
    ShrinksUpdate(s.q, i, e.(phase := PublishSent, dup := false));
    ShrinksUpdate(s.q, i, e.(dup := true));
    assert s.q[i := e] == s.q;
    assert q' == s.q || q' == s.q[i := e.(dup := false)] || q' == s.q[i := e.(dup := true)]
      || q' == s.q[i := e.(phase := PublishSent, dup := false)] || q' == RemoveAt(s.q, i);
    ShrinksLawful(s.q, q', VisitDeletes(s, i));
  }

  lemma {:induction false} DrainShrinks(s: Session, i: nat, ws: seq<Write>)
    requires i <= |s.q| && Lawful(s.q)
    ensures Shrinks(s.q, DrainFrom(s, i, ws).0.q, DrainDeletes(s, i, ws))
    decreases |s.q| - i
  {
    hide Shrinks, Lawful, VisitDeletes;
    ShrinksSelf(s.q);
    if i < |s.q| {
      VisitShrinks(s, i, First(ws));
      var ws' := if Writes(s, i) then Rest(ws) else ws;
      var (s', v) := Visit(s, i, First(ws));
      var d := VisitDeletes(s, i);
      match v
      case Onward =>
        DrainShrinks(s', i + 1, ws');
        ShrinksTrans(s.q, s'.q, DrainFrom(s', i + 1, ws').0.q, d, DrainDeletes(s', i + 1, ws'));
      case Again =>
        DrainShrinks(s', i, ws');
        ShrinksTrans(s.q, s'.q, DrainFrom(s', i, ws').0.q, d, DrainDeletes(s', i, ws'));
      case Stop(_) => assert d + {} == d;
    }
  }

  lemma AckShrinks(s: Session, k: nat, ws: seq<Write>)
    requires k < |s.q| && Lawful(s.q) && s.q[k].qos > 0
    ensures Shrinks(s.q, Drain(Unlink(s, k), ws).0.q, AckDeletes(s, k, ws))
  {
    ShrinksRemove(s.q, k);
    ShrinksLawful(s.q, Unlink(s, k).q, {s.q[k].pid});
    hide Shrinks, Lawful;
    DrainShrinks(Unlink(s, k), 0, ws);
    ShrinksTrans(s.q, Unlink(s, k).q, Drain(Unlink(s, k), ws).0.q, {s.q[k].pid}, DrainDeletes(Unlink(s, k), 0, ws));
  }

  lemma {:induction false} EvictShrinks(s: Session)
    requires Lawful(s.q) && forall k :: 0 <= k < |s.q| && s.q[k].qos > 0 ==> s.q[k].pid > 0
    ensures Shrinks(s.q, Evict(s).q, EvictDeletes(s))
    decreases |s.q|
  {
    ShrinksSelf(s.q);
    if s.count >= s.lim.offline && s.q != [] {
      ShrinksRemove(s.q, 0);
      var d := if s.q[0].pid != 0 then {s.q[0].pid} else {};
      ShrinksLawful(s.q, EvictHead(s).q, d);
      hide Shrinks;
      EvictShrinks(EvictHead(s));
      ShrinksTrans(s.q, EvictHead(s).q, Evict(s).q, d, EvictDeletes(EvictHead(s)));
    }
  }

  lemma InvEntries(s: Session)
    requires Inv(s)
    ensures Entries(s.q, s.next) && Lawful(s.q)
    ensures forall k :: 0 <= k < |s.q| && s.q[k].qos > 0 ==> 1 <= s.q[k].pid <= MAX_ID
    ensures forall k :: 0 <= k < |s.q| && s.q[k].phase != Queued ==> s.q[k].qos > 0
  {
    hide Counters, Flags, Order, Prefix, Unfinished, Bounded, LogOk;
    assert forall k :: 0 <= k < |s.q| ==> EntryOk(s.q[k]);
  }

  /** The events that neither start a queue, add to it nor renumber it. */
  predicate Plain(s: Session, ev: Event) {
    !ev.EvFresh? && !ev.EvEnqueue? && !(ev.EvTakeover? && s.live) && !(ev.EvOrphan? && s.live)
  }

  lemma StepShrinks(s: Session, ev: Event)
    requires Inv(s) && Plain(s, ev)
    ensures Shrinks(s.q, Step(s, ev).q, Deletes(s, ev))
  {
    hide Inv, Shrinks, Drain, DrainDeletes, Reclaim, Lawful;
    InvEntries(s);
    ShrinksSelf(s.q);
    match ev
    case EvDrain(ws) => DrainShrinks(s, 0, ws); DrainIs(s, ws);
    case EvPubAck(pid, ws) =>
      var i := Find(s.q, pid, PublishSent);
      if i < |s.q| { AckShrinks(s, i, ws); }
    case EvPubReject(pid, ws) =>
      var i := Find(s.q, pid, PublishSent);
      if i < |s.q| { AckShrinks(s, i, ws); }
    case EvPubComp(pid, ws) =>
      var i := Find(s.q, pid, PubrelSent);
      if i < |s.q| { AckShrinks(s, i, ws); }
    case EvPubRec(pid) =>
      var i := Find(s.q, pid, PublishSent);
      if i < |s.q| { ShrinksUpdate(s.q, i, s.q[i].(phase := PubrelSent)); }
    case EvOrphan =>
    case EvTakeover(_) =>
    case EvReclaim(rm) => ReclaimAlike(s, rm);
  }

  lemma ReclaimAlike(s: Session, rm: nat)
    ensures Shrinks(s.q, Reclaim(s, rm).q, {})
  {
    ShrinksAlike(s.q, Reclaim(s, rm).q);
  }

  lemma DrainIs(s: Session, ws: seq<Write>)
    ensures Drain(s, ws) == DrainFrom(s, 0, ws)
  {
  }

  // ------------------------------------------------- the store after a step

  lemma KeysDiffer(cid: bytes, p: nat, p': nat)
    requires p <= MAX_ID && p' <= MAX_ID && p != p'
    ensures OutKey(cid, p) != OutKey(cid, p')
  {
    if OutKey(cid, p) == OutKey(cid, p') {
      KeyInjective(cid, p, cid, p');
    }
  }

  /** Deleting some of the client's records. */
  lemma KeysErased(disk: map<bytes, bytes>, cid: bytes, pids: set<nat>, dels: set<nat>)
    requires Keys(disk, cid, pids) && Readable(disk, cid, pids) && forall p :: p in dels ==> p <= MAX_ID
    ensures Keys(Erase(disk, cid, dels), cid, pids - dels) && Readable(Erase(disk, cid, dels), cid, pids - dels)
  {
    hide OutKey, KeyOwner, DecodeOut;
    var disk' := Erase(disk, cid, dels);
    forall p | p in pids && p !in dels ensures OutKey(cid, p) in disk' {
      forall x | x in dels ensures OutKey(cid, x) != OutKey(cid, p) { KeysDiffer(cid, x, p); }
    }
    forall key | key in disk' && KeyOwner(key) == Some(cid)
      ensures exists p :: p in pids - dels && key == OutKey(cid, p)
    {
      var p :| p in pids && key == OutKey(cid, p);
      assert p !in dels;
    }
  }

  /** Writing one record. */
  lemma KeysPut(disk: map<bytes, bytes>, cid: bytes, pids: set<nat>, e: Entry)
    requires Keys(disk, cid, pids) && Readable(disk, cid, pids) && KeyFits(cid)
    requires EntryOk(e) && e.qos > 0 && MessageOk(e.msg) && 0 < e.diskSeq <= MAX_SEQ
    ensures Keys(PutOut(disk, cid, e), cid, pids + {e.pid}) && Readable(PutOut(disk, cid, e), cid, pids + {e.pid})
  {
    ImageOk(e);
    OutRoundTrip(Image(e));
    hide OutKey, KeyOwner, DecodeOut, EncodeOut, KeyFits, OutRecOk, MessageOk;
    var disk' := PutOut(disk, cid, e);
    KeyOwnerOf(cid, e.pid);
    forall key | key in disk' && KeyOwner(key) == Some(cid)
      ensures exists p :: p in pids + {e.pid} && key == OutKey(cid, p)
    {
      if key != OutKey(cid, e.pid) {
        var p :| p in pids && key == OutKey(cid, p);
        assert p in pids + {e.pid};
      } else {
        assert e.pid in pids + {e.pid};
      }
    }
    forall p | p in pids + {e.pid} && OutKey(cid, p) in disk'
      ensures DecodeOut(disk'[OutKey(cid, p)]).Some? && DecodeOut(disk'[OutKey(cid, p)]).value.pid == p
    {
      if p != e.pid { KeysDiffer(cid, p, e.pid); }
    }
  }

  /** Which records belong to the queue after entries left it. */
  lemma RecordedShrinks(q: seq<Entry>, q': seq<Entry>, dels: set<nat>)
    requires Shrinks(q, q', dels)
    ensures Recorded(q') == Recorded(q) - dels
    ensures Lasting(q') == Lasting(q) - dels
  {
    hide Shrinks, Recorded, Lasting;
    forall p: nat ensures p in Recorded(q') <==> p in Recorded(q) - dels { RecordedShrink(q, q', dels, p); }
    forall p: nat ensures p in Lasting(q') <==> p in Lasting(q) - dels { LastingShrink(q, q', dels, p); }
  }

  lemma RecordedShrink(q: seq<Entry>, q': seq<Entry>, dels: set<nat>, p: nat)
    requires Shrinks(q, q', dels)
    ensures p in Recorded(q') <==> p in Recorded(q) - dels
  {
    hide Shrinks, From;
    if p in Recorded(q') {
      var k :| 0 <= k < |q'| && q'[k].qos > 0 && q'[k].diskSeq > 0 && q'[k].pid == p;
      WasAt(q, q', dels, k);
      var j := FromIndex(q'[k], q);
    }
    if p in Recorded(q) && p !in dels {
      var k :| 0 <= k < |q| && q[k].qos > 0 && q[k].diskSeq > 0 && q[k].pid == p;
      KeptAt(q, q', dels, k);
      var j := FromIndex(q[k], q');
    }
  }

  lemma LastingShrink(q: seq<Entry>, q': seq<Entry>, dels: set<nat>, p: nat)
    requires Shrinks(q, q', dels)
    ensures p in Lasting(q') <==> p in Lasting(q) - dels
  {
    hide Shrinks, From;
    if p in Lasting(q') {
      var k :| 0 <= k < |q'| && q'[k].qos > 0 && q'[k].pid == p;
      WasAt(q, q', dels, k);
      var j := FromIndex(q'[k], q);
    }
    if p in Lasting(q) && p !in dels {
      var k :| 0 <= k < |q| && q[k].qos > 0 && q[k].pid == p;
      KeptAt(q, q', dels, k);
      var j := FromIndex(q[k], q');
    }
  }

  lemma MessagesShrink(q: seq<Entry>, q': seq<Entry>, dels: set<nat>)
    requires Shrinks(q, q', dels) && Messages(q)
    ensures Messages(q')
  {
    forall k | 0 <= k < |q'| ensures MessageOk(q'[k].msg) { assert From(q'[k], q); }
  }

  /** Deletes name identifiers in range. */
  lemma {:induction false} DrainDeletesFit(s: Session, i: nat, ws: seq<Write>)
    requires i <= |s.q| && forall k :: 0 <= k < |s.q| ==> s.q[k].pid <= MAX_ID
    ensures forall p :: p in DrainDeletes(s, i, ws) ==> p <= MAX_ID
    decreases |s.q| - i
  {
    if i < |s.q| {
      var ws' := if Writes(s, i) then Rest(ws) else ws;
      var (s', v) := Visit(s, i, First(ws));
      VisitPids(s, i, First(ws));
      hide Visit;
      match v
      case Onward => DrainDeletesFit(s', i + 1, ws');
      case Again => DrainDeletesFit(s', i, ws');
      case Stop(_) =>
    }
  }

  lemma VisitPids(s: Session, i: nat, w: Write)
    requires i < |s.q| && forall k :: 0 <= k < |s.q| ==> s.q[k].pid <= MAX_ID
    ensures forall k :: 0 <= k < |Visit(s, i, w).0.q| ==> Visit(s, i, w).0.q[k].pid <= MAX_ID
  {
  }

  lemma {:induction false} EvictDeletesFit(s: Session)
    requires forall k :: 0 <= k < |s.q| ==> s.q[k].pid <= MAX_ID
    ensures forall p :: p in EvictDeletes(s) ==> p <= MAX_ID
    decreases |s.q|
  {
    if s.count >= s.lim.offline && s.q != [] {
      EvictDeletesFit(EvictHead(s));
    }
  }

  lemma DeletesFit(s: Session, ev: Event)
    requires Inv(s)
    ensures forall p :: p in Deletes(s, ev) ==> p <= MAX_ID
  {
    hide Inv, DrainDeletes;
    InvPids(s);
    match ev
    case EvEnqueue(_, _, _, _) => EvictDeletesFit(s);
    case EvDrain(ws) => DrainDeletesFit(s, 0, ws);
    case EvPubAck(pid, ws) =>
      var i := Find(s.q, pid, PublishSent);
      if i < |s.q| { DrainDeletesFit(Unlink(s, i), 0, ws); }
    case EvPubReject(pid, ws) =>
      var i := Find(s.q, pid, PublishSent);
      if i < |s.q| { DrainDeletesFit(Unlink(s, i), 0, ws); }
    case EvPubComp(pid, ws) =>
      var i := Find(s.q, pid, PubrelSent);
      if i < |s.q| { DrainDeletesFit(Unlink(s, i), 0, ws); }
    case _ =>
  }

  lemma InvPids(s: Session)
    requires Inv(s)
    ensures forall k :: 0 <= k < |s.q| ==> s.q[k].pid <= MAX_ID
  {
    hide Counters, Flags, Order, Prefix, Unfinished, Bounded, LogOk;
    assert forall k :: 0 <= k < |s.q| ==> EntryOk(s.q[k]);
  }

  lemma LeftMinus(left: set<nat>, rec: set<nat>, dels: set<nat>)
    ensures (left + rec) - dels == (left - dels) + (rec - dels)
  {
  }

  lemma PlainStores(d: Durable, cid: bytes, ev: Event)
    requires DInv(d, cid) && Plain(d.s, ev)
    ensures DInv(DStep(d, cid, ev), cid)
  {
    hide Step, Inv, Shrinks, Keys, Readable, Shadowed, Messages, Recorded, Lasting, InOrder, Deletes, Erase;
    var s, s', dels := d.s, Step(d.s, ev), Deletes(d.s, ev);
    StepKeeps(s, ev);
    StepShrinks(s, ev);
    RecordedShrinks(s.q, s'.q, dels);
    MessagesShrink(s.q, s'.q, dels);
    DeletesFit(s, ev);
    KeysErased(d.disk, cid, d.left + Recorded(s.q), dels);
    LeftMinus(d.left, Recorded(s.q), dels);
    LivenessKept(s, ev);
    if !s'.live {
      OfflineQuiet(s, ev);
      ErasedNothing(d.disk, cid);
      assert d.left - {} == d.left;
    }
  }

  lemma ErasedNothing(disk: map<bytes, bytes>, cid: bytes)
    ensures Erase(disk, cid, {}) == disk
  {
    assert (set p: nat | p in {} :: OutKey(cid, p)) == {};
  }

  lemma OfflineQuiet(s: Session, ev: Event)
    requires !s.live && !ev.EvEnqueue?
    ensures Deletes(s, ev) == {}
  {
  }

  /** Among these events only a reclaim changes whether the session is live. */
  lemma LivenessKept(s: Session, ev: Event)
    requires Plain(s, ev)
    ensures !Step(s, ev).live ==> Step(s, ev) == s && !s.live
  {
    hide Drain;
    match ev
    case EvDrain(ws) => DrainLive(s, 0, ws); DrainIs(s, ws);
    case EvPubAck(pid, ws) =>
      var i := Find(s.q, pid, PublishSent);
      if i < |s.q| { DrainLive(Unlink(s, i), 0, ws); DrainIs(Unlink(s, i), ws); }
    case EvPubReject(pid, ws) =>
      var i := Find(s.q, pid, PublishSent);
      if i < |s.q| { DrainLive(Unlink(s, i), 0, ws); DrainIs(Unlink(s, i), ws); }
    case EvPubComp(pid, ws) =>
      var i := Find(s.q, pid, PubrelSent);
      if i < |s.q| { DrainLive(Unlink(s, i), 0, ws); DrainIs(Unlink(s, i), ws); }
    case _ =>
  }

  lemma {:induction false} DrainLive(s: Session, i: nat, ws: seq<Write>)
    requires i <= |s.q|
    ensures DrainFrom(s, i, ws).0.live == s.live
    decreases |s.q| - i
  {
    if i < |s.q| {
      var ws' := if Writes(s, i) then Rest(ws) else ws;
      var (s', v) := Visit(s, i, First(ws));
      match v
      case Onward => DrainLive(s', i + 1, ws');
      case Again => DrainLive(s', i, ws');
      case Stop(_) =>
    }
  }

  // ----------------------------------------------------------------- orphan

  /** The shadow-write loop: every persistent entry has its own record. */
  lemma {:induction false} PutAllKeys(disk: map<bytes, bytes>, cid: bytes, pids: set<nat>, q: seq<Entry>)
    requires Keys(disk, cid, pids) && Readable(disk, cid, pids) && KeyFits(cid)
    requires forall k :: 0 <= k < |q| ==> EntryOk(q[k]) && MessageOk(q[k].msg) && 0 < q[k].diskSeq <= MAX_SEQ
    ensures Keys(PutAll(disk, cid, q), cid, pids + Lasting(q)) && Readable(PutAll(disk, cid, q), cid, pids + Lasting(q))
  {
    hide Keys, Readable, MessageOk, EntryOk, Lasting, PutOut, KeyFits;
    if q == [] {
      LastingNone();
      assert pids + Lasting(q) == pids;
    } else {
      var a, e := q[..|q| - 1], q[|q| - 1];
      PutAllKeys(disk, cid, pids, a);
      LastingSnoc(a, e);
      assert q == a + [e];
      if e.qos > 0 {
        KeysPut(PutAll(disk, cid, a), cid, pids + Lasting(a), e);
        assert pids + Lasting(q) == pids + Lasting(a) + {e.pid};
      } else {
        NotPut(PutAll(disk, cid, a), cid, e);
        assert Lasting(q) == Lasting(a);
      }
    }
  }

  lemma LastingNone()
    ensures Lasting([]) == {} && Recorded([]) == {}
  {
  }

  lemma NotPut(disk: map<bytes, bytes>, cid: bytes, e: Entry)
    requires e.qos == 0
    ensures PutOut(disk, cid, e) == disk
  {
  }

  lemma LastingSnoc(a: seq<Entry>, e: Entry)
    ensures Lasting(a + [e]) == Lasting(a) + (if e.qos > 0 then {e.pid} else {})
    ensures Recorded(a + [e]) == Recorded(a) + (if e.qos > 0 && e.diskSeq > 0 then {e.pid} else {})
  {
    var q := a + [e];
    assert q[|a|] == e && forall k :: 0 <= k < |a| ==> q[k] == a[k];
    forall p ensures p in Lasting(q) <==> p in Lasting(a) || (e.qos > 0 && p == e.pid) {
      if p in Lasting(a) {
        var k :| 0 <= k < |a| && a[k].qos > 0 && a[k].pid == p;
        assert q[k].pid == p;
      }
    }
    forall p ensures p in Recorded(q) <==> p in Recorded(a) || (e.qos > 0 && e.diskSeq > 0 && p == e.pid) {
      if p in Recorded(a) {
        var k :| 0 <= k < |a| && a[k].qos > 0 && a[k].diskSeq > 0 && a[k].pid == p;
        assert q[k].pid == p;
      }
    }
  }

  lemma {:induction false} PutAllShadows(disk: map<bytes, bytes>, cid: bytes, q: seq<Entry>, n: nat)
    requires n <= |q| && PidsDiffer(q) && KeyFits(cid)
    requires forall k :: 0 <= k < |q| ==> q[k].diskSeq > 0 && q[k].pid <= MAX_ID
    ensures Shadowed(PutAll(disk, cid, q[..n]), cid, q[..n])
  {
    hide OutKey, KeyFits, EncodeOut, Image;
    if n > 0 {
      PutAllShadows(disk, cid, q, n - 1);
      var a, b := q[..n - 1], q[..n];
      assert b[..n - 1] == a && b[n - 1] == q[n - 1];
      var d0, d1 := PutAll(disk, cid, a), PutAll(disk, cid, b);
      forall k | 0 <= k < n && b[k].qos > 0
        ensures OutKey(cid, b[k].pid) in d1 && d1[OutKey(cid, b[k].pid)] == EncodeOut(Image(b[k]))
      {
        if k < n - 1 {
          assert b[k] == a[k] == q[k];
          KeysDiffer(cid, q[k].pid, q[n - 1].pid);
        }
      }
    }
  }

  /** Orphaning changes only which entries are left and their numbers. */
  lemma OrphanShape(s: Session)
    requires Lawful(s.q)
    ensures Lasting(Orphan(s).q) == Lasting(s.q)
    ensures InOrder(Orphan(s).q) || |s.q| > MAX_SEQ
    ensures Messages(s.q) ==> Messages(Orphan(s).q)
  {
    hide Shrinks, Lasting;
    var q, r := DropHalfSent(s).q, Orphan(s).q;
    assert forall k :: 0 <= k < |r| ==> r[k] == q[k].(diskSeq := k + 1);
    LastingAlike(q, r);
    if q != s.q {
      var i := FirstQueued(s.q);
      ShrinksRemove(s.q, i);
      RecordedShrinks(s.q, q, {});
      MessagesHalf(s.q, q);
    }
  }

  lemma LastingAlike(q: seq<Entry>, r: seq<Entry>)
    requires |q| == |r| && forall k :: 0 <= k < |q| ==> q[k].qos == r[k].qos && q[k].pid == r[k].pid
    ensures Lasting(q) == Lasting(r)
  {
  }

  lemma MessagesHalf(q: seq<Entry>, r: seq<Entry>)
    requires Shrinks(q, r, {})
    ensures Messages(q) ==> Messages(r)
  {
    if Messages(q) { MessagesShrink(q, r, {}); }
  }

  lemma RecordedAll(q: seq<Entry>)
    requires InOrder(q)
    ensures Recorded(q) == Lasting(q)
  {
  }

  lemma OrphanStores(d: Durable, cid: bytes)
    requires DInv(d, cid) && d.s.live && KeyFits(cid)
    ensures DInv(DStep(d, cid, EvOrphan), cid)
  {
    hide Inv, Within, Keys, Readable, Shadowed, Messages, PutAll, KeyFits, Entries, Recorded, Lasting, Lawful, InOrder, Erase;
    var s, s' := d.s, Orphan(d.s);
    StepKeeps(s, EvOrphan);
    InvEntries(s);
    InvEntries(s');
    InvBasics(s);
    OrphanShape(s);
    RecordedAll(s'.q);
    ErasedNothing(d.disk, cid);
    OrphanEntries(s', MAX_SEQ);
    PutAllKeys(d.disk, cid, d.left + Recorded(s.q), s'.q);
    LeftAfterPut(d.left, s);
    LawfulPids(s');
    PutAllShadows(d.disk, cid, s'.q, |s'.q|);
    assert s'.q[..|s'.q|] == s'.q;
    assert d.left - {} == d.left;
  }

  lemma LawfulPids(s: Session)
    requires Inv(s)
    ensures PidsDiffer(s.q) && forall k :: 0 <= k < |s.q| ==> s.q[k].pid <= MAX_ID
  {
    InvEntries(s);
    InvPids(s);
  }

  lemma OrphanEntries(s: Session, m: nat)
    requires Inv(s) && InOrder(s.q) && Messages(s.q)
    ensures forall k :: 0 <= k < |s.q| ==> EntryOk(s.q[k]) && MessageOk(s.q[k].msg) && 0 < s.q[k].diskSeq <= MAX_SEQ
  {
    hide Counters, Flags, Order, Prefix, Unfinished, Bounded, LogOk;
  }

  /** Every recorded entry is written again, so only left-over keys remain. */
  lemma LeftAfterPut(left: set<nat>, s: Session)
    requires Lawful(s.q)
    ensures var w := Lasting(Orphan(s).q);
      left + Recorded(s.q) + w == (left - w) + w
  {
    OrphanShape(s);
    assert Recorded(s.q) <= Lasting(s.q);
  }

  // ---------------------------------------------------------------- enqueue

  /** Appending an entry the store does not know yet. */
  lemma LiveEnqueueStores(d: Durable, cid: bytes, ev: Event)
    requires DInv(d, cid) && d.s.live && ev.EvEnqueue? && MessageOk(ev.msg)
    ensures DInv(DStep(d, cid, ev), cid)
  {
    hide Inv, NextFree, Keys, Readable, Messages, Recorded, InOrder, Shadowed, Erase;
    StepKeeps(d.s, ev);
    ErasedNothing(d.disk, cid);
    assert d.left - {} == d.left;
    var q, q' := d.s.q, Step(d.s, ev).q;
    if q' != q {
      LastingSnoc(q, q'[|q|]);
      MessagesAppend(q, q'[|q|]);
      assert Recorded(q') == Recorded(q);
    }
  }

  lemma MessagesAppend(q: seq<Entry>, e: Entry)
    requires Messages(q) && MessageOk(e.msg)
    ensures Messages(q + [e])
  {
  }

  /** An offline enqueue keeps a suffix of the queue and may append. */
  lemma OfflineShape(s: Session, ev: Event) returns (m: nat)
    requires Inv(s) && !s.live && ev.EvEnqueue? && ev.nextPid <= MAX_ID && ev.qos > 0
    ensures m <= |s.q|
    ensures var s' := Step(s, ev);
      && !s'.live && Evict(s).q == s.q[m..]
      && (s'.next == s.next ==> s'.q == s.q[m..])
      && (s'.next != s.next ==>
            s'.next == s.next + 1 && |s'.q| == |s.q| - m + 1 && s'.q == s.q[m..] + [s'.q[|s.q| - m]]
            && s'.q[|s.q| - m].qos > 0 && s'.q[|s.q| - m].msg == ev.msg
            && s'.q[|s.q| - m].diskSeq == NextDiskSeq(s.q[m..]) != 0)
  {
    hide Inv, Evict, NextFree, FirstFree;
    EvictFields(s);
    m :| 0 <= m <= |s.q| && Evict(s).q == s.q[m..];
    var r, s1, s' := s.q[m..], Evict(s), Step(s, ev);
    var pid, dseq := NextFree(ev.nextPid, Pids(r)), NextDiskSeq(r);
    assert s' == OfflineEnqueue(s, ev.qos, ev.encLen, ev.msg, ev.nextPid);
    if pid == 0 || dseq == 0 {
      assert s' == s1;
    } else {
      var e := Entry(s.next, ev.qos, pid, Queued, false, ev.encLen, dseq, ev.msg);
      assert s'.q == r + [e];
      assert s'.q[|r|] == e;
    }
  }

  lemma EvictFields(s: Session)
    requires Inv(s)
    ensures var r := Evict(s);
      r.next == s.next && r.live == s.live
      && exists m :: 0 <= m <= |s.q| && r.q == s.q[m..]
  {
    InvBasics(s);
    EvictsOldest(s);
    EvictNext(s);
  }

  lemma {:induction false} EvictNext(s: Session)
    ensures Evict(s).next == s.next && Evict(s).live == s.live
    decreases |s.q|
  {
    if s.count >= s.lim.offline && s.q != [] {
      EvictNext(EvictHead(s));
    }
  }

  lemma SuffixOrder(q: seq<Entry>, m: nat)
    requires InOrder(q) && m <= |q|
    ensures InOrder(q[m..])
  {
  }

  lemma AppendOrder(q: seq<Entry>, e: Entry)
    requires InOrder(q) && e.diskSeq == NextDiskSeq(q) != 0
    ensures InOrder(q + [e])
  {
    assert forall k :: 0 <= k < |q| ==> q[k].diskSeq <= q[|q| - 1].diskSeq;
  }

  /** Entries that survive eviction keep their records. */
  lemma EvictedShadows(disk: map<bytes, bytes>, cid: bytes, q: seq<Entry>, m: nat, dels: set<nat>)
    requires Shadowed(disk, cid, q) && m <= |q| && Shrinks(q, q[m..], dels)
    requires (forall p :: p in dels ==> p <= MAX_ID) && forall k :: 0 <= k < |q| ==> q[k].pid <= MAX_ID
    ensures Shadowed(Erase(disk, cid, dels), cid, q[m..])
  {
    hide OutKey, EncodeOut, Image;
    var r, disk' := q[m..], Erase(disk, cid, dels);
    forall k | 0 <= k < |r| && r[k].qos > 0
      ensures OutKey(cid, r[k].pid) in disk' && disk'[OutKey(cid, r[k].pid)] == EncodeOut(Image(r[k]))
    {
      assert r[k] == q[m + k];
      forall x | x in dels ensures OutKey(cid, x) != OutKey(cid, r[k].pid) { KeysDiffer(cid, x, r[k].pid); }
    }
  }

  lemma ShadowedAppend(disk: map<bytes, bytes>, cid: bytes, q: seq<Entry>, e: Entry)
    requires Shadowed(disk, cid, q) && PidsDiffer(q + [e]) && KeyFits(cid) && e.qos > 0 && e.diskSeq > 0
    requires forall k :: 0 <= k < |q + [e]| ==> (q + [e])[k].pid <= MAX_ID
    ensures Shadowed(PutOut(disk, cid, e), cid, q + [e])
  {
    hide OutKey, EncodeOut, Image, KeyFits;
    var q', d' := q + [e], PutOut(disk, cid, e);
    assert q'[|q|] == e;
    forall k | 0 <= k < |q'| && q'[k].qos > 0
      ensures OutKey(cid, q'[k].pid) in d' && d'[OutKey(cid, q'[k].pid)] == EncodeOut(Image(q'[k]))
    {
      if k < |q| {
        assert q'[k] == q[k];
        KeysDiffer(cid, q'[k].pid, q'[|q|].pid);
      }
    }
  }

  lemma OfflineEnqueueStores(d: Durable, cid: bytes, ev: Event)
    requires DInv(d, cid) && !d.s.live && ev.EvEnqueue? && MessageOk(ev.msg) && KeyFits(cid)
    ensures DInv(DStep(d, cid, ev), cid)
  {
    hide Inv, Evict, NextFree, KeyFits, Keys, Readable, Shadowed, Messages, Recorded, Lasting, Entries, InOrder, Shrinks;
    hide PutOut, Erase, EvictDeletes, Lawful, MessageOk;
    var s, s' := d.s, Step(d.s, ev);
    if ev.nextPid > MAX_ID || ev.qos == 0 {
      ErasedNothing(d.disk, cid);
      assert d.left - {} == d.left;
      return;
    }
    var dels := EvictDeletes(s);
    assert Deletes(s, ev) == dels;
    hide Step, Deletes;
    StepKeeps(s, ev);
    InvEntries(s);
    LawfulPids(s);
    LawfulPids(s');
    var m := OfflineShape(s, ev);
    var r := s.q[m..];
    EvictShrinks(s);
    RecordedShrinks(s.q, r, dels);
    MessagesShrink(s.q, r, dels);
    InvPids(s);
    EvictDeletesFit(s);
    var disk, left := Erase(d.disk, cid, dels), d.left - dels;
    KeysErased(d.disk, cid, d.left + Recorded(s.q), dels);
    LeftMinus(d.left, Recorded(s.q), dels);
    EvictedShadows(d.disk, cid, s.q, m, dels);
    SuffixOrder(s.q, m);
    assert left !! Lasting(r);
    if s'.next > s.next {
      var e := s'.q[|r|];
      AppendOrder(r, e);
      MessagesAppend(r, e);
      LastingSnoc(r, e);
      ShadowedAppend(disk, cid, r, e);
      OrphanEntries(s', MAX_SEQ);
      KeysPut(disk, cid, left + Recorded(r), e);
      AppendedLeft(left, Recorded(r), Lasting(r), e.pid);
      OrderLast(r, e);
    }
  }

  lemma OrderLast(q: seq<Entry>, e: Entry)
    requires InOrder(q + [e])
    ensures e.diskSeq > 0
  {
    assert (q + [e])[|q|] == e;
  }

  lemma AppendedLeft(left: set<nat>, rec: set<nat>, lasting: set<nat>, p: nat)
    requires left !! lasting
    ensures left + rec + {p} == (left - {p}) + (rec + {p}) && (left - {p}) !! (lasting + {p})
  {
  }

  // -------------------------------------------------- new session, takeover

  lemma FreshStores(d: Durable, cid: bytes, rm: nat)
    requires DInv(d, cid) && NulFree(cid)
    ensures DInv(DStep(d, cid, EvFresh(rm)), cid)
  {
    StepKeeps(d.s, EvFresh(rm));
    hide Inv;
    var d' := DStep(d, cid, EvFresh(rm));
    assert d'.left + Recorded(d'.s.q) == {};
    forall key | key in d'.disk ensures KeyOwner(key) != Some(cid) {
      assert KeyOwner(key) == Some(cid) ==> DelMatches(cid, key);
    }
  }

  /** A takeover leaves every record of the freed queue behind. */
  lemma TakeoverStores(d: Durable, cid: bytes, rm: nat)
    requires DInv(d, cid) && d.s.live
    ensures DInv(DStep(d, cid, EvTakeover(rm)), cid)
  {
    hide Inv, Keys, Readable;
    StepKeeps(d.s, EvTakeover(rm));
    assert Recorded([]) == {};
    assert d.left + Recorded(d.s.q) + {} == d.left + Recorded(d.s.q);
  }

  lemma StepStores(d: Durable, cid: bytes, ev: Event)
    requires DInv(d, cid) && KeyFits(cid) && NulFree(cid)
    requires ev.EvEnqueue? ==> MessageOk(ev.msg)
    ensures DInv(DStep(d, cid, ev), cid)
  {
    hide DInv, DStep;
    if ev.EvFresh? {
      FreshStores(d, cid, ev.receiveMax);
    } else if ev.EvTakeover? && d.s.live {
      TakeoverStores(d, cid, ev.receiveMax);
    } else if ev.EvEnqueue? {
      if d.s.live { LiveEnqueueStores(d, cid, ev); } else { OfflineEnqueueStores(d, cid, ev); }
    } else if ev.EvOrphan? && d.s.live {
      OrphanStores(d, cid);
    } else {
      PlainStores(d, cid, ev);
    }
  }

  lemma {:induction false} RunStores(lim: Limits, rm: nat, cid: bytes, evs: seq<Event>, disk: map<bytes, bytes>)
    requires LimitsOk(lim) && KeyFits(cid) && NulFree(cid) && EventsOk(evs)
    requires forall key :: key in disk ==> KeyOwner(key) != Some(cid)
    ensures DInv(DRun(Durable(Initial(lim, rm), disk, {}), cid, evs), cid)
    ensures DRun(Durable(Initial(lim, rm), disk, {}), cid, evs).s == Run(Initial(lim, rm), evs)
  {
    if evs == [] {
      InitialOk(lim, rm);
      assert Recorded([]) == {};
    } else {
      hide DInv, Inv;
      RunStores(lim, rm, cid, evs[..|evs| - 1], disk);
      StepStores(DRun(Durable(Initial(lim, rm), disk, {}), cid, evs[..|evs| - 1]), cid, evs[|evs| - 1]);
    }
  }

  // ---------------------------------------------------------- durability

  /** Where the i-th persistent entry stands in the queue. */
  lemma {:induction false} PersistentFrom(q: seq<Entry>, i: nat) returns (k: nat)
    requires i < |Persistent(q)|
    ensures k < |q| && q[k] == Persistent(q)[i] && q[k].qos > 0
  {
    var a := q[..|q| - 1];
    if i < |Persistent(a)| {
      k := PersistentFrom(a, i);
    } else {
      k := |q| - 1;
    }
  }

  /** Every QoS > 0 entry is among the persistent ones. */
  lemma {:induction false} PersistentAt(q: seq<Entry>, k: nat) returns (i: nat)
    requires k < |q| && q[k].qos > 0
    ensures i < |Persistent(q)| && Persistent(q)[i] == q[k]
  {
    var a := q[..|q| - 1];
    if k < |a| {
      i := PersistentAt(a, k);
    } else {
      i := |Persistent(a)|;
    }
  }

  ghost predicate Sorted(q: seq<Entry>) {
    forall j, k :: 0 <= j < k < |q| ==> q[j].diskSeq < q[k].diskSeq
  }

  ghost predicate DistinctPids(q: seq<Entry>) {
    forall j, k :: 0 <= j < k < |q| ==> q[j].pid != q[k].pid
  }

  lemma {:induction false} PersistentSorted(q: seq<Entry>)
    requires Sorted(q)
    requires forall j, k :: 0 <= j < k < |q| && q[j].qos > 0 ==> q[j].pid != q[k].pid
    ensures Sorted(Persistent(q)) && DistinctPids(Persistent(q))
  {
    if q != [] {
      var a, e := q[..|q| - 1], q[|q| - 1];
      PersistentSorted(a);
      var p := Persistent(a);
      forall j | 0 <= j < |p| ensures p[j].diskSeq < e.diskSeq && p[j].pid != e.pid {
        var k := PersistentFrom(a, j);
        assert q[k] == a[k];
      }
    }
  }

  lemma ImageOk(e: Entry)
    requires EntryOk(e) && e.qos > 0 && MessageOk(e.msg) && 0 < e.diskSeq <= MAX_SEQ
    ensures OutRecOk(Image(e))
  {
  }

  lemma ImagesSorted(p: seq<Entry>)
    requires Sorted(p) && DistinctPids(p)
    ensures Ascending(Images(p))
    ensures forall i, j :: 0 <= i < j < |p| ==> Images(p)[i].pid != Images(p)[j].pid
  {
  }

  /** With nothing left over, an offline session's records are exactly its
      persistent entries. */
  lemma OfflineIsStored(d: Durable, cid: bytes)
    requires DInv(d, cid) && !d.s.live && d.left == {}
    ensures Stores(d.disk, cid, Images(Persistent(d.s.q)))
  {
    hide Inv, OutKey, KeyOwner, EncodeOut, Persistent, OutRecOk, DistinctPids, Ascending, Image, MessageOk, Readable;
    var q, p := d.s.q, Persistent(d.s.q);
    InvEntries(d.s);
    var r := Images(p);
    PersistentSorted(q);
    ImagesSorted(p);
    forall i | 0 <= i < |p|
      ensures OutRecOk(r[i]) && OutKey(cid, r[i].pid) in d.disk
              && d.disk[OutKey(cid, r[i].pid)] == EncodeOut(r[i])
    {
      var k := PersistentFrom(q, i);
      assert EntryOk(q[k]);
      ImageOk(q[k]);
      ImagePid(q[k]);
    }
    forall key | key in d.disk && KeyOwner(key) == Some(cid)
      ensures exists i :: 0 <= i < |r| && key == OutKey(cid, r[i].pid)
    {
      var x :| x in d.left + Recorded(q) && key == OutKey(cid, x);
      var k :| 0 <= k < |q| && q[k].qos > 0 && q[k].diskSeq > 0 && q[k].pid == x;
      var i := PersistentAt(q, k);
      ImagePid(q[k]);
      assert r[i] == Image(q[k]);
    }
  }

  lemma ImagePid(e: Entry)
    ensures Image(e).pid == e.pid
  {
  }

  lemma {:induction false} FlyingCounted(q: seq<Entry>)
    requires forall k :: 0 <= k < |q| ==> EntryOk(q[k])
    ensures InFlightCount(Images(Persistent(q))) == Flying(q)
  {
    if q == [] {
      assert Persistent(q) == [];
      assert Images([]) == [];
    } else {
      var a, e := q[..|q| - 1], q[|q| - 1];
      FlyingCounted(a);
      assert q == a + [e];
      assert EntryOk(e);
      FlyingSplit(a, [e]);
      assert Flying([e]) == (if e.phase != Queued then 1 else 0) by { assert [e][1..] == []; }
      if e.qos > 0 {
        var p := Images(Persistent(q));
        assert Persistent(q) == Persistent(a) + [e];
        assert p[..|p| - 1] == Images(Persistent(a));
        assert p[|p| - 1] == Image(e);
      }
    }
  }

  /** Every record of the client that decodes ends up in its queue. */
  lemma {:induction false} LoadContains(m: map<bytes, Restored>, disk: map<bytes, bytes>, keys: seq<bytes>, cid: bytes, key: bytes)
    requires cid in m && (forall k :: k in keys ==> k in disk) && key in keys
    requires KeyOwner(key) == Some(cid) && DecodeOut(disk[key]).Some?
    ensures cid in LoadAll(m, disk, keys) && DecodeOut(disk[key]).value in LoadAll(m, disk, keys)[cid].q
  {
    hide DecodeOut, KeyOwner;
    var front, last := keys[..|keys| - 1], keys[|keys| - 1];
    assert keys == front + [last];
    LoadKeeps(m, disk, front, cid);
    if key in front {
      LoadContains(m, disk, front, cid, key);
      LoadGrows(LoadAll(m, disk, front), last, disk[last], cid, DecodeOut(disk[key]).value);
    } else {
      InsertHas(LoadAll(m, disk, front)[cid], DecodeOut(disk[key]).value);
    }
  }

  lemma {:induction false} LoadKeeps(m: map<bytes, Restored>, disk: map<bytes, bytes>, keys: seq<bytes>, cid: bytes)
    requires cid in m && forall k :: k in keys ==> k in disk
    ensures cid in LoadAll(m, disk, keys)
  {
    hide DecodeOut, KeyOwner;
    if keys != [] {
      LoadKeeps(m, disk, keys[..|keys| - 1], cid);
    }
  }

  lemma LoadGrows(m: map<bytes, Restored>, key: bytes, blob: bytes, cid: bytes, r: OutRec)
    requires cid in m && r in m[cid].q
    ensures cid in Load(m, key, blob) && r in Load(m, key, blob)[cid].q
  {
    hide DecodeOut, KeyOwner;
    if KeyOwner(key) == Some(cid) && DecodeOut(blob).Some? {
      InsertKeeps(m[cid], DecodeOut(blob).value, r);
    }
  }

  lemma InsertHas(o: Restored, r: OutRec)
    ensures r in Insert(o, r).q
  {
    assert Insert(o, r).q[Place(o.q, r.order)] == r;
  }

  lemma InsertKeeps(o: Restored, r: OutRec, x: OutRec)
    requires x in o.q
    ensures x in Insert(o, r).q
  {
    var k := Place(o.q, r.order);
    assert o.q == o.q[..k] + o.q[k..];
  }

  /** A left-over record is restored although no entry has its identifier. */
  lemma LeftIsRestored(d: Durable, cid: bytes, keys: seq<bytes>, sessions: map<bytes, Restored>, p: nat)
    requires DInv(d, cid) && !d.s.live && p in d.left && Enumerates(keys, d.disk) && cid in sessions
    ensures var m := LoadAll(sessions, d.disk, keys);
      cid in m && m[cid].q != Images(Persistent(d.s.q))
  {
    hide Inv, OutKey, KeyOwner, DecodeOut, Persistent;
    var key, m := OutKey(cid, p), LoadAll(sessions, d.disk, keys);
    assert p in d.left + Recorded(d.s.q);
    KeyOwnerOf(cid, p);
    LoadContains(sessions, d.disk, keys, cid, key);
    var r, q := DecodeOut(d.disk[key]).value, Images(Persistent(d.s.q));
    forall i | 0 <= i < |q| ensures q[i].pid in Lasting(d.s.q) {
      var k := PersistentFrom(d.s.q, i);
      ImagePid(d.s.q[k]);
    }
    assert p !in Lasting(d.s.q);
  }

  /** The record has every stored field of the entry: the message as it was
      accepted, and where its delivery stands. */
  predicate Restores(r: OutRec, e: Entry) {
    && r.topic == e.msg.topic && r.payload == e.msg.payload && r.retain == e.msg.retain && r.level == e.msg.level
    && r.enqTime == e.msg.enqTime && r.expiry == e.msg.expiry
    && r.qos == e.qos && r.pid == e.pid && r.order == e.diskSeq
    && r.dup <= 1 && (r.dup == 1 <==> e.dup)
    && r.state <= 2 && (r.state == 0 <==> e.phase == Queued) && (r.state == 1 <==> e.phase == PublishSent)
  }

  /** The records are those of the QoS > 0 entries, in queue order. */
  predicate Rebuilds(rs: seq<OutRec>, q: seq<Entry>) {
    if q == [] then rs == []
    else if q[|q| - 1].qos == 0 then Rebuilds(rs, q[..|q| - 1])
    else rs != [] && Restores(rs[|rs| - 1], q[|q| - 1]) && Rebuilds(rs[..|rs| - 1], q[..|q| - 1])
  }

  lemma ImageOnly(r: OutRec, e: Entry)
    ensures Restores(r, e) <==> r == Image(e)
  {
  }

  lemma {:induction false} RebuildsExact(rs: seq<OutRec>, q: seq<Entry>)
    ensures Rebuilds(rs, q) <==> rs == Images(Persistent(q))
  {
    hide Image, Restores;
    if q != [] {
      var a, e := q[..|q| - 1], q[|q| - 1];
      var p := Images(Persistent(q));
      if e.qos == 0 {
        RebuildsExact(rs, a);
      } else {
        assert p == Images(Persistent(a)) + [Image(e)];
        if rs != [] {
          RebuildsExact(rs[..|rs| - 1], a);
          ImageOnly(rs[|rs| - 1], e);
          assert rs == rs[..|rs| - 1] + [rs[|rs| - 1]];
        }
      }
    }
  }

  lemma RebuiltImages(q: seq<Entry>, m: map<bytes, Restored>, cid: bytes)
    ensures cid in m ==> (Rebuilds(m[cid].q, q) <==> m[cid].q == Images(Persistent(q)))
  {
    if cid in m { RebuildsExact(m[cid].q, q); }
  }

  /** After any run that leaves the session offline, whatever other clients
      have stored and whatever order the backend iterates in, a restart
      rebuilds the session's QoS > 0 entries in order, every stored field
      equal and with the in-flight counter it had, if and only if no takeover
      left a record behind that has been neither rewritten nor deleted; which
      shows in the store as a key of the client that no entry has. */
  lemma OfflineQueueDurable(lim: Limits, rm: nat, cid: bytes, evs: seq<Event>, disk: map<bytes, bytes>,
                            keys: seq<bytes>, sessions: map<bytes, Restored>)
    requires LimitsOk(lim) && KeyFits(cid) && NulFree(cid) && EventsOk(evs)
    requires forall key :: key in disk ==> KeyOwner(key) != Some(cid)
    requires var d := DRun(Durable(Initial(lim, rm), disk, {}), cid, evs);
      !d.s.live && Enumerates(keys, d.disk)
    requires cid in sessions && sessions[cid] == EMPTY
    ensures var d := DRun(Durable(Initial(lim, rm), disk, {}), cid, evs);
      var s := Run(Initial(lim, rm), evs);
      var m := LoadAll(sessions, d.disk, keys);
      cid in m
      && (Rebuilds(m[cid].q, s.q) && m[cid].count == |m[cid].q| && m[cid].inflight == s.inflight <==> d.left == {})
      && (d.left == {} <==> NoStrays(d, cid))
  {
    var d := DRun(Durable(Initial(lim, rm), disk, {}), cid, evs);
    RunStores(lim, rm, cid, evs, disk);
    LeftOverVisible(d, cid);
    RebuiltImages(d.s.q, LoadAll(sessions, d.disk, keys), cid);
    hide DRun, Run, LoadAll, NoStrays, Rebuilds;
    if d.left == {} {
      OfflineIsStored(d, cid);
      RestoreExact(d.disk, keys, sessions, cid, Images(Persistent(d.s.q)));
      CountersAgree(d.s);
    } else {
      var p :| p in d.left;
      LeftIsRestored(d, cid, keys, sessions, p);
    }
  }

  lemma CountersAgree(s: Session)
    requires Inv(s)
    ensures InFlightCount(Images(Persistent(s.q))) == s.inflight
  {
    hide Flags, Order, Prefix, Unfinished, Bounded, LogOk;
    FlyingCounted(s.q);
  }

  // --------------------------------------------------- what is left behind

  /** Every key of the client is that of an entry of its queue. */
  ghost predicate NoStrays(d: Durable, cid: bytes) {
    forall key :: key in d.disk && KeyOwner(key) == Some(cid) ==>
      exists k :: 0 <= k < |d.s.q| && d.s.q[k].qos > 0 && key == OutKey(cid, d.s.q[k].pid)
  }

  /** Left-over records can be seen in the store. */
  lemma LeftOverVisible(d: Durable, cid: bytes)
    requires DInv(d, cid) && !d.s.live
    ensures d.left == {} <==> NoStrays(d, cid)
  {
    hide Inv, Readable, Shadowed, OutKey, KeyOwner;
    InvPids(d.s);
    if d.left == {} {
      forall key | key in d.disk && KeyOwner(key) == Some(cid)
        ensures exists k :: 0 <= k < |d.s.q| && d.s.q[k].qos > 0 && key == OutKey(cid, d.s.q[k].pid)
      {
        var p :| p in d.left + Recorded(d.s.q) && key == OutKey(cid, p);
        var k :| 0 <= k < |d.s.q| && d.s.q[k].qos > 0 && d.s.q[k].diskSeq > 0 && d.s.q[k].pid == p;
      }
    } else {
      var p :| p in d.left;
      assert p in d.left + Recorded(d.s.q);
      KeyOwnerOf(cid, p);
      forall k | 0 <= k < |d.s.q| && d.s.q[k].qos > 0 ensures OutKey(cid, p) != OutKey(cid, d.s.q[k].pid) {
        assert d.s.q[k].pid in Lasting(d.s.q);
        KeysDiffer(cid, p, d.s.q[k].pid);
      }
    }
  }

  /** No takeover of the run freed a queue with shadow-written entries: a
      broker can see this before it takes over, from enqueue_seq. */
  ghost predicate CleanTakeovers(s: Session, evs: seq<Event>) {
    forall n :: 0 <= n < |evs| && evs[n].EvTakeover? && Run(s, evs[..n]).live ==> Recorded(Run(s, evs[..n]).q) == {}
  }

  lemma {:induction false} NothingLeftOver(lim: Limits, rm: nat, cid: bytes, evs: seq<Event>, disk: map<bytes, bytes>)
    requires LimitsOk(lim) && KeyFits(cid) && NulFree(cid) && EventsOk(evs) && CleanTakeovers(Initial(lim, rm), evs)
    requires forall key :: key in disk ==> KeyOwner(key) != Some(cid)
    ensures DRun(Durable(Initial(lim, rm), disk, {}), cid, evs).left == {}
  {
    if evs != [] {
      var front := evs[..|evs| - 1];
      assert forall n :: 0 <= n < |front| ==> front[n] == evs[n] && front[..n] == evs[..n];
      NothingLeftOver(lim, rm, cid, front, disk);
      RunStores(lim, rm, cid, front, disk);
      hide Step, Run, DRun, Deletes, PutAll, PutOut;
      assert evs[..|evs| - 1] == front;
      LeftStep(DRun(Durable(Initial(lim, rm), disk, {}), cid, front), cid, evs[|evs| - 1]);
      LastRun(Durable(Initial(lim, rm), disk, {}), cid, evs);
    }
  }

  lemma LastRun(d: Durable, cid: bytes, evs: seq<Event>)
    requires evs != []
    ensures DRun(d, cid, evs) == DStep(DRun(d, cid, evs[..|evs| - 1]), cid, evs[|evs| - 1])
  {
    hide DStep;
  }

  lemma LeftStep(d: Durable, cid: bytes, ev: Event)
    requires d.left == {} && (ev.EvTakeover? && d.s.live ==> Recorded(d.s.q) == {})
    ensures DStep(d, cid, ev).left == {}
  {
    hide Step, Deletes, PutAll, PutOut, Recorded;
  }

  /** A reachable run whose restart brings a dropped message back: queued for
      an orphan, resumed, taken over while unacknowledged, and offline again
      with an empty queue. */
  lemma TakeoverRestoresStale(m: Message, cid: bytes, keys: seq<bytes>, sessions: map<bytes, Restored>)
    requires MessageOk(m) && KeyFits(cid) && NulFree(cid) && cid in sessions && sessions[cid] == EMPTY
    requires Enumerates(keys, StaleRun(m, cid).disk)
    ensures var d := StaleRun(m, cid);
      && !d.s.live && d.s.q == [] && d.left == {1}
      && cid in LoadAll(sessions, d.disk, keys) && LoadAll(sessions, d.disk, keys)[cid].q != []
  {
    var lim := Limits(2, 4, 4);
    var evs := StaleEvents(m);
    assert EventsOk(evs);
    StaleQueue(m, cid);
    RunStores(lim, 0, cid, evs, map[]);
    var d := StaleRun(m, cid);
    LeftIsRestored(d, cid, keys, sessions, 1);
    assert Persistent([]) == [] && Images([]) == [];
  }

  function StaleEvents(m: Message): seq<Event> {
    [EvOrphan, EvEnqueue(1, 9, m, 1), EvReclaim(0), EvTakeover(0), EvOrphan]
  }

  function StaleRun(m: Message, cid: bytes): Durable {
    DRun(Durable(Initial(Limits(2, 4, 4), 0), map[], {}), cid, StaleEvents(m))
  }

  lemma DRunLast(d: Durable, cid: bytes, evs: seq<Event>, ev: Event)
    ensures DRun(d, cid, evs + [ev]) == DStep(DRun(d, cid, evs), cid, ev)
  {
    hide DStep;
    assert (evs + [ev])[..|evs|] == evs;
  }

  lemma StaleQueue(m: Message, cid: bytes)
    requires KeyFits(cid)
    ensures var d := StaleRun(m, cid);
      !d.s.live && d.s.q == [] && d.left == {1}
  {
    hide DStep;
    var d0, e := Durable(Initial(Limits(2, 4, 4), 0), map[], {}), StaleEvents(m);
    StaleUnfold(d0, cid, e[0], e[1], e[2], e[3], e[4]);
    var d1 := DStep(d0, cid, e[0]);
    StaleOrphan(d0, cid);
    var d2 := DStep(d1, cid, e[1]);
    StaleEnqueue(d1, cid, m);
    var d3 := DStep(d2, cid, e[2]);
    StaleReclaim(d2, cid);
    var d4 := DStep(d3, cid, e[3]);
    StaleTakeover(d3, cid);
    StaleOrphan(d4, cid);
    assert e == [e[0], e[1], e[2], e[3], e[4]];
  }

  lemma DRunNone(d: Durable, cid: bytes)
    ensures DRun(d, cid, []) == d
  {
  }

  lemma StaleUnfold(d: Durable, cid: bytes, a: Event, b: Event, c: Event, e: Event, f: Event)
    ensures DRun(d, cid, [a, b, c, e, f])
            == DStep(DStep(DStep(DStep(DStep(d, cid, a), cid, b), cid, c), cid, e), cid, f)
  {
    DRunNone(d, cid);
    hide DStep, DRun;
    DRunLast(d, cid, [], a);
    DRunLast(d, cid, [a], b);
    DRunLast(d, cid, [a, b], c);
    DRunLast(d, cid, [a, b, c], e);
    DRunLast(d, cid, [a, b, c, e], f);
    assert [] + [a] == [a] && [a] + [b] == [a, b] && [a, b] + [c] == [a, b, c];
    assert [a, b, c] + [e] == [a, b, c, e] && [a, b, c, e] + [f] == [a, b, c, e, f];
  }

  lemma StaleOrphan(d: Durable, cid: bytes)
    requires d.s.live && d.s.q == [] && !d.s.partial
    ensures var d' := DStep(d, cid, EvOrphan);
      !d'.s.live && d'.s.q == [] && d'.left == d.left && d'.s.lim == d.s.lim && d'.s.count == d.s.count
  {
    assert Lasting([]) == {};
    assert d.left - {} - {} == d.left;
  }

  lemma StaleEnqueue(d: Durable, cid: bytes, m: Message)
    requires !d.s.live && d.s.q == [] && d.s.count == 0 && d.s.lim == Limits(2, 4, 4) && d.left == {}
    ensures var d' := DStep(d, cid, EvEnqueue(1, 9, m, 1));
      !d'.s.live && d'.s.q == [Entry(d.s.next, 1, 1, Queued, false, 9, 1, m)] && d'.left == {}
  {
    assert Pids([]) == [];
    assert NextFree(1, []) == 1;
  }

  lemma StaleReclaim(d: Durable, cid: bytes)
    requires !d.s.live && |d.s.q| == 1 && d.s.q[0].phase == Queued && d.left == {}
    ensures var d' := DStep(d, cid, EvReclaim(0));
      d'.s.live && d'.s.q == d.s.q && d'.left == {}
  {
  }

  lemma StaleTakeover(d: Durable, cid: bytes)
    requires d.s.live && |d.s.q| == 1 && d.s.q[0].qos == 1 && d.s.q[0].pid == 1 && d.s.q[0].diskSeq == 1 && d.left == {}
    ensures var d' := DStep(d, cid, EvTakeover(0));
      d'.s.live && d'.s.q == [] && !d'.s.partial && d'.left == {1}
  {
    assert d.s.q[0] in d.s.q;
    assert Recorded(d.s.q) == {1};
  }

  // ------------------------------------------------------------- frame

  /** The session's own steps leave every other client's records alone. */
  lemma OthersUntouched(d: Durable, cid: bytes, ev: Event, cid': bytes, pid: nat)
    requires NulFree(cid) && NulFree(cid') && cid != cid'
    ensures var key := OutKey(cid', pid);
      var d' := DStep(d, cid, ev);
      && (key in d'.disk <==> key in d.disk)
      && (key in d.disk ==> d'.disk[key] == d.disk[key])
  {
    var key := OutKey(cid', pid);
    KeyOwnerOf(cid', pid);
    DelSelectsExactly(cid, cid', pid);
    var s', dels := Step(d.s, ev), Deletes(d.s, ev);
    hide Step, OutKey, KeyOwner, DelMatches, Deletes, Recorded, Lasting;
    forall p: nat ensures OutKey(cid, p) != key { KeyOwnerOf(cid, p); }
    PutAllFrame(Erase(d.disk, cid, dels), cid, s'.q, key);
  }

  lemma {:induction false} PutAllFrame(disk: map<bytes, bytes>, cid: bytes, q: seq<Entry>, key: bytes)
    requires forall p: nat :: OutKey(cid, p) != key
    ensures key in PutAll(disk, cid, q) <==> key in disk
    ensures key in disk ==> PutAll(disk, cid, q)[key] == disk[key]
  {
    if q != [] {
      PutAllFrame(disk, cid, q[..|q| - 1], key);
    }
  }
}
