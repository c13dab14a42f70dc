/** The retained list refines a map from topics to messages, however
    deliveries and changes nest. */
module RetainedInvariant {
  import opened Common
  import opened Records
  import opened TopicMatch
  import opened Retained

  // -------------------------------------------------------- specification

  /** The map the operations stand for: what was last stored and not deleted. */
  function Fold(hist: seq<Effect>): map<bytes, RetRec> {
    if hist == [] then map[]
    else
      Effected(Fold(hist[..|hist| - 1]), hist[|hist| - 1])
  }

  function Effected(m: map<bytes, RetRec>, e: Effect): map<bytes, RetRec> {
    if e.Put? then m[e.rec.topic := e.rec] else m - {e.topic}
  }

  /** The message the map holds for topic at time t, unless it has expired. */
  function Wanted(m: map<bytes, RetRec>, topic: bytes, t: nat): Option<RetRec> {
    if topic in m && !Expired(m[topic], t) then Some(m[topic]) else None
  }

  function Find(nodes: seq<Node>, topic: bytes): Option<Node> {
    var i := NodeAt(nodes, topic);
    if i < |nodes| then Some(nodes[i]) else None
  }

  /** The message the list holds for topic: deferred deletes are invisible. */
  function Stored(nodes: seq<Node>, topic: bytes): Option<RetRec> {
    match Find(nodes, topic)
    case None => None
    case Some(n) => if n.pending then None else Some(n.rec)
  }

  function Live(nodes: seq<Node>, topic: bytes, t: nat): Option<RetRec> {
    match Stored(nodes, topic)
    case None => None
    case Some(r) => if Expired(r, t) then None else Some(r)
  }

  // ------------------------------------------------------------- invariant

  ghost predicate Distinct(nodes: seq<Node>) {
    forall i, j :: 0 <= i < j < |nodes| ==> nodes[i].rec.topic != nodes[j].rec.topic
  }

  ghost predicate NonePending(nodes: seq<Node>) {
    forall i :: 0 <= i < |nodes| ==> !nodes[i].pending
  }

  ghost predicate Agree(nodes: seq<Node>, m: map<bytes, RetRec>, clock: nat) {
    forall topic: bytes, t: nat :: clock <= t ==> Live(nodes, topic, t) == Wanted(m, topic, t)
  }

  /** The store holds a record for every message that is not deleted. */
  ghost predicate Shadow(nodes: seq<Node>, disk: map<bytes, bytes>) {
    && (forall topic: bytes :: topic in disk <==> Stored(nodes, topic).Some?)
    && (forall topic: bytes :: topic in disk ==> disk[topic] == EncodeRet(Stored(nodes, topic).value))
  }

  /** A decoded PUBLISH fits the record's field widths. */
  predicate MsgOk(m: Msg) {
    m.expiry < 0x1_0000_0000 && 0 < |m.topic| < 0x1_0000 && |m.payload| < 0x1000_0000
  }

  ghost predicate RecsOk(nodes: seq<Node>, clock: nat) {
    forall i :: 0 <= i < |nodes| ==>
      var r := nodes[i].rec;
      r.storeTime <= clock && r.expiry < 0x1_0000_0000 && 0 < |r.topic| < 0x1_0000 && |r.payload| < 0x1000_0000
  }

  /** What holds at every moment, also inside a delivery. */
  ghost predicate Core(s: Ret) {
    && s.count == |s.nodes| <= s.cap
    && Distinct(s.nodes)
    && RecsOk(s.nodes, s.clock)
    && Agree(s.nodes, Fold(s.hist), s.clock)
    && Shadow(s.nodes, s.disk)
  }

  ghost predicate Inv(s: Ret) {
    Core(s) && (s.delivering == 0 ==> NonePending(s.nodes))
  }

  // ------------------------------------------------------------------ lists

  lemma NodeAtIs(nodes: seq<Node>, i: nat)
    requires Distinct(nodes) && i < |nodes|
    ensures NodeAt(nodes, nodes[i].rec.topic) == i && Find(nodes, nodes[i].rec.topic) == Some(nodes[i])
  {
    var k := NodeAt(nodes, nodes[i].rec.topic);
    assert !(k < i) && !(i < k);
  }

  lemma FindRemove(nodes: seq<Node>, i: nat, topic: bytes)
    requires Distinct(nodes) && i < |nodes|
    ensures Distinct(RemoveAt(nodes, i))
    ensures Find(RemoveAt(nodes, i), topic) == if topic == nodes[i].rec.topic then None else Find(nodes, topic)
  {
    var r, j := RemoveAt(nodes, i), NodeAt(nodes, topic);
    assert Distinct(r);
    if j < |nodes| && j != i {
      NodeAtIs(r, if j < i then j else j - 1);
    } else {
      forall k | 0 <= k < |r| ensures r[k].rec.topic != topic {
        assert r[k] == nodes[if k < i then k else k + 1];
      }
    }
  }

  lemma FindUpdate(nodes: seq<Node>, i: nat, n: Node, topic: bytes)
    requires Distinct(nodes) && i < |nodes| && n.rec.topic == nodes[i].rec.topic
    ensures Distinct(nodes[i := n])
    ensures Find(nodes[i := n], topic) == if topic == n.rec.topic then Some(n) else Find(nodes, topic)
  {
    var r, j := nodes[i := n], NodeAt(nodes, topic);
    assert forall k :: 0 <= k < |r| ==> r[k].rec.topic == nodes[k].rec.topic;
    NodeAtIs(nodes, i);
    if j < |nodes| {
      NodeAtIs(r, j);
    } else {
      assert NodeAt(r, topic) == |r|;
    }
  }

  lemma FindPush(nodes: seq<Node>, n: Node, topic: bytes)
    requires Distinct(nodes) && NodeAt(nodes, n.rec.topic) == |nodes|
    ensures Distinct([n] + nodes)
    ensures Find([n] + nodes, topic) == if topic == n.rec.topic then Some(n) else Find(nodes, topic)
  {
    var r := [n] + nodes;
    assert r[1..] == nodes;
    assert forall k :: 0 < k < |r| ==> r[k] == nodes[k - 1];
  }

  lemma StaysExpired(r: RetRec, now: nat, t: nat)
    requires Expired(r, now) && now <= t
    ensures Expired(r, t)
  {
  }

  // ------------------------------------------------------- single changes

  /** A node that no longer counts: deleted, or expired for good. */
  predicate Dead(n: Node, clock: nat) {
    n.pending || Expired(n.rec, clock)
  }

  /** Any change that only affects topics whose node was dead keeps the view. */
  lemma DeadChange(nodes: seq<Node>, nodes': seq<Node>, i: nat, m: map<bytes, RetRec>, clock: nat)
    requires i < |nodes| && Dead(nodes[i], clock) && Agree(nodes, m, clock)
    requires Find(nodes, nodes[i].rec.topic) == Some(nodes[i])
    requires forall topic: bytes :: topic != nodes[i].rec.topic ==> Find(nodes', topic) == Find(nodes, topic)
    requires Stored(nodes', nodes[i].rec.topic) == None
    ensures Agree(nodes', m, clock)
  {
    forall topic: bytes, t: nat | clock <= t ensures Live(nodes', topic, t) == Wanted(m, topic, t) {
      assert Live(nodes, topic, t) == Wanted(m, topic, t);
      if topic == nodes[i].rec.topic && !nodes[i].pending {
        StaysExpired(nodes[i].rec, clock, t);
      }
    }
  }

  lemma DeadShadow(nodes: seq<Node>, nodes': seq<Node>, i: nat, disk: map<bytes, bytes>)
    requires i < |nodes| && Shadow(nodes, disk)
    requires Find(nodes, nodes[i].rec.topic) == Some(nodes[i])
    requires forall topic: bytes :: topic != nodes[i].rec.topic ==> Find(nodes', topic) == Find(nodes, topic)
    requires Stored(nodes', nodes[i].rec.topic) == None
    ensures Shadow(nodes', disk - {nodes[i].rec.topic})
    ensures nodes[i].pending ==> Shadow(nodes', disk)
  {
    hide EncodeRet, Find;
    forall topic: bytes | topic != nodes[i].rec.topic ensures Stored(nodes', topic) == Stored(nodes, topic) {}
  }

  /** Freeing a dead node, its record retired unless it already was. */
  lemma FreeKeeps(s: Ret, i: nat)
    requires Core(s) && i < |s.nodes| && Dead(s.nodes[i], s.clock)
    ensures Core(Free(Retire(s, s.nodes[i].rec.topic), i))
    ensures s.nodes[i].pending ==> Core(Free(s, i))
  {
    var nodes, nodes' := s.nodes, RemoveAt(s.nodes, i);
    var topic := nodes[i].rec.topic;
    FindRemove(nodes, i, topic);
    NodeAtIs(nodes, i);
    forall x: bytes | x != topic ensures Find(nodes', x) == Find(nodes, x) { FindRemove(nodes, i, x); }
    RecsRemove(nodes, i, s.clock);
    hide Agree, Shadow, Fold, Find, Distinct, RecsOk;
    DeadChange(nodes, nodes', i, Fold(s.hist), s.clock);
    DeadShadow(nodes, nodes', i, s.disk);
  }

  lemma RecsRemove(nodes: seq<Node>, i: nat, clock: nat)
    requires RecsOk(nodes, clock) && i < |nodes|
    ensures RecsOk(RemoveAt(nodes, i), clock)
  {
  }

  lemma MarkKeeps(s: Ret, i: nat)
    requires Core(s) && i < |s.nodes| && Dead(s.nodes[i], s.clock)
    ensures var s' := s.(nodes := s.nodes[i := s.nodes[i].(pending := true)]);
      && Core(Retire(s', s.nodes[i].rec.topic))
      && (s.nodes[i].pending ==> Core(s'))
  {
    var nodes, n := s.nodes, s.nodes[i].(pending := true);
    var nodes', topic := nodes[i := n], n.rec.topic;
    FindUpdate(nodes, i, n, topic);
    NodeAtIs(nodes, i);
    forall x: bytes | x != topic ensures Find(nodes', x) == Find(nodes, x) { FindUpdate(nodes, i, n, x); }
    assert RecsOk(nodes', s.clock);
    hide Agree, Shadow, Fold, Find, Distinct, RecsOk;
    DeadChange(nodes, nodes', i, Fold(s.hist), s.clock);
    DeadShadow(nodes, nodes', i, s.disk);
  }

  // ------------------------------------------------------------ operations

  lemma {:induction false} ReapKeeps(s: Ret, now: nat)
    requires Core(s) && now <= s.clock
    ensures var r := Reap(s, now);
      && Core(r) && r.clock == s.clock && r.hist == s.hist && r.cap == s.cap && r.delivering == s.delivering
      && (NonePending(s.nodes) ==> NonePending(r.nodes))
      && (forall i :: 0 <= i < |r.nodes| ==> !Expired(r.nodes[i].rec, now))
    decreases |s.nodes|
  {
    hide Core, Fold;
    var i := FirstExpired(s.nodes, now);
    if i < |s.nodes| {
      StaysExpired(s.nodes[i].rec, now, s.clock);
      FreeKeeps(s, i);
      ReapKeeps(Free(Retire(s, s.nodes[i].rec.topic), i), now);
    }
  }

  lemma {:induction false} PurgeKeeps(s: Ret)
    requires Core(s)
    ensures var r := Purge(s);
      Core(r) && r.clock == s.clock && r.hist == s.hist && r.cap == s.cap && r.delivering == s.delivering && NonePending(r.nodes)
    decreases |s.nodes|
  {
    hide Core, Fold;
    var i := FirstPending(s.nodes);
    if i < |s.nodes| {
      FreeKeeps(s, i);
      PurgeKeeps(Free(s, i));
    }
  }

  lemma FoldGrows(hist: seq<Effect>, e: Effect)
    ensures Fold(hist + [e]) == Effected(Fold(hist), e)
  {
    assert (hist + [e])[..|hist|] == hist;
  }

  /** A stored message is what the list and the store hold from then on. */
  lemma PutAgrees(nodes: seq<Node>, nodes': seq<Node>, rec: RetRec, m: map<bytes, RetRec>, disk: map<bytes, bytes>, clock: nat)
    requires Agree(nodes, m, clock) && Shadow(nodes, disk)
    requires Find(nodes', rec.topic) == Some(Node(rec, false))
    requires forall topic: bytes :: topic != rec.topic ==> Find(nodes', topic) == Find(nodes, topic)
    ensures Agree(nodes', m[rec.topic := rec], clock) && Shadow(nodes', disk[rec.topic := EncodeRet(rec)])
  {
    hide EncodeRet, Find, Expired;
    forall topic: bytes, t: nat | clock <= t ensures Live(nodes', topic, t) == Wanted(m[rec.topic := rec], topic, t) {
      assert Live(nodes, topic, t) == Wanted(m, topic, t);
    }
  }

  lemma InsertKeeps(s: Ret, rec: RetRec)
    requires Core(s) && RecsOk([Node(rec, false)], s.clock)
    ensures var r := Insert(s, rec);
      && Core(r) && r.clock == s.clock && r.cap == s.cap && r.delivering == s.delivering
      && (NonePending(s.nodes) ==> NonePending(r.nodes))
  {
    var n, i := Node(rec, false), NodeAt(s.nodes, rec.topic);
    assert [n][0] == n;
    if Accepts(s, rec.topic) {
      var nodes' := Insert(s, rec).nodes;
      if i < |s.nodes| {
        forall x: bytes ensures Distinct(nodes') && Find(nodes', x) == if x == rec.topic then Some(n) else Find(s.nodes, x) {
          FindUpdate(s.nodes, i, n, x);
        }
      } else {
        assert forall k :: 0 < k < |nodes'| ==> nodes'[k] == s.nodes[k - 1];
        forall x: bytes ensures Distinct(nodes') && Find(nodes', x) == if x == rec.topic then Some(n) else Find(s.nodes, x) {
          FindPush(s.nodes, n, x);
        }
      }
      assert RecsOk(nodes', s.clock);
      hide Agree, Shadow, Fold, Find, Distinct, RecsOk, EncodeRet;
      PutAgrees(s.nodes, nodes', rec, Fold(s.hist), s.disk, s.clock);
      FoldGrows(s.hist, Put(rec));
    }
  }

  lemma StoreKeeps(s: Ret, m: Msg)
    requires Inv(s) && MsgOk(m)
    ensures Inv(Store(s, m)) && Store(s, m).clock == s.clock && Store(s, m).cap == s.cap
  {
    hide Core, Insert, Reap;
    ReapKeeps(s, s.clock);
    InsertKeeps(ReapExpired(s, s.clock), Stamp(m, s.clock));
  }

  /** Forgetting a topic on both sides. */
  lemma DelAgrees(nodes: seq<Node>, nodes': seq<Node>, topic: bytes, m: map<bytes, RetRec>, disk: map<bytes, bytes>, clock: nat)
    requires Agree(nodes, m, clock) && Shadow(nodes, disk)
    requires Stored(nodes', topic) == None
    requires forall x: bytes :: x != topic ==> Find(nodes', x) == Find(nodes, x)
    ensures Agree(nodes', m - {topic}, clock) && Shadow(nodes', disk - {topic})
  {
    hide EncodeRet, Find, Expired;
    forall x: bytes, t: nat | clock <= t ensures Live(nodes', x, t) == Wanted(m - {topic}, x, t) {
      assert Live(nodes, x, t) == Wanted(m, x, t);
    }
  }

  /** Where the topics are after a delete. */
  lemma DeleteFinds(s: Ret, topic: bytes, x: bytes)
    requires Distinct(s.nodes)
    ensures var r := Delete(s, topic).nodes;
      && Distinct(r) && (x != topic ==> Find(r, x) == Find(s.nodes, x)) && Stored(r, topic) == None
  {
    var i := NodeAt(s.nodes, topic);
    if i < |s.nodes| {
      FindUpdate(s.nodes, i, s.nodes[i].(pending := true), x);
      FindRemove(s.nodes, i, x);
      FindUpdate(s.nodes, i, s.nodes[i].(pending := true), topic);
      FindRemove(s.nodes, i, topic);
    }
  }

  lemma DeleteFields(s: Ret, topic: bytes)
    requires s.count == |s.nodes| <= s.cap && RecsOk(s.nodes, s.clock) && Shadow(s.nodes, s.disk)
    ensures var r := Delete(s, topic);
      && r.count == |r.nodes| <= r.cap == s.cap && RecsOk(r.nodes, r.clock) && r.clock == s.clock
      && r.disk == s.disk - {topic} && r.hist == s.hist + [Del(topic)] && r.delivering == s.delivering
      && (s.delivering == 0 && NonePending(s.nodes) ==> NonePending(r.nodes))
  {
    var i := NodeAt(s.nodes, topic);
    if i == |s.nodes| {
      assert Stored(s.nodes, topic) == None;
      assert s.disk - {topic} == s.disk;
    }
  }

  lemma DeleteKeeps(s: Ret, topic: bytes)
    requires Inv(s)
    ensures var r := Delete(s, topic);
      Inv(r) && r.clock == s.clock && r.cap == s.cap
  {
    hide Agree, Shadow, Fold, Find, Distinct, RecsOk, NonePending, Delete, Stored;
    var r := Delete(s, topic);
    FoldGrows(s.hist, Del(topic));
    DeleteFields(s, topic);
    DeleteFinds(s, topic, topic);
    forall x: bytes | x != topic ensures Find(r.nodes, x) == Find(s.nodes, x) {
      DeleteFinds(s, topic, x);
    }
    DelAgrees(s.nodes, r.nodes, topic, Fold(s.hist), s.disk, s.clock);
  }

  lemma SweepKeeps(s: Ret, i: nat)
    requires Core(s) && i < |s.nodes| && Dead(s.nodes[i], s.clock)
    ensures var r := Sweep(s, i);
      Core(r) && r.clock == s.clock && r.cap == s.cap && r.delivering == s.delivering
  {
    hide Core;
    FreeKeeps(s, i);
    MarkKeeps(s, i);
  }

  // -------------------------------------------------------------- delivery

  predicate OpOk(op: Op) {
    match op
    case OpStore(m) => MsgOk(m)
    case OpDeliver(_, _, _, plan) => PlanOk(plan)
    case _ => true
  }

  predicate OpsOk(ops: Ops) {
    ops.NoOps? || (OpOk(ops.op) && OpsOk(ops.rest))
  }

  predicate PlanOk(p: Plan) {
    p.NoPlan? || (OpsOk(p.ops) && PlanOk(p.later))
  }

  /** r may follow s in a run. */
  ghost predicate Follows(s: Ret, r: Ret) {
    Inv(r) && r.clock >= s.clock && r.cap == s.cap
  }

  lemma {:induction false} WalkKeeps(s: Ret, left: nat, filter: bytes, q: QoS, room: nat, plan: Plan, now: nat)
    requires left <= |s.nodes| && s.delivering > 0 && Inv(s) && now <= s.clock && PlanOk(plan)
    ensures Follows(s, Walk(s, left, filter, q, room, plan, now).0)
    decreases plan, left
  {
    hide Inv, BrokerMatches, Sweep, Expired, PlanOk, Perform, Walk, Grows;
    if left == 0 {
      WalkEnds(s, filter, q, room, plan, now);
    } else {
      WalkStep(s, left, filter, q, room, plan, now, []);
      PlanParts(plan);
      var i := |s.nodes| - left;
      var n := s.nodes[i];
      if n.pending || Expired(n.rec, now) {
        DeadNow(n, now, s.clock);
        SweepFollows(s, i);
        WalkKeeps(Sweep(s, i), left - 1, filter, q, room, plan, now);
      } else if !BrokerMatches(filter, n.rec.topic) {
        WalkKeeps(s, left - 1, filter, q, room, plan, now);
      } else {
        var s1 := if plan.NoPlan? then s else Perform(s, plan.ops);
        if plan.During? { PerformKeeps(s, plan.ops); }
        if room > 0 {
          WalkKeeps(s1, left - 1, filter, q, room - 1, Later(plan), now);
        }
      }
    }
  }

  lemma WalkEnds(s: Ret, filter: bytes, q: QoS, room: nat, plan: Plan, now: nat)
    requires s.delivering > 0
    ensures Walk(s, 0, filter, q, room, plan, now) == (s, [])
  {
  }

  lemma SweepFollows(s: Ret, i: nat)
    requires Inv(s) && s.delivering > 0 && i < |s.nodes| && Dead(s.nodes[i], s.clock)
    ensures Inv(Sweep(s, i)) && Sweep(s, i).clock == s.clock && Sweep(s, i).cap == s.cap
    ensures Sweep(s, i).delivering == s.delivering
  {
    hide Core;
    SweepKeeps(s, i);
  }

  lemma PlanParts(p: Plan)
    requires PlanOk(p)
    ensures p.During? ==> OpsOk(p.ops)
    ensures PlanOk(Later(p))
  {
  }

  lemma DeadNow(n: Node, now: nat, clock: nat)
    requires (n.pending || Expired(n.rec, now)) && now <= clock
    ensures Dead(n, clock)
  {
  }

  lemma {:induction false} DeliverKeeps(s: Ret, filter: bytes, q: QoS, room: nat, plan: Plan)
    requires Inv(s) && PlanOk(plan)
    ensures var r := Deliver(s, filter, q, room, plan).0;
      Inv(r) && r.clock >= s.clock && r.cap == s.cap
    decreases plan, |s.nodes| + 1
  {
    var s0 := s.(delivering := s.delivering + 1);
    assert Inv(s0);
    hide Fold, Distinct, RecsOk, Agree, Shadow, Walk;
    WalkKeeps(s0, |s.nodes|, filter, q, room, plan, s.clock);
    var s2 := Walk(s0, |s.nodes|, filter, q, room, plan, s.clock).0.(delivering := s.delivering);
    if s.delivering == 0 {
      PurgeKeeps(s2);
    }
  }

  lemma {:induction false} ApplyKeeps(s: Ret, op: Op)
    requires Inv(s) && OpOk(op)
    ensures Inv(Apply(s, op)) && Apply(s, op).clock >= s.clock && Apply(s, op).cap == s.cap
    decreases op, 0
  {
    match op
    case OpWait(n) =>
    case OpStore(m) => StoreKeeps(s, m);
    case OpDelete(topic) => DeleteKeeps(s, topic);
    case OpDeliver(filter, q, room, plan) => DeliverKeeps(s, filter, q, room, plan);
  }

  lemma {:induction false} PerformKeeps(s: Ret, ops: Ops)
    requires Inv(s) && OpsOk(ops)
    ensures Inv(Perform(s, ops)) && Perform(s, ops).clock >= s.clock && Perform(s, ops).cap == s.cap
    decreases ops, 0
  {
    hide Core;
    if ops.DoOp? {
      ApplyKeeps(s, ops.op);
      PerformKeeps(Apply(s, ops.op), ops.rest);
    }
  }
}
