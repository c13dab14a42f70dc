/** A delivery of retained messages that other operations re-enter at will:
    what it still sends. */
module RetainedDelivery {
  import opened Common
  import opened Records
  import opened TopicMatch
  import opened Retained
  import opened RetainedInvariant

  // ---------------------------------------------------------------- history

  /** r comes after s. */
  predicate Since(s: Ret, r: Ret) {
    s.hist <= r.hist && s.clock <= r.clock
  }

  lemma {:induction false} ReapSince(s: Ret, now: nat)
    ensures Reap(s, now).hist == s.hist && Reap(s, now).clock == s.clock
    decreases |s.nodes|
  {
    hide Expired;
    var i := FirstExpired(s.nodes, now);
    if i < |s.nodes| {
      ReapSince(Free(Retire(s, s.nodes[i].rec.topic), i), now);
    }
  }

  lemma StoreSince(s: Ret, m: Msg)
    ensures Since(s, Store(s, m))
  {
    hide Reap, EncodeRet;
    ReapSince(s, s.clock);
  }

  /** One node of the walk and what it sends. */
  lemma WalkCase(s: Ret, left: nat, filter: bytes, q: QoS, room: nat, plan: Plan, now: nat)
    requires left <= |s.nodes| && s.delivering > 0
    ensures left == 0 ==> Walk(s, left, filter, q, room, plan, now) == (s, [])
    ensures left > 0 ==>
      var i := |s.nodes| - left;
      var n, r := s.nodes[i], Walk(s, left, filter, q, room, plan, now);
      if n.pending || Expired(n.rec, now) then
        left - 1 <= |Sweep(s, i).nodes| && Sweep(s, i).delivering == s.delivering
        && r == Walk(Sweep(s, i), left - 1, filter, q, room, plan, now)
      else if !BrokerMatches(filter, n.rec.topic) then r == Walk(s, left - 1, filter, q, room, plan, now)
      else
        var s1 := if plan.NoPlan? then s else Perform(s, plan.ops);
        && left - 1 <= |s1.nodes| && s1.delivering == s.delivering
        && if room == 0 then r == (s1, [])
           else
             var w := Walk(s1, left - 1, filter, q, room - 1, Later(plan), now);
             r == (w.0, [Sent(n.rec, Min(n.rec.qos, q))] + w.1)
  {
    hide BrokerMatches, Expired, Perform;
  }

  lemma {:induction false} WalkSince(s: Ret, left: nat, filter: bytes, q: QoS, room: nat, plan: Plan, now: nat)
    requires left <= |s.nodes| && s.delivering > 0
    ensures Since(s, Walk(s, left, filter, q, room, plan, now).0)
    decreases plan, left
  {
    hide BrokerMatches, Expired, Perform, Walk, Grows;
    WalkCase(s, left, filter, q, room, plan, now);
    if left > 0 {
      var i := |s.nodes| - left;
      var n := s.nodes[i];
      if n.pending || Expired(n.rec, now) {
        WalkSince(Sweep(s, i), left - 1, filter, q, room, plan, now);
      } else if !BrokerMatches(filter, n.rec.topic) {
        WalkSince(s, left - 1, filter, q, room, plan, now);
      } else {
        var s1 := if plan.NoPlan? then s else Perform(s, plan.ops);
        if plan.During? { PerformSince(s, plan.ops); }
        if room > 0 {
          WalkSince(s1, left - 1, filter, q, room - 1, Later(plan), now);
        }
      }
    }
  }

  lemma {:induction false} DeliverSince(s: Ret, filter: bytes, q: QoS, room: nat, plan: Plan)
    ensures Since(s, Deliver(s, filter, q, room, plan).0)
    decreases plan, |s.nodes| + 1
  {
    hide Walk, Purge, Grows;
    var s0 := s.(delivering := s.delivering + 1);
    WalkSince(s0, |s.nodes|, filter, q, room, plan, s.clock);
    PurgeKept(Walk(s0, |s.nodes|, filter, q, room, plan, s.clock).0.(delivering := s.delivering));
  }

  lemma {:induction false} ApplySince(s: Ret, op: Op)
    ensures Since(s, Apply(s, op))
    decreases op, 0
  {
    hide Store, Deliver, Grows;
    match op
    case OpWait(n) =>
    case OpStore(m) => StoreSince(s, m);
    case OpDelete(topic) =>
    case OpDeliver(filter, q, room, plan) => DeliverSince(s, filter, q, room, plan);
  }

  lemma {:induction false} PerformSince(s: Ret, ops: Ops)
    ensures Since(s, Perform(s, ops))
    decreases ops, 0
  {
    hide Apply, Grows;
    if ops.DoOp? {
      ApplySince(s, ops.op);
      PerformSince(Apply(s, ops.op), ops.rest);
    }
  }

  // -------------------------------------------------------- untouched nodes

  predicate OpTouches(op: Op, topic: bytes) {
    match op
    case OpWait(_) => false
    case OpStore(m) => m.topic == topic
    case OpDelete(x) => x == topic
    case OpDeliver(_, _, _, plan) => PlanTouches(plan, topic)
  }

  predicate OpsTouch(ops: Ops, topic: bytes) {
    ops.DoOp? && (OpTouches(ops.op, topic) || OpsTouch(ops.rest, topic))
  }

  /** Does an operation nested in the plan, at any depth, store or delete
      topic? */
  predicate PlanTouches(p: Plan, topic: bytes) {
    p.During? && (OpsTouch(p.ops, topic) || PlanTouches(p.later, topic))
  }

  /** The live node n stands d places from the end of the list. */
  predicate Holds(s: Ret, d: nat, n: Node) {
    1 <= d <= |s.nodes| && s.nodes[|s.nodes| - d] == n && !n.pending
  }

  lemma Earlier(r: RetRec, now: nat, t: nat)
    requires !Expired(r, t) && now <= t
    ensures !Expired(r, now)
  {
  }

  lemma StoreHolds(s: Ret, m: Msg, d: nat, n: Node)
    requires s.delivering > 0 && Holds(s, d, n) && m.topic != n.rec.topic
    ensures Holds(Store(s, m), d, n)
  {
    hide EncodeRet, Reap;
  }

  lemma DeleteHolds(s: Ret, topic: bytes, d: nat, n: Node)
    requires s.delivering > 0 && Holds(s, d, n) && topic != n.rec.topic
    ensures Holds(Delete(s, topic), d, n)
  {
  }

  /** Dealing with a dead node leaves a live one in place: anywhere in a nested
      walk, behind the walk in the outermost one. */
  lemma SweepHolds(s: Ret, i: nat, d: nat, n: Node, now: nat)
    requires i < |s.nodes| && (s.nodes[i].pending || Expired(s.nodes[i].rec, now))
    requires Holds(s, d, n) && !Expired(n.rec, now) && (s.delivering > 1 || d < |s.nodes| - i)
    ensures Holds(Sweep(s, i), d, n)
  {
    hide Expired;
  }

  lemma {:induction false} WalkHolds(s: Ret, left: nat, filter: bytes, q: QoS, room: nat, plan: Plan, now: nat, d: nat, n: Node)
    requires left <= |s.nodes| && s.delivering > 1 && now <= s.clock && Holds(s, d, n)
    requires !PlanTouches(plan, n.rec.topic) && !Expired(n.rec, Walk(s, left, filter, q, room, plan, now).0.clock)
    ensures Holds(Walk(s, left, filter, q, room, plan, now).0, d, n)
    decreases plan, left
  {
    hide BrokerMatches, Expired, Perform, Walk, Grows, Sweep, OpsTouch, Holds;
    WalkCase(s, left, filter, q, room, plan, now);
    WalkSince(s, left, filter, q, room, plan, now);
    if left > 0 {
      var i := |s.nodes| - left;
      var x := s.nodes[i];
      if x.pending || Expired(x.rec, now) {
        Earlier(n.rec, now, Walk(s, left, filter, q, room, plan, now).0.clock);
        SweepHolds(s, i, d, n, now);
        SweepFields(s, i);
        WalkHolds(Sweep(s, i), left - 1, filter, q, room, plan, now, d, n);
      } else if !BrokerMatches(filter, x.rec.topic) {
        WalkHolds(s, left - 1, filter, q, room, plan, now, d, n);
      } else {
        TurnHolds(s, left, filter, q, room, plan, now, d, n);
        var s1 := if plan.NoPlan? then s else Perform(s, plan.ops);
        if room > 0 {
          WalkHolds(s1, left - 1, filter, q, room - 1, Later(plan), now, d, n);
        }
      }
    }
  }

  lemma SweepFields(s: Ret, i: nat)
    requires i < |s.nodes|
    ensures Sweep(s, i).clock == s.clock && Sweep(s, i).delivering == s.delivering && Sweep(s, i).hist == s.hist
  {
  }

  /** The operations a walk performs at a node it sends. */
  lemma {:induction false} TurnHolds(s: Ret, left: nat, filter: bytes, q: QoS, room: nat, plan: Plan, now: nat, d: nat, n: Node)
    requires 0 < left <= |s.nodes| && s.delivering > 0 && now <= s.clock && Holds(s, d, n)
    requires var x := s.nodes[|s.nodes| - left];
      !x.pending && !Expired(x.rec, now) && BrokerMatches(filter, x.rec.topic)
    requires !PlanTouches(plan, n.rec.topic) && !Expired(n.rec, Walk(s, left, filter, q, room, plan, now).0.clock)
    ensures var s1 := if plan.NoPlan? then s else Perform(s, plan.ops);
      Holds(s1, d, n) && s.clock <= s1.clock && !PlanTouches(Later(plan), n.rec.topic)
    decreases plan, 0
  {
    hide BrokerMatches, Expired, Perform, Walk, Grows, OpsTouch, Holds;
    WalkCase(s, left, filter, q, room, plan, now);
    if plan.During? {
      var s1 := Perform(s, plan.ops);
      PerformSince(s, plan.ops);
      if room > 0 {
        WalkSince(s1, left - 1, filter, q, room - 1, Later(plan), now);
      }
      Earlier(n.rec, s1.clock, Walk(s, left, filter, q, room, plan, now).0.clock);
      PerformHolds(s, plan.ops, d, n);
    }
  }

  lemma {:induction false} DeliverHolds(s: Ret, filter: bytes, q: QoS, room: nat, plan: Plan, d: nat, n: Node)
    requires s.delivering > 0 && Holds(s, d, n) && !PlanTouches(plan, n.rec.topic)
    requires !Expired(n.rec, Deliver(s, filter, q, room, plan).0.clock)
    ensures Holds(Deliver(s, filter, q, room, plan).0, d, n)
    decreases plan, |s.nodes| + 1
  {
    hide Walk, Purge, Grows, Expired, PlanTouches;
    WalkHolds(s.(delivering := s.delivering + 1), |s.nodes|, filter, q, room, plan, s.clock, d, n);
  }

  lemma {:induction false} ApplyHolds(s: Ret, op: Op, d: nat, n: Node)
    requires s.delivering > 0 && Holds(s, d, n) && !OpTouches(op, n.rec.topic) && !Expired(n.rec, Apply(s, op).clock)
    ensures Holds(Apply(s, op), d, n)
    decreases op, 0
  {
    hide Store, Deliver, Grows, Expired, PlanTouches, Delete, Holds;
    match op
    case OpWait(k) => assert Holds(Apply(s, op), d, n) by { WaitHolds(s, k, d, n); }
    case OpStore(m) => StoreHolds(s, m, d, n);
    case OpDelete(topic) => DeleteHolds(s, topic, d, n);
    case OpDeliver(filter, q, room, plan) => DeliverHolds(s, filter, q, room, plan, d, n);
  }

  lemma WaitHolds(s: Ret, k: nat, d: nat, n: Node)
    requires Holds(s, d, n)
    ensures Holds(s.(clock := s.clock + k), d, n)
  {
  }

  lemma {:induction false} PerformHolds(s: Ret, ops: Ops, d: nat, n: Node)
    requires s.delivering > 0 && Holds(s, d, n) && !OpsTouch(ops, n.rec.topic) && !Expired(n.rec, Perform(s, ops).clock)
    ensures Holds(Perform(s, ops), d, n)
    decreases ops, 0
  {
    hide Apply, Grows, Expired, OpTouches, Holds;
    if ops.DoOp? {
      var s1 := Apply(s, ops.op);
      PerformSince(s1, ops.rest);
      Earlier(n.rec, s1.clock, Perform(s, ops).clock);
      ApplyHolds(s, ops.op, d, n);
      PerformHolds(s1, ops.rest, d, n);
    }
  }

  // ---------------------------------------------------- untouched messages

  function TopicOf(e: Effect): bytes {
    if e.Put? then e.rec.topic else e.topic
  }

  /** From s to r nothing was stored or deleted for topic. */
  ghost predicate Unchanged(s: Ret, r: Ret, topic: bytes) {
    s.hist <= r.hist && forall i :: |s.hist| <= i < |r.hist| ==> TopicOf(r.hist[i]) != topic
  }

  lemma UnchangedTrans(a: Ret, b: Ret, c: Ret, topic: bytes)
    requires Unchanged(a, b, topic) && Unchanged(b, c, topic)
    ensures Unchanged(a, c, topic)
  {
  }

  lemma SameHist(s: Ret, r: Ret, topic: bytes)
    requires r.hist == s.hist
    ensures Unchanged(s, r, topic)
  {
  }

  lemma StoreUnchanged(s: Ret, m: Msg, topic: bytes)
    requires m.topic != topic
    ensures Unchanged(s, Store(s, m), topic)
  {
    hide Reap, EncodeRet;
    ReapSince(s, s.clock);
  }

  lemma {:induction false} WalkUnchanged(s: Ret, left: nat, filter: bytes, q: QoS, room: nat, plan: Plan, now: nat, topic: bytes)
    requires left <= |s.nodes| && s.delivering > 0 && !PlanTouches(plan, topic)
    ensures Unchanged(s, Walk(s, left, filter, q, room, plan, now).0, topic)
    decreases plan, left
  {
    hide BrokerMatches, Expired, Perform, Walk, Grows, Unchanged, OpsTouch, Sweep;
    WalkCase(s, left, filter, q, room, plan, now);
    SameHist(s, s, topic);
    if left > 0 {
      var i := |s.nodes| - left;
      var n := s.nodes[i];
      if n.pending || Expired(n.rec, now) {
        SweepFields(s, i);
        SameHist(s, Sweep(s, i), topic);
        WalkUnchanged(Sweep(s, i), left - 1, filter, q, room, plan, now, topic);
        UnchangedTrans(s, Sweep(s, i), Walk(s, left, filter, q, room, plan, now).0, topic);
      } else if !BrokerMatches(filter, n.rec.topic) {
        WalkUnchanged(s, left - 1, filter, q, room, plan, now, topic);
      } else {
        var s1 := if plan.NoPlan? then s else Perform(s, plan.ops);
        if plan.During? { PerformUnchanged(s, plan.ops, topic); }
        if room > 0 {
          WalkUnchanged(s1, left - 1, filter, q, room - 1, Later(plan), now, topic);
          UnchangedTrans(s, s1, Walk(s, left, filter, q, room, plan, now).0, topic);
        }
      }
    }
  }

  lemma {:induction false} DeliverUnchanged(s: Ret, filter: bytes, q: QoS, room: nat, plan: Plan, topic: bytes)
    requires !PlanTouches(plan, topic)
    ensures Unchanged(s, Deliver(s, filter, q, room, plan).0, topic)
    decreases plan, |s.nodes| + 1
  {
    hide Walk, Purge, Grows, PlanTouches;
    var s0 := s.(delivering := s.delivering + 1);
    WalkUnchanged(s0, |s.nodes|, filter, q, room, plan, s.clock, topic);
    PurgeKept(Walk(s0, |s.nodes|, filter, q, room, plan, s.clock).0.(delivering := s.delivering));
  }

  lemma {:induction false} ApplyUnchanged(s: Ret, op: Op, topic: bytes)
    requires !OpTouches(op, topic)
    ensures Unchanged(s, Apply(s, op), topic)
    decreases op, 0
  {
    hide Store, Deliver, Grows, PlanTouches;
    match op
    case OpWait(n) =>
    case OpStore(m) => StoreUnchanged(s, m, topic);
    case OpDelete(x) =>
    case OpDeliver(filter, q, room, plan) => DeliverUnchanged(s, filter, q, room, plan, topic);
  }

  lemma {:induction false} PerformUnchanged(s: Ret, ops: Ops, topic: bytes)
    requires !OpsTouch(ops, topic)
    ensures Unchanged(s, Perform(s, ops), topic)
    decreases ops, 0
  {
    hide Apply, Grows, OpTouches, Unchanged;
    if ops.DoOp? {
      ApplyUnchanged(s, ops.op, topic);
      PerformUnchanged(Apply(s, ops.op), ops.rest, topic);
      UnchangedTrans(s, Apply(s, ops.op), Perform(s, ops), topic);
    } else {
      SameHist(s, s, topic);
    }
  }

  /** The map keeps what it holds for an untouched topic. */
  lemma {:induction false} FoldUnchanged(a: seq<Effect>, b: seq<Effect>, topic: bytes)
    requires a <= b && forall i :: |a| <= i < |b| ==> TopicOf(b[i]) != topic
    ensures topic in Fold(b) <==> topic in Fold(a)
    ensures topic in Fold(b) ==> Fold(b)[topic] == Fold(a)[topic]
  {
    if |a| < |b| {
      FoldUnchanged(a, b[..|b| - 1], topic);
    } else {
      assert a == b;
    }
  }

  // ------------------------------------------------------------ completeness

  /** A walk that has an untouched live matching node still before it sends it,
      unless the room runs out first. */
  lemma {:induction false} WalkSends(s: Ret, left: nat, filter: bytes, q: QoS, room: nat, plan: Plan, now: nat, d: nat, n: Node)
    requires left <= |s.nodes| && s.delivering > 0 && now <= s.clock && Holds(s, d, n) && d <= left
    requires !PlanTouches(plan, n.rec.topic) && BrokerMatches(filter, n.rec.topic)
    requires !Expired(n.rec, Walk(s, left, filter, q, room, plan, now).0.clock)
    ensures var out := Walk(s, left, filter, q, room, plan, now).1;
      |out| <= room && (|out| == room || Sent(n.rec, Min(n.rec.qos, q)) in out)
    decreases plan, left
  {
    hide BrokerMatches, Expired, Perform, Walk, Grows, Sweep, PlanTouches, Holds;
    WalkCase(s, left, filter, q, room, plan, now);
    WalkSince(s, left, filter, q, room, plan, now);
    HoldsAt(s, d, n);
    var i := |s.nodes| - left;
    var x := s.nodes[i];
    Earlier(n.rec, now, Walk(s, left, filter, q, room, plan, now).0.clock);
    if x.pending || Expired(x.rec, now) {
      SweepHolds(s, i, d, n, now);
      SweepFields(s, i);
      WalkSends(Sweep(s, i), left - 1, filter, q, room, plan, now, d, n);
    } else if !BrokerMatches(filter, x.rec.topic) {
      WalkSends(s, left - 1, filter, q, room, plan, now, d, n);
    } else {
      TurnHolds(s, left, filter, q, room, plan, now, d, n);
      var s1 := if plan.NoPlan? then s else Perform(s, plan.ops);
      if room > 0 {
        WalkRoom(s1, left - 1, filter, q, room - 1, Later(plan), now);
        if d < left {
          WalkSends(s1, left - 1, filter, q, room - 1, Later(plan), now, d, n);
        }
      }
    }
  }

  lemma HoldsAt(s: Ret, d: nat, n: Node)
    requires Holds(s, d, n)
    ensures 1 <= d <= |s.nodes| && s.nodes[|s.nodes| - d] == n && !n.pending
  {
  }

  lemma {:induction false} WalkRoom(s: Ret, left: nat, filter: bytes, q: QoS, room: nat, plan: Plan, now: nat)
    requires left <= |s.nodes| && s.delivering > 0
    ensures |Walk(s, left, filter, q, room, plan, now).1| <= room
    decreases plan, left
  {
    hide BrokerMatches, Expired, Perform, Walk, Grows, Sweep;
    WalkCase(s, left, filter, q, room, plan, now);
    if left > 0 {
      var i := |s.nodes| - left;
      var n := s.nodes[i];
      if n.pending || Expired(n.rec, now) {
        WalkRoom(Sweep(s, i), left - 1, filter, q, room, plan, now);
      } else if !BrokerMatches(filter, n.rec.topic) {
        WalkRoom(s, left - 1, filter, q, room, plan, now);
      } else if room > 0 {
        WalkRoom(if plan.NoPlan? then s else Perform(s, plan.ops), left - 1, filter, q, room - 1, Later(plan), now);
      }
    }
  }

  // ------------------------------------------------------------------- order

  /** The topic of the node d places from the end. */
  function TopicAt(nodes: seq<Node>, d: nat): bytes
    requires 1 <= d <= |nodes|
  {
    nodes[|nodes| - d].rec.topic
  }

  /** The same topics in the last left places. */
  predicate SameTail(a: seq<Node>, b: seq<Node>, left: nat) {
    left <= |a| && left <= |b| && forall d :: 1 <= d <= left ==> TopicAt(a, d) == TopicAt(b, d)
  }

  lemma GrowsTail(a: seq<Node>, b: seq<Node>, left: nat)
    requires Grows(a, b) && left <= |a|
    ensures SameTail(a, b, left)
  {
    forall d | 1 <= d <= left ensures TopicAt(a, d) == TopicAt(b, d) {
      assert b[|b| - |a| + (|a| - d)].rec.topic == a[|a| - d].rec.topic;
    }
  }

  lemma SweepTail(s: Ret, left: nat)
    requires 0 < left <= |s.nodes|
    ensures SameTail(s.nodes, Sweep(s, |s.nodes| - left).nodes, left - 1)
  {
  }

  lemma TurnTail(s: Ret, plan: Plan, left: nat)
    requires s.delivering > 0 && left <= |s.nodes|
    ensures SameTail(s.nodes, (if plan.NoPlan? then s else Perform(s, plan.ops)).nodes, left)
  {
    if plan.During? {
      GrowsTail(s.nodes, Perform(s, plan.ops).nodes, left);
    }
    hide Perform;
  }

  /** How far from the end the k-th message sent stood. */
  lemma {:induction false} SentFrom(s: Ret, left: nat, filter: bytes, q: QoS, room: nat, plan: Plan, now: nat, k: nat) returns (d: nat)
    requires left <= |s.nodes| && s.delivering > 0 && k < |Walk(s, left, filter, q, room, plan, now).1|
    ensures 1 <= d <= left && Walk(s, left, filter, q, room, plan, now).1[k].rec.topic == TopicAt(s.nodes, d)
    decreases plan, left
  {
    hide BrokerMatches, Expired, Perform, Walk, Grows, Sweep;
    WalkCase(s, left, filter, q, room, plan, now);
    var at := |s.nodes| - left;
    var n := s.nodes[at];
    if n.pending || Expired(n.rec, now) {
      SweepTail(s, left);
      d := SentFrom(Sweep(s, at), left - 1, filter, q, room, plan, now, k);
    } else if !BrokerMatches(filter, n.rec.topic) {
      d := SentFrom(s, left - 1, filter, q, room, plan, now, k);
    } else if k == 0 {
      d := left;
    } else {
      TurnTail(s, plan, left - 1);
      d := SentFrom(if plan.NoPlan? then s else Perform(s, plan.ops), left - 1, filter, q, room - 1, Later(plan), now, k - 1);
    }
  }

  /** Messages are sent in list order. */
  lemma {:induction false} SentInOrder(s: Ret, left: nat, filter: bytes, q: QoS, room: nat, plan: Plan, now: nat, j: nat, k: nat) returns (a: nat, b: nat)
    requires left <= |s.nodes| && s.delivering > 0 && j < k < |Walk(s, left, filter, q, room, plan, now).1|
    ensures var out := Walk(s, left, filter, q, room, plan, now).1;
      1 <= b < a <= left && out[j].rec.topic == TopicAt(s.nodes, a) && out[k].rec.topic == TopicAt(s.nodes, b)
    decreases plan, left
  {
    hide BrokerMatches, Expired, Perform, Walk, Grows, Sweep;
    WalkCase(s, left, filter, q, room, plan, now);
    var at := |s.nodes| - left;
    var n := s.nodes[at];
    if n.pending || Expired(n.rec, now) {
      SweepTail(s, left);
      a, b := SentInOrder(Sweep(s, at), left - 1, filter, q, room, plan, now, j, k);
    } else if !BrokerMatches(filter, n.rec.topic) {
      a, b := SentInOrder(s, left - 1, filter, q, room, plan, now, j, k);
    } else {
      var s1 := if plan.NoPlan? then s else Perform(s, plan.ops);
      TurnTail(s, plan, left - 1);
      if j == 0 {
        a := left;
        b := SentFrom(s1, left - 1, filter, q, room - 1, Later(plan), now, k - 1);
      } else {
        a, b := SentInOrder(s1, left - 1, filter, q, room - 1, Later(plan), now, j - 1, k - 1);
      }
    }
  }

  // --------------------------------------------------------------- soundness

  /** At state t the message x is what the list holds for its topic, unexpired
      when the delivery began, and the filter matches it. */
  ghost predicate DueAt(t: Ret, x: Sent, filter: bytes, q: QoS, now: nat) {
    && Inv(t)
    && Stored(t.nodes, x.rec.topic) == Some(x.rec) && !Expired(x.rec, now)
    && BrokerMatches(filter, x.rec.topic) && x.qos == Min(x.rec.qos, q)
  }

  /** States passed through, in order, from s to r. */
  ghost predicate Passed(s: Ret, ts: seq<Ret>, r: Ret) {
    && (forall k :: 0 <= k < |ts| ==> Since(s, ts[k]) && Since(ts[k], r))
    && (forall j, k :: 0 <= j < k < |ts| ==> Since(ts[j], ts[k]))
  }

  lemma PassedLater(s: Ret, s1: Ret, ts: seq<Ret>, r: Ret)
    requires Since(s, s1) && Passed(s1, ts, r) && Since(s1, r)
    ensures Passed(s, ts, r) && Passed(s, [s] + ts, r)
  {
    var us := [s] + ts;
    forall j, k | 0 <= j < k < |us| ensures Since(us[j], us[k]) {
      assert us[k] == ts[k - 1];
      if j > 0 { assert us[j] == ts[j - 1]; }
    }
  }

  lemma {:induction false} WalkDue(s: Ret, left: nat, filter: bytes, q: QoS, room: nat, plan: Plan, now: nat) returns (ts: seq<Ret>)
    requires left <= |s.nodes| && s.delivering > 0 && Inv(s) && now <= s.clock && PlanOk(plan)
    ensures var (r, out) := Walk(s, left, filter, q, room, plan, now);
      && |ts| == |out| && Passed(s, ts, r)
      && (forall k :: 0 <= k < |ts| ==> DueAt(ts[k], out[k], filter, q, now))
    decreases plan, left
  {
    hide BrokerMatches, Expired, Perform, Walk, Grows, Sweep, PlanOk, DueAt, Inv, Passed, Since;
    WalkCase(s, left, filter, q, room, plan, now);
    PlanParts(plan);
    ts := [];
    PassedNone(s, Walk(s, left, filter, q, room, plan, now).0);
    if left > 0 {
      var i := |s.nodes| - left;
      var n := s.nodes[i];
      if n.pending || Expired(n.rec, now) {
        DeadNow(n, now, s.clock);
        SweepFollows(s, i);
        ts := WalkDue(Sweep(s, i), left - 1, filter, q, room, plan, now);
        SweepFields(s, i);
        SinceSame(s, Sweep(s, i));
        WalkSince(Sweep(s, i), left - 1, filter, q, room, plan, now);
        PassedLater(s, Sweep(s, i), ts, Walk(s, left, filter, q, room, plan, now).0);
      } else if !BrokerMatches(filter, n.rec.topic) {
        ts := WalkDue(s, left - 1, filter, q, room, plan, now);
      } else {
        var s1 := if plan.NoPlan? then s else Perform(s, plan.ops);
        SinceSame(s, s);
        if plan.During? {
          PerformKeeps(s, plan.ops);
          PerformSince(s, plan.ops);
        }
        if room > 0 {
          var rest := WalkDue(s1, left - 1, filter, q, room - 1, Later(plan), now);
          WalkSince(s1, left - 1, filter, q, room - 1, Later(plan), now);
          PassedLater(s, s1, rest, Walk(s, left, filter, q, room, plan, now).0);
          HeadDue(s, i, filter, q, now);
          ts := [s] + rest;
        }
      }
    }
  }

  lemma PassedNone(s: Ret, r: Ret)
    ensures Passed(s, [], r)
  {
  }

  lemma SinceSame(s: Ret, r: Ret)
    requires r.hist == s.hist && r.clock == s.clock
    ensures Since(s, r)
  {
  }

  lemma HeadDue(s: Ret, i: nat, filter: bytes, q: QoS, now: nat)
    requires Inv(s) && i < |s.nodes| && !s.nodes[i].pending && !Expired(s.nodes[i].rec, now)
    requires BrokerMatches(filter, s.nodes[i].rec.topic)
    ensures DueAt(s, Sent(s.nodes[i].rec, Min(s.nodes[i].rec.qos, q)), filter, q, now)
  {
    hide Agree, Shadow, RecsOk, Fold, BrokerMatches, Expired;
    NodeAtIs(s.nodes, i);
  }

  /** In terms of the map: the message is the map's, unless it has expired
      since the delivery began. */
  lemma DueInMap(t: Ret, x: Sent, filter: bytes, q: QoS, now: nat)
    requires DueAt(t, x, filter, q, now)
    ensures Wanted(Fold(t.hist), x.rec.topic, t.clock) == (if Expired(x.rec, t.clock) then None else Some(x.rec))
  {
    hide Shadow, RecsOk, Fold, BrokerMatches, Expired, Distinct;
    assert Live(t.nodes, x.rec.topic, t.clock) == Wanted(Fold(t.hist), x.rec.topic, t.clock);
  }

  // ------------------------------------------------------------------ result

  /** At its turn t the message x is the map's for a matching topic, unless it
      has expired since the delivery began. */
  ghost predicate SentInTurn(t: Ret, x: Sent, filter: bytes, q: QoS, now: nat) {
    && Wanted(Fold(t.hist), x.rec.topic, t.clock) == (if Expired(x.rec, t.clock) then None else Some(x.rec))
    && !Expired(x.rec, now) && BrokerMatches(filter, x.rec.topic) && x.qos == Min(x.rec.qos, q)
  }

  /** The map's message for topic is sent, at the smaller QoS. */
  ghost predicate SentFor(hist: seq<Effect>, clock: nat, topic: bytes, q: QoS, out: seq<Sent>) {
    var w := Wanted(Fold(hist), topic, clock);
    w.Some? ==> Sent(w.value, Min(w.value.qos, q)) in out
  }

  /** The map's message for topic lasts until the given time. */
  ghost predicate Lasts(hist: seq<Effect>, clock: nat, topic: bytes, until: nat) {
    var w := Wanted(Fold(hist), topic, clock);
    w.Some? && !Expired(w.value, until)
  }

  /** Any delivery, whatever operations re-enter it and wherever. Each message
      it sends is, at its turn, the map's message for a matching topic, not
      expired when the delivery began; no topic is sent twice; and a matching
      message of the map that no nested operation stores or deletes and that
      does not expire meanwhile is sent, unless the room runs out. `turns` are
      the states at the sends. */
  lemma DeliverUnderReentry(s: Ret, filter: bytes, q: QoS, room: nat, plan: Plan) returns (turns: seq<Ret>)
    requires Inv(s) && PlanOk(plan)
    ensures var (r, out) := Deliver(s, filter, q, room, plan);
      && |turns| == |out| <= room && Passed(s, turns, r)
      && (forall k :: 0 <= k < |turns| ==> SentInTurn(turns[k], out[k], filter, q, s.clock))
      && (forall j, k :: 0 <= j < k < |out| ==> out[j].rec.topic != out[k].rec.topic)
      && (forall topic: bytes ::
            Lasts(s.hist, s.clock, topic, r.clock) && BrokerMatches(filter, topic) && !PlanTouches(plan, topic) ==>
              SentFor(s.hist, s.clock, topic, q, out) || |out| == room)
  {
    hide BrokerMatches, Expired, Walk, Grows, PlanOk, PlanTouches, Fold, Wanted, Inv, Deliver;
    var s0 := s.(delivering := s.delivering + 1);
    var (r, out) := Deliver(s, filter, q, room, plan);
    var (w, _) := Walk(s0, |s.nodes|, filter, q, room, plan, s.clock);
    DeliverIs(s, filter, q, room, plan);
    Opened(s);
    WalkRoom(s0, |s.nodes|, filter, q, room, plan, s.clock);
    turns := WalkDue(s0, |s.nodes|, filter, q, room, plan, s.clock);
    forall k | 0 <= k < |out| ensures SentInTurn(turns[k], out[k], filter, q, s.clock) {
      DueInMap(turns[k], out[k], filter, q, s.clock);
    }
    forall j, k | 0 <= j < k < |out| ensures out[j].rec.topic != out[k].rec.topic {
      var a, b := SentInOrder(s0, |s.nodes|, filter, q, room, plan, s.clock, j, k);
      DistinctAt(s, |s.nodes| - a, |s.nodes| - b);
    }
    forall topic: bytes | Lasts(s.hist, s.clock, topic, r.clock) && BrokerMatches(filter, topic) && !PlanTouches(plan, topic)
      ensures SentFor(s.hist, s.clock, topic, q, out) || |out| == room
    {
      var d, n := WantedHolds(s, topic);
      WalkSends(s0, |s.nodes|, filter, q, room, plan, s.clock, d, n);
    }
  }

  lemma DeliverIs(s: Ret, filter: bytes, q: QoS, room: nat, plan: Plan)
    ensures var (r, out) := Deliver(s, filter, q, room, plan);
      var (w, sent) := Walk(s.(delivering := s.delivering + 1), |s.nodes|, filter, q, room, plan, s.clock);
      out == sent && r.hist == w.hist && r.clock == w.clock
  {
    var w := Walk(s.(delivering := s.delivering + 1), |s.nodes|, filter, q, room, plan, s.clock).0;
    PurgeKept(w.(delivering := s.delivering));
    hide Walk, Purge, Grows;
  }

  lemma Opened(s: Ret)
    requires Inv(s)
    ensures Inv(s.(delivering := s.delivering + 1))
  {
    hide Distinct, RecsOk, Agree, Shadow, Fold;
  }

  lemma DistinctAt(s: Ret, a: nat, b: nat)
    requires Inv(s) && a < b < |s.nodes|
    ensures s.nodes[a].rec.topic != s.nodes[b].rec.topic
  {
    hide RecsOk, Agree, Shadow, Fold;
  }

  /** Where the map's message for topic stands. */
  lemma WantedHolds(s: Ret, topic: bytes) returns (d: nat, n: Node)
    requires Inv(s) && Wanted(Fold(s.hist), topic, s.clock).Some?
    ensures d <= |s.nodes| && Holds(s.(delivering := s.delivering + 1), d, n)
    ensures n.rec == Wanted(Fold(s.hist), topic, s.clock).value && n.rec.topic == topic
  {
    hide RecsOk, Shadow, Fold, Distinct, Wanted, Expired;
    assert Live(s.nodes, topic, s.clock) == Wanted(Fold(s.hist), topic, s.clock);
    var i := NodeAt(s.nodes, topic);
    d, n := |s.nodes| - i, s.nodes[i];
  }
}
