/** Retained messages (src/mqtt_broker.c, BrokerRetained_*, dynamic-memory
    build; src/mqtt_broker_persist.c, PutRetained, DelRetained and the restore
    of NS_RETAINED): a list that may be changed while it is being delivered.

    `hist` is history: the accepted stores and the deletes in the order they
    happened. `clock` is the latest time any operation has read. */
module Retained {
  import opened Common
  import opened Records
  import opened TopicMatch

  /** A BrokerRetainedMsg: the message and its deferred-delete flag. */
  datatype Node = Node(rec: RetRec, pending: bool)

  datatype Effect = Put(rec: RetRec) | Del(topic: bytes)

  datatype Ret = Ret(nodes: seq<Node>, count: int, delivering: nat, cap: nat,
                     disk: map<bytes, bytes>, clock: nat, hist: seq<Effect>)

  /** The Message Expiry Interval has run out; a clock that went back does not
      count. */
  predicate Expired(r: RetRec, now: nat) {
    r.expiry > 0 && now >= r.storeTime && now - r.storeTime >= r.expiry
  }

  /** Index of the node for topic, or |nodes|. */
  function NodeAt(nodes: seq<Node>, topic: bytes): (k: nat)
    ensures k <= |nodes| && (k < |nodes| ==> nodes[k].rec.topic == topic)
    ensures forall j :: 0 <= j < k ==> nodes[j].rec.topic != topic
  {
    if nodes == [] || nodes[0].rec.topic == topic then 0 else 1 + NodeAt(nodes[1..], topic)
  }

  function FirstExpired(nodes: seq<Node>, now: nat): (k: nat)
    ensures k <= |nodes| && (k < |nodes| ==> Expired(nodes[k].rec, now))
    ensures forall j :: 0 <= j < k ==> !Expired(nodes[j].rec, now)
  {
    if nodes == [] || Expired(nodes[0].rec, now) then 0 else 1 + FirstExpired(nodes[1..], now)
  }

  function FirstPending(nodes: seq<Node>): (k: nat)
    ensures k <= |nodes| && (k < |nodes| ==> nodes[k].pending)
    ensures forall j :: 0 <= j < k ==> !nodes[j].pending
  {
    if nodes == [] || nodes[0].pending then 0 else 1 + FirstPending(nodes[1..])
  }

  // ------------------------------------------------------------ operations

  /** Unlink and free the node at i. */
  function Free(s: Ret, i: nat): Ret
    requires i < |s.nodes|
  {
    s.(nodes := RemoveAt(s.nodes, i), count := if s.count > 0 then s.count - 1 else s.count)
  }

  /** BrokerPersist_DelRetained. */
  function Retire(s: Ret, topic: bytes): Ret {
    s.(disk := s.disk - {topic})
  }

  /** The walk of BrokerRetained_ReapExpired. */
  function Reap(s: Ret, now: nat): (r: Ret)
    decreases |s.nodes|
  {
    var i := FirstExpired(s.nodes, now);
    if i == |s.nodes| then s else Reap(Free(Retire(s, s.nodes[i].rec.topic), i), now)
  }

  /** Reaping waits while a delivery walks the list. */
  function ReapExpired(s: Ret, now: nat): Ret {
    if s.delivering > 0 then s else Reap(s, now)
  }

  /** The reap after the outermost delivery. */
  function Purge(s: Ret): Ret
    decreases |s.nodes|
  {
    var i := FirstPending(s.nodes);
    if i == |s.nodes| then s else Purge(Free(s, i))
  }

  /** Would BrokerRetained_Store take a message for topic now? */
  predicate Accepts(s: Ret, topic: bytes) {
    NodeAt(s.nodes, topic) < |s.nodes| || s.count < s.cap
  }

  /** BrokerRetained_Store after reaping; PutRetained shadows it. */
  function Insert(s: Ret, rec: RetRec): Ret {
    var i := NodeAt(s.nodes, rec.topic);
    if !Accepts(s, rec.topic) then s
    else
      var s1 := s.(disk := s.disk[rec.topic := EncodeRet(rec)], hist := s.hist + [Put(rec)]);
      if i < |s.nodes| then s1.(nodes := s.nodes[i := Node(rec, false)])
      else s1.(nodes := [Node(rec, false)] + s.nodes, count := s.count + 1)
  }

  /** A RETAIN publish, as the caller hands it over. */
  datatype Msg = Msg(topic: bytes, payload: bytes, qos: QoS, expiry: nat)

  function Stamp(m: Msg, now: nat): RetRec {
    RetRec(m.qos, now, m.expiry, m.topic, m.payload)
  }

  function Store(s: Ret, m: Msg): Ret {
    Insert(ReapExpired(s, s.clock), Stamp(m, s.clock))
  }

  /** BrokerRetained_Delete: deferred while a delivery walks the list. */
  function Delete(s: Ret, topic: bytes): Ret {
    var i := NodeAt(s.nodes, topic);
    var s1 := s.(hist := s.hist + [Del(topic)]);
    if i == |s.nodes| then s1
    else if s.delivering > 0 then Retire(s1.(nodes := s.nodes[i := s.nodes[i].(pending := true)]), topic)
    else Retire(Free(s1, i), topic)
  }

  // -------------------------------------------------------------- delivery

  /** Operations on the list, including a delivery to a new subscriber during
      which further operations run: plan says which, after each message it
      queues. */
  datatype Op =
    | OpWait(seconds: nat)
    | OpStore(msg: Msg)
    | OpDelete(topic: bytes)
    | OpDeliver(filter: bytes, subQos: QoS, room: nat, plan: Plan)
  datatype Ops = NoOps | DoOp(op: Op, rest: Ops)
  datatype Plan = NoPlan | During(ops: Ops, later: Plan)

  function Later(p: Plan): Plan {
    if p.NoPlan? then p else p.later
  }

  /** A queued delivery: the message and its effective QoS. */
  datatype Sent = Sent(rec: RetRec, qos: nat)

  /** b is a with nodes put in front: no node left the list. */
  predicate Grows(a: seq<Node>, b: seq<Node>) {
    |a| <= |b| && forall i :: 0 <= i < |a| ==> b[|b| - |a| + i].rec.topic == a[i].rec.topic
  }

  lemma GrowsTrans(a: seq<Node>, b: seq<Node>, c: seq<Node>)
    ensures Grows(a, b) && Grows(b, c) ==> Grows(a, c)
  {
    if Grows(a, b) && Grows(b, c) {
      forall i | 0 <= i < |a| ensures c[|c| - |a| + i].rec.topic == a[i].rec.topic {
        assert c[|c| - |b| + (|b| - |a| + i)].rec.topic == b[|b| - |a| + i].rec.topic;
      }
    }
  }

  lemma SweepGrows(s: Ret, i: nat, c: seq<Node>)
    requires i < |s.nodes|
    ensures s.delivering > 1 && Grows(Sweep(s, i).nodes, c) ==> Grows(s.nodes, c)
  {
    if s.delivering > 1 && Grows(Sweep(s, i).nodes, c) {
      var b := Sweep(s, i).nodes;
      forall k | 0 <= k < |s.nodes| ensures c[|c| - |s.nodes| + k].rec.topic == s.nodes[k].rec.topic {
        assert c[|c| - |b| + k].rec.topic == b[k].rec.topic;
      }
    }
  }

  /** Deal with an expired or deleted node the walk meets at i: freed at the
      outermost depth, only marked below it. */
  function Sweep(s: Ret, i: nat): Ret
    requires i < |s.nodes|
  {
    var n := s.nodes[i];
    var s1 := if n.pending then s else Retire(s, n.rec.topic);
    if s.delivering > 1 then s1.(nodes := s.nodes[i := n.(pending := true)]) else Free(s1, i)
  }

  /** The walk of BrokerRetained_DeliverToClient with left nodes to go: the
      node at |nodes| - left is the one the saved pointer names. */
  function Walk(s: Ret, left: nat, filter: bytes, subQos: QoS, room: nat, plan: Plan, now: nat): (r: (Ret, seq<Sent>))
    requires left <= |s.nodes| && s.delivering > 0
    ensures r.0.delivering == s.delivering
    ensures s.delivering > 1 ==> Grows(s.nodes, r.0.nodes)
    decreases plan, left
  {
    if left == 0 then (s, [])
    else
      var i := |s.nodes| - left;
      var n := s.nodes[i];
      if n.pending || Expired(n.rec, now) then
        var r := Walk(Sweep(s, i), left - 1, filter, subQos, room, plan, now);
        SweepGrows(s, i, r.0.nodes);
        r
      else if !BrokerMatches(filter, n.rec.topic) then Walk(s, left - 1, filter, subQos, room, plan, now)
      else
        var s1 := if plan.NoPlan? then s else Perform(s, plan.ops);
        if room == 0 then (s1, [])
        else
          var (s2, rest) := Walk(s1, left - 1, filter, subQos, room - 1, Later(plan), now);
          GrowsTrans(s.nodes, s1.nodes, s2.nodes);
          (s2, [Sent(n.rec, Min(n.rec.qos, subQos))] + rest)
  }

  /** What the rest of a walk adds to the deliveries queued so far. */
  function After(out: seq<Sent>, r: (Ret, seq<Sent>)): (Ret, seq<Sent>) {
    (r.0, out + r.1)
  }

  /** One node of the walk. */
  lemma WalkStep(s: Ret, left: nat, filter: bytes, q: QoS, room: nat, plan: Plan, now: nat, out: seq<Sent>)
    requires left <= |s.nodes| && s.delivering > 0
    ensures left == 0 ==> After(out, Walk(s, left, filter, q, room, plan, now)) == (s, out)
    ensures left > 0 ==>
      var i := |s.nodes| - left;
      var n, r := s.nodes[i], After(out, Walk(s, left, filter, q, room, plan, now));
      if n.pending || Expired(n.rec, now) then
        left - 1 <= |Sweep(s, i).nodes| && Sweep(s, i).delivering == s.delivering
        && r == After(out, Walk(Sweep(s, i), left - 1, filter, q, room, plan, now))
      else if !BrokerMatches(filter, n.rec.topic) then r == After(out, Walk(s, left - 1, filter, q, room, plan, now))
      else
        var s1 := if plan.NoPlan? then s else Perform(s, plan.ops);
        && left - 1 <= |s1.nodes| && s1.delivering == s.delivering
        && r == if room == 0 then (s1, out)
                else After(out + [Sent(n.rec, Min(n.rec.qos, q))],
                           Walk(s1, left - 1, filter, q, room - 1, Later(plan), now))
  {
    hide BrokerMatches, Expired, Perform;
    if left == 0 {
      assert out + [] == out;
    } else {
      var i := |s.nodes| - left;
      var n := s.nodes[i];
      if !(n.pending || Expired(n.rec, now)) && BrokerMatches(filter, n.rec.topic) {
        var s1 := if plan.NoPlan? then s else Perform(s, plan.ops);
        assert out + [] == out;
        if room > 0 {
          var x, rest := Sent(n.rec, Min(n.rec.qos, q)), Walk(s1, left - 1, filter, q, room - 1, Later(plan), now).1;
          assert out + ([x] + rest) == out + [x] + rest;
        }
      }
    }
  }

  /** BrokerRetained_DeliverToClient. */
  function Deliver(s: Ret, filter: bytes, subQos: QoS, room: nat, plan: Plan): (r: (Ret, seq<Sent>))
    ensures r.0.delivering == s.delivering
    ensures s.delivering > 0 ==> Grows(s.nodes, r.0.nodes)
    decreases plan, |s.nodes| + 1
  {
    var (s1, out) := Walk(s.(delivering := s.delivering + 1), |s.nodes|, filter, subQos, room, plan, s.clock);
    var s2 := s1.(delivering := s.delivering);
    (if s.delivering == 0 then PurgeKept(s2); Purge(s2) else s2, out)
  }

  lemma {:induction false} PurgeKept(s: Ret)
    ensures Purge(s).delivering == s.delivering && Purge(s).clock == s.clock && Purge(s).hist == s.hist
    decreases |s.nodes|
  {
    var i := FirstPending(s.nodes);
    if i < |s.nodes| {
      PurgeKept(Free(s, i));
    }
  }

  lemma {:induction false} ReapKept(s: Ret, now: nat)
    ensures Reap(s, now).delivering == s.delivering
    decreases |s.nodes|
  {
    var i := FirstExpired(s.nodes, now);
    if i < |s.nodes| {
      ReapKept(Free(Retire(s, s.nodes[i].rec.topic), i), now);
    }
  }

  function Apply(s: Ret, op: Op): (r: Ret)
    ensures r.delivering == s.delivering
    ensures s.delivering > 0 ==> Grows(s.nodes, r.nodes)
    decreases op, 0
  {
    match op
    case OpWait(n) => s.(clock := s.clock + n)
    case OpStore(m) => ReapKept(s, s.clock); Store(s, m)
    case OpDelete(topic) => Delete(s, topic)
    case OpDeliver(filter, q, room, plan) => Deliver(s, filter, q, room, plan).0
  }

  /** Operations in order. While a delivery is under way they never take a
      node off the list, so the walk's saved pointer stays good. */
  function Perform(s: Ret, ops: Ops): (r: Ret)
    ensures r.delivering == s.delivering
    ensures s.delivering > 0 ==> Grows(s.nodes, r.nodes)
    decreases ops, 0
  {
    if ops.NoOps? then s
    else
      var r := Perform(Apply(s, ops.op), ops.rest);
      GrowsTrans(s.nodes, Apply(s, ops.op).nodes, r.nodes);
      r
  }

  function Initial(cap: nat): Ret {
    Ret([], 0, 0, cap, map[], 0, [])
  }
}
