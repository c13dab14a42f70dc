/** What the retained list promises over every run. */
module RetainedTheorems {
  import opened Common
  import opened Records
  import opened TopicMatch
  import opened Retained
  import opened RetainedInvariant
  import opened RetainedDelivery

  // ------------------------------------------------------------ refinement

  /** After any nesting of stores, deletes and deliveries the list holds, for
      every topic, what the map of accepted operations holds; there is one
      node per topic, the counter is exact and within the cap, and no deferred
      delete is left over. */
  lemma RefinesMap(cap: nat, ops: Ops)
    requires OpsOk(ops)
    ensures var s := Perform(Initial(cap), ops);
      && (forall topic: bytes :: Live(s.nodes, topic, s.clock) == Wanted(Fold(s.hist), topic, s.clock))
      && (forall i, j :: 0 <= i < j < |s.nodes| ==> s.nodes[i].rec.topic != s.nodes[j].rec.topic)
      && s.count == |s.nodes| <= cap && s.delivering == 0
      && (forall i :: 0 <= i < |s.nodes| ==> !s.nodes[i].pending)
  {
    assert Inv(Initial(cap));
    PerformKeeps(Initial(cap), ops);
    hide Live, Wanted, Fold;
  }

  // --------------------------------------------------------------- delivery

  /** The messages due to a subscriber, in list order. */
  function Select(nodes: seq<Node>, filter: bytes, subQos: QoS, now: nat): seq<Sent> {
    if nodes == [] then []
    else
      var n, rest := nodes[0], Select(nodes[1..], filter, subQos, now);
      if n.pending || Expired(n.rec, now) || !BrokerMatches(filter, n.rec.topic) then rest
      else [Sent(n.rec, Min(n.rec.qos, subQos))] + rest
  }

  function Cut(q: seq<Sent>, room: nat): seq<Sent> {
    q[..Min(room, |q|)]
  }

  lemma SweepSuffix(s: Ret, left: nat)
    requires 0 < left <= |s.nodes|
    ensures var i := |s.nodes| - left;
      var r := Sweep(s, i).nodes;
      left - 1 <= |r| && r[|r| - (left - 1)..] == s.nodes[i + 1..]
  {
  }

  /** Nothing re-enters the delivery at its first room sends. What the plan
      holds next runs when the subscriber's queue is found full. */
  predicate IdleFor(plan: Plan, room: nat) {
    plan.NoPlan? || room == 0 || (plan.ops.NoOps? && IdleFor(plan.later, room - 1))
  }

  /** A walk undisturbed until the room is used up queues exactly the messages
      due, as far as there is room; one undisturbed to its end changes no
      history. */
  lemma {:induction false} WalkSelects(s: Ret, left: nat, filter: bytes, q: QoS, room: nat, plan: Plan, now: nat)
    requires left <= |s.nodes| && s.delivering > 0 && IdleFor(plan, room)
    ensures var (r, out) := Walk(s, left, filter, q, room, plan, now);
      && out == Cut(Select(s.nodes[|s.nodes| - left..], filter, q, now), room)
      && (IdleFor(plan, room + 1) ==> r.hist == s.hist && r.clock == s.clock)
    decreases plan, left
  {
    hide BrokerMatches, Expired, Grows, Walk, Sweep;
    WalkCase(s, left, filter, q, room, plan, now);
    if left > 0 {
      var i := |s.nodes| - left;
      var n, tail := s.nodes[i], s.nodes[i + 1..];
      assert s.nodes[i..][0] == n && s.nodes[i..][1..] == tail;
      if n.pending || Expired(n.rec, now) {
        SweepSuffix(s, left);
        SweepFields(s, i);
        WalkSelects(Sweep(s, i), left - 1, filter, q, room, plan, now);
      } else if !BrokerMatches(filter, n.rec.topic) {
        WalkSelects(s, left - 1, filter, q, room, plan, now);
      } else if room > 0 {
        WalkSelects(s, left - 1, filter, q, room - 1, Later(plan), now);
        var rest := Select(tail, filter, q, now);
        CutCons(Sent(n.rec, Min(n.rec.qos, q)), rest, room);
      }
    }
  }

  lemma CutCons(x: Sent, rest: seq<Sent>, room: nat)
    requires room > 0
    ensures Cut([x] + rest, room) == [x] + Cut(rest, room - 1)
  {
  }

  /** Each selected message is the live one of its topic, and matches. */
  lemma {:induction false} SelectSound(nodes: seq<Node>, filter: bytes, q: QoS, now: nat, k: nat) returns (i: nat)
    requires k < |Select(nodes, filter, q, now)|
    ensures var x := Select(nodes, filter, q, now)[k];
      && k <= i < |nodes| && nodes[i].rec == x.rec && !nodes[i].pending && !Expired(x.rec, now)
      && BrokerMatches(filter, x.rec.topic) && x.qos == Min(x.rec.qos, q)
    decreases |nodes|
  {
    hide BrokerMatches, Expired;
    var n, rest := nodes[0], Select(nodes[1..], filter, q, now);
    if n.pending || Expired(n.rec, now) || !BrokerMatches(filter, n.rec.topic) {
      var i' := SelectSound(nodes[1..], filter, q, now, k);
      i := i' + 1;
    } else if k > 0 {
      var i' := SelectSound(nodes[1..], filter, q, now, k - 1);
      i := i' + 1;
    } else {
      i := 0;
    }
  }

  lemma {:induction false} SelectComplete(nodes: seq<Node>, filter: bytes, q: QoS, now: nat, i: nat) returns (k: nat)
    requires i < |nodes| && !nodes[i].pending && !Expired(nodes[i].rec, now) && BrokerMatches(filter, nodes[i].rec.topic)
    ensures k < |Select(nodes, filter, q, now)| && Select(nodes, filter, q, now)[k].rec == nodes[i].rec
    decreases |nodes|
  {
    hide BrokerMatches, Expired;
    if i == 0 {
      k := 0;
    } else {
      var k' := SelectComplete(nodes[1..], filter, q, now, i - 1);
      var n := nodes[0];
      k := if n.pending || Expired(n.rec, now) || !BrokerMatches(filter, n.rec.topic) then k' else k' + 1;
    }
  }

  lemma {:induction false} SelectDistinct(nodes: seq<Node>, filter: bytes, q: QoS, now: nat)
    requires Distinct(nodes)
    ensures var sel := Select(nodes, filter, q, now);
      forall j, k :: 0 <= j < k < |sel| ==> sel[j].rec.topic != sel[k].rec.topic
    decreases |nodes|
  {
    hide BrokerMatches, Expired;
    if nodes != [] {
      var t, rest := nodes[1..], Select(nodes[1..], filter, q, now);
      assert forall i :: 0 <= i < |t| ==> t[i] == nodes[i + 1];
      SelectDistinct(t, filter, q, now);
      forall k | 0 <= k < |rest| ensures rest[k].rec.topic != nodes[0].rec.topic {
        var i := SelectSound(t, filter, q, now, k);
      }
      var sel := Select(nodes, filter, q, now);
      forall j, k | 0 <= j < k < |sel| ensures sel[j].rec.topic != sel[k].rec.topic {
        if sel != rest {
          assert sel[k] == rest[k - 1] && sel[0].rec == nodes[0].rec;
          assert j > 0 ==> sel[j] == rest[j - 1];
        }
      }
    }
  }

  /** A delivery that nothing re-enters until the subscriber's queue is full
      queues, once each and at the smaller QoS, exactly the matching unexpired
      messages of the map, up to the room in that queue; the list goes on
      holding what the map holds, and if nothing re-enters at all no message
      changes. */
  lemma DeliverExact(s: Ret, filter: bytes, q: QoS, room: nat, plan: Plan)
    requires Inv(s) && PlanOk(plan) && IdleFor(plan, room)
    ensures var (r, out) := Deliver(s, filter, q, room, plan);
      var m, due := Fold(s.hist), Select(s.nodes, filter, q, s.clock);
      && out == Cut(due, room)
      && (forall k :: 0 <= k < |due| ==>
            Wanted(m, due[k].rec.topic, s.clock) == Some(due[k].rec)
            && BrokerMatches(filter, due[k].rec.topic) && due[k].qos == Min(due[k].rec.qos, q))
      && (forall topic: bytes :: Wanted(m, topic, s.clock).Some? && BrokerMatches(filter, topic) ==>
            exists k :: 0 <= k < |due| && due[k].rec == Wanted(m, topic, s.clock).value)
      && (forall j, k :: 0 <= j < k < |due| ==> due[j].rec.topic != due[k].rec.topic)
      && (forall topic: bytes, t: nat :: r.clock <= t ==> Live(r.nodes, topic, t) == Wanted(Fold(r.hist), topic, t))
      && (IdleFor(plan, room + 1) ==>
            forall topic: bytes, t: nat :: s.clock <= t ==> Live(r.nodes, topic, t) == Live(s.nodes, topic, t))
  {
    var (r, out) := Deliver(s, filter, q, room, plan);
    DeliverSelects(s, filter, q, room, plan);
    DueIsLive(s, filter, q);
    DeliverKeeps(s, filter, q, room, plan);
    hide Deliver, Select, BrokerMatches, Live, Wanted, Fold, Distinct, RecsOk, Shadow, PlanOk;
    if IdleFor(plan, room + 1) {
      hide IdleFor;
      forall topic: bytes, t: nat | s.clock <= t ensures Live(r.nodes, topic, t) == Live(s.nodes, topic, t) {
        assert Live(s.nodes, topic, t) == Wanted(Fold(s.hist), topic, t);
      }
    }
  }

  lemma DeliverSelects(s: Ret, filter: bytes, q: QoS, room: nat, plan: Plan)
    requires IdleFor(plan, room)
    ensures var (r, out) := Deliver(s, filter, q, room, plan);
      && out == Cut(Select(s.nodes, filter, q, s.clock), room)
      && (IdleFor(plan, room + 1) ==> r.hist == s.hist && r.clock == s.clock)
  {
    hide Walk, Select, Deliver, IdleFor;
    DeliverIs(s, filter, q, room, plan);
    WalkSelects(s.(delivering := s.delivering + 1), |s.nodes|, filter, q, room, plan, s.clock);
    assert s.nodes[0..] == s.nodes;
  }

  lemma DueIsLive(s: Ret, filter: bytes, q: QoS)
    requires Inv(s)
    ensures var m, due := Fold(s.hist), Select(s.nodes, filter, q, s.clock);
      && (forall k :: 0 <= k < |due| ==>
            Wanted(m, due[k].rec.topic, s.clock) == Some(due[k].rec)
            && BrokerMatches(filter, due[k].rec.topic) && due[k].qos == Min(due[k].rec.qos, q))
      && (forall topic: bytes :: Wanted(m, topic, s.clock).Some? && BrokerMatches(filter, topic) ==>
            exists k :: 0 <= k < |due| && due[k].rec == Wanted(m, topic, s.clock).value)
      && (forall j, k :: 0 <= j < k < |due| ==> due[j].rec.topic != due[k].rec.topic)
  {
    var m, due := Fold(s.hist), Select(s.nodes, filter, q, s.clock);
    SelectDistinct(s.nodes, filter, q, s.clock);
    hide BrokerMatches, Select, Fold, Shadow, RecsOk, Wanted, NonePending, Expired;
    forall k | 0 <= k < |due|
      ensures Wanted(m, due[k].rec.topic, s.clock) == Some(due[k].rec)
              && BrokerMatches(filter, due[k].rec.topic) && due[k].qos == Min(due[k].rec.qos, q)
    {
      var i := SelectSound(s.nodes, filter, q, s.clock, k);
      NodeAtIs(s.nodes, i);
      assert Live(s.nodes, due[k].rec.topic, s.clock) == Wanted(m, due[k].rec.topic, s.clock);
    }
    forall topic: bytes | Wanted(m, topic, s.clock).Some? && BrokerMatches(filter, topic)
      ensures exists k :: 0 <= k < |due| && due[k].rec == Wanted(m, topic, s.clock).value
    {
      assert Live(s.nodes, topic, s.clock) == Wanted(m, topic, s.clock);
      var i := NodeAt(s.nodes, topic);
      var k := SelectComplete(s.nodes, filter, q, s.clock, i);
    }
  }

  // ----------------------------------------------------------------- stores

  /** The topics the map holds an unexpired message for. */
  function LiveTopics(hist: seq<Effect>, clock: nat): set<bytes> {
    set topic | topic in Fold(hist) && Wanted(Fold(hist), topic, clock).Some?
  }

  lemma LiveTopicsIn(s: Ret, topic: bytes)
    requires Core(s)
    ensures topic in LiveTopics(s.hist, s.clock) <==> Live(s.nodes, topic, s.clock).Some?
  {
    hide Fold, Shadow, RecsOk, Distinct, Live, Expired;
    assert Live(s.nodes, topic, s.clock) == Wanted(Fold(s.hist), topic, s.clock);
  }

  /** The map has as many unexpired messages as the list has nodes, unless some
      node is dead. */
  lemma LiveCount(s: Ret)
    requires Core(s)
    ensures var live := LiveTopics(s.hist, s.clock);
      && live <= Topics(s.nodes) && |live| <= |s.nodes|
      && (|live| < |s.nodes| <==> exists i :: 0 <= i < |s.nodes| && Dead(s.nodes[i], s.clock))
  {
    hide Fold, Shadow, RecsOk, Agree, LiveTopics, Expired;
    var live := LiveTopics(s.hist, s.clock);
    TopicCount(s.nodes);
    forall topic | topic in live ensures topic in Topics(s.nodes) {
      LiveTopicsIn(s, topic);
      StoredTopic(s.nodes, topic);
    }
    CardMono(live, Topics(s.nodes));
    if i :| 0 <= i < |s.nodes| && Dead(s.nodes[i], s.clock) {
      var topic := s.nodes[i].rec.topic;
      NodeAtIs(s.nodes, i);
      LiveTopicsIn(s, topic);
      StoredTopic(s.nodes, topic);
      CardMono(live + {topic}, Topics(s.nodes));
    } else {
      forall topic | topic in Topics(s.nodes) ensures topic in live {
        TopicStored(s.nodes, topic);
        LiveTopicsIn(s, topic);
      }
      assert live == Topics(s.nodes);
    }
  }

  /** In terms of the map: a store is refused although the map has room exactly
      when a delivery is under way, the topic has no node and the list is full
      with at least one node deleted or expired; outside deliveries exactly
      when the map is full without the topic. */
  lemma StoreDecides(s: Ret, m: Msg)
    requires Inv(s)
    ensures var r, live := Store(s, m), LiveTopics(s.hist, s.clock);
      && (r.hist == s.hist || r.hist == s.hist + [Put(RetRec(m.qos, s.clock, m.expiry, m.topic, m.payload))])
      && |live| <= s.cap
      && (s.delivering == 0 ==> (r.hist == s.hist <==> m.topic !in live && |live| == s.cap))
      && (r.hist == s.hist && |live| < s.cap <==>
            && s.delivering > 0 && NodeAt(s.nodes, m.topic) == |s.nodes| && |s.nodes| == s.cap
            && exists i :: 0 <= i < |s.nodes| && (s.nodes[i].pending || Expired(s.nodes[i].rec, s.clock)))
  {
    hide Core, NonePending, LiveTopics, Store, Expired, Reap, Dead;
    var ready := ReapExpired(s, s.clock);
    ReadyFacts(s);
    LiveCount(ready);
    LiveCount(s);
    StoreRefuses(s, m);
    if s.delivering == 0 {
      AllLive(ready, m.topic);
    } else {
      DeadNodes(s);
    }
  }

  lemma ReadyFacts(s: Ret)
    requires Inv(s)
    ensures var ready := ReapExpired(s, s.clock);
      && Core(ready) && Core(s) && ready.cap == s.cap && ready.hist == s.hist && ready.clock == s.clock
      && |ready.nodes| <= s.cap && |s.nodes| <= s.cap
      && (s.delivering == 0 ==> forall i :: 0 <= i < |ready.nodes| ==> !Dead(ready.nodes[i], s.clock))
  {
    ReapKeeps(s, s.clock);
    hide Fold, Shadow, Agree, RecsOk, Reap, Distinct, Expired;
  }

  lemma DeadNodes(s: Ret)
    ensures (exists i :: 0 <= i < |s.nodes| && Dead(s.nodes[i], s.clock))
            <==> exists i :: 0 <= i < |s.nodes| && (s.nodes[i].pending || Expired(s.nodes[i].rec, s.clock))
  {
    hide Expired;
  }

  lemma AllLive(s: Ret, topic: bytes)
    requires Core(s) && forall i :: 0 <= i < |s.nodes| ==> !Dead(s.nodes[i], s.clock)
    ensures topic in LiveTopics(s.hist, s.clock) <==> NodeAt(s.nodes, topic) < |s.nodes|
  {
    LiveTopicsIn(s, topic);
    hide Core, LiveTopics, Expired;
  }

  lemma StoreRefuses(s: Ret, m: Msg)
    requires Inv(s)
    ensures var ready := ReapExpired(s, s.clock);
      Store(s, m).hist == if NodeAt(ready.nodes, m.topic) < |ready.nodes| || |ready.nodes| < s.cap
                          then s.hist + [Put(Stamp(m, s.clock))] else s.hist
  {
    ReapKeeps(s, s.clock);
    assert Core(ReapExpired(s, s.clock));
    hide Fold, Shadow, Agree, RecsOk, Reap, EncodeRet, Distinct;
  }

  /** A reachable refusal with an empty map: with a cap of one, a delivery of a
      inside which a is deleted and b stored ends with neither, because the
      node marked for deletion still takes the place. */
  lemma NestedStoreRefused(a: Msg, b: Msg, filter: bytes, q: QoS, room: nat)
    requires a.topic != b.topic && BrokerMatches(filter, a.topic)
    ensures var inside := DoOp(OpDelete(a.topic), DoOp(OpStore(b), NoOps));
      var ops := DoOp(OpStore(a), DoOp(OpDeliver(filter, q, room, During(inside, NoPlan)), NoOps));
      var r := Perform(Initial(1), ops);
      r.hist == [Put(Stamp(a, 0)), Del(a.topic)] && LiveTopics(r.hist, r.clock) == {} && r.nodes == [] && r.delivering == 0
  {
    hide BrokerMatches, EncodeRet, Fold, Perform, Apply, Walk, Purge, LiveTopics, Deliver;
    var inside := DoOp(OpDelete(a.topic), DoOp(OpStore(b), NoOps));
    var plan := During(inside, NoPlan);
    var deliver := OpDeliver(filter, q, room, plan);
    var s0 := Initial(1);
    PerformTwo(s0, OpStore(a), deliver);
    FirstStore(s0, a);
    var s1 := Apply(s0, OpStore(a));
    ApplyDeliver(s1, filter, q, room, plan);
    var s2 := s1.(delivering := 1);
    InsideRefused(s2, Stamp(a, 0), b);
    var s3 := Perform(s2, inside);
    WalkOnly(s2, filter, q, room, plan, s3);
    DeliverOnly(s1, filter, q, room, plan, s3);
    NothingLive(Stamp(a, 0), s3.clock);
  }

  lemma PerformTwo(s: Ret, a: Op, b: Op)
    ensures Perform(s, DoOp(a, DoOp(b, NoOps))) == Apply(Apply(s, a), b)
  {
    hide Apply;
    assert Perform(Apply(s, a), DoOp(b, NoOps)) == Perform(Apply(Apply(s, a), b), NoOps);
  }

  lemma ApplyDeliver(s: Ret, filter: bytes, q: QoS, room: nat, plan: Plan)
    ensures Apply(s, OpDeliver(filter, q, room, plan)) == Deliver(s, filter, q, room, plan).0
  {
    hide Deliver;
  }

  lemma FirstStore(s: Ret, a: Msg)
    requires s == Initial(1)
    ensures var r := Apply(s, OpStore(a));
      r.nodes == [Node(Stamp(a, 0), false)] && r.count == 1 && r.cap == 1 && r.clock == 0 && r.hist == [Put(Stamp(a, 0))]
      && r.delivering == 0
  {
    hide EncodeRet;
    assert Reap(s, 0) == s;
    assert NodeAt(s.nodes, a.topic) == 0;
  }

  lemma InsideRefused(s: Ret, a: RetRec, b: Msg)
    requires s.delivering > 0 && s.cap == 1 == s.count && s.nodes == [Node(a, false)] && b.topic != a.topic
    ensures var r := Perform(s, DoOp(OpDelete(a.topic), DoOp(OpStore(b), NoOps)));
      r.hist == s.hist + [Del(a.topic)] && r.nodes == [Node(a, true)] && r.delivering == s.delivering && r.clock == s.clock
  {
    hide EncodeRet, Fold, Reap, Perform;
    assert NodeAt(s.nodes, a.topic) == 0;
    PerformTwo(s, OpDelete(a.topic), OpStore(b));
    var s1 := Apply(s, OpDelete(a.topic));
    assert s1.nodes == [Node(a, true)];
    assert s1.nodes[1..] == [];
    assert NodeAt(s1.nodes, b.topic) == 1;
    assert Apply(s1, OpStore(b)) == s1;
  }

  /** The walk over a single live matching node. */
  lemma WalkOnly(s: Ret, filter: bytes, q: QoS, room: nat, plan: Plan, r: Ret)
    requires s.delivering > 0 && |s.nodes| == 1 && !s.nodes[0].pending && !Expired(s.nodes[0].rec, s.clock)
    requires BrokerMatches(filter, s.nodes[0].rec.topic) && plan.During? && r == Perform(s, plan.ops)
    ensures Walk(s, 1, filter, q, room, plan, s.clock).0 == r
  {
    hide BrokerMatches, Expired, Walk, Perform, Grows;
    WalkCase(s, 1, filter, q, room, plan, s.clock);
    if room > 0 {
      WalkCase(r, 0, filter, q, room - 1, Later(plan), s.clock);
    }
  }

  lemma DeliverOnly(s: Ret, filter: bytes, q: QoS, room: nat, plan: Plan, w: Ret)
    requires s.delivering == 0 && Walk(s.(delivering := 1), |s.nodes|, filter, q, room, plan, s.clock).0 == w
    requires |w.nodes| == 1 && w.nodes[0].pending
    ensures var r := Deliver(s, filter, q, room, plan).0;
      r.nodes == [] && r.hist == w.hist && r.clock == w.clock && r.delivering == 0
  {
    hide Walk, Grows;
    var w0 := w.(delivering := 0);
    assert FirstPending(w.nodes) == 0;
    assert Purge(w0) == Purge(Free(w0, 0));
    assert Free(w0, 0).nodes == [];
  }

  lemma NothingLive(a: RetRec, clock: nat)
    ensures LiveTopics([Put(a), Del(a.topic)], clock) == {}
  {
    FoldGrows([], Put(a));
    FoldGrows([Put(a)], Del(a.topic));
    assert [] + [Put(a)] == [Put(a)] && [Put(a)] + [Del(a.topic)] == [Put(a), Del(a.topic)];
    assert Fold([Put(a), Del(a.topic)]) == map[];
    hide Fold;
  }

  // ------------------------------------------------- what a publisher sees

  /** The record of a message stored at the given time. */
  ghost predicate Carries(r: RetRec, m: Msg, at: nat) {
    r.topic == m.topic && r.payload == m.payload && r.qos == m.qos && r.expiry == m.expiry && r.storeTime == at
  }

  /** From the publisher to the subscriber, through any run: once a message is
      accepted, and as long as nothing stores or deletes its topic, the map
      holds it as it was published, and a delivery to a matching filter sends
      it, at the smaller QoS and unless the room runs out, exactly until its
      Message Expiry Interval is over. */
  lemma StoreServes(cap: nat, before: Ops, m: Msg, after: Ops, filter: bytes, q: QoS, room: nat, plan: Plan)
    requires OpsOk(before) && MsgOk(m) && OpsOk(after) && !OpsTouch(after, m.topic)
    requires PlanOk(plan) && IdleFor(plan, room) && BrokerMatches(filter, m.topic)
    requires var s := Perform(Initial(cap), before); Store(s, m).hist != s.hist
    ensures var s := Perform(Initial(cap), before);
      var r := Perform(Store(s, m), after);
      var out := Deliver(r, filter, q, room, plan).1;
      && m.topic in Fold(r.hist) && Carries(Fold(r.hist)[m.topic], m, s.clock)
      && (m.expiry == 0 || r.clock < s.clock + m.expiry ==>
            |out| == room || exists k :: 0 <= k < |out| && Carries(out[k].rec, m, s.clock) && out[k].qos == Min(m.qos, q))
      && (m.expiry > 0 && r.clock >= s.clock + m.expiry ==>
            forall k :: 0 <= k < |out| ==> out[k].rec.topic != m.topic)
  {
    hide Perform, Store, Deliver, OpsOk, MsgOk, OpsTouch, PlanOk, IdleFor, BrokerMatches, Fold, Select;
    var s := Perform(Initial(cap), before);
    var a := Store(s, m);
    var r := Perform(a, after);
    StartOk(cap);
    PerformKeeps(Initial(cap), before);
    StoreKeeps(s, m);
    StoreDecides(s, m);
    PerformKeeps(a, after);
    hide Inv;
    PerformUnchanged(a, after, m.topic);
    FoldGrows(s.hist, Put(RetRec(m.qos, s.clock, m.expiry, m.topic, m.payload)));
    FoldUnchanged(a.hist, r.hist, m.topic);
    DeliverExact(r, filter, q, room, plan);
    ServedOrCut(r, m, s.clock, filter, q, room, Deliver(r, filter, q, room, plan).1, Select(r.nodes, filter, q, r.clock));
  }

  lemma StartOk(cap: nat)
    ensures Inv(Initial(cap))
  {
  }

  lemma ServedOrCut(r: Ret, m: Msg, at: nat, filter: bytes, q: QoS, room: nat, out: seq<Sent>, due: seq<Sent>)
    requires at <= r.clock && BrokerMatches(filter, m.topic) && out == Cut(due, room)
    requires m.topic in Fold(r.hist) && Carries(Fold(r.hist)[m.topic], m, at)
    requires forall k :: 0 <= k < |due| ==>
      Wanted(Fold(r.hist), due[k].rec.topic, r.clock) == Some(due[k].rec) && due[k].qos == Min(due[k].rec.qos, q)
    requires forall topic: bytes :: Wanted(Fold(r.hist), topic, r.clock).Some? && BrokerMatches(filter, topic) ==>
      exists k :: 0 <= k < |due| && due[k].rec == Wanted(Fold(r.hist), topic, r.clock).value
    ensures m.expiry == 0 || r.clock < at + m.expiry ==>
      |out| == room || exists k :: 0 <= k < |out| && Carries(out[k].rec, m, at) && out[k].qos == Min(m.qos, q)
    ensures m.expiry > 0 && r.clock >= at + m.expiry ==> forall k :: 0 <= k < |out| ==> out[k].rec.topic != m.topic
  {
    hide Fold, BrokerMatches;
    if m.expiry == 0 || r.clock < at + m.expiry {
      assert Wanted(Fold(r.hist), m.topic, r.clock) == Some(Fold(r.hist)[m.topic]);
      var k :| 0 <= k < |due| && due[k].rec == Wanted(Fold(r.hist), m.topic, r.clock).value;
      if k < room { assert out[k] == due[k]; }
    } else {
      assert Wanted(Fold(r.hist), m.topic, r.clock) == None;
      forall k | 0 <= k < |out| ensures out[k].rec.topic != m.topic { assert out[k] == due[k]; }
    }
  }

  /** Once a topic is deleted, and until something is stored for it again, the
      map has nothing for it and no delivery sends it. */
  lemma DeleteServes(cap: nat, before: Ops, topic: bytes, after: Ops, filter: bytes, q: QoS, room: nat, plan: Plan)
    requires OpsOk(before) && OpsOk(after) && !OpsTouch(after, topic) && PlanOk(plan) && IdleFor(plan, room)
    ensures var r := Perform(Apply(Perform(Initial(cap), before), OpDelete(topic)), after);
      var out := Deliver(r, filter, q, room, plan).1;
      topic !in Fold(r.hist) && forall k :: 0 <= k < |out| ==> out[k].rec.topic != topic
  {
    hide Perform, Deliver, OpsOk, OpsTouch, PlanOk, IdleFor, BrokerMatches, Fold, Select;
    var s := Perform(Initial(cap), before);
    StartOk(cap);
    PerformKeeps(Initial(cap), before);
    DeleteKeeps(s, topic);
    DeleteEffect(s, topic);
    var a := Apply(s, OpDelete(topic));
    var r := Perform(a, after);
    PerformKeeps(a, after);
    hide Inv;
    PerformUnchanged(a, after, topic);
    FoldGrows(s.hist, Del(topic));
    FoldUnchanged(a.hist, r.hist, topic);
    DeliverExact(r, filter, q, room, plan);
    var out, due := Deliver(r, filter, q, room, plan).1, Select(r.nodes, filter, q, r.clock);
    forall k | 0 <= k < |out| ensures out[k].rec.topic != topic {
      assert out[k] == due[k];
      assert Wanted(Fold(r.hist), due[k].rec.topic, r.clock).Some?;
    }
  }

  lemma DeleteEffect(s: Ret, topic: bytes)
    ensures Apply(s, OpDelete(topic)) == Delete(s, topic) && Delete(s, topic).hist == s.hist + [Del(topic)]
  {
  }

  // ---------------------------------------------------------------- restart

  /** wmqb_decode_and_insert_retained: undecodable, expired and surplus records
      are skipped. */
  function LoadRet(nodes: seq<Node>, blob: bytes, cap: nat, now: nat): seq<Node> {
    match DecodeRet(blob)
    case None => nodes
    case Some(r) => if Expired(r, now) || |nodes| >= cap then nodes else [Node(r, false)] + nodes
  }

  function LoadAll(disk: map<bytes, bytes>, keys: seq<bytes>, cap: nat, now: nat): seq<Node>
    requires forall k :: k in keys ==> k in disk
  {
    if keys == [] then []
    else LoadRet(LoadAll(disk, keys[..|keys| - 1], cap, now), disk[keys[|keys| - 1]], cap, now)
  }

  function Topics(nodes: seq<Node>): set<bytes> {
    set n | n in nodes :: n.rec.topic
  }

  lemma {:induction false} TopicCount(nodes: seq<Node>)
    requires Distinct(nodes)
    ensures |Topics(nodes)| == |nodes|
  {
    if nodes != [] {
      var t := nodes[1..];
      assert forall i :: 0 <= i < |t| ==> t[i] == nodes[i + 1];
      TopicCount(t);
      assert nodes == [nodes[0]] + t;
      assert Topics(nodes) == Topics(t) + {nodes[0].rec.topic};
    }
  }

  /** What has been loaded from the given keys of s's store. */
  ghost predicate Loaded(s: Ret, nodes: seq<Node>, keys: seq<bytes>, now: nat) {
    && Distinct(nodes) && NonePending(nodes)
    && (forall topic: bytes ::
          Stored(nodes, topic) == if topic in keys then Live(s.nodes, topic, now) else None)
  }

  lemma StoredTopic(nodes: seq<Node>, topic: bytes)
    ensures Find(nodes, topic).Some? ==> topic in Topics(nodes) && Find(nodes, topic).value.rec.topic == topic
  {
    var i := NodeAt(nodes, topic);
    if i < |nodes| {
      assert nodes[i] in nodes;
    }
  }

  lemma TopicStored(nodes: seq<Node>, topic: bytes)
    requires topic in Topics(nodes)
    ensures Find(nodes, topic).Some?
  {
    var n :| n in nodes && n.rec.topic == topic;
    var i :| 0 <= i < |nodes| && nodes[i] == n;
  }

  /** There is always room for a record not loaded yet. */
  lemma RoomLeft(s: Ret, nodes: seq<Node>, keys: seq<bytes>, now: nat, key: bytes)
    requires Core(s) && Loaded(s, nodes, keys, now) && key !in keys && Stored(s.nodes, key).Some?
    ensures |nodes| < s.cap
  {
    hide Shadow, Agree, RecsOk, Fold, Expired;
    forall topic | topic in Topics(nodes) ensures topic in Topics(s.nodes) && topic != key {
      TopicStored(nodes, topic);
      var i := NodeAt(nodes, topic);
      assert !nodes[i].pending;
      assert Stored(nodes, topic).Some?;
      assert topic in keys && Stored(s.nodes, topic).Some?;
      StoredTopic(s.nodes, topic);
    }
    StoredTopic(s.nodes, key);
    assert Topics(nodes) + {key} <= Topics(s.nodes);
    assert |Topics(nodes) + {key}| == |Topics(nodes)| + 1;
    CardMono(Topics(nodes) + {key}, Topics(s.nodes));
    TopicCount(nodes);
    TopicCount(s.nodes);
  }

  lemma {:induction false} CardMono(a: set<bytes>, b: set<bytes>)
    requires a <= b
    ensures |a| <= |b|
  {
    if a != {} {
      var x :| x in a;
      CardMono(a - {x}, b - {x});
    }
  }

  lemma RecOf(s: Ret, topic: bytes)
    requires Core(s) && Stored(s.nodes, topic).Some? && s.clock < 0x1_0000_0000_0000_0000
    ensures RetRecOk(Stored(s.nodes, topic).value) && Stored(s.nodes, topic).value.topic == topic
  {
    hide Shadow, Agree, Fold, Distinct;
  }

  /** Loading one more record. */
  lemma LoadOne(s: Ret, nodes: seq<Node>, keys: seq<bytes>, now: nat, key: bytes)
    requires Core(s) && s.clock < 0x1_0000_0000_0000_0000 && Loaded(s, nodes, keys, now)
    requires key in s.disk && key !in keys
    ensures Loaded(s, LoadRet(nodes, s.disk[key], s.cap, now), keys + [key], now)
  {
    assert Stored(s.nodes, key).Some? && s.disk[key] == EncodeRet(Stored(s.nodes, key).value);
    var r := Stored(s.nodes, key).value;
    RecOf(s, key);
    RetRoundTrip(r);
    RoomLeft(s, nodes, keys, now, key);
    hide Core, EncodeRet, DecodeRet, RetRecOk, Expired;
    var nodes' := LoadRet(nodes, s.disk[key], s.cap, now);
    if !Expired(r, now) {
      assert Stored(nodes, key) == None;
      AbsentNode(nodes, key);
      assert nodes' == [Node(r, false)] + nodes;
      forall x: bytes ensures Distinct(nodes') && Find(nodes', x) == if x == key then Some(Node(r, false)) else Find(nodes, x) {
        FindPush(nodes, Node(r, false), x);
      }
    }
    hide Find, Distinct;
    forall topic: bytes
      ensures Stored(nodes', topic) == if topic in keys + [key] then Live(s.nodes, topic, now) else None
    {
      assert Stored(nodes, topic) == if topic in keys then Live(s.nodes, topic, now) else None;
    }
  }

  lemma AbsentNode(nodes: seq<Node>, topic: bytes)
    requires NonePending(nodes) && Stored(nodes, topic) == None
    ensures NodeAt(nodes, topic) == |nodes|
  {
  }

  lemma {:induction false} LoadAllTracks(s: Ret, keys: seq<bytes>, now: nat)
    requires Core(s) && s.clock < 0x1_0000_0000_0000_0000
    requires (forall k :: k in keys ==> k in s.disk) && forall i, j :: 0 <= i < j < |keys| ==> keys[i] != keys[j]
    ensures Loaded(s, LoadAll(s.disk, keys, s.cap, now), keys, now)
  {
    hide Core, LoadRet;
    if keys != [] {
      var front, key := keys[..|keys| - 1], keys[|keys| - 1];
      LoadAllTracks(s, front, now);
      assert keys == front + [key] && key !in front;
      LoadOne(s, LoadAll(s.disk, front, s.cap, now), front, now, key);
    }
  }

  /** A restart rebuilds, from the store and in whatever order the backend
      iterates, a list that holds the same unexpired map. */
  lemma RestartRebuilds(cap: nat, ops: Ops, keys: seq<bytes>)
    requires OpsOk(ops) && Perform(Initial(cap), ops).clock < 0x1_0000_0000_0000_0000
    requires var disk := Perform(Initial(cap), ops).disk;
      (forall k :: k in keys <==> k in disk) && forall i, j :: 0 <= i < j < |keys| ==> keys[i] != keys[j]
    ensures var s := Perform(Initial(cap), ops);
      var nodes := LoadAll(s.disk, keys, cap, s.clock);
      && (forall topic: bytes :: Live(nodes, topic, s.clock) == Wanted(Fold(s.hist), topic, s.clock))
      && (forall i, j :: 0 <= i < j < |nodes| ==> nodes[i].rec.topic != nodes[j].rec.topic)
      && |nodes| <= cap
  {
    assert Inv(Initial(cap));
    PerformKeeps(Initial(cap), ops);
    var s := Perform(Initial(cap), ops);
    LoadAllTracks(s, keys, s.clock);
    var nodes := LoadAll(s.disk, keys, cap, s.clock);
    forall topic: bytes ensures Live(nodes, topic, s.clock) == Wanted(Fold(s.hist), topic, s.clock) {
      assert Live(s.nodes, topic, s.clock) == Wanted(Fold(s.hist), topic, s.clock);
      assert topic in keys <==> Stored(s.nodes, topic).Some?;
    }
    LoadedFits(s, nodes, keys, s.clock);
  }

  lemma LoadedFits(s: Ret, nodes: seq<Node>, keys: seq<bytes>, now: nat)
    requires Core(s) && Loaded(s, nodes, keys, now)
    ensures |nodes| <= s.cap
  {
    hide Shadow, Agree, RecsOk, Fold, Expired;
    forall topic | topic in Topics(nodes) ensures topic in Topics(s.nodes) {
      TopicStored(nodes, topic);
      var i := NodeAt(nodes, topic);
      assert !nodes[i].pending;
      assert Stored(nodes, topic).Some?;
      assert Stored(s.nodes, topic).Some?;
      StoredTopic(s.nodes, topic);
    }
    CardMono(Topics(nodes), Topics(s.nodes));
    TopicCount(nodes);
    TopicCount(s.nodes);
  }
}
