/** The fan-out in the states the session machinery can reach. */
module FanoutRuns {
  import opened Common
  import opened Sessions
  import opened SessionsInvariant
  import opened SessionsTheorems
  import opened TopicMatch
  import opened Fanout
  import Q = OutQueue
  import OutQueueTheorems

  /** The queue is one a session's run can lead to. */
  ghost predicate Reached(s: Q.Session) {
    exists lim: Q.Limits, rm: nat, evs: seq<Q.Event> :: Q.LimitsOk(lim) && s == Q.Run(Q.Initial(lim, rm), evs)
  }

  /** The peers are the broker's clients, each with a reachable queue. */
  ghost predicate Mirrors(h: Hub, b: Broker) {
    && |h.peers| == |b.clients|
    && (forall k :: 0 <= k < |h.peers| ==> h.peers[k].ref == b.clients[k].ref && Reached(h.peers[k].out))
  }

  lemma ReachedCounted(s: Q.Session)
    requires Reached(s)
    ensures QueueCounted(s)
  {
    var lim, rm, evs :| Q.LimitsOk(lim) && s == Q.Run(Q.Initial(lim, rm), evs);
    OutQueueTheorems.QueueConsistent(lim, rm, evs);
    LimitsStay(lim, rm, evs);
  }

  lemma {:induction false} LimitsStay(lim: Q.Limits, rm: nat, evs: seq<Q.Event>)
    ensures Q.Run(Q.Initial(lim, rm), evs).lim == lim
  {
    hide Q.Step;
    if evs != [] {
      LimitsStay(lim, rm, evs[..|evs| - 1]);
      LimitStep(Q.Run(Q.Initial(lim, rm), evs[..|evs| - 1]), evs[|evs| - 1]);
    }
  }

  lemma LimitStep(s: Q.Session, ev: Q.Event)
    ensures Q.Step(s, ev).lim == s.lim
  {
    hide Q.DrainFrom, Q.Evict;
    match ev
    case EvDrain(ws) => DrainCount(s, 0, ws);
    case EvPubAck(pid, ws) =>
      var k := Q.Find(s.q, pid, Q.PublishSent);
      if k < |s.q| { DrainCount(Q.Unlink(s, k), 0, ws); }
    case EvPubReject(pid, ws) =>
      var k := Q.Find(s.q, pid, Q.PublishSent);
      if k < |s.q| { DrainCount(Q.Unlink(s, k), 0, ws); }
    case EvPubComp(pid, ws) =>
      var k := Q.Find(s.q, pid, Q.PubrelSent);
      if k < |s.q| { DrainCount(Q.Unlink(s, k), 0, ws); }
    case EvEnqueue(_, _, _, _) => EvictLimits(s);
    case _ =>
  }

  lemma {:induction false} EvictLimits(s: Q.Session)
    ensures Q.Evict(s).lim == s.lim
    decreases |s.q|
  {
    if s.count >= s.lim.offline && s.q != [] {
      EvictLimits(Q.EvictHead(s));
    }
  }

  /** In every reachable state the fan-out finds a linked client behind each
      bound subscription and an orphan behind each unbound one, so its
      conservation law holds there without further conditions, each turn adds
      to the queues exactly its one entry or nothing, and no destination is
      ever out of identifiers. */
  lemma ReachableFanout(caps: Caps, evs: seq<Event>, h: Hub, m: Post, qos: QoS, es: seq<Effect>)
    requires CapsOk(caps) && Mirrors(h, Run(Initial(caps), evs)) && !h.fault && h.turns == []
    ensures var b := Run(Initial(caps), evs);
      var (ts, ks) := Collect(b.subs, 0, h.peers, b.orphans, m.topic, qos);
      var r := Deliver(h, m, ts, |ts|, es);
      && Collected(b.subs, h.peers, b.orphans, m.topic, qos, ts, ks)
      && !r.fault && |r.turns| == |ts|
      && (forall k :: 0 <= k < |ts| ==>
            var before := Deliver(h, m, ts, k, es);
            && r.turns[k].target == ts[k] && Judged(before, ts[k], r.turns[k].outcome) && r.turns[k].outcome != Exhausted
            && OnlyEntry(before, m, ts[k], EffectAt(es, k), Deliver(h, m, ts, k + 1, es)))
      && (forall i :: 0 <= i < |b.subs| && b.subs[i].owner.None? ==>
            (Waiting(b.subs[i], b.orphans, m.topic, qos) <==>
             b.subs[i].filter != [] && BrokerMatches(b.subs[i].filter, m.topic) && qos > 0 && b.subs[i].qos > 0))
  {
    var b := Run(Initial(caps), evs);
    RunKeeps(caps, evs);
    forall i | 0 <= i < |b.subs| && b.subs[i].owner.Some? ensures Linked(h, b.subs[i].owner.value) {
      assert SubOk(b.clients, b.orphans, b.subs[i], NOBODY);
      var k := ClientAt(b.clients, b.subs[i].owner.value);
      assert h.peers[k].ref == b.subs[i].owner.value;
      PeerAtIff(h.peers, b.subs[i].owner.value);
    }
    forall i | 0 <= i < |b.subs| && b.subs[i].owner.None? ensures OrphanNamed(b.orphans, b.subs[i].id) < |b.orphans| {
      assert SubOk(b.clients, b.orphans, b.subs[i], NOBODY);
    }
    hide BrokerMatches;
    assert DistinctRefs(h.peers);
    hide Run, Inv, Collect, Deliver, Verdict, Collected, OnlyEntry, Judged, DistinctRefs, QueueCounted, Reached;
    forall k | 0 <= k < |h.peers| ensures QueueCounted(h.peers[k].out) { ReachedCounted(h.peers[k].out); }
    FanoutConserves(h, b.subs, b.orphans, m, qos, es);
    var ts := Collect(b.subs, 0, h.peers, b.orphans, m.topic, qos).0;
    NeverExhausted(h, m, ts, |ts|, es);
  }
}
