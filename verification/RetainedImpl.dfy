/** The retained list as the broker keeps it, updated in place by loops that
    other operations may re-enter. */
module RetainedImpl {
  import opened Common
  import opened Records
  import opened TopicMatch
  import opened Retained

  lemma ReapStep(s: Ret, i: nat, now: nat)
    requires i < |s.nodes| && Expired(s.nodes[i].rec, now) && forall j :: 0 <= j < i ==> !Expired(s.nodes[j].rec, now)
    ensures Reap(s, now) == Reap(Free(Retire(s, s.nodes[i].rec.topic), i), now)
  {
  }

  lemma PurgeStep(s: Ret, i: nat)
    requires i < |s.nodes| && s.nodes[i].pending && forall j :: 0 <= j < i ==> !s.nodes[j].pending
    ensures Purge(s) == Purge(Free(s, i))
  {
  }

  class RetainedList {
    const cap: nat
    var nodes: seq<Node>
    var count: int
    var delivering: nat
    var disk: map<bytes, bytes>
    var clock: nat
    ghost var hist: seq<Effect>

    ghost function Abs(): Ret
      reads this
    {
      Ret(nodes, count, delivering, cap, disk, clock, hist)
    }

    constructor (cap: nat)
      ensures Abs() == Initial(cap)
    {
      this.cap := cap;
      nodes, count, delivering, disk, clock, hist := [], 0, 0, map[], 0, [];
    }

    method FindNode(topic: bytes) returns (i: nat)
      ensures i == NodeAt(nodes, topic)
    {
      i := 0;
      while i < |nodes| && nodes[i].rec.topic != topic
        invariant i <= |nodes| && forall j :: 0 <= j < i ==> nodes[j].rec.topic != topic
      {
        i := i + 1;
      }
    }

    method FreeNode(i: nat)
      requires i < |nodes|
      modifies this`nodes, this`count
      ensures Abs() == Free(old(Abs()), i)
    {
      nodes := nodes[..i] + nodes[i + 1..];
      if count > 0 {
        count := count - 1;
      }
    }

    /** BrokerRetained_ReapExpired. */
    method ReapExpiredNodes()
      modifies this`nodes, this`count, this`disk
      ensures Abs() == ReapExpired(old(Abs()), clock)
    {
      hide Expired;
      if delivering > 0 {
        return;
      }
      var now, i := clock, 0;
      while i < |nodes|
        invariant i <= |nodes| && forall j :: 0 <= j < i ==> !Expired(nodes[j].rec, now)
        invariant Reap(Abs(), now) == Reap(old(Abs()), now)
        decreases |nodes| - i
      {
        if Expired(nodes[i].rec, now) {
          ReapStep(Abs(), i, now);
          disk := disk - {nodes[i].rec.topic};
          FreeNode(i);
        } else {
          i := i + 1;
        }
      }
    }

    /** The reap after the outermost delivery. */
    method PurgeNodes()
      modifies this`nodes, this`count
      ensures Abs() == Purge(old(Abs()))
    {
      var i := 0;
      while i < |nodes|
        invariant i <= |nodes| && forall j :: 0 <= j < i ==> !nodes[j].pending
        invariant Purge(Abs()) == Purge(old(Abs()))
        decreases |nodes| - i
      {
        if nodes[i].pending {
          PurgeStep(Abs(), i);
          FreeNode(i);
        } else {
          i := i + 1;
        }
      }
    }

    /** BrokerRetained_Store. */
    method StoreMessage(m: Msg) returns (ok: bool)
      modifies this
      ensures Abs() == Store(old(Abs()), m)
      ensures ok == Accepts(ReapExpired(old(Abs()), old(clock)), m.topic)
    {
      hide EncodeRet, Reap;
      ReapExpiredNodes();
      var rec := RetRec(m.qos, clock, m.expiry, m.topic, m.payload);
      var i := FindNode(m.topic);
      if i < |nodes| {
        nodes := nodes[i := Node(rec, false)];
      } else if count >= cap {
        return false;
      } else {
        nodes := [Node(rec, false)] + nodes;
        count := count + 1;
      }
      disk := disk[rec.topic := EncodeRet(rec)];
      hist := hist + [Put(rec)];
      return true;
    }

    /** BrokerRetained_Delete. */
    method DeleteMessage(topic: bytes)
      modifies this
      ensures Abs() == Delete(old(Abs()), topic)
    {
      var i := FindNode(topic);
      hist := hist + [Del(topic)];
      if i < |nodes| {
        if delivering > 0 {
          nodes := nodes[i := nodes[i].(pending := true)];
        } else {
          FreeNode(i);
        }
        disk := disk - {topic};
      }
    }

    method SweepNode(i: nat)
      requires i < |nodes|
      modifies this`nodes, this`count, this`disk
      ensures Abs() == Sweep(old(Abs()), i)
    {
      var n := nodes[i];
      if !n.pending {
        disk := disk - {n.rec.topic};
      }
      if delivering > 1 {
        nodes := nodes[i := n.(pending := true)];
      } else {
        FreeNode(i);
      }
    }

    /** BrokerRetained_DeliverToClient: the walk, which other operations
        re-enter as plan says. */
    method DeliverToClient(filter: bytes, subQos: QoS, room: nat, plan: Plan) returns (out: seq<Sent>)
      modifies this
      ensures (Abs(), out) == Deliver(old(Abs()), filter, subQos, room, plan)
      decreases plan, 1
    {
      hide Walk, Perform, Purge, Grows, Sweep, BrokerMatches, Expired;
      var now: nat, left: nat, space: nat, rest := clock, |nodes|, room, plan;
      delivering := delivering + 1;
      out := [];
      ghost var s0 := Abs();
      ghost var all := Walk(s0, left, filter, subQos, room, plan, now);
      assert [] + all.1 == all.1;
      var stopped := false;
      while left > 0 && !stopped
        invariant (stopped || left <= |nodes|) && delivering == s0.delivering
        invariant rest == plan || rest < plan
        invariant stopped ==> all == (Abs(), out)
        invariant !stopped ==> all == After(out, Walk(Abs(), left, filter, subQos, space, rest, now))
        decreases left, if stopped then 0 else 1
      {
        WalkStep(Abs(), left, filter, subQos, space, rest, now, out);
        var i := |nodes| - left;
        var n := nodes[i];
        if n.pending || Expired(n.rec, now) {
          SweepNode(i);
          left := left - 1;
        } else if !BrokerMatches(filter, n.rec.topic) {
          left := left - 1;
        } else {
          if rest.During? {
            PerformOps(rest.ops);
          }
          if space == 0 {
            stopped := true;
          } else {
            out := out + [Sent(n.rec, Min(n.rec.qos, subQos))];
            space, left := space - 1, left - 1;
            if rest.During? {
              rest := rest.later;
            }
          }
        }
      }
      if !stopped {
        WalkStep(Abs(), 0, filter, subQos, space, rest, now, out);
      }
      delivering := delivering - 1;
      if delivering == 0 {
        PurgeNodes();
      }
    }

    method PerformOps(ops: Ops)
      modifies this
      ensures Abs() == Perform(old(Abs()), ops)
      decreases ops, 0
    {
      hide Walk, Purge, Grows, Store, Delete, Deliver;
      if ops.DoOp? {
        match ops.op {
          case OpWait(n) => clock := clock + n;
          case OpStore(m) => var _ := StoreMessage(m);
          case OpDelete(topic) => DeleteMessage(topic);
          case OpDeliver(filter, q, room, plan) => var _ := DeliverToClient(filter, q, room, plan);
        }
        assert Abs() == Apply(old(Abs()), ops.op);
        PerformOps(ops.rest);
      }
    }
  }
}
