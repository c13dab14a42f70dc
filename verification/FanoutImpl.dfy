/** The fan-out as the broker runs it: a growable destination list, the
    collect walk and the delivery loop. */
module FanoutImpl {
  import opened Common
  import opened Sessions
  import opened TopicMatch
  import opened PacketId
  import opened Fanout
  import Q = OutQueue

  /** BrokerFanoutList: an array that doubles when full. */
  class FanoutList {
    var items: array<Target>
    var count: nat

    ghost predicate Valid()
      reads this
    {
      0 < items.Length && count <= items.Length
    }

    ghost function Contents(): seq<Target>
      reads this, items
      requires Valid()
    {
      items[..count]
    }

    constructor (cap: nat)
      requires cap > 0
      ensures Valid() && fresh(items) && Contents() == []
    {
      items := new Target[cap](_ => Target(0, 0, 0));
      count := 0;
    }

    /** BrokerFanout_Add. */
    method Add(t: Target)
      requires Valid()
      modifies this, items
      ensures Valid() && Contents() == old(Contents()) + [t]
      ensures items == old(items) || fresh(items)
    {
      if count == items.Length {
        var grown := new Target[items.Length * 2](_ => Target(0, 0, 0));
        for i := 0 to count
          invariant grown.Length == 2 * items.Length && fresh(grown) && grown != items
          invariant items == old(items) && count == old(count) && items[..] == old(items[..])
          invariant forall j :: 0 <= j < i ==> grown[j] == items[j]
        {
          grown[i] := items[i];
        }
        assert grown[..count] == items[..count];
        items := grown;
      }
      items[count] := t;
      count := count + 1;
    }
  }

  lemma CollectStep(subs: seq<Sub>, i: nat, ps: seq<Peer>, os: seq<Orphan>, topic: bytes, qos: QoS, a: seq<Target>, b: seq<Kept>)
    requires i < |subs|
    ensures var s, r, rest := subs[i], Collect(subs, i, ps, os, topic, qos), Collect(subs, i + 1, ps, os, topic, qos);
      && (IsTarget(s, ps, topic) ==>
            (a + r.0, b + r.1) == (a + [Target(s.owner.value, EffectiveQoS(qos, s.qos), i)] + rest.0, b + rest.1))
      && (!IsTarget(s, ps, topic) && IsKept(s, os, topic, qos) ==>
            (a + r.0, b + r.1) == (a + rest.0, b + [Kept(s.id, EffectiveQoS(qos, s.qos), i)] + rest.1))
      && (!IsTarget(s, ps, topic) && !IsKept(s, os, topic, qos) ==> r == rest)
  {
    hide SubMatches;
    var s, rest := subs[i], Collect(subs, i + 1, ps, os, topic, qos);
    if IsTarget(s, ps, topic) {
      var t := Target(s.owner.value, EffectiveQoS(qos, s.qos), i);
      assert a + ([t] + rest.0) == a + [t] + rest.0;
    } else if IsKept(s, os, topic, qos) {
      var k := Kept(s.id, EffectiveQoS(qos, s.qos), i);
      assert b + ([k] + rest.1) == b + [k] + rest.1;
    }
  }

  /** The collect walk of BrokerHandle_Publish: destinations go on the list,
      orphaned sessions are served on the spot. */
  method CollectTargets(subs: seq<Sub>, ps: seq<Peer>, os: seq<Orphan>, topic: bytes, qos: QoS, fl: FanoutList)
    returns (kept: seq<Kept>)
    requires fl.Valid() && fl.Contents() == []
    modifies fl, fl.items
    ensures fl.Valid() && (fl.Contents(), kept) == Collect(subs, 0, ps, os, topic, qos)
  {
    hide Collect, IsTarget, IsKept;
    kept := [];
    var i := 0;
    ghost var all := Collect(subs, 0, ps, os, topic, qos);
    assert [] + all.0 == all.0 && [] + all.1 == all.1;
    while i < |subs|
      invariant i <= |subs| && fl.Valid() && (fl.items == old(fl.items) || fresh(fl.items))
      invariant all == (fl.Contents() + Collect(subs, i, ps, os, topic, qos).0, kept + Collect(subs, i, ps, os, topic, qos).1)
    {
      var s := subs[i];
      CollectStep(subs, i, ps, os, topic, qos, fl.Contents(), kept);
      Exclusive(s, ps, os, topic, qos);
      if IsTarget(s, ps, topic) {
        fl.Add(Target(s.owner.value, if qos < s.qos then qos else s.qos, i));
      } else if IsKept(s, os, topic, qos) {
        kept := kept + [Kept(s.id, if qos < s.qos then qos else s.qos, i)];
      }
      i := i + 1;
    }
    CollectEnds(subs, ps, os, topic, qos);
    assert fl.Contents() + [] == fl.Contents() && kept + [] == kept;
  }

  lemma CollectEnds(subs: seq<Sub>, ps: seq<Peer>, os: seq<Orphan>, topic: bytes, qos: QoS)
    ensures Collect(subs, |subs|, ps, os, topic, qos) == ([], [])
  {
  }

  /** BrokerClients_StillLinked, and where. */
  method FindPeer(ps: seq<Peer>, ref: nat) returns (k: nat)
    ensures k == PeerAt(ps, ref)
  {
    k := 0;
    while k < |ps| && ps[k].ref != ref
      invariant k <= |ps| && forall j :: 0 <= j < k ==> ps[j].ref != ref
    {
      k := k + 1;
    }
  }

  /** The delivery loop over the collected destinations. */
  method DeliverTargets(h: Hub, m: Post, fl: FanoutList, es: seq<Effect>) returns (r: Hub)
    requires fl.Valid()
    ensures r == Deliver(h, m, fl.Contents(), |fl.Contents()|, es)
  {
    hide During, NextFree, Q.Drain, RemoveAt;
    var snapshot := h.gen;
    r := h;
    for i := 0 to fl.count
      invariant r == Deliver(h, m, fl.Contents(), i, es)
    {
      ghost var r0 := r;
      var t, e := fl.items[i], EffectAt(es, i);
      var k := FindPeer(r.peers, t.ref);
      if r.gen != snapshot && k == |r.peers| {
        r := r.(turns := r.turns + [Turn(t, Gone)]);
      } else if k == |r.peers| {
        r := r.(fault := true);
      } else {
        var p := r.peers[k];
        if !p.connected {
          r := r.(turns := r.turns + [Turn(t, Disconnected)]);
        } else if p.out.count >= p.out.lim.queued {
          r := r.(peers := r.peers[k := p.(connected := false)], turns := r.turns + [Turn(t, QuotaHit)]);
          r := During(r, e, t.ref);
        } else {
          var pid := 0;
          if t.qos > 0 {
            pid := NextFree(e.nextPid, Q.Pids(p.out.q));
          }
          if t.qos > 0 && pid == 0 {
            r := r.(turns := r.turns + [Turn(t, Exhausted)]);
          } else {
            var entry := Q.Entry(p.out.next, t.qos, pid, Q.Queued, false, e.encLen, 0, MessageFor(m, p.level));
            var out := p.out.(q := p.out.q + [entry], count := p.out.count + 1, next := p.out.next + 1);
            if t.ref != m.from {
              out := Q.Drain(out, e.ws).0;
            }
            r := r.(peers := r.peers[k := p.(out := out)], turns := r.turns + [Turn(t, Enqueued)]);
            if t.ref != m.from {
              r := During(r, e, t.ref);
            }
          }
        }
      }
      assert r == Serve(r0, m, t, snapshot, e);
    }
  }
}
