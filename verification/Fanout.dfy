/** Delivering an accepted PUBLISH (src/mqtt_broker.c, the fan-out of
    BrokerHandle_Publish, BrokerFanout_*, BrokerClients_StillLinked): a pass
    that collects destinations without writing, then a pass that writes, during
    which other connections may disappear. */
module Fanout {
  import opened Common
  import opened Sessions
  import opened TopicMatch
  import opened PacketId
  import Q = OutQueue

  /** A connected client as the fan-out sees it, with its outbound queue. */
  datatype Peer = Peer(ref: nat, ready: bool, connected: bool, level: byte, out: Q.Session)

  /** The PUBLISH fanned out and the connection it came from. */
  datatype Post = Post(from: nat, topic: bytes, payload: bytes, time: nat, expiry: nat)

  /** One resolved destination; sub is the subscription it came from. */
  datatype Target = Target(ref: nat, qos: QoS, sub: nat)

  /** What became of a destination when its turn came. */
  datatype Outcome = Enqueued | QuotaHit | Exhausted | Disconnected | Gone

  datatype Turn = Turn(target: Target, outcome: Outcome)

  /** `fault` is set if a client that is no longer linked is ever used. */
  datatype Hub = Hub(peers: seq<Peer>, gen: nat, turns: seq<Turn>, fault: bool)

  /** An entry queued for an orphaned session. */
  datatype Kept = Kept(id: bytes, qos: QoS, sub: nat)

  type Counter = n: nat | n <= MAX_ID

  /** What one destination meets: the packet identifier counter, the length its
      PUBLISH encodes to, the outcomes of its drain's writes, and the
      connections that close and are accepted during them. */
  datatype Effect = Effect(nextPid: Counter, encLen: nat, ws: seq<Q.Write>, unlinked: seq<nat>, accepted: nat)

  function PeerAt(ps: seq<Peer>, ref: nat): (k: nat)
    ensures k <= |ps| && (k < |ps| ==> ps[k].ref == ref)
    ensures forall j :: 0 <= j < k ==> ps[j].ref != ref
  {
    if ps == [] || ps[0].ref == ref then 0 else 1 + PeerAt(ps[1..], ref)
  }

  predicate Linked(h: Hub, ref: nat) {
    PeerAt(h.peers, ref) < |h.peers|
  }

  function EffectiveQoS(pub: QoS, sub: QoS): QoS {
    if pub < sub then pub else sub
  }

  // --------------------------------------------------------------- collect

  predicate SubMatches(s: Sub, topic: bytes) {
    s.filter != [] && BrokerMatches(s.filter, topic)
  }

  /** The subscription has a connected client to write to. */
  predicate IsTarget(s: Sub, ps: seq<Peer>, topic: bytes) {
    && s.owner.Some? && SubMatches(s, topic)
    && var k := PeerAt(ps, s.owner.value);
       k < |ps| && ps[k].ready && ps[k].connected
  }

  /** The subscription waits with an orphaned session that takes the message. */
  predicate IsKept(s: Sub, os: seq<Orphan>, topic: bytes, qos: QoS) {
    s.owner.None? && SubMatches(s, topic) && EffectiveQoS(qos, s.qos) > 0 && OrphanNamed(os, s.id) < |os|
  }

  /** The collect pass over subs[i..]. */
  function Collect(subs: seq<Sub>, i: nat, ps: seq<Peer>, os: seq<Orphan>, topic: bytes, qos: QoS): (seq<Target>, seq<Kept>)
    requires i <= |subs|
    decreases |subs| - i
  {
    if i == |subs| then ([], [])
    else
      var s, (ts, ks) := subs[i], Collect(subs, i + 1, ps, os, topic, qos);
      if IsTarget(s, ps, topic) then ([Target(s.owner.value, EffectiveQoS(qos, s.qos), i)] + ts, ks)
      else if IsKept(s, os, topic, qos) then (ts, [Kept(s.id, EffectiveQoS(qos, s.qos), i)] + ks)
      else (ts, ks)
  }

  // --------------------------------------------------------------- deliver

  /** BrokerClient_Remove of another connection. */
  function Remove(h: Hub, ref: nat, self: nat): Hub {
    var k := PeerAt(h.peers, ref);
    if k == |h.peers| || ref == self then h
    else h.(peers := RemoveAt(h.peers, k), gen := h.gen + 1)
  }

  function RemoveAll(h: Hub, refs: seq<nat>, self: nat): Hub {
    if refs == [] then h else Remove(RemoveAll(h, refs[..|refs| - 1], self), refs[|refs| - 1], self)
  }

  /** Everything that may happen during the write for self. */
  function During(h: Hub, e: Effect, self: nat): Hub {
    RemoveAll(h, e.unlinked, self).(gen := RemoveAll(h, e.unlinked, self).gen + e.accepted)
  }

  function Record(h: Hub, t: Target, o: Outcome): Hub {
    h.(turns := h.turns + [Turn(t, o)])
  }

  function MessageFor(m: Post, level: byte): Q.Message {
    Q.Message(m.topic, m.payload, 0, level, m.time, m.expiry)
  }

  /** The destination's queue with the PUBLISH entered. */
  function Entered(p: Peer, m: Post, t: Target, e: Effect): Q.Session {
    Q.Enqueue(p.out, t.qos, e.encLen, MessageFor(m, p.level), e.nextPid)
  }

  /** One iteration of the delivery loop. The list is searched only when its
      generation has changed; the publisher's own queue is drained later. */
  function Serve(h: Hub, m: Post, t: Target, snapshot: nat, e: Effect): Hub {
    if h.gen != snapshot && !Linked(h, t.ref) then Record(h, t, Gone)
    else
      var k := PeerAt(h.peers, t.ref);
      if k == |h.peers| then h.(fault := true)
      else
        var p := h.peers[k];
        if !p.connected then Record(h, t, Disconnected)
        else if p.out.count >= p.out.lim.queued then
          During(Record(h.(peers := h.peers[k := p.(connected := false)]), t, QuotaHit), e, t.ref)
        else if t.qos > 0 && NextFree(e.nextPid, Q.Pids(p.out.q)) == 0 then Record(h, t, Exhausted)
        else if t.ref == m.from then
          Record(h.(peers := h.peers[k := p.(out := Entered(p, m, t, e))]), t, Enqueued)
        else
          var out := Q.Drain(Entered(p, m, t, e), e.ws).0;
          During(Record(h.(peers := h.peers[k := p.(out := out)]), t, Enqueued), e, t.ref)
  }

  function EffectAt(es: seq<Effect>, i: nat): Effect {
    if i < |es| then es[i] else Effect(0, 0, [], [], 0)
  }

  /** The delivery loop over the first n destinations. */
  function Deliver(h: Hub, m: Post, ts: seq<Target>, n: nat, es: seq<Effect>): Hub
    requires n <= |ts|
  {
    if n == 0 then h else Serve(Deliver(h, m, ts, n - 1, es), m, ts[n - 1], h.gen, EffectAt(es, n - 1))
  }

  // ----------------------------------------------------- the collect pass

  /** Targets and kept entries of subs[i..], in list order, one for each
      subscription that qualifies and for no other. */
  ghost predicate Gathered(subs: seq<Sub>, i: nat, ps: seq<Peer>, os: seq<Orphan>, topic: bytes, qos: QoS,
                            ts: seq<Target>, ks: seq<Kept>) {
    && (forall k :: 0 <= k < |ts| ==>
          i <= ts[k].sub < |subs| && IsTarget(subs[ts[k].sub], ps, topic)
          && ts[k].ref == subs[ts[k].sub].owner.value && ts[k].qos == EffectiveQoS(qos, subs[ts[k].sub].qos))
    && (forall j, k :: 0 <= j < k < |ts| ==> ts[j].sub < ts[k].sub)
    && (forall n :: i <= n < |subs| && IsTarget(subs[n], ps, topic) ==> exists k :: 0 <= k < |ts| && ts[k].sub == n)
    && (forall k :: 0 <= k < |ks| ==>
          i <= ks[k].sub < |subs| && IsKept(subs[ks[k].sub], os, topic, qos)
          && ks[k].id == subs[ks[k].sub].id && ks[k].qos == EffectiveQoS(qos, subs[ks[k].sub].qos))
    && (forall j, k :: 0 <= j < k < |ks| ==> ks[j].sub < ks[k].sub)
    && (forall n :: i <= n < |subs| && IsKept(subs[n], os, topic, qos) ==> exists k :: 0 <= k < |ks| && ks[k].sub == n)
  }

  lemma {:induction false} CollectGathers(subs: seq<Sub>, i: nat, ps: seq<Peer>, os: seq<Orphan>, topic: bytes, qos: QoS)
    requires i <= |subs|
    ensures Gathered(subs, i, ps, os, topic, qos, Collect(subs, i, ps, os, topic, qos).0, Collect(subs, i, ps, os, topic, qos).1)
    decreases |subs| - i
  {
    hide IsTarget, IsKept;
    if i < |subs| {
      CollectGathers(subs, i + 1, ps, os, topic, qos);
      var s := subs[i];
      var (ts, ks) := Collect(subs, i + 1, ps, os, topic, qos);
      Exclusive(s, ps, os, topic, qos);
      if IsTarget(s, ps, topic) {
        TargetFirst(subs, i, ps, os, topic, qos, ts, ks);
      } else if IsKept(s, os, topic, qos) {
        KeptFirst(subs, i, ps, os, topic, qos, ts, ks);
      }
    }
  }

  lemma Exclusive(s: Sub, ps: seq<Peer>, os: seq<Orphan>, topic: bytes, qos: QoS)
    ensures !(IsTarget(s, ps, topic) && IsKept(s, os, topic, qos))
    ensures IsTarget(s, ps, topic) ==> s.owner.Some?
  {
  }

  lemma TargetFirst(subs: seq<Sub>, i: nat, ps: seq<Peer>, os: seq<Orphan>, topic: bytes, qos: QoS, ts: seq<Target>, ks: seq<Kept>)
    requires i < |subs| && IsTarget(subs[i], ps, topic) && !IsKept(subs[i], os, topic, qos) && subs[i].owner.Some?
    requires Gathered(subs, i + 1, ps, os, topic, qos, ts, ks)
    ensures Gathered(subs, i, ps, os, topic, qos, [Target(subs[i].owner.value, EffectiveQoS(qos, subs[i].qos), i)] + ts, ks)
  {
    hide IsTarget, IsKept;
    var t := Target(subs[i].owner.value, EffectiveQoS(qos, subs[i].qos), i);
    var r := [t] + ts;
    assert forall k :: 0 < k < |r| ==> r[k] == ts[k - 1];
    forall n | i <= n < |subs| && IsTarget(subs[n], ps, topic) ensures exists k :: 0 <= k < |r| && r[k].sub == n {
      if n == i {
        assert r[0].sub == n;
      } else {
        var k :| 0 <= k < |ts| && ts[k].sub == n;
        assert r[k + 1].sub == n;
      }
    }
  }

  lemma KeptFirst(subs: seq<Sub>, i: nat, ps: seq<Peer>, os: seq<Orphan>, topic: bytes, qos: QoS, ts: seq<Target>, ks: seq<Kept>)
    requires i < |subs| && IsKept(subs[i], os, topic, qos) && !IsTarget(subs[i], ps, topic)
    requires Gathered(subs, i + 1, ps, os, topic, qos, ts, ks)
    ensures Gathered(subs, i, ps, os, topic, qos, ts, [Kept(subs[i].id, EffectiveQoS(qos, subs[i].qos), i)] + ks)
  {
    hide IsTarget, IsKept;
    var x := Kept(subs[i].id, EffectiveQoS(qos, subs[i].qos), i);
    var r := [x] + ks;
    assert forall k :: 0 < k < |r| ==> r[k] == ks[k - 1];
    forall n | i <= n < |subs| && IsKept(subs[n], os, topic, qos) ensures exists k :: 0 <= k < |r| && r[k].sub == n {
      if n == i {
        assert r[0].sub == n;
      } else {
        var k :| 0 <= k < |ks| && ks[k].sub == n;
        assert r[k + 1].sub == n;
      }
    }
  }

  /** The subscription's filter matches and its client is in the list, past its
      CONNECT and connected. */
  ghost predicate Wanting(s: Sub, ps: seq<Peer>, topic: bytes) {
    && s.owner.Some? && s.filter != [] && BrokerMatches(s.filter, topic)
    && var p := PeerOf(ps, s.owner.value);
       p.Some? && p.value.ready && p.value.connected
  }

  /** The subscription's filter matches, its session is an orphan, and neither
      side is QoS 0. */
  ghost predicate Waiting(s: Sub, os: seq<Orphan>, topic: bytes, qos: QoS) {
    && s.owner.None? && s.filter != [] && BrokerMatches(s.filter, topic) && qos > 0 && s.qos > 0
    && exists j :: 0 <= j < |os| && os[j].id == s.id
  }

  /** q is the smaller of the publication's and the subscription's QoS. */
  predicate Smaller(q: QoS, pub: QoS, sub: QoS) {
    q <= pub && q <= sub && (q == pub || q == sub)
  }

  /** What the collect pass has to find: one target for every subscription of a
      connected client that wants the topic and one entry for every waiting
      one, in list order, at the smaller QoS, and nothing else. */
  ghost predicate Collected(subs: seq<Sub>, ps: seq<Peer>, os: seq<Orphan>, topic: bytes, qos: QoS,
                            ts: seq<Target>, ks: seq<Kept>) {
    && (forall k :: 0 <= k < |ts| ==>
          ts[k].sub < |subs| && Wanting(subs[ts[k].sub], ps, topic) && subs[ts[k].sub].owner == Some(ts[k].ref)
          && Smaller(ts[k].qos, qos, subs[ts[k].sub].qos))
    && (forall j, k :: 0 <= j < k < |ts| ==> ts[j].sub < ts[k].sub)
    && (forall n :: 0 <= n < |subs| && Wanting(subs[n], ps, topic) ==> exists k :: 0 <= k < |ts| && ts[k].sub == n)
    && (forall k :: 0 <= k < |ks| ==>
          ks[k].sub < |subs| && Waiting(subs[ks[k].sub], os, topic, qos) && ks[k].id == subs[ks[k].sub].id
          && Smaller(ks[k].qos, qos, subs[ks[k].sub].qos))
    && (forall j, k :: 0 <= j < k < |ks| ==> ks[j].sub < ks[k].sub)
    && (forall n :: 0 <= n < |subs| && Waiting(subs[n], os, topic, qos) ==> exists k :: 0 <= k < |ks| && ks[k].sub == n)
  }

  lemma TargetMeans(s: Sub, ps: seq<Peer>, topic: bytes)
    ensures IsTarget(s, ps, topic) <==> Wanting(s, ps, topic)
  {
    hide BrokerMatches;
  }

  lemma KeptMeans(s: Sub, os: seq<Orphan>, topic: bytes, qos: QoS)
    ensures IsKept(s, os, topic, qos) <==> Waiting(s, os, topic, qos)
  {
    hide BrokerMatches;
  }

  lemma SmallerOf(pub: QoS, sub: QoS)
    ensures Smaller(EffectiveQoS(pub, sub), pub, sub)
  {
  }

  lemma CollectExact(subs: seq<Sub>, ps: seq<Peer>, os: seq<Orphan>, topic: bytes, qos: QoS)
    ensures Collected(subs, ps, os, topic, qos, Collect(subs, 0, ps, os, topic, qos).0, Collect(subs, 0, ps, os, topic, qos).1)
  {
    hide IsTarget, IsKept, Wanting, Waiting, Smaller, EffectiveQoS, Collect;
    CollectGathers(subs, 0, ps, os, topic, qos);
    forall n | 0 <= n < |subs|
      ensures IsTarget(subs[n], ps, topic) <==> Wanting(subs[n], ps, topic)
      ensures IsTarget(subs[n], ps, topic) ==> subs[n].owner.Some?
      ensures IsKept(subs[n], os, topic, qos) <==> Waiting(subs[n], os, topic, qos)
      ensures Smaller(EffectiveQoS(qos, subs[n].qos), qos, subs[n].qos)
    {
      TargetMeans(subs[n], ps, topic);
      KeptMeans(subs[n], os, topic, qos);
      SmallerOf(qos, subs[n].qos);
      Exclusive(subs[n], ps, os, topic, qos);
    }
  }

  // ------------------------------------------------------ the delivery pass

  lemma PeerAtIff(ps: seq<Peer>, ref: nat)
    ensures PeerAt(ps, ref) < |ps| <==> exists k :: 0 <= k < |ps| && ps[k].ref == ref
  {
  }

  lemma RefsKept(a: seq<Peer>, b: seq<Peer>, ref: nat)
    requires |a| == |b| && forall k :: 0 <= k < |a| ==> a[k].ref == b[k].ref
    ensures PeerAt(a, ref) == PeerAt(b, ref)
  {
    var i, j := PeerAt(a, ref), PeerAt(b, ref);
    assert !(i < j) && !(j < i);
  }

  lemma {:induction false} RemoveAllGen(h: Hub, refs: seq<nat>, self: nat)
    ensures var r := RemoveAll(h, refs, self);
      && r.gen >= h.gen && (r.gen == h.gen ==> r == h)
      && r.turns == h.turns && r.fault == h.fault
  {
    if refs != [] {
      RemoveAllGen(h, refs[..|refs| - 1], self);
    }
  }

  lemma DuringGen(h: Hub, e: Effect, self: nat)
    ensures var r := During(h, e, self);
      && r.gen >= h.gen && (r.gen == h.gen ==> r.peers == h.peers)
      && r.turns == h.turns && r.fault == h.fault
      && (e.unlinked == [] ==> r.peers == h.peers)
  {
    RemoveAllGen(h, e.unlinked, self);
  }

  /** What a destination deserves in state h: an entry exactly when its client
      is still linked, connected, under its quota and has an identifier free. */
  function Verdict(h: Hub, t: Target, e: Effect): Outcome {
    var k := PeerAt(h.peers, t.ref);
    if k == |h.peers| then Gone
    else if !h.peers[k].connected then Disconnected
    else if h.peers[k].out.count >= h.peers[k].out.lim.queued then QuotaHit
    else if t.qos > 0 && NextFree(e.nextPid, Q.Pids(h.peers[k].out.q)) == 0 then Exhausted
    else Enqueued
  }

  /** The destination's client after its turn. */
  function Served(p: Peer, m: Post, t: Target, e: Effect, o: Outcome): Peer {
    if o == QuotaHit then p.(connected := false)
    else if o != Enqueued then p
    else if t.ref == m.from then p.(out := Entered(p, m, t, e))
    else p.(out := Q.Drain(Entered(p, m, t, e), e.ws).0)
  }

  /** The state in which a served destination's write begins. */
  function Written(h: Hub, m: Post, t: Target, e: Effect): Hub
    requires Linked(h, t.ref)
  {
    var k, o := PeerAt(h.peers, t.ref), Verdict(h, t, e);
    Record(h.(peers := h.peers[k := Served(h.peers[k], m, t, e, o)]), t, o)
  }

  predicate Writes(h: Hub, m: Post, t: Target, e: Effect) {
    var o := Verdict(h, t, e);
    o == QuotaHit || (o == Enqueued && t.ref != m.from)
  }

  lemma ServeIs(h: Hub, m: Post, t: Target, snapshot: nat, e: Effect)
    ensures Serve(h, m, t, snapshot, e)
            == if h.gen != snapshot && !Linked(h, t.ref) then Record(h, t, Gone)
               else if !Linked(h, t.ref) then h.(fault := true)
               else if Writes(h, m, t, e) then During(Written(h, m, t, e), e, t.ref)
               else Written(h, m, t, e)
  {
    hide During, Entered;
    var k := PeerAt(h.peers, t.ref);
    if k < |h.peers| {
      assert h.peers[k := h.peers[k]] == h.peers;
    }
  }

  /** Serving does not move anyone in the list. */
  lemma WrittenRefs(h: Hub, m: Post, t: Target, e: Effect, ref: nat)
    requires Linked(h, t.ref)
    ensures var r := Written(h, m, t, e);
      && PeerAt(r.peers, ref) == PeerAt(h.peers, ref) && |r.peers| == |h.peers| && r.gen == h.gen
      && r.fault == h.fault && r.turns == h.turns + [Turn(t, Verdict(h, t, e))]
  {
    hide Entered, Verdict;
    RefsKept(h.peers, Written(h, m, t, e).peers, ref);
  }

  /** While the generation stands still, no client has left the list. */
  lemma ServeGen(h: Hub, m: Post, t: Target, snapshot: nat, e: Effect, ref: nat)
    ensures var r := Serve(h, m, t, snapshot, e);
      r.gen >= h.gen && (r.gen == h.gen && Linked(h, ref) ==> Linked(r, ref))
  {
    hide Serve, During, Written, Verdict;
    ServeIs(h, m, t, snapshot, e);
    if Linked(h, t.ref) {
      WrittenRefs(h, m, t, e, ref);
      DuringGen(Written(h, m, t, e), e, t.ref);
    }
  }

  lemma ServeRecords(h: Hub, m: Post, t: Target, snapshot: nat, e: Effect)
    requires h.gen == snapshot ==> Linked(h, t.ref)
    ensures var r := Serve(h, m, t, snapshot, e);
      r.fault == h.fault && r.turns == h.turns + [Turn(t, Verdict(h, t, e))]
  {
    ServeIs(h, m, t, snapshot, e);
    assert !Linked(h, t.ref) ==> Verdict(h, t, e) == Gone;
    hide Serve, During, Written, Verdict;
    if Linked(h, t.ref) {
      WrittenRefs(h, m, t, e, t.ref);
      DuringGen(Written(h, m, t, e), e, t.ref);
    }
  }

  /** The generation check is as good as searching the list every time: no
      freed client is ever used, and each destination gets exactly one outcome,
      the one its client deserves at its turn. */
  lemma {:induction false} DeliverExact(h: Hub, m: Post, ts: seq<Target>, n: nat, es: seq<Effect>)
    requires n <= |ts| && !h.fault && forall k :: 0 <= k < |ts| ==> Linked(h, ts[k].ref)
    ensures var r := Deliver(h, m, ts, n, es);
      && !r.fault && r.gen >= h.gen
      && (r.gen == h.gen ==> forall k :: 0 <= k < |ts| ==> Linked(r, ts[k].ref))
      && |r.turns| == |h.turns| + n && h.turns <= r.turns
      && (forall k :: 0 <= k < n ==>
            r.turns[|h.turns| + k] == Turn(ts[k], Verdict(Deliver(h, m, ts, k, es), ts[k], EffectAt(es, k))))
  {
    hide Serve, Linked, Verdict;
    if n > 0 {
      DeliverExact(h, m, ts, n - 1, es);
      var r1, t, e := Deliver(h, m, ts, n - 1, es), ts[n - 1], EffectAt(es, n - 1);
      ServeRecords(r1, m, t, h.gen, e);
      var r := Serve(r1, m, t, h.gen, e);
      forall k | 0 <= k < |ts| ensures r.gen >= r1.gen && (r.gen == h.gen ==> Linked(r, ts[k].ref)) {
        ServeGen(r1, m, t, h.gen, e, ts[k].ref);
      }
    }
  }

  // ------------------------------------------------------------- the queues

  ghost predicate DistinctRefs(ps: seq<Peer>) {
    forall i, j :: 0 <= i < j < |ps| ==> ps[i].ref != ps[j].ref
  }

  function PeerOf(ps: seq<Peer>, ref: nat): Option<Peer> {
    var k := PeerAt(ps, ref);
    if k < |ps| then Some(ps[k]) else None
  }

  lemma PeerOfAt(ps: seq<Peer>, k: nat)
    requires DistinctRefs(ps) && k < |ps|
    ensures PeerAt(ps, ps[k].ref) == k
  {
    var j := PeerAt(ps, ps[k].ref);
    assert !(j < k) && !(k < j);
  }

  /** One peer taken out of the list, every other one as it was. */
  lemma RemovePeer(ps: seq<Peer>, k: nat, ref: nat)
    requires DistinctRefs(ps) && k < |ps|
    ensures var r := RemoveAt(ps, k);
      DistinctRefs(r) && PeerOf(r, ref) == if ref == ps[k].ref then None else PeerOf(ps, ref)
  {
    var r, j := RemoveAt(ps, k), PeerAt(ps, ref);
    assert forall i :: 0 <= i < |r| ==> r[i] == ps[if i < k then i else i + 1];
    if j < |ps| && j != k {
      PeerOfAt(r, if j < k then j else j - 1);
    }
  }

  lemma SetPeer(ps: seq<Peer>, k: nat, p: Peer, ref: nat)
    requires DistinctRefs(ps) && k < |ps| && p.ref == ps[k].ref
    ensures var r := ps[k := p];
      DistinctRefs(r) && PeerOf(r, ref) == if ref == p.ref then Some(p) else PeerOf(ps, ref)
  {
    var r := ps[k := p];
    RefsKept(ps, r, ref);
    PeerOfAt(ps, k);
  }

  /** Closing other connections leaves the rest, and self, as they were. */
  lemma {:induction false} RemoveAllPeers(h: Hub, refs: seq<nat>, self: nat, ref: nat)
    requires DistinctRefs(h.peers)
    ensures var r := RemoveAll(h, refs, self);
      && DistinctRefs(r.peers)
      && (PeerOf(r.peers, ref).Some? ==> PeerOf(r.peers, ref) == PeerOf(h.peers, ref))
      && PeerOf(r.peers, self) == PeerOf(h.peers, self)
  {
    hide DistinctRefs, PeerOf;
    if refs != [] {
      RemoveAllPeers(h, refs[..|refs| - 1], self, ref);
      var h1, x := RemoveAll(h, refs[..|refs| - 1], self), refs[|refs| - 1];
      var k := PeerAt(h1.peers, x);
      if k < |h1.peers| && x != self {
        RemovePeer(h1.peers, k, ref);
        RemovePeer(h1.peers, k, self);
      }
    }
  }

  /** What a destination is due at its turn, fact by fact. */
  ghost predicate Judged(h: Hub, t: Target, o: Outcome) {
    var p := PeerOf(h.peers, t.ref);
    && (o == Gone <==> p.None?)
    && (o == Disconnected <==> p.Some? && !p.value.connected)
    && (o == QuotaHit <==> p.Some? && p.value.connected && p.value.out.count >= p.value.out.lim.queued)
    && (o == Enqueued <==>
          && p.Some? && p.value.connected && p.value.out.count < p.value.out.lim.queued
          && (t.qos > 0 ==> exists id :: 1 <= id <= MAX_ID && id !in Q.Pids(p.value.out.q)))
  }

  lemma VerdictJudges(h: Hub, t: Target, e: Effect)
    ensures Judged(h, t, Verdict(h, t, e))
  {
    var k := PeerAt(h.peers, t.ref);
    if k < |h.peers| {
      NextFreeExact(e.nextPid, Q.Pids(h.peers[k].out.q));
    }
    hide NextFree;
  }

  /** After one turn: a destination that got its entry has exactly that entry
      added at the tail of its queue, with the publication's topic, payload,
      time and expiry, drained unless it is the publisher; one over its quota
      is disconnected; no other queue and no other connection changes. */
  ghost predicate OnlyEntry(h: Hub, m: Post, t: Target, e: Effect, r: Hub) {
    && (Verdict(h, t, e) == Enqueued ==>
          && PeerOf(h.peers, t.ref).Some? && PeerOf(r.peers, t.ref).Some?
          && var s, p := PeerOf(h.peers, t.ref).value.out, PeerOf(h.peers, t.ref).value;
             var pid := if t.qos == 0 then 0 else NextFree(e.nextPid, Q.Pids(s.q));
             var msg := Q.Message(m.topic, m.payload, 0, p.level, m.time, m.expiry);
             var entered := s.(q := s.q + [Q.Entry(s.next, t.qos, pid, Q.Queued, false, e.encLen, 0, msg)],
                               count := s.count + 1, next := s.next + 1);
             && (t.qos > 0 ==> 1 <= pid <= MAX_ID && pid !in Q.Pids(s.q))
             && PeerOf(r.peers, t.ref).value.out == if t.ref == m.from then entered else Q.Drain(entered, e.ws).0)
    && (Verdict(h, t, e) == QuotaHit ==> PeerOf(r.peers, t.ref).Some? && !PeerOf(r.peers, t.ref).value.connected)
    && (forall ref: nat :: PeerOf(r.peers, ref).Some? && !(ref == t.ref && Verdict(h, t, e) == Enqueued) ==>
          PeerOf(h.peers, ref).Some? && PeerOf(r.peers, ref).value.out == PeerOf(h.peers, ref).value.out)
    && (forall ref: nat :: PeerOf(r.peers, ref).Some? && !(ref == t.ref && Verdict(h, t, e) == QuotaHit) ==>
          PeerOf(h.peers, ref).Some? && PeerOf(r.peers, ref).value.connected == PeerOf(h.peers, ref).value.connected)
  }

  lemma ServeEnters(h: Hub, m: Post, t: Target, snapshot: nat, e: Effect)
    requires DistinctRefs(h.peers)
    ensures var r := Serve(h, m, t, snapshot, e);
      DistinctRefs(r.peers) && OnlyEntry(h, m, t, e, r)
  {
    hide Serve, Verdict, DistinctRefs, RemoveAll, Entered;
    var r := Serve(h, m, t, snapshot, e);
    ServeIs(h, m, t, snapshot, e);
    if Linked(h, t.ref) {
      var k, w := PeerAt(h.peers, t.ref), Written(h, m, t, e);
      var p := Served(h.peers[k], m, t, e, Verdict(h, t, e));
      SetPeer(h.peers, k, p, t.ref);
      RemoveAllPeers(w, e.unlinked, t.ref, t.ref);
      forall ref: nat | PeerOf(r.peers, ref).Some?
        ensures PeerOf(h.peers, ref).Some?
        ensures !(ref == t.ref && Verdict(h, t, e) == Enqueued) ==>
          PeerOf(r.peers, ref).value.out == PeerOf(h.peers, ref).value.out
        ensures !(ref == t.ref && Verdict(h, t, e) == QuotaHit) ==>
          PeerOf(r.peers, ref).value.connected == PeerOf(h.peers, ref).value.connected
      {
        SetPeer(h.peers, k, p, ref);
        RemoveAllPeers(w, e.unlinked, t.ref, ref);
      }
      EntersTail(h, m, t, e);
    } else {
      GoneVerdict(h, t, e);
    }
  }

  lemma GoneVerdict(h: Hub, t: Target, e: Effect)
    requires !Linked(h, t.ref)
    ensures Verdict(h, t, e) == Gone
  {
  }

  /** A deserved entry goes to the tail under an identifier not in the queue. */
  lemma EntersTail(h: Hub, m: Post, t: Target, e: Effect)
    requires Linked(h, t.ref)
    ensures Verdict(h, t, e) == Enqueued ==>
      var p := h.peers[PeerAt(h.peers, t.ref)];
      var pid := if t.qos == 0 then 0 else NextFree(e.nextPid, Q.Pids(p.out.q));
      && (t.qos > 0 ==> 1 <= pid <= MAX_ID && pid !in Q.Pids(p.out.q))
      && Entered(p, m, t, e)
         == p.out.(q := p.out.q + [Q.Entry(p.out.next, t.qos, pid, Q.Queued, false, e.encLen, 0, MessageFor(m, p.level))],
                   count := p.out.count + 1, next := p.out.next + 1)
  {
    NextFreeExact(e.nextPid, Q.Pids(h.peers[PeerAt(h.peers, t.ref)].out.q));
    hide NextFree;
  }

  lemma {:induction false} RefsStayDistinct(h: Hub, m: Post, ts: seq<Target>, n: nat, es: seq<Effect>)
    requires n <= |ts| && DistinctRefs(h.peers)
    ensures DistinctRefs(Deliver(h, m, ts, n, es).peers)
  {
    hide DistinctRefs, Serve, OnlyEntry;
    if n > 0 {
      RefsStayDistinct(h, m, ts, n - 1, es);
      ServeEnters(Deliver(h, m, ts, n - 1, es), m, ts[n - 1], h.gen, EffectAt(es, n - 1));
    }
  }

  /** Over a whole delivery, every turn adds its one entry or nothing. */
  lemma EntriesExact(h: Hub, m: Post, ts: seq<Target>, es: seq<Effect>, k: nat)
    requires k < |ts| && DistinctRefs(h.peers)
    ensures OnlyEntry(Deliver(h, m, ts, k, es), m, ts[k], EffectAt(es, k), Deliver(h, m, ts, k + 1, es))
  {
    hide DistinctRefs, Serve, OnlyEntry, Deliver;
    DeliverStep(h, m, ts, k + 1, es);
    RefsStayDistinct(h, m, ts, k, es);
    ServeEnters(Deliver(h, m, ts, k, es), m, ts[k], h.gen, EffectAt(es, k));
  }

  // --------------------------------------------------------- conservation

  /** Every bound subscription's client is linked. */
  ghost predicate BoundLinked(subs: seq<Sub>, h: Hub) {
    forall i :: 0 <= i < |subs| && subs[i].owner.Some? ==> Linked(h, subs[i].owner.value)
  }

  /** Conservation: an accepted PUBLISH leads to one outcome for every matching
      subscription of a connected client, in list order and at the smaller
      QoS: an entry if and only if the client is still linked, connected,
      under quota and not out of identifiers at its turn. Every matching subscription of an orphaned
      session gets one entry if the effective QoS is above 0. Nothing else is
      delivered, whatever closes meanwhile. */
  lemma {:induction false} FanoutConserves(h: Hub, subs: seq<Sub>, os: seq<Orphan>, m: Post, qos: QoS, es: seq<Effect>)
    requires !h.fault && h.turns == [] && BoundLinked(subs, h)
    ensures var (ts, ks) := Collect(subs, 0, h.peers, os, m.topic, qos);
      var r := Deliver(h, m, ts, |ts|, es);
      && Collected(subs, h.peers, os, m.topic, qos, ts, ks)
      && !r.fault && |r.turns| == |ts|
      && (forall k :: 0 <= k < |ts| ==>
            r.turns[k].target == ts[k] && Judged(Deliver(h, m, ts, k, es), ts[k], r.turns[k].outcome)
            && r.turns[k].outcome == Verdict(Deliver(h, m, ts, k, es), ts[k], EffectAt(es, k)))
      && (DistinctRefs(h.peers) ==> forall k :: 0 <= k < |ts| ==>
            OnlyEntry(Deliver(h, m, ts, k, es), m, ts[k], EffectAt(es, k), Deliver(h, m, ts, k + 1, es)))
  {
    hide Collect, Deliver, Verdict, Collected, Gathered, OnlyEntry, DistinctRefs, BoundLinked, Linked, Judged;
    CollectExact(subs, h.peers, os, m.topic, qos);
    CollectGathers(subs, 0, h.peers, os, m.topic, qos);
    var (ts, ks) := Collect(subs, 0, h.peers, os, m.topic, qos);
    TargetsLinked(h, subs, os, m.topic, qos, ts, ks);
    DeliverExact(h, m, ts, |ts|, es);
    forall k | 0 <= k < |ts|
      ensures Judged(Deliver(h, m, ts, k, es), ts[k], Verdict(Deliver(h, m, ts, k, es), ts[k], EffectAt(es, k)))
    {
      VerdictJudges(Deliver(h, m, ts, k, es), ts[k], EffectAt(es, k));
    }
    if DistinctRefs(h.peers) {
      forall k | 0 <= k < |ts|
        ensures OnlyEntry(Deliver(h, m, ts, k, es), m, ts[k], EffectAt(es, k), Deliver(h, m, ts, k + 1, es))
      {
        EntriesExact(h, m, ts, es, k);
      }
    }
  }

  lemma TargetsLinked(h: Hub, subs: seq<Sub>, os: seq<Orphan>, topic: bytes, qos: QoS, ts: seq<Target>, ks: seq<Kept>)
    requires Gathered(subs, 0, h.peers, os, topic, qos, ts, ks)
    ensures forall k :: 0 <= k < |ts| ==> Linked(h, ts[k].ref)
  {
    forall k | 0 <= k < |ts| ensures Linked(h, ts[k].ref) {
      assert IsTarget(subs[ts[k].sub], h.peers, topic);
    }
  }

  // ----------------------------------------------- nobody leaves, room enough

  function TargetsOf(ts: seq<Target>, n: nat, ref: nat): nat
    requires n <= |ts|
  {
    if n == 0 then 0 else TargetsOf(ts, n - 1, ref) + (if ts[n - 1].ref == ref then 1 else 0)
  }

  ghost predicate Undisturbed(es: seq<Effect>) {
    forall i :: 0 <= i < |es| ==> es[i].unlinked == []
  }

  /** The queue's counter is right, so that identifiers cannot run out. */
  predicate QueueCounted(s: Q.Session) {
    s.count == |s.q| && Q.LimitsOk(s.lim)
  }

  lemma {:induction false} DrainCount(s: Q.Session, i: nat, ws: seq<Q.Write>)
    requires i <= |s.q|
    ensures var r := Q.DrainFrom(s, i, ws).0;
      r.count <= s.count && r.count - |r.q| == s.count - |s.q| && r.lim == s.lim
    decreases |s.q| - i
  {
    hide Q.Announce;
    if i < |s.q| {
      VisitCount(s, i, Q.First(ws));
      var ws' := if Q.Writes(s, i) then Q.Rest(ws) else ws;
      var (s', v) := Q.Visit(s, i, Q.First(ws));
      hide Q.Visit;
      if v.Onward? { DrainCount(s', i + 1, ws'); }
      if v.Again? { DrainCount(s', i, ws'); }
    }
  }

  lemma VisitCount(s: Q.Session, i: nat, w: Q.Write)
    requires i < |s.q|
    ensures var (r, v) := Q.Visit(s, i, w);
      && r.count <= s.count && r.count - |r.q| == s.count - |s.q| && r.lim == s.lim
      && (v.Onward? ==> |r.q| == |s.q|) && (v.Again? ==> |r.q| == |s.q| - 1)
  {
  }

  lemma EnoughIds(s: Q.Session, nextPid: Counter)
    requires QueueCounted(s) && s.count < s.lim.queued
    ensures NextFree(nextPid, Q.Pids(s.q)) != 0
  {
    ShortQueueNeverExhausts(nextPid, Q.Pids(s.q));
  }

  /** Serving a client leaves its queue at most one entry longer. */
  lemma ServedCount(p: Peer, m: Post, t: Target, e: Effect, o: Outcome)
    requires QueueCounted(p.out)
    ensures var r := Served(p, m, t, e, o);
      && QueueCounted(r.out) && r.out.count <= p.out.count + 1 && r.out.lim == p.out.lim && r.ref == p.ref
      && (o != QuotaHit ==> r.connected == p.connected)
  {
    var s := Entered(p, m, t, e);
    hide NextFree, Q.Drain;
    assert QueueCounted(s) && s.count <= p.out.count + 1 && s.lim == p.out.lim;
    DrainIs(s, e.ws);
    DrainCount(s, 0, e.ws);
  }

  lemma DrainIs(s: Q.Session, ws: seq<Q.Write>)
    ensures Q.Drain(s, ws) == Q.DrainFrom(s, 0, ws)
  {
  }

  ghost predicate AllCounted(ps: seq<Peer>) {
    forall i :: 0 <= i < |ps| ==> QueueCounted(ps[i].out)
  }

  lemma {:induction false} RemoveAllCounted(h: Hub, refs: seq<nat>, self: nat)
    requires AllCounted(h.peers)
    ensures AllCounted(RemoveAll(h, refs, self).peers)
  {
    hide QueueCounted;
    if refs != [] {
      RemoveAllCounted(h, refs[..|refs| - 1], self);
      var ps := RemoveAll(h, refs[..|refs| - 1], self).peers;
      var k := PeerAt(ps, refs[|refs| - 1]);
      if k < |ps| {
        assert forall i :: 0 <= i < |RemoveAt(ps, k)| ==> RemoveAt(ps, k)[i] == ps[if i < k then i else i + 1];
      }
    }
  }

  lemma ServeCounted(h: Hub, m: Post, t: Target, snapshot: nat, e: Effect)
    requires AllCounted(h.peers)
    ensures AllCounted(Serve(h, m, t, snapshot, e).peers) && Verdict(h, t, e) != Exhausted
  {
    var k := PeerAt(h.peers, t.ref);
    if k < |h.peers| && h.peers[k].out.count < h.peers[k].out.lim.queued {
      EnoughIds(h.peers[k].out, e.nextPid);
    }
    hide NextFree, Serve, Served, RemoveAll, QueueCounted;
    ServeIs(h, m, t, snapshot, e);
    if k < |h.peers| {
      ServedCount(h.peers[k], m, t, e, Verdict(h, t, e));
      RemoveAllCounted(Written(h, m, t, e), e.unlinked, t.ref);
    }
  }

  /** With right counters no destination is ever out of identifiers. */
  lemma {:induction false} NeverExhausted(h: Hub, m: Post, ts: seq<Target>, n: nat, es: seq<Effect>)
    requires n <= |ts| && AllCounted(h.peers)
    ensures AllCounted(Deliver(h, m, ts, n, es).peers)
    ensures forall k :: 0 <= k < n ==> Verdict(Deliver(h, m, ts, k, es), ts[k], EffectAt(es, k)) != Exhausted
  {
    hide AllCounted, Serve, Verdict;
    if n > 0 {
      NeverExhausted(h, m, ts, n - 1, es);
      ServeCounted(Deliver(h, m, ts, n - 1, es), m, ts[n - 1], h.gen, EffectAt(es, n - 1));
    }
  }

  /** A client with room for all its share stays connected with room for the
      rest of it. */
  ghost predicate Roomy(h: Hub, ref: nat, p0: Peer, used: nat) {
    var k := PeerAt(h.peers, ref);
    && k < |h.peers| && h.peers[k].connected && h.peers[k].out.lim == p0.out.lim
    && h.peers[k].out.count <= p0.out.count + used
  }

  lemma {:induction false} Steady(h: Hub, m: Post, ts: seq<Target>, n: nat, es: seq<Effect>, ref: nat)
    requires n <= |ts| && !h.fault && Undisturbed(es) && (forall k :: 0 <= k < |ts| ==> Linked(h, ts[k].ref))
    requires AllCounted(h.peers) && Linked(h, ref) && h.peers[PeerAt(h.peers, ref)].connected
    requires var p := h.peers[PeerAt(h.peers, ref)];
      p.out.count + TargetsOf(ts, |ts|, ref) <= p.out.lim.queued
    ensures Roomy(Deliver(h, m, ts, n, es), ref, h.peers[PeerAt(h.peers, ref)], TargetsOf(ts, n, ref))
  {
    hide Deliver, Undisturbed, Serve, AllCounted, Roomy, Verdict, EffectAt;
    DeliverStep(h, m, ts, n, es);
    var p := h.peers[PeerAt(h.peers, ref)];
    if n == 0 {
      RoomyNow(h, ref);
    } else {
      Steady(h, m, ts, n - 1, es, ref);
      DeliverExact(h, m, ts, n - 1, es);
      NeverExhausted(h, m, ts, n - 1, es);
      CountLess(ts, n, |ts|, ref);
      EffectQuiet(es, n - 1);
      ServeSteady(Deliver(h, m, ts, n - 1, es), m, ts[n - 1], h.gen, EffectAt(es, n - 1), ref, p, TargetsOf(ts, n - 1, ref));
    }
  }

  lemma RoomyNow(h: Hub, ref: nat)
    requires Linked(h, ref) && h.peers[PeerAt(h.peers, ref)].connected
    ensures Roomy(h, ref, h.peers[PeerAt(h.peers, ref)], 0)
  {
  }

  lemma DeliverStep(h: Hub, m: Post, ts: seq<Target>, n: nat, es: seq<Effect>)
    requires n <= |ts|
    ensures Deliver(h, m, ts, n, es)
            == if n == 0 then h else Serve(Deliver(h, m, ts, n - 1, es), m, ts[n - 1], h.gen, EffectAt(es, n - 1))
  {
  }

  lemma EffectQuiet(es: seq<Effect>, i: nat)
    requires Undisturbed(es)
    ensures EffectAt(es, i).unlinked == []
  {
  }

  lemma {:induction false} CountLess(ts: seq<Target>, m: nat, n: nat, ref: nat)
    requires 0 < m <= n <= |ts|
    ensures TargetsOf(ts, m, ref) <= TargetsOf(ts, n, ref)
  {
    if m < n {
      CountLess(ts, m, n - 1, ref);
    }
  }

  lemma ServeSteady(h: Hub, m: Post, t: Target, snapshot: nat, e: Effect, ref: nat, p0: Peer, used: nat)
    requires e.unlinked == [] && AllCounted(h.peers) && Roomy(h, ref, p0, used) && (h.gen == snapshot ==> Linked(h, t.ref))
    requires p0.out.count + used + (if t.ref == ref then 1 else 0) <= p0.out.lim.queued
    ensures Roomy(Serve(h, m, t, snapshot, e), ref, p0, used + (if t.ref == ref then 1 else 0))
  {
    if t.ref == ref {
      assert Verdict(h, t, e) != QuotaHit;
    }
    hide Serve, During, Served, Verdict;
    ServeIs(h, m, t, snapshot, e);
    if Linked(h, t.ref) {
      var k := PeerAt(h.peers, t.ref);
      WrittenRefs(h, m, t, e, ref);
      DuringGen(Written(h, m, t, e), e, t.ref);
      ServedCount(h.peers[k], m, t, e, Verdict(h, t, e));
    }
  }

  /** When no connection closes meanwhile and every client has room for its
      share, every matching subscription gets its one entry. */
  lemma FanoutComplete(h: Hub, subs: seq<Sub>, os: seq<Orphan>, m: Post, qos: QoS, es: seq<Effect>, k: nat)
    requires !h.fault && h.turns == [] && BoundLinked(subs, h) && Undisturbed(es) && AllCounted(h.peers)
    requires k < |Collect(subs, 0, h.peers, os, m.topic, qos).0|
    requires var ts := Collect(subs, 0, h.peers, os, m.topic, qos).0;
      forall i :: 0 <= i < |h.peers| ==>
        h.peers[i].out.count + TargetsOf(ts, |ts|, h.peers[i].ref) <= h.peers[i].out.lim.queued
    ensures var ts := Collect(subs, 0, h.peers, os, m.topic, qos).0;
      var r := Deliver(h, m, ts, |ts|, es);
      k < |r.turns| && r.turns[k] == Turn(ts[k], Enqueued)
  {
    hide Collect, Gathered, Deliver, AllCounted, BoundLinked, Undisturbed, Verdict, TargetsOf, Roomy, EffectAt;
    var (ts, ks) := Collect(subs, 0, h.peers, os, m.topic, qos);
    CollectGathers(subs, 0, h.peers, os, m.topic, qos);
    TargetsLinked(h, subs, os, m.topic, qos, ts, ks);
    TargetReady(h, subs, os, m.topic, qos, ts, ks, k);
    DeliverExact(h, m, ts, |ts|, es);
    NeverExhausted(h, m, ts, |ts|, es);
    Steady(h, m, ts, k, es, ts[k].ref);
    CountStrict(ts, k, ts[k].ref);
    RoomyVerdict(Deliver(h, m, ts, k, es), ts[k], EffectAt(es, k), h.peers[PeerAt(h.peers, ts[k].ref)], TargetsOf(ts, k, ts[k].ref));
  }

  lemma TargetReady(h: Hub, subs: seq<Sub>, os: seq<Orphan>, topic: bytes, qos: QoS, ts: seq<Target>, ks: seq<Kept>, k: nat)
    requires Gathered(subs, 0, h.peers, os, topic, qos, ts, ks) && k < |ts|
    ensures Linked(h, ts[k].ref) && h.peers[PeerAt(h.peers, ts[k].ref)].connected
  {
    assert IsTarget(subs[ts[k].sub], h.peers, topic);
    hide SubMatches;
  }

  lemma RoomyVerdict(h: Hub, t: Target, e: Effect, p0: Peer, used: nat)
    requires Roomy(h, t.ref, p0, used) && p0.out.count + used < p0.out.lim.queued && Verdict(h, t, e) != Exhausted
    ensures Verdict(h, t, e) == Enqueued
  {
    hide NextFree;
  }

  lemma CountStrict(ts: seq<Target>, k: nat, ref: nat)
    requires k < |ts| && ts[k].ref == ref
    ensures TargetsOf(ts, k, ref) < TargetsOf(ts, |ts|, ref)
  {
    CountLess(ts, k + 1, |ts|, ref);
  }
}
