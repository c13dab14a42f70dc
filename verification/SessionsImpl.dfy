/** The session lists as the broker keeps them (src/mqtt_broker.c), updated in
    place; every method is proved equal to its transition function. */
module SessionsImpl {
  import opened Common
  import opened Sessions
  import opened SessionsInvariant

  lemma {:induction false} WithoutSkips(s: seq<Sub>, p: Sub -> bool, i: nat)
    requires i < |s| && p(s[i])
    ensures Without(RemoveAt(s, i), p) == Without(s, p)
  {
    if i > 0 {
      var r := RemoveAt(s, i);
      assert r[0] == s[0] && r[1..] == RemoveAt(s[1..], i - 1);
      WithoutSkips(s[1..], p, i - 1);
    } else {
      assert RemoveAt(s, 0) == s[1..];
    }
  }

  /** MqttBroker, as far as sessions go. */
  class MqttBroker {
    const caps: Caps
    var clients: seq<Client>
    var subs: seq<Sub>
    var orphans: seq<Orphan>
    var orphanCount: int
    var nextSid: nat
    ghost var log: seq<Mark>

    ghost function Abs(): Broker
      reads this
    {
      Broker(clients, subs, orphans, orphanCount, caps, nextSid, log)
    }

    constructor (caps: Caps)
      ensures Abs() == Initial(caps)
    {
      this.caps := caps;
      clients, subs, orphans, orphanCount, nextSid, log := [], [], [], 0, 0, [];
    }

    // -------------------------------------------------------- list walks

    /** The unlink walk shared by DropFull, RemoveClient and RemoveByClientId. */
    method UnlinkSubs(p: Sub -> bool)
      modifies this`subs
      ensures subs == Without(old(subs), p)
    {
      hide Without;
      var i := 0;
      while i < |subs|
        invariant i <= |subs| && Without(subs, p) == Without(old(subs), p)
        invariant forall j :: 0 <= j < i ==> !p(subs[j])
        decreases |subs| - i
      {
        if p(subs[i]) {
          WithoutSkips(subs, p, i);
          subs := subs[..i] + subs[i + 1..];
        } else {
          i := i + 1;
        }
      }
      WithoutNone(subs, p);
    }

    /** The rebinding walk of OrphanClient and ReassociateClient; counts. */
    method RebindSubs(p: Sub -> bool, owner: Option<nat>) returns (n: nat)
      modifies this`subs
      ensures subs == Mapped(old(subs), (s: Sub) => if p(s) then s.(owner := owner) else s)
      ensures n == Count(old(subs), p)
    {
      hide Count;
      ghost var was := subs;
      n := 0;
      var i := 0;
      CountEmpty(was, p);
      while i < |subs|
        invariant i <= |subs| == |was| && n == Count(was[..i], p)
        invariant forall j :: 0 <= j < i ==> subs[j] == if p(was[j]) then was[j].(owner := owner) else was[j]
        invariant forall j :: i <= j < |was| ==> subs[j] == was[j]
      {
        CountNext(was, i, p);
        if p(subs[i]) {
          subs := subs[i := subs[i].(owner := owner)];
          n := n + 1;
        }
        i := i + 1;
      }
      assert was[..|was|] == was;
      var f := (s: Sub) => if p(s) then s.(owner := owner) else s;
      assert subs == Mapped(was, f);
    }

    static lemma CountEmpty(s: seq<Sub>, p: Sub -> bool)
      ensures Count(s[..0], p) == 0
    {
    }

    static lemma CountNext(s: seq<Sub>, i: nat, p: Sub -> bool)
      requires i < |s|
      ensures Count(s[..i + 1], p) == Count(s[..i], p) + (if p(s[i]) then 1 else 0)
    {
      CountSplit(s[..i], [s[i]], p);
      assert s[..i + 1] == s[..i] + [s[i]];
      CountHead(s[i], [], p);
      assert [s[i]] + [] == [s[i]];
    }

    method FindClient(ref: nat) returns (k: nat)
      ensures k == ClientAt(clients, ref)
    {
      k := 0;
      while k < |clients| && clients[k].ref != ref
        invariant k <= |clients| && forall j :: 0 <= j < k ==> clients[j].ref != ref
      {
        k := k + 1;
      }
    }

    method FindOrphan(id: bytes) returns (k: nat)
      ensures k == OrphanNamed(orphans, id)
    {
      k := 0;
      while k < |orphans| && orphans[k].id != id
        invariant k <= |orphans| && forall j :: 0 <= j < k ==> orphans[j].id != id
      {
        k := k + 1;
      }
    }

    method FindByClientId(id: bytes, exclude: nat) returns (k: nat)
      ensures k == ClientNamed(clients, id, exclude)
    {
      k := 0;
      while k < |clients| && !(clients[k].ref != exclude && clients[k].id == id)
        invariant k <= |clients| && forall j :: 0 <= j < k ==> !(clients[j].ref != exclude && clients[j].id == id)
      {
        k := k + 1;
      }
    }

    method FindSub(ref: nat, filter: bytes) returns (k: nat)
      ensures k == SubAt(subs, ref, filter)
    {
      k := 0;
      while k < |subs| && !(subs[k].owner == Some(ref) && subs[k].filter == filter)
        invariant k <= |subs| && forall j :: 0 <= j < k ==> !(subs[j].owner == Some(ref) && subs[j].filter == filter)
      {
        k := k + 1;
      }
    }

    // ------------------------------------------------------------ orphans

    method OrphanRemove(i: nat)
      requires i < |orphans|
      modifies this`orphans, this`orphanCount
      ensures Abs() == RemoveOrphan(old(Abs()), i)
    {
      orphans := orphans[..i] + orphans[i + 1..];
      if orphanCount > 0 {
        orphanCount := orphanCount - 1;
      }
    }

    method OrphanDropFull(i: nat)
      requires i < |orphans|
      modifies this`subs, this`orphans, this`orphanCount
      ensures Abs() == DropOrphan(old(Abs()), i)
    {
      hide Without;
      UnlinkSubs(Unbound(orphans[i].id));
      OrphanRemove(i);
    }

    /** BrokerOrphan_EvictOldest. */
    method EvictOldest()
      requires orphans != []
      modifies this`subs, this`orphans, this`orphanCount
      ensures Abs() == DropOrphan(old(Abs()), Oldest(old(orphans), 0, 0))
    {
      hide Without, DropOrphan;
      var oldest, i := 0, 0;
      while i < |orphans|
        invariant i <= |orphans| && oldest < |orphans| && Oldest(orphans, 0, 0) == Oldest(orphans, i, oldest)
      {
        if orphans[i].since < orphans[oldest].since {
          oldest := i;
        }
        i := i + 1;
      }
      OrphanDropFull(oldest);
    }

    method OrphanMakeRoom()
      modifies this`subs, this`orphans, this`orphanCount
      ensures Abs() == MakeRoom(old(Abs()))
    {
      hide Without, Oldest;
      while orphanCount >= caps.orphans && orphans != []
        invariant MakeRoom(Abs()) == MakeRoom(old(Abs()))
        decreases |orphans|
      {
        EvictOldest();
      }
    }

    /** BrokerOrphan_Take. */
    method OrphanTake(k: nat, now: nat)
      requires k < |clients|
      modifies this`clients, this`subs, this`orphans, this`orphanCount
      ensures Abs() == Take(old(Abs()), k, now)
    {
      hide MakeRoom;
      var c := clients[k];
      var i := FindOrphan(c.id);
      if i < |orphans| {
        OrphanRemove(i);
      }
      OrphanMakeRoom();
      assert clients == old(clients) by { RoomKeepsClients(old(Abs()), c.id); }
      orphans := [Orphan(c.id, c.expiry, now, c.q2, c.q2Count, c.sid)] + orphans;
      orphanCount := orphanCount + 1;
      clients := clients[k := c.(q2 := [], q2Count := 0)];
    }

    static lemma RoomKeepsClients(b: Broker, id: bytes)
      ensures var i := OrphanNamed(b.orphans, id);
        MakeRoom(if i < |b.orphans| then RemoveOrphan(b, i) else b).clients == b.clients
    {
      var i := OrphanNamed(b.orphans, id);
      RoomClients(if i < |b.orphans| then RemoveOrphan(b, i) else b);
    }

    static lemma {:induction false} RoomClients(b: Broker)
      ensures MakeRoom(b).clients == b.clients
      decreases |b.orphans|
    {
      hide Without, Oldest;
      if b.orphanCount >= b.caps.orphans && b.orphans != [] {
        RoomClients(DropOrphan(b, Oldest(b.orphans, 0, 0)));
      }
    }

    /** BrokerSubs_OrphanClient. */
    method SubsOrphanClient(k: nat, now: nat)
      requires k < |clients|
      modifies this`clients, this`subs, this`orphans, this`orphanCount
      ensures Abs() == OrphanClient(old(Abs()), k, now)
    {
      hide Take, Count;
      var ref := clients[k].ref;
      OrphanTake(k, now);
      ghost var b1 := Abs();
      var _ := RebindSubs(Owned(ref), None);
      var f := (s: Sub) => if s.owner == Some(ref) then s.(owner := None) else s;
      assert subs == Mapped(b1.subs, f);
    }

    /** BrokerSubs_RemoveClient. */
    method SubsRemoveClient(k: nat)
      requires k < |clients|
      modifies this`clients, this`subs
      ensures Abs() == RemoveClientSubs(old(Abs()), k)
    {
      hide Without;
      UnlinkSubs(Owned(clients[k].ref));
      clients := clients[k := clients[k].(subCount := 0)];
    }

    /** BrokerSubs_EndClientSession. */
    method SubsEndClientSession(k: nat)
      requires k < |clients|
      modifies this`clients, this`subs, this`orphans, this`orphanCount
      ensures Abs() == EndSession(old(Abs()), k)
    {
      hide Without, DropOrphan;
      var id := clients[k].id;
      SubsRemoveClient(k);
      if id != [] {
        var i := FindOrphan(id);
        if i < |orphans| {
          OrphanDropFull(i);
        }
      }
    }

    /** Closing a connection and unlinking the client. */
    method CloseClient(k: nat, now: nat)
      requires k < |clients|
      modifies this`clients, this`subs, this`orphans, this`orphanCount
      ensures Abs() == CloseAt(old(Abs()), k, now)
    {
      hide OrphanClient, EndSession, RemoveClientSubs;
      ClosesKeepLength(Abs(), k, now);
      if !clients[k].established {
        SubsRemoveClient(k);
      } else if clients[k].expiry == 0 {
        SubsEndClientSession(k);
      } else {
        SubsOrphanClient(k, now);
      }
      clients := clients[..k] + clients[k + 1..];
    }

    static lemma ClosesKeepLength(b: Broker, k: nat, now: nat)
      requires k < |b.clients|
      ensures |RemoveClientSubs(b, k).clients| == |b.clients|
      ensures |EndSession(b, k).clients| == |b.clients|
      ensures |OrphanClient(b, k, now).clients| == |b.clients|
    {
      hide Without, MakeRoom, Mapped;
    }

    // ------------------------------------------------------- subscriptions

    /** BrokerSubs_Add: 1 for a new subscription, 0 for an update, -1 when the
        client is at its cap. */
    method SubsAdd(k: nat, filter: bytes, qos: QoS) returns (rc: int)
      requires k < |clients| && ClientAt(clients, clients[k].ref) == k && clients[k].established
      modifies this`clients, this`subs
      ensures Abs() == Subscribe(old(Abs()), old(clients)[k].ref, filter, qos)
      ensures rc == 1 <==> |subs| == |old(subs)| + 1
      ensures rc == -1 <==> SubAt(old(subs), old(clients)[k].ref, filter) == |old(subs)|
                            && old(clients)[k].subCount >= caps.subs
    {
      var c := clients[k];
      var i := FindSub(c.ref, filter);
      if i < |subs| {
        subs := subs[i := subs[i].(qos := qos)];
        return 0;
      }
      if c.subCount >= caps.subs {
        return -1;
      }
      subs := [Sub(Some(c.ref), c.id, filter, qos)] + subs;
      clients := clients[k := c.(subCount := c.subCount + 1)];
      return 1;
    }

    /** BrokerSubs_Remove. */
    method SubsRemove(k: nat, filter: bytes)
      requires k < |clients| && ClientAt(clients, clients[k].ref) == k
      modifies this`clients, this`subs
      ensures Abs() == Unsubscribe(old(Abs()), old(clients)[k].ref, filter)
    {
      var c := clients[k];
      var i := FindSub(c.ref, filter);
      if i < |subs| {
        subs := subs[..i] + subs[i + 1..];
        if c.subCount > 0 {
          clients := clients[k := c.(subCount := c.subCount - 1)];
        } else {
          assert clients[k := c] == clients;
        }
      }
    }

    /** BrokerSubs_ReassociateClient. */
    method SubsReassociate(k: nat) returns (n: nat)
      requires k < |clients|
      modifies this`clients, this`subs
      ensures (Abs(), n) == Reassociate(old(Abs()), k)
    {
      hide Count;
      var c := clients[k];
      ghost var b := Abs();
      var p := Belongs(clients, c.id);
      n := RebindSubs(p, Some(c.ref));
      clients := clients[k := c.(subCount := c.subCount + n)];
      var f := (s: Sub) => if Belongs(b.clients, c.id)(s) then s.(owner := Some(c.ref)) else s;
      assert subs == Mapped(b.subs, f);
    }

    // ------------------------------------------------------ inbound QoS 2

    /** BrokerInboundQos2_Contains. */
    method Qos2Contains(k: nat, pid: nat) returns (found: bool)
      requires k < |clients|
      ensures found <==> pid != 0 && pid in clients[k].q2
    {
      if pid == 0 { return false; }
      var q := clients[k].q2;
      for i := 0 to |q|
        invariant pid !in q[..i]
      {
        if q[i] == pid { return true; }
      }
      assert q[..|q|] == q;
      return false;
    }

    /** The QoS 2 part of an inbound PUBLISH; true when it is fanned out. */
    method ReceivePublish2(k: nat, pid: nat, now: nat) returns (fanOut: bool)
      requires k < |clients| && ClientAt(clients, clients[k].ref) == k && clients[k].established && pid != 0
      modifies this
      ensures Abs() == Publish2(old(Abs()), old(clients)[k].ref, pid, now)
      ensures fanOut <==> log == old(log) + [Fan(old(clients)[k].sid, pid)]
    {
      hide CloseAt;
      var c := clients[k];
      var dup := Qos2Contains(k, pid);
      if dup { return false; }
      if c.q2Count >= caps.q2 {
        CloseKeepsLog(Abs(), k, now);
        CloseClient(k, now);
        return false;
      }
      clients := clients[k := c.(q2 := [pid] + c.q2, q2Count := c.q2Count + 1)];
      log := log + [Fan(c.sid, pid)];
      return true;
    }

    static lemma CloseKeepsLog(b: Broker, k: nat, now: nat)
      requires k < |b.clients|
      ensures CloseAt(b, k, now).log == b.log
    {
      hide Without, MakeRoom, Mapped;
      var i := OrphanNamed(b.orphans, b.clients[k].id);
      RoomLog(if i < |b.orphans| then RemoveOrphan(b, i) else b);
    }

    static lemma {:induction false} RoomLog(b: Broker)
      ensures MakeRoom(b).log == b.log
      decreases |b.orphans|
    {
      hide Without, Oldest;
      if b.orphanCount >= b.caps.orphans && b.orphans != [] {
        RoomLog(DropOrphan(b, Oldest(b.orphans, 0, 0)));
      }
    }

    /** PUBREL: BrokerInboundQos2_Remove. */
    method ReceivePubRel(k: nat, pid: nat)
      requires k < |clients| && ClientAt(clients, clients[k].ref) == k && clients[k].established && pid != 0
      modifies this
      ensures Abs() == Release2(old(Abs()), old(clients)[k].ref, pid)
    {
      var c := clients[k];
      var i := 0;
      while i < |c.q2| && c.q2[i] != pid
        invariant i <= |c.q2| && forall j :: 0 <= j < i ==> c.q2[j] != pid
      {
        i := i + 1;
      }
      assert i == PidAt(c.q2, pid);
      if i < |c.q2| {
        var n := if c.q2Count > 0 then c.q2Count - 1 else c.q2Count;
        clients := clients[k := c.(q2 := c.q2[..i] + c.q2[i + 1..], q2Count := n)];
      } else {
        assert clients[k := c] == clients;
      }
      log := log + [Rel(c.sid, pid)];
    }

    /** BrokerOrphan_ExpireSweep: scan, drop, scan again. */
    method ExpireSweep(now: nat)
      modifies this`subs, this`orphans, this`orphanCount
      ensures Abs() == Sweep(old(Abs()), now)
    {
      hide Without;
      var dropped := true;
      while dropped
        invariant Sweep(Abs(), now) == Sweep(old(Abs()), now)
        invariant !dropped ==> FirstExpired(orphans, now) == |orphans|
        decreases |orphans|, if dropped then 1 else 0
      {
        dropped := false;
        var i := 0;
        while i < |orphans| && !Expired(orphans[i], now)
          invariant i <= |orphans| && forall j :: 0 <= j < i ==> !Expired(orphans[j], now)
        {
          i := i + 1;
        }
        assert i == FirstExpired(orphans, now);
        if i < |orphans| {
          OrphanDropFull(i);
          dropped := true;
        }
      }
    }

    // ------------------------------------------------------------ connect

    /** Connections that close one after another. */
    method CloseClients(refs: seq<nat>, now: nat)
      modifies this`clients, this`subs, this`orphans, this`orphanCount
      ensures Abs() == CloseAll(old(Abs()), refs, now)
    {
      hide CloseAt;
      for i := 0 to |refs|
        invariant Abs() == CloseAll(old(Abs()), refs[..i], now)
      {
        assert refs[..i + 1][..i] == refs[..i];
        var k := FindClient(refs[i]);
        if k < |clients| {
          CloseClient(k, now);
        }
      }
      assert refs[..|refs|] == refs;
    }

    /** The takeover of the client at j by the one at k. */
    method TakeOver(r: nat, o: nat, clean: bool) returns (present: bool)
      requires ClientAt(clients, r) < |clients| && ClientAt(clients, o) < |clients| && r != o
      modifies this`clients, this`subs
      ensures (Abs(), present) == Takeover(old(Abs()), r, o, clean)
    {
      hide Reassociate, RemoveClientSubs;
      var k := FindClient(r);
      var j := FindClient(o);
      ReassociateLength(Abs(), k);
      present := false;
      if Survives(clients[j], clean) {
        var n := SubsReassociate(k);
        var c, prior := clients[k], clients[j];
        if Persists(prior) && prior.q2Count > 0 {
          clients := clients[k := c.(q2 := prior.q2, q2Count := prior.q2Count, sid := prior.sid)]
                            [j := prior.(q2 := [], q2Count := 0)];
          present := true;
        } else {
          clients := clients[k := c.(sid := prior.sid)][j := prior];
          present := n > 0;
        }
      }
      RemoveKeepsLength(Abs(), j);
      SubsRemoveClient(j);
      clients := clients[..j] + clients[j + 1..];
    }

    static lemma ReassociateLength(b: Broker, k: nat)
      requires k < |b.clients|
      ensures |Reassociate(b, k).0.clients| == |b.clients|
    {
    }

    static lemma RemoveKeepsLength(b: Broker, j: nat)
      requires j < |b.clients|
      ensures |RemoveClientSubs(b, j).clients| == |b.clients|
    {
    }

    /** BrokerOrphan_Reclaim, as far as ownership goes. */
    method ReclaimOrphan(k: nat) returns (found: bool)
      requires k < |clients|
      modifies this`clients, this`orphans, this`orphanCount
      ensures (Abs(), found) == Reclaim(old(Abs()), k)
    {
      var c := clients[k];
      var i := FindOrphan(c.id);
      if i == |orphans| { return false; }
      var o := orphans[i];
      var expiry := if c.expiry == NEVER then o.expiry else c.expiry;
      clients := clients[k := c.(expiry := expiry, q2 := o.q2, q2Count := o.q2Count, sid := o.sid)];
      OrphanRemove(i);
      return true;
    }

    /** Clean Start: BrokerSubs_RemoveByClientId and the removal of the orphan. */
    method DiscardSession(k: nat)
      requires k < |clients|
      modifies this`subs, this`orphans, this`orphanCount
      ensures Abs() == Discard(old(Abs()), k)
    {
      hide Without, Belongs;
      var id := clients[k].id;
      UnlinkSubs(Belongs(clients, id));
      var i := FindOrphan(id);
      if i < |orphans| {
        OrphanRemove(i);
      }
    }

    /** The older connection or the orphaned subscriptions of the identifier. */
    method MeetOlder(r: nat, h: Hello, closing: seq<nat>, now: nat) returns (present: bool)
      modifies this`clients, this`subs, this`orphans, this`orphanCount
      ensures (Abs(), present) == Meet(old(Abs()), r, h, closing, now)
    {
      hide CloseAll, Takeover, Reassociate;
      var j := FindByClientId(h.id, r);
      present := false;
      if j < |clients| {
        var o := clients[j].ref;
        CloseClients(Others(closing, r, o), now);
        var k1 := FindClient(r);
        var j1 := FindClient(o);
        if k1 < |clients| && j1 < |clients| && r != o {
          present := TakeOver(r, o, h.clean);
        }
      } else if !h.clean {
        var k := FindClient(r);
        if k < |clients| {
          var n := SubsReassociate(k);
          present := n > 0;
        }
      }
    }

    /** The session part of an accepted BrokerHandle_Connect. */
    method HandleConnect(r: nat, h: Hello, closing: seq<nat>, now: nat) returns (present: bool)
      modifies this
      ensures (Abs(), present) == Connect(old(Abs()), r, h, closing, now)
    {
      hide Meet, Discard, Reclaim;
      var k := FindClient(r);
      if k == |clients| || clients[k].established || h.id == [] { return false; }
      clients := clients[k := clients[k].(id := h.id, established := true, v5 := h.v5, clean := h.clean,
                                          expiry := Expiry(h), sid := nextSid)];
      nextSid := nextSid + 1;
      present := MeetOlder(r, h, closing, now);
      var k1 := FindClient(r);
      if k1 < |clients| {
        if h.clean {
          DiscardSession(k1);
        } else {
          var reclaimed := ReclaimOrphan(k1);
          present := present || reclaimed;
        }
      }
    }
  }
}
