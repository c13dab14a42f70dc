/** Who owns a session (src/mqtt_broker.c, dynamic-memory build): clients,
    subscriptions, orphaned sessions and the inbound QoS 2 state that travels
    with a session. The transition functions.

    `sid` and `log` are history: sid numbers sessions in the order they began,
    log records every fan-out of an inbound QoS 2 PUBLISH and every PUBREL. */
module Sessions {
  import opened Common

  const NEVER: nat := 0xFFFF_FFFF

  datatype Client = Client(ref: nat, id: bytes, established: bool, v5: bool, clean: bool, expiry: nat,
                           subCount: int, q2: seq<nat>, q2Count: int, sid: nat)

  datatype Orphan = Orphan(id: bytes, expiry: nat, since: nat, q2: seq<nat>, q2Count: int, sid: nat)

  /** A subscription, bound to a connected client or kept for an orphan. */
  datatype Sub = Sub(owner: Option<nat>, id: bytes, filter: bytes, qos: QoS)

  datatype Mark = Fan(sid: nat, pid: nat) | Rel(sid: nat, pid: nat)

  datatype Caps = Caps(orphans: nat, subs: nat, q2: nat)

  datatype Broker = Broker(clients: seq<Client>, subs: seq<Sub>, orphans: seq<Orphan>, orphanCount: int,
                           caps: Caps, nextSid: nat, log: seq<Mark>)

  // ------------------------------------------------------------- the lists

  function Without(s: seq<Sub>, p: Sub -> bool): seq<Sub> {
    if s == [] then []
    else if p(s[0]) then Without(s[1..], p)
    else [s[0]] + Without(s[1..], p)
  }

  function Count(s: seq<Sub>, p: Sub -> bool): nat {
    if s == [] then 0 else (if p(s[0]) then 1 else 0) + Count(s[1..], p)
  }

  function Mapped(s: seq<Sub>, f: Sub -> Sub): (r: seq<Sub>)
    ensures |r| == |s| && forall i :: 0 <= i < |s| ==> r[i] == f(s[i])
  {
    if s == [] then [] else [f(s[0])] + Mapped(s[1..], f)
  }

  /** Index of the client object, or |cs|. */
  function ClientAt(cs: seq<Client>, ref: nat): (k: nat)
    ensures k <= |cs| && (k < |cs| ==> cs[k].ref == ref)
    ensures forall j :: 0 <= j < k ==> cs[j].ref != ref
  {
    if cs == [] || cs[0].ref == ref then 0 else 1 + ClientAt(cs[1..], ref)
  }

  /** BrokerClient_FindByClientId. */
  function ClientNamed(cs: seq<Client>, id: bytes, exclude: nat): (k: nat)
    ensures k <= |cs| && (k < |cs| ==> cs[k].ref != exclude && cs[k].id == id)
    ensures forall j :: 0 <= j < k ==> !(cs[j].ref != exclude && cs[j].id == id)
  {
    if cs == [] || (cs[0].ref != exclude && cs[0].id == id) then 0 else 1 + ClientNamed(cs[1..], id, exclude)
  }

  /** BrokerOrphan_Find. */
  function OrphanNamed(os: seq<Orphan>, id: bytes): (k: nat)
    ensures k <= |os| && (k < |os| ==> os[k].id == id)
    ensures forall j :: 0 <= j < k ==> os[j].id != id
  {
    if os == [] || os[0].id == id then 0 else 1 + OrphanNamed(os[1..], id)
  }

  function Owned(ref: nat): Sub -> bool {
    (s: Sub) => s.owner == Some(ref)
  }

  function Named(id: bytes): Sub -> bool {
    (s: Sub) => s.id == id
  }

  function Unbound(id: bytes): Sub -> bool {
    (s: Sub) => s.owner.None? && s.id == id
  }

  /** The subscription belongs to id, by its owner's identifier when bound. */
  function Belongs(cs: seq<Client>, id: bytes): Sub -> bool {
    (s: Sub) =>
      match s.owner
      case None => s.id == id
      case Some(r) => var k := ClientAt(cs, r); k < |cs| && cs[k].id == id
  }

  // --------------------------------------------------------------- orphans

  /** BrokerOrphan_Remove. */
  function RemoveOrphan(b: Broker, i: nat): Broker
    requires i < |b.orphans|
  {
    b.(orphans := RemoveAt(b.orphans, i), orphanCount := if b.orphanCount > 0 then b.orphanCount - 1 else b.orphanCount)
  }

  /** BrokerOrphan_DropFull. */
  function DropOrphan(b: Broker, i: nat): Broker
    requires i < |b.orphans|
  {
    RemoveOrphan(b.(subs := Without(b.subs, Unbound(b.orphans[i].id))), i)
  }

  /** The scan of BrokerOrphan_EvictOldest from index i: the earliest of the
      oldest. */
  function Oldest(os: seq<Orphan>, i: nat, best: nat): (k: nat)
    requires i <= |os| && best < |os|
    ensures k < |os|
    decreases |os| - i
  {
    if i == |os| then best else Oldest(os, i + 1, if os[i].since < os[best].since then i else best)
  }

  /** The cap loop of BrokerOrphan_Take. */
  function MakeRoom(b: Broker): Broker
    decreases |b.orphans|
  {
    if b.orphanCount >= b.caps.orphans && b.orphans != [] then MakeRoom(DropOrphan(b, Oldest(b.orphans, 0, 0)))
    else b
  }

  /** BrokerOrphan_Take for the client at k. */
  function Take(b: Broker, k: nat, now: nat): Broker
    requires k < |b.clients|
  {
    var c := b.clients[k];
    var i := OrphanNamed(b.orphans, c.id);
    var b1 := MakeRoom(if i < |b.orphans| then RemoveOrphan(b, i) else b);
    b1.(orphans := [Orphan(c.id, c.expiry, now, c.q2, c.q2Count, c.sid)] + b1.orphans,
        orphanCount := b1.orphanCount + 1,
        clients := b.clients[k := c.(q2 := [], q2Count := 0)])
  }

  /** BrokerSubs_OrphanClient. */
  function OrphanClient(b: Broker, k: nat, now: nat): Broker
    requires k < |b.clients|
  {
    var ref := b.clients[k].ref;
    var b1 := Take(b, k, now);
    b1.(subs := Mapped(b1.subs, (s: Sub) => if s.owner == Some(ref) then s.(owner := None) else s))
  }

  /** BrokerSubs_RemoveClient. */
  function RemoveClientSubs(b: Broker, k: nat): Broker
    requires k < |b.clients|
  {
    b.(subs := Without(b.subs, Owned(b.clients[k].ref)), clients := b.clients[k := b.clients[k].(subCount := 0)])
  }

  /** BrokerSubs_EndClientSession. */
  function EndSession(b: Broker, k: nat): Broker
    requires k < |b.clients|
  {
    var b1 := RemoveClientSubs(b, k);
    var i := OrphanNamed(b1.orphans, b.clients[k].id);
    if b.clients[k].id != [] && i < |b1.orphans| then DropOrphan(b1, i) else b1
  }

  /** BrokerClient_Remove. */
  function Unlink(b: Broker, k: nat): Broker
    requires k < |b.clients|
  {
    b.(clients := RemoveAt(b.clients, k))
  }

  /** Every way a connection ends: the session is dropped, ended or orphaned. */
  function CloseAt(b: Broker, k: nat, now: nat): Broker
    requires k < |b.clients|
  {
    var c := b.clients[k];
    if !c.established then Unlink(RemoveClientSubs(b, k), k)
    else if c.expiry == 0 then Unlink(EndSession(b, k), k)
    else Unlink(OrphanClient(b, k, now), k)
  }

  function Close(b: Broker, ref: nat, now: nat): Broker {
    var k := ClientAt(b.clients, ref);
    if k < |b.clients| then CloseAt(b, k, now) else b
  }

  /** Connections that close while a takeover publishes the old Will. */
  function CloseAll(b: Broker, refs: seq<nat>, now: nat): Broker {
    if refs == [] then b else Close(CloseAll(b, refs[..|refs| - 1], now), refs[|refs| - 1], now)
  }

  // --------------------------------------------------------------- connect

  datatype Hello = Hello(id: bytes, v5: bool, clean: bool, expiry: nat)

  /** The session expiry a CONNECT asks for; version 3.1.1 has two values. */
  function Expiry(h: Hello): nat {
    if h.v5 then h.expiry else if h.clean then 0 else NEVER
  }

  /** BrokerSubs_ReassociateClient: how many subscriptions it moved, too. */
  function Reassociate(b: Broker, k: nat): (Broker, nat)
    requires k < |b.clients|
  {
    var c := b.clients[k];
    var n := Count(b.subs, Belongs(b.clients, c.id));
    (b.(subs := Mapped(b.subs, (s: Sub) => if Belongs(b.clients, c.id)(s) then s.(owner := Some(c.ref)) else s),
        clients := b.clients[k := c.(subCount := c.subCount + n)]), n)
  }

  /** Does the old connection's session survive its takeover? */
  predicate Survives(prior: Client, clean: bool) {
    !clean && prior.expiry != 0
  }

  /** BrokerInboundQos2_Takeover's own survival check. */
  predicate Persists(prior: Client) {
    if prior.v5 then prior.expiry != 0 else !prior.clean
  }

  /** Subscriptions and QoS 2 state pass from the client at j to the one at k. */
  function Inherit(b: Broker, k: nat, j: nat): (Broker, bool)
    requires k < |b.clients| && j < |b.clients| && j != k
  {
    var (b1, n) := Reassociate(b, k);
    var c, prior := b1.clients[k], b1.clients[j];
    var moved := Persists(prior) && prior.q2Count > 0;
    (b1.(clients := b1.clients[k := if moved then c.(q2 := prior.q2, q2Count := prior.q2Count, sid := prior.sid)
                                    else c.(sid := prior.sid)]
                              [j := if moved then prior.(q2 := [], q2Count := 0) else prior]),
     n > 0 || moved)
  }

  /** The takeover branch: r is the new connection, o the old one. */
  function Takeover(b: Broker, r: nat, o: nat, clean: bool): (Broker, bool)
    requires ClientAt(b.clients, r) < |b.clients| && ClientAt(b.clients, o) < |b.clients| && r != o
  {
    var k, j := ClientAt(b.clients, r), ClientAt(b.clients, o);
    var (b1, present) := if Survives(b.clients[j], clean) then Inherit(b, k, j) else (b, false);
    (Unlink(RemoveClientSubs(b1, j), j), present)
  }

  /** BrokerOrphan_Reclaim, as far as ownership goes. */
  function Reclaim(b: Broker, k: nat): (Broker, bool)
    requires k < |b.clients|
  {
    var c := b.clients[k];
    var i := OrphanNamed(b.orphans, c.id);
    if i == |b.orphans| then (b, false)
    else
      var o := b.orphans[i];
      (RemoveOrphan(b.(clients := b.clients[k := c.(expiry := if c.expiry == NEVER then o.expiry else c.expiry,
                                                    q2 := o.q2, q2Count := o.q2Count, sid := o.sid)]), i), true)
  }

  /** Clean Start discards whatever is left of the previous session. */
  function Discard(b: Broker, k: nat): Broker
    requires k < |b.clients|
  {
    var id := b.clients[k].id;
    var b1 := b.(subs := Without(b.subs, Belongs(b.clients, id)));
    var i := OrphanNamed(b1.orphans, id);
    if i < |b1.orphans| then RemoveOrphan(b1, i) else b1
  }

  /** The connection takes its identifier; its session has a new number unless
      it turns out to resume one. */
  function Greet(b: Broker, k: nat, h: Hello): Broker
    requires k < |b.clients|
  {
    b.(clients := b.clients[k := b.clients[k].(id := h.id, established := true, v5 := h.v5, clean := h.clean,
                                               expiry := Expiry(h), sid := b.nextSid)],
       nextSid := b.nextSid + 1)
  }

  /** The references among refs other than a and b. */
  function Others(refs: seq<nat>, a: nat, b: nat): (r: seq<nat>)
    ensures forall i :: 0 <= i < |r| ==> r[i] != a && r[i] != b
  {
    if refs == [] then []
    else if refs[0] == a || refs[0] == b then Others(refs[1..], a, b)
    else [refs[0]] + Others(refs[1..], a, b)
  }

  /** What precedes the clean or resume decision. */
  function Meet(b: Broker, r: nat, h: Hello, closing: seq<nat>, now: nat): (Broker, bool) {
    var j := ClientNamed(b.clients, h.id, r);
    if j < |b.clients| then
      var o := b.clients[j].ref;
      var b1 := CloseAll(b, Others(closing, r, o), now);
      if ClientAt(b1.clients, r) < |b1.clients| && ClientAt(b1.clients, o) < |b1.clients| && r != o
      then Takeover(b1, r, o, h.clean) else (b1, false)
    else
      var k := ClientAt(b.clients, r);
      if k < |b.clients| && !h.clean then var (b1, n) := Reassociate(b, k); (b1, n > 0) else (b, false)
  }

  /** The session part of an accepted BrokerHandle_Connect; the flag is
      Session Present. */
  function Connect(b: Broker, r: nat, h: Hello, closing: seq<nat>, now: nat): (Broker, bool) {
    var k := ClientAt(b.clients, r);
    if k == |b.clients| || b.clients[k].established || h.id == [] then (b, false)
    else
      var (b1, present) := Meet(Greet(b, k, h), r, h, closing, now);
      var k1 := ClientAt(b1.clients, r);
      if k1 == |b1.clients| then (b1, present)
      else if h.clean then (Discard(b1, k1), present)
      else
        var (b2, reclaimed) := Reclaim(b1, k1);
        (b2, present || reclaimed)
  }

  // --------------------------------------------------------- subscriptions

  /** Index of the client's subscription to filter, or |subs|. */
  function SubAt(subs: seq<Sub>, ref: nat, filter: bytes): (k: nat)
    ensures k <= |subs| && (k < |subs| ==> subs[k].owner == Some(ref) && subs[k].filter == filter)
    ensures forall j :: 0 <= j < k ==> !(subs[j].owner == Some(ref) && subs[j].filter == filter)
  {
    if subs == [] || (subs[0].owner == Some(ref) && subs[0].filter == filter) then 0
    else 1 + SubAt(subs[1..], ref, filter)
  }

  /** BrokerSubs_Add: updated, refused at the cap, or added at the head. */
  function Subscribe(b: Broker, r: nat, filter: bytes, qos: QoS): Broker {
    var k, i := ClientAt(b.clients, r), SubAt(b.subs, r, filter);
    if k == |b.clients| || !b.clients[k].established then b
    else if i < |b.subs| then b.(subs := b.subs[i := b.subs[i].(qos := qos)])
    else if b.clients[k].subCount >= b.caps.subs then b
    else
      var c := b.clients[k];
      b.(subs := [Sub(Some(r), c.id, filter, qos)] + b.subs, clients := b.clients[k := c.(subCount := c.subCount + 1)])
  }

  /** BrokerSubs_Remove. */
  function Unsubscribe(b: Broker, r: nat, filter: bytes): Broker {
    var k, i := ClientAt(b.clients, r), SubAt(b.subs, r, filter);
    if k == |b.clients| || i == |b.subs| then b
    else
      var c := b.clients[k];
      b.(subs := RemoveAt(b.subs, i),
         clients := b.clients[k := c.(subCount := if c.subCount > 0 then c.subCount - 1 else c.subCount)])
  }

  // --------------------------------------------------------- inbound QoS 2

  /** The QoS 2 part of BrokerHandle_Publish: a packet identifier awaiting
      PUBREL is a duplicate; beyond the cap the connection is closed. */
  function Publish2(b: Broker, r: nat, pid: nat, now: nat): Broker {
    var k := ClientAt(b.clients, r);
    if k == |b.clients| || !b.clients[k].established || pid == 0 then b
    else
      var c := b.clients[k];
      if pid in c.q2 then b
      else if c.q2Count >= b.caps.q2 then CloseAt(b, k, now)
      else b.(clients := b.clients[k := c.(q2 := [pid] + c.q2, q2Count := c.q2Count + 1)],
              log := b.log + [Fan(c.sid, pid)])
  }

  function PidAt(q: seq<nat>, pid: nat): (k: nat)
    ensures k <= |q| && (k < |q| ==> q[k] == pid)
    ensures forall j :: 0 <= j < k ==> q[j] != pid
  {
    if q == [] || q[0] == pid then 0 else 1 + PidAt(q[1..], pid)
  }

  /** PUBREL: BrokerInboundQos2_Remove. */
  function Release2(b: Broker, r: nat, pid: nat): Broker {
    var k := ClientAt(b.clients, r);
    if k == |b.clients| || !b.clients[k].established || pid == 0 then b
    else
      var c := b.clients[k];
      var i := PidAt(c.q2, pid);
      var c' := if i == |c.q2| then c
        else c.(q2 := RemoveAt(c.q2, i), q2Count := if c.q2Count > 0 then c.q2Count - 1 else c.q2Count);
      b.(clients := b.clients[k := c'], log := b.log + [Rel(c.sid, pid)])
  }

  // ------------------------------------------------------------------ runs

  predicate Expired(o: Orphan, now: nat) {
    o.expiry != NEVER && now >= o.since && now - o.since >= o.expiry
  }

  function FirstExpired(os: seq<Orphan>, now: nat): (k: nat)
    ensures k <= |os| && (k < |os| ==> Expired(os[k], now))
    ensures forall j :: 0 <= j < k ==> !Expired(os[j], now)
  {
    if os == [] || Expired(os[0], now) then 0 else 1 + FirstExpired(os[1..], now)
  }

  /** BrokerOrphan_ExpireSweep: rescans from the head after each removal. */
  function Sweep(b: Broker, now: nat): Broker
    decreases |b.orphans|
  {
    var i := FirstExpired(b.orphans, now);
    if i == |b.orphans| then b else Sweep(DropOrphan(b, i), now)
  }

  datatype Event =
    | EvAccept(ref: nat)
    | EvConnect(ref: nat, hello: Hello, closing: seq<nat>, now: nat)
    | EvSetExpiry(ref: nat, expiry: nat)
    | EvClose(ref: nat, now: nat)
    | EvSubscribe(ref: nat, filter: bytes, qos: QoS)
    | EvUnsubscribe(ref: nat, filter: bytes)
    | EvPublish2(ref: nat, pid: nat, now: nat)
    | EvRelease2(ref: nat, pid: nat)
    | EvSweep(now: nat)

  /** The Session Expiry of a version 5 DISCONNECT, which the close follows;
      from zero it may not be raised. */
  function SetExpiry(b: Broker, r: nat, expiry: nat): Broker {
    var k := ClientAt(b.clients, r);
    if k == |b.clients| || !b.clients[k].v5 || b.clients[k].expiry == 0 then b
    else b.(clients := b.clients[k := b.clients[k].(expiry := expiry)])
  }

  function Step(b: Broker, ev: Event): Broker {
    match ev
    case EvAccept(r) =>
      if ClientAt(b.clients, r) < |b.clients| then b
      else b.(clients := [Client(r, [], false, false, false, 0, 0, [], 0, 0)] + b.clients)
    case EvConnect(r, h, closing, now) => Connect(b, r, h, closing, now).0
    case EvSetExpiry(r, e) => SetExpiry(b, r, e)
    case EvClose(r, now) => Close(b, r, now)
    case EvSubscribe(r, f, q) => Subscribe(b, r, f, q)
    case EvUnsubscribe(r, f) => Unsubscribe(b, r, f)
    case EvPublish2(r, pid, now) => Publish2(b, r, pid, now)
    case EvRelease2(r, pid) => Release2(b, r, pid)
    case EvSweep(now) => Sweep(b, now)
  }

  function Run(b: Broker, evs: seq<Event>): Broker {
    if evs == [] then b else Step(Run(b, evs[..|evs| - 1]), evs[|evs| - 1])
  }

  predicate CapsOk(caps: Caps) {
    caps.orphans > 0 && caps.subs > 0 && caps.q2 > 0
  }

  function Initial(caps: Caps): Broker {
    Broker([], [], [], 0, caps, 0, [])
  }
}
