/** Last Wills (src/mqtt_broker.c, BrokerClient_PublishWill, BrokerPendingWill_*
    and the takeover and disconnect paths): which Will is published, when, and
    what a publication that closes other connections does to the list.

    `wid` numbers the accepted Wills, `log` records what became of each; both
    are history. */
module Wills {
  import opened Common

  const NEVER: nat := 0xFFFF_FFFF

  datatype Will = Will(wid: nat, delay: nat)

  datatype Client = Client(ref: nat, id: bytes, v5: bool, expiry: nat, will: Option<Will>)

  /** How a connection with a Will ended: when, with which delay and session
      expiry, and how many Wills were waiting. History. */
  datatype Ending = Ending(since: nat, delay: nat, expiry: nat, waiting: nat)

  /** A BrokerPendingWill. */
  datatype Pend = Pend(id: bytes, wid: nat, due: nat, end: Ending)

  datatype Fate =
    | Published(wid: nat, at: nat, due: nat, end: Ending)
    | Dropped(wid: nat)
    | Cancelled(wid: nat)

  datatype State = State(clients: seq<Client>, pending: seq<Pend>, cap: nat, maxTime: nat,
                         clock: nat, nextWid: nat, log: seq<Fate>)

  /** Connections that close while a Will is fanned out, each with what its own
      Will's fan-out closes in turn. */
  datatype Closing = Quiet | Closes(ref: nat, inner: Closing, rest: Closing)

  function ClientAt(cs: seq<Client>, ref: nat): (k: nat)
    ensures k <= |cs| && (k < |cs| ==> cs[k].ref == ref)
    ensures forall j :: 0 <= j < k ==> cs[j].ref != ref
  {
    if cs == [] || cs[0].ref == ref then 0 else 1 + ClientAt(cs[1..], ref)
  }

  function ClientNamed(cs: seq<Client>, id: bytes): (k: nat)
    ensures k <= |cs| && (k < |cs| ==> cs[k].id == id)
    ensures forall j :: 0 <= j < k ==> cs[j].id != id
  {
    if cs == [] || cs[0].id == id then 0 else 1 + ClientNamed(cs[1..], id)
  }

  function PendingFor(ps: seq<Pend>, id: bytes): (k: nat)
    ensures k <= |ps| && (k < |ps| ==> ps[k].id == id)
    ensures forall j :: 0 <= j < k ==> ps[j].id != id
  {
    if ps == [] || ps[0].id == id then 0 else 1 + PendingFor(ps[1..], id)
  }

  /** The earlier of the Will Delay and a finite Session Expiry. */
  function Wait(delay: nat, expiry: nat): nat {
    if expiry != NEVER && expiry < delay then expiry else delay
  }

  /** When a Will deferred now is due; saturates at the end of time. */
  function Due(now: nat, delay: nat, expiry: nat, maxTime: nat): nat {
    if now > maxTime || Wait(delay, expiry) > maxTime - now then maxTime else now + Wait(delay, expiry)
  }

  function SetWill(s: State, k: nat, w: Option<Will>): State
    requires k < |s.clients|
  {
    s.(clients := s.clients[k := s.clients[k].(will := w)])
  }

  /** BrokerClient_ClearWill as a disconnect uses it. */
  function Clear(s: State, k: nat): State
    requires k < |s.clients|
  {
    match s.clients[k].will
    case None => s
    case Some(w) => SetWill(s, k, None).(log := s.log + [Dropped(w.wid)])
  }

  /** The connection of the client at k ends now. */
  function Ends(s: State, k: nat, w: Will): Ending
    requires k < |s.clients|
  {
    Ending(s.clock, w.delay, s.clients[k].expiry, |s.pending|)
  }

  function DueAt(end: Ending, maxTime: nat): nat {
    Due(end.since, end.delay, end.expiry, maxTime)
  }

  /** BrokerPendingWill_Add. */
  function Defer(s: State, k: nat, w: Will): State
    requires k < |s.clients|
  {
    var c, end := s.clients[k], Ends(s, k, w);
    SetWill(s, k, None).(pending := [Pend(c.id, w.wid, DueAt(end, s.maxTime), end)] + s.pending)
  }

  /** Does the Will of the client at k go out at once? Only without a delay or
      when the pool is full. */
  predicate Immediate(s: State, w: Will) {
    w.delay == 0 || |s.pending| >= s.cap
  }

  /** Its fan-out begins. */
  function Announce(s: State, k: nat, w: Will): State
    requires k < |s.clients|
  {
    var end := Ends(s, k, w);
    s.(log := s.log + [Published(w.wid, s.clock, DueAt(end, s.maxTime), end)])
  }

  /** b is a with entries put in front. */
  predicate InFront(a: seq<Pend>, b: seq<Pend>) {
    |a| <= |b| && b[|b| - |a|..] == a
  }

  lemma InFrontTrans(a: seq<Pend>, b: seq<Pend>, c: seq<Pend>)
    requires InFront(a, b) && InFront(b, c)
    ensures InFront(a, c)
  {
    assert c[|c| - |a|..] == c[|c| - |b|..][|b| - |a|..];
  }

  /** BrokerClient_PublishWill for the client at k: deferred when it has a
      delay and the pool has room, published otherwise. The Will stays set
      until its fan-out returns. */
  function PublishWill(s: State, k: nat, closing: Closing): (r: State)
    requires k < |s.clients|
    ensures InFront(s.pending, r.pending)
    decreases closing, 1
  {
    match s.clients[k].will
    case None => s
    case Some(w) =>
      if !Immediate(s, w) then Defer(s, k, w)
      else
        var s1 := CloseAll(Announce(s, k, w), closing);
        var k1 := ClientAt(s1.clients, s.clients[k].ref);
        if k1 < |s1.clients| then SetWill(s1, k1, None) else s1
  }

  function Unlink(s: State, ref: nat): State {
    var k := ClientAt(s.clients, ref);
    if k < |s.clients| then s.(clients := RemoveAt(s.clients, k)) else s
  }

  /** A connection that ends without DISCONNECT. */
  function Close(s: State, ref: nat, closing: Closing): (r: State)
    ensures InFront(s.pending, r.pending)
    decreases closing, 2
  {
    var k := ClientAt(s.clients, ref);
    if k < |s.clients| then Unlink(PublishWill(s, k, closing), ref) else s
  }

  /** The connections a fan-out closes. They only ever put Wills in front of
      the pending list. */
  function CloseAll(s: State, closing: Closing): (r: State)
    ensures InFront(s.pending, r.pending)
    decreases closing, 0
  {
    match closing
    case Quiet => s
    case Closes(ref, inner, rest) =>
      var s1 := Close(s, ref, inner);
      var r := CloseAll(s1, rest);
      InFrontTrans(s.pending, s1.pending, r.pending);
      r
  }

  /** DISCONNECT: reason 0x04 asks for the Will, any other drops it. */
  function Disconnect(s: State, ref: nat, withWill: bool, closing: Closing): State {
    var k := ClientAt(s.clients, ref);
    if k == |s.clients| then s
    else Unlink(if withWill && s.clients[k].v5 then PublishWill(s, k, closing) else Clear(s, k), ref)
  }

  /** BrokerPendingWill_Cancel. */
  function Cancel(s: State, id: bytes): State {
    var i := PendingFor(s.pending, id);
    if i == |s.pending| then s
    else s.(pending := RemoveAt(s.pending, i), log := s.log + [Cancelled(s.pending[i].wid)])
  }

  /** The takeover branch: a version 5 session keeps its Will to itself. */
  function TakeOver(s: State, id: bytes, closing: Closing): State {
    var k := ClientNamed(s.clients, id);
    if k == |s.clients| then s
    else Unlink(if s.clients[k].v5 then Clear(s, k) else PublishWill(s, k, closing), s.clients[k].ref)
  }

  /** A version 3.1.1 Will has no delay. */
  function WillOf(s: State, v5: bool, will: Option<nat>): Option<Will> {
    match will
    case None => None
    case Some(delay) => Some(Will(s.nextWid, if v5 then delay else 0))
  }

  /** An accepted CONNECT, as far as Wills go. */
  function Connect(s: State, ref: nat, id: bytes, v5: bool, expiry: nat, will: Option<nat>, closing: Closing): State {
    if ClientAt(s.clients, ref) < |s.clients| then s
    else
      var s1 := TakeOver(Cancel(s, id), id, closing);
      s1.(clients := [Client(ref, id, v5, expiry, WillOf(s1, v5, will))] + s1.clients,
          nextWid := if will.Some? then s1.nextWid + 1 else s1.nextWid)
  }

  function Next(cs: seq<Closing>): Closing {
    if cs == [] then Quiet else cs[0]
  }

  function Rest(cs: seq<Closing>): seq<Closing> {
    if cs == [] then [] else cs[1..]
  }

  /** The fan-out of a waiting Will begins. */
  function Release(s: State, p: Pend): State {
    s.(log := s.log + [Published(p.wid, s.clock, p.due, p.end)])
  }

  /** BrokerPendingWill_Process with left entries to go: the saved pointer is
      the entry at |pending| - left. A published entry is unlinked after its
      fan-out, wherever it stands by then. */
  function Sweep(s: State, left: nat, now: nat, cs: seq<Closing>): State
    requires left <= |s.pending|
    decreases left
  {
    if left == 0 then s
    else
      var p := s.pending[|s.pending| - left];
      if now >= p.due then
        var s1 := CloseAll(Release(s, p), Next(cs));
        Sweep(s1.(pending := RemoveAt(s1.pending, |s1.pending| - left)), left - 1, now, Rest(cs))
      else Sweep(s, left - 1, now, cs)
  }

  /** One entry of the sweep. */
  lemma SweepStep(s: State, left: nat, now: nat, cs: seq<Closing>)
    requires left <= |s.pending|
    ensures left == 0 ==> Sweep(s, left, now, cs) == s
    ensures left > 0 ==>
      var p := s.pending[|s.pending| - left];
      if now >= p.due then
        var s1 := CloseAll(Release(s, p), Next(cs));
        && InFront(s.pending, s1.pending) && |s.pending| <= |s1.pending|
        && Sweep(s, left, now, cs)
           == Sweep(s1.(pending := RemoveAt(s1.pending, |s1.pending| - left)), left - 1, now, Rest(cs))
      else Sweep(s, left, now, cs) == Sweep(s, left - 1, now, cs)
  {
    hide CloseAll, RemoveAt, Next, Rest, InFront;
    if left > 0 {
      var p := s.pending[|s.pending| - left];
      if now >= p.due {
        FrontLonger(s.pending, CloseAll(Release(s, p), Next(cs)).pending);
      }
    }
  }

  lemma FrontLonger(a: seq<Pend>, b: seq<Pend>)
    requires InFront(a, b)
    ensures |a| <= |b|
  {
  }

  function Process(s: State, cs: seq<Closing>): State {
    Sweep(s, |s.pending|, s.clock, cs)
  }

  // ------------------------------------------------------------------ runs

  datatype Event =
    | EvConnect(ref: nat, id: bytes, v5: bool, expiry: nat, will: Option<nat>, closing: Closing)
    | EvClose(ref: nat, closing: Closing)
    | EvDisconnect(ref: nat, withWill: bool, closing: Closing)
    | EvProcess(closings: seq<Closing>)
    | EvWait(seconds: nat)

  function Step(s: State, ev: Event): State {
    match ev
    case EvConnect(ref, id, v5, expiry, will, closing) => Connect(s, ref, id, v5, expiry, will, closing)
    case EvClose(ref, closing) => Close(s, ref, closing)
    case EvDisconnect(ref, withWill, closing) => Disconnect(s, ref, withWill, closing)
    case EvProcess(cs) => Process(s, cs)
    case EvWait(n) => s.(clock := Max(s.clock, Min(s.clock + n, s.maxTime)))
  }

  function Run(s: State, evs: seq<Event>): State {
    if evs == [] then s else Step(Run(s, evs[..|evs| - 1]), evs[|evs| - 1])
  }

  function Initial(cap: nat, maxTime: nat): State {
    State([], [], cap, maxTime, 0, 0, [])
  }
}
