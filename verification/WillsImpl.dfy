/** The Will lists as the broker keeps them, updated in place by walks that a
    fan-out may re-enter. */
module WillsImpl {
  import opened Common
  import opened Wills

  class WillBroker {
    const cap: nat
    const maxTime: nat
    var clients: seq<Client>
    var pending: seq<Pend>
    var clock: nat
    var nextWid: nat
    ghost var log: seq<Fate>

    ghost function Abs(): State
      reads this
    {
      State(clients, pending, cap, maxTime, clock, nextWid, log)
    }

    constructor (cap: nat, maxTime: nat)
      ensures Abs() == Initial(cap, maxTime)
    {
      this.cap, this.maxTime := cap, maxTime;
      clients, pending, clock, nextWid, log := [], [], 0, 0, [];
    }

    method FindClient(ref: nat) returns (k: nat)
      ensures k == ClientAt(clients, ref)
    {
      k := 0;
      while k < |clients| && clients[k].ref != ref
        invariant k <= |clients| && forall j :: 0 <= j < k ==> clients[j].ref != ref
      {
        k := k + 1;
      }
    }

    /** BrokerPendingWill_Cancel. */
    method CancelPending(id: bytes)
      modifies this
      ensures Abs() == Cancel(old(Abs()), id)
    {
      var i := 0;
      while i < |pending| && pending[i].id != id
        invariant i <= |pending| && forall j :: 0 <= j < i ==> pending[j].id != id
      {
        i := i + 1;
      }
      assert i == PendingFor(pending, id);
      if i < |pending| {
        log := log + [Cancelled(pending[i].wid)];
        pending := pending[..i] + pending[i + 1..];
      }
    }

    /** BrokerPendingWill_Add and the clearing of the client's Will; false when
        the pool is full. */
    method AddPending(k: nat) returns (ok: bool)
      requires k < |clients| && clients[k].will.Some?
      modifies this
      ensures ok == (|old(pending)| < cap)
      ensures Abs() == if ok then Defer(old(Abs()), k, old(clients)[k].will.value) else old(Abs())
    {
      var c := clients[k];
      var w := c.will.value;
      if |pending| >= cap { return false; }
      var delay := w.delay;
      if c.expiry != NEVER && c.expiry < delay {
        delay := c.expiry;
      }
      var due := maxTime;
      if clock <= maxTime && delay <= maxTime - clock {
        due := clock + delay;
      }
      pending := [Pend(c.id, w.wid, due, Ending(clock, w.delay, c.expiry, |pending|))] + pending;
      clients := clients[k := c.(will := None)];
      return true;
    }

    /** BrokerClient_PublishWill. */
    method PublishClientWill(k: nat, closing: Closing)
      requires k < |clients|
      modifies this
      ensures Abs() == PublishWill(old(Abs()), k, closing)
      decreases closing, 1
    {
      hide CloseAll, InFront, Due;
      var c := clients[k];
      if c.will.None? { return; }
      var w := c.will.value;
      if w.delay > 0 {
        var ok := AddPending(k);
        if ok { return; }
      }
      var end := Ending(clock, w.delay, c.expiry, |pending|);
      log := log + [Published(w.wid, clock, DueAt(end, maxTime), end)];
      CloseThem(closing);
      var k1 := FindClient(c.ref);
      if k1 < |clients| {
        clients := clients[k1 := clients[k1].(will := None)];
      }
    }

    /** An abnormal close and the removal of the client. */
    method CloseClient(ref: nat, closing: Closing)
      modifies this
      ensures Abs() == Close(old(Abs()), ref, closing)
      decreases closing, 2
    {
      hide PublishWill, InFront;
      var k := FindClient(ref);
      if k < |clients| {
        PublishClientWill(k, closing);
        var k1 := FindClient(ref);
        if k1 < |clients| {
          clients := clients[..k1] + clients[k1 + 1..];
        }
      }
    }

    method CloseThem(closing: Closing)
      modifies this
      ensures Abs() == CloseAll(old(Abs()), closing)
      decreases closing, 0
    {
      hide Close, InFront;
      match closing {
        case Quiet =>
        case Closes(ref, inner, rest) =>
          CloseClient(ref, inner);
          CloseThem(rest);
      }
    }

    /** BrokerPendingWill_Process: each due entry is unlinked after its fan-out,
        found again behind whatever was put in front meanwhile. */
    method ProcessPending(cs: seq<Closing>) returns (activity: bool)
      modifies this
      ensures Abs() == Process(old(Abs()), cs)
    {
      hide Sweep, CloseAll, InFront;
      var now: nat, left: nat, rest := clock, |pending|, cs;
      activity := false;
      while left > 0
        invariant left <= |pending|
        invariant Sweep(Abs(), left, now, rest) == Process(old(Abs()), cs)
      {
        SweepStep(Abs(), left, now, rest);
        var p := pending[|pending| - left];
        if now >= p.due {
          log := log + [Published(p.wid, clock, p.due, p.end)];
          CloseThem(Next(rest));
          var at := |pending| - left;
          pending := pending[..at] + pending[at + 1..];
          rest := Rest(rest);
          activity := true;
        }
        left := left - 1;
      }
      SweepStep(Abs(), 0, now, rest);
    }
  }
}
