/** Progress: what a drain sends, what an acknowledgement lets through, and how
    messages enter and leave the queue. */
module OutQueueProgress {
  import opened Common
  import opened PacketId
  import opened OutQueue
  import opened OutQueueInvariant
  import opened OutQueueLoss
  import OutQueueResume

  // ------------------------------------------------- the drain, entry by entry

  /** What is left of an entry the drain has passed: a QoS 0 message and one
      that does not encode go, any other awaits its acknowledgement. */
  function Survivor(e: Entry): seq<Entry> {
    if e.phase == Queued && (e.qos == 0 || e.encLen == 0) then []
    else if e.phase == Queued then [e.(phase := PublishSent, dup := false)]
    else if e.phase == PubrelSent then [e.(dup := false)]
    else [e]
  }

  function Survivors(q: seq<Entry>): seq<Entry> {
    if q == [] then [] else Survivor(q[0]) + Survivors(q[1..])
  }

  /** What passing an entry puts on the wire; its first byte may be there. */
  function Lines(conn: nat, e: Entry, started: bool): seq<Wire> {
    if e.phase == Queued && e.encLen != 0 then
      (if started then [] else [Header(conn, e.seqno, e.qos, e.dup)]) + [Done(conn, e.seqno)]
    else if e.phase == PubrelSent && e.dup then [Rel(conn, e.seqno)]
    else []
  }

  function Said(conn: nat, q: seq<Entry>, started: bool): seq<Wire> {
    if q == [] then [] else Lines(conn, q[0], started) + Said(conn, q[1..], started && !Needs(q[0]))
  }

  function Launch(e: Entry): nat {
    if e.phase == Queued && e.qos > 0 && e.encLen != 0 then 1 else 0
  }

  /** How many entries passing puts in flight. */
  function Launched(q: seq<Entry>): nat {
    if q == [] then 0 else Launch(q[0]) + Launched(q[1..])
  }

  ghost predicate AllComplete(ws: seq<Write>) {
    forall i :: 0 <= i < |ws| ==> ws[i] == Complete
  }

  /** An unfinished write is that of the next entry from i on to be written. */
  predicate Ready(s: Session, i: nat)
    requires i <= |s.q|
  {
    s.pendLen != 0 || s.partial ==>
      var c := i + Cursor(s.q[i..]);
      && c < |s.q| && (s.q[c].phase == Queued ==> s.q[c].encLen != 0)
      && (s.pendLen != 0 ==> s.pendLen == WriteLen(s.q[c]))
  }

  lemma ReadyNext(s: Session, i: nat)
    requires i < |s.q| && Ready(s, i) && !Needs(s.q[i])
    ensures Ready(s, i + 1)
  {
    assert s.q[i..][1..] == s.q[i + 1..];
  }

  lemma ReadyHere(s: Session, i: nat)
    requires i < |s.q| && Ready(s, i) && Needs(s.q[i])
    ensures s.pendLen != 0 ==> s.pendLen == WriteLen(s.q[i])
    ensures s.pendLen != 0 || s.partial ==> (s.q[i].phase == Queued ==> s.q[i].encLen != 0)
  {
  }

  /** One visit: on, with the entry passed, or out. */
  ghost predicate Visited(s: Session, i: nat, w: Write, s': Session, v: Verdict)
    requires i < |s.q|
  {
    var e := s.q[i];
    match v
    case Onward =>
      && |Survivor(e)| == 1 && s'.q == s.q[i := Survivor(e)[0]] && Moved(s, e, s') && Ready(s', i + 1)
    case Again =>
      && Survivor(e) == [] && s'.q == RemoveAt(s.q, i) && Moved(s, e, s') && Ready(s', i)
    case Stop(rc) =>
      if rc == Capped then s' == s && e.phase == Queued && e.qos > 0 && s.inflight >= s.cap
      else
        && (rc == InProgress || rc == WriteError) && w != Complete && Needs(e) && Writes(s, i)
        && i + |s.q| - i - 1 <= |s'.q| && s'.q[..i] == s.q[..i] && s.log <= s'.log
        && s'.q[|s'.q| - (|s.q| - i - 1)..] == s.q[i + 1..]
  }

  /** The entry e has been passed. */
  predicate Moved(s: Session, e: Entry, s': Session) {
    && s'.log == s.log + Lines(s.conn, e, s.partial)
    && s'.partial == (s.partial && !Needs(e))
    && s'.inflight == s.inflight + Launch(e)
    && s'.conn == s.conn && s'.cap == s.cap
  }

  lemma VisitForm(s: Session, i: nat, w: Write)
    requires i < |s.q| && Ready(s, i)
    ensures Visited(s, i, w, Visit(s, i, w).0, Visit(s, i, w).1)
  {
    var e := s.q[i];
    if !Needs(e) {
      ReadyNext(s, i);
      assert s.q[i := e] == s.q;
      assert e.phase == PubrelSent ==> e.(dup := false) == e;
      assert s.log + [] == s.log;
    } else {
      ReadyHere(s, i);
      hide Ready;
      if e.phase != Queued {
        RelForm(s, i, w);
      } else if e.qos > 0 && s.inflight >= s.cap {
      } else if e.encLen == 0 {
        assert s.log + [] == s.log;
        ReadyIdle(Visit(s, i, w).0, i);
      } else {
        PublishForm(s, i, w);
      }
    }
  }

  lemma ReadyIdle(s: Session, i: nat)
    requires i <= |s.q| && s.pendLen == 0 && !s.partial
    ensures Ready(s, i)
  {
  }

  lemma RelForm(s: Session, i: nat, w: Write)
    requires i < |s.q| && s.q[i].phase == PubrelSent && s.q[i].dup && (s.pendLen != 0 ==> s.pendLen == REL_LEN)
    ensures Visited(s, i, w, Visit(s, i, w).0, Visit(s, i, w).1)
  {
    hide Ready, Cursor;
    var s' := Visit(s, i, w).0;
    if w == Complete {
      ReadyIdle(s', i + 1);
    }
  }

  lemma PublishForm(s: Session, i: nat, w: Write)
    requires i < |s.q| && s.q[i].phase == Queued && s.q[i].encLen != 0
    requires (s.pendLen != 0 ==> s.pendLen == s.q[i].encLen) && !(s.q[i].qos > 0 && s.inflight >= s.cap)
    ensures Visited(s, i, w, Visit(s, i, w).0, Visit(s, i, w).1)
  {
    if w == Complete { PublishDoneForm(s, i); } else { PublishStopForm(s, i, w); }
  }

  lemma PublishDoneForm(s: Session, i: nat)
    requires i < |s.q| && s.q[i].phase == Queued && s.q[i].encLen != 0
    requires (s.pendLen != 0 ==> s.pendLen == s.q[i].encLen) && !(s.q[i].qos > 0 && s.inflight >= s.cap)
    ensures Visited(s, i, Complete, Visit(s, i, Complete).0, Visit(s, i, Complete).1)
  {
    hide Ready, Cursor;
    ReadyIdle(Visit(s, i, Complete).0, if s.q[i].qos == 0 then i else i + 1);
    SaidAppends(s.log, [Header(s.conn, s.q[i].seqno, s.q[i].qos, s.q[i].dup)], [Done(s.conn, s.q[i].seqno)]);
    SaidAppends(s.log, [], [Done(s.conn, s.q[i].seqno)]);
  }

  lemma PublishStopForm(s: Session, i: nat, w: Write)
    requires i < |s.q| && s.q[i].phase == Queued && s.q[i].encLen != 0 && w != Complete
    requires (s.pendLen != 0 ==> s.pendLen == s.q[i].encLen) && !(s.q[i].qos > 0 && s.inflight >= s.cap)
    ensures Visited(s, i, w, Visit(s, i, w).0, Visit(s, i, w).1)
  {
    hide Ready, Cursor, Survivor, Lines;
  }

  // ------------------------------------------------------- the whole drain

  /** A drain from i that passed everything before stop. */
  ghost predicate Drained(s: Session, i: nat, stop: nat, ws: seq<Write>, d: Session, rc: Rc)
    requires i <= stop <= |s.q|
  {
    var passed := s.q[i..stop];
    var p := i + |Survivors(passed)|;
    && p <= |d.q| && d.q[..p] == s.q[..i] + Survivors(passed)
    && s.log + Said(s.conn, passed, s.partial) <= d.log
    && (AllComplete(ws) ==> rc == Sent || rc == Capped)
    && (rc == Sent || rc == Capped ==>
          && d.q[p..] == s.q[stop..] && d.log == s.log + Said(s.conn, passed, s.partial)
          && d.inflight == s.inflight + Launched(passed) && d.cap == s.cap)
    && (rc == Sent ==> stop == |s.q|)
    && (rc == Capped ==> stop < |s.q| && s.q[stop].phase == Queued && s.q[stop].qos > 0 && d.inflight >= d.cap)
    && (rc != Sent && rc != Capped ==>
          && (rc == InProgress || rc == WriteError) && stop < |s.q| && Needs(s.q[stop])
          && |s.q| - stop - 1 <= |d.q| && d.q[|d.q| - (|s.q| - stop - 1)..] == s.q[stop + 1..])
  }

  lemma {:induction false} DrainForm(s: Session, i: nat, ws: seq<Write>) returns (stop: nat)
    requires i <= |s.q| && Ready(s, i)
    ensures i <= stop <= |s.q| && Drained(s, i, stop, ws, DrainFrom(s, i, ws).0, DrainFrom(s, i, ws).1)
    decreases |s.q| - i
  {
    hide Visit, Writes, Ready, Visited, Drained;
    if i == |s.q| {
      stop := i;
      DrainedAll(s, ws);
    } else {
      VisitForm(s, i, First(ws));
      var ws' := if Writes(s, i) then Rest(ws) else ws;
      var (s', v) := Visit(s, i, First(ws));
      var (d, rc) := DrainFrom(s, i, ws);
      VisitedFacts(s, i, First(ws), s', v);
      match v
      case Onward =>
        stop := DrainForm(s', i + 1, ws');
        DrainedOnward(s, i, stop, ws, s', ws', d, rc);
      case Again =>
        var n := DrainForm(s', i, ws');
        stop := n + 1;
        DrainedAgain(s, i, n, ws, s', ws', d, rc);
      case Stop(c) =>
        stop := i;
        DrainedStop(s, i, ws, s', c);
    }
  }

  lemma VisitedFacts(s: Session, i: nat, w: Write, s': Session, v: Verdict)
    requires i < |s.q| && Visited(s, i, w, s', v)
    ensures v == Onward ==> |s'.q| == |s.q| && Ready(s', i + 1)
    ensures v == Again ==> |s'.q| == |s.q| - 1 && Ready(s', i)
  {
    hide Ready;
  }

  lemma DrainedAll(s: Session, ws: seq<Write>)
    ensures Drained(s, |s.q|, |s.q|, ws, s, Sent)
  {
    assert s.q[|s.q|..|s.q|] == [] && s.q[..|s.q|] + [] == s.q && s.log + [] == s.log;
  }

  lemma DrainedStop(s: Session, i: nat, ws: seq<Write>, s': Session, rc: Rc)
    requires i < |s.q| && Visited(s, i, First(ws), s', Stop(rc))
    ensures Drained(s, i, i, ws, s', rc)
  {
    hide Writes, Needs;
    assert s.q[i..i] == [] && s.q[..i] + [] == s.q[..i] && s.log + [] == s.log;
  }

  lemma SaidCons(conn: nat, q: seq<Entry>, i: nat, stop: nat, started: bool)
    requires i < stop <= |q|
    ensures Survivors(q[i..stop]) == Survivor(q[i]) + Survivors(q[i + 1..stop])
    ensures Said(conn, q[i..stop], started)
            == Lines(conn, q[i], started) + Said(conn, q[i + 1..stop], started && !Needs(q[i]))
    ensures Launched(q[i..stop]) == Launch(q[i]) + Launched(q[i + 1..stop])
  {
    assert q[i..stop][1..] == q[i + 1..stop] && q[i..stop][0] == q[i];
  }

  lemma FrontAll(ws: seq<Write>)
    requires AllComplete(ws)
    ensures AllComplete(Rest(ws))
  {
  }

  lemma DrainedOnward(s: Session, i: nat, stop: nat, ws: seq<Write>, s': Session, ws': seq<Write>, d: Session, rc: Rc)
    requires i < |s.q| && Visited(s, i, First(ws), s', Onward) && |s'.q| == |s.q| && (ws' == ws || ws' == Rest(ws))
    requires i + 1 <= stop <= |s'.q| && Drained(s', i + 1, stop, ws', d, rc)
    ensures Drained(s, i, stop, ws, d, rc)
  {
    hide Ready, Writes, Survivor, Lines, Needs, Survivors, Said, Launched, Launch;
    if AllComplete(ws) { FrontAll(ws); }
    SaidCons(s.conn, s.q, i, stop, s.partial);
    assert s'.q[i + 1..stop] == s.q[i + 1..stop] && s'.q[stop..] == s.q[stop..];
    var tail := Survivors(s.q[i + 1..stop]);
    assert s'.q[..i + 1] == s.q[..i] + Survivor(s.q[i]);
    assert s'.q[..i + 1] + tail == s.q[..i] + (Survivor(s.q[i]) + tail);
    SaidAppends(s.log, Lines(s.conn, s.q[i], s.partial), Said(s.conn, s.q[i + 1..stop], s.partial && !Needs(s.q[i])));
    assert stop < |s.q| ==> s'.q[stop] == s.q[stop] && s'.q[stop + 1..] == s.q[stop + 1..];
  }

  lemma SaidAppends(log: seq<Wire>, a: seq<Wire>, b: seq<Wire>)
    ensures log + a + b == log + (a + b)
  {
  }

  lemma DrainedAgain(s: Session, i: nat, n: nat, ws: seq<Write>, s': Session, ws': seq<Write>, d: Session, rc: Rc)
    requires i < |s.q| && Visited(s, i, First(ws), s', Again) && |s'.q| == |s.q| - 1 && (ws' == ws || ws' == Rest(ws))
    requires i <= n <= |s'.q| && Drained(s', i, n, ws', d, rc)
    ensures Drained(s, i, n + 1, ws, d, rc)
  {
    hide RemoveAt, Ready, Writes, Survivor, Lines, Needs, Survivors, Said, Launched, Launch;
    if AllComplete(ws) { FrontAll(ws); }
    SaidCons(s.conn, s.q, i, n + 1, s.partial);
    RemoveSlices(s.q, i, n);
    assert [] + Survivors(s.q[i + 1..n + 1]) == Survivors(s.q[i + 1..n + 1]);
    SaidAppends(s.log, Lines(s.conn, s.q[i], s.partial), Said(s.conn, s.q[i + 1..n + 1], s.partial && !Needs(s.q[i])));
  }

  lemma RemoveSlices(q: seq<Entry>, i: nat, n: nat)
    requires i <= n < |q|
    ensures var r := RemoveAt(q, i);
      && r[..i] == q[..i] && r[i..n] == q[i + 1..n + 1] && r[n..] == q[n + 1..]
      && (n < |r| ==> r[n] == q[n + 1] && r[n + 1..] == q[n + 2..])
  {
  }

  // ------------------------------------------------------------- members

  lemma {:induction false} SurvivorsFrom(q: seq<Entry>, j: nat) returns (k: nat)
    requires j < |Survivors(q)|
    ensures k < |q| && Survivor(q[k]) == [Survivors(q)[j]]
  {
    var n := |Survivor(q[0])|;
    if j < n {
      k := 0;
    } else {
      assert Survivors(q)[j] == Survivors(q[1..])[j - n];
      var k' := SurvivorsFrom(q[1..], j - n);
      k := k' + 1;
    }
  }

  lemma {:induction false} SurvivorsHave(q: seq<Entry>, k: nat)
    requires k < |q| && Survivor(q[k]) != []
    ensures Survivor(q[k])[0] in Survivors(q)
  {
    if k > 0 {
      SurvivorsHave(q[1..], k - 1);
      assert q[1..][k - 1] == q[k];
    }
  }

  /** The entry's lines are on the wire; only the one a write was begun for has
      its header there already. */
  lemma {:induction false} SaidHas(conn: nat, q: seq<Entry>, started: bool, k: nat, x: Wire)
    requires k < |q| && x in Lines(conn, q[k], started && forall j :: 0 <= j < k ==> !Needs(q[j]))
    ensures x in Said(conn, q, started)
  {
    if k > 0 {
      var t := q[1..];
      assert t[k - 1] == q[k] && forall j :: 0 <= j < |t| ==> t[j] == q[j + 1];
      SaidHas(conn, t, started && !Needs(q[0]), k - 1, x);
    }
  }

  // -------------------------------------------------------------- results

  /** Entry k of s, which the drain to d passed: its PUBLISH is on the wire in
      full and it awaits its acknowledgement, or its PUBREL is; QoS 0 messages
      and what does not encode are gone; what needed nothing is as it was. */
  ghost predicate PassedBy(s: Session, d: Session, k: nat)
    requires k < |s.q| && |s.log| <= |d.log|
  {
    var e, news := s.q[k], d.log[|s.log|..];
    && (e.phase == Queued && e.encLen != 0 ==>
          && Done(s.conn, e.seqno) in news
          && (Header(s.conn, e.seqno, e.qos, e.dup) in news || (s.partial && k == Cursor(s.q))))
    && (e.phase == Queued && e.encLen != 0 && e.qos > 0 ==> e.(phase := PublishSent, dup := false) in d.q)
    && (e.phase == Queued && (e.qos == 0 || e.encLen == 0) ==> forall j :: 0 <= j < |d.q| ==> d.q[j].seqno != e.seqno)
    && (e.phase == PubrelSent && e.dup ==> Rel(s.conn, e.seqno) in news && e.(dup := false) in d.q)
    && (e.phase == PublishSent || (e.phase == PubrelSent && !e.dup) ==> e in d.q)
  }

  lemma PassedEntry(s: Session, d: Session, stop: nat, k: nat)
    requires Entries(s.q, s.next) && k < stop <= |s.q| && (s.partial ==> Cursor(s.q) < |s.q|)
    requires d.q == Survivors(s.q[..stop]) + s.q[stop..] && s.log + Said(s.conn, s.q[..stop], s.partial) == d.log
    ensures PassedBy(s, d, k)
  {
    var q, e := s.q[..stop], s.q[k];
    var news := d.log[|s.log|..];
    assert news == Said(s.conn, q, s.partial) && q[k] == e;
    var started := s.partial && forall j :: 0 <= j < k ==> !Needs(q[j]);
    forall x | x in Lines(s.conn, e, started) ensures x in news { SaidHas(s.conn, q, s.partial, k, x); }
    if e.phase == Queued && e.encLen != 0 {
      assert Lines(s.conn, e, started)[|Lines(s.conn, e, started)| - 1] == Done(s.conn, e.seqno);
      if started {
        assert Needs(e);
        assert forall j :: 0 <= j < k ==> q[j] == s.q[j];
        CursorIs(s.q, k);
      } else {
        assert Lines(s.conn, e, started)[0] == Header(s.conn, e.seqno, e.qos, e.dup);
      }
    }
    if e.phase == PubrelSent && e.dup {
      assert Lines(s.conn, e, started)[0] == Rel(s.conn, e.seqno);
    }
    if Survivor(e) != [] {
      SurvivorsHave(q, k);
    } else {
      forall j | 0 <= j < |d.q| ensures d.q[j].seqno != e.seqno { NotThere(s, d, stop, k, j); }
    }
  }

  lemma NotThere(s: Session, d: Session, stop: nat, k: nat, j: nat)
    requires Entries(s.q, s.next) && k < stop <= |s.q| && Survivor(s.q[k]) == []
    requires d.q == Survivors(s.q[..stop]) + s.q[stop..] && j < |d.q|
    ensures d.q[j].seqno != s.q[k].seqno
  {
    hide Survivors, EntryOk;
    var n := |Survivors(s.q[..stop])|;
    if j < n {
      var i := SurvivorsFrom(s.q[..stop], j);
      assert s.q[..stop][i] == s.q[i] && Survivor(s.q[i]) == [d.q[j]];
      assert Survivor(s.q[i])[0].seqno == s.q[i].seqno && i != k;
      assert i < k || k < i;
    } else {
      assert d.q[j] == s.q[stop..][j - n] == s.q[stop + j - n];
    }
  }

  lemma NoneNeeded(q: seq<Entry>)
    ensures forall j :: 0 <= j < |Survivors(q)| ==> !Needs(Survivors(q)[j])
  {
    forall j | 0 <= j < |Survivors(q)| ensures !Needs(Survivors(q)[j]) {
      var k := SurvivorsFrom(q, j);
      assert Survivor(q[k])[0] == Survivors(q)[j];
    }
  }

  /** What stops a drain whose writes complete: nothing, or the window. */
  ghost predicate StopsOnlyAtCap(s: Session, d: Session, rc: Rc, stop: nat) {
    && stop <= |s.q| && |s.log| <= |d.log| && s.log <= d.log
    && (rc == Sent <==> forall j :: 0 <= j < |d.q| ==> d.q[j].phase != Queued)
    && (rc == Sent <==> stop == |s.q|)
    && (rc == Capped <==>
          var j := FirstQueued(d.q);
          j < |d.q| && d.q[j].qos > 0 && d.inflight >= d.cap)
    && (forall j :: 0 <= j < FirstQueued(d.q) ==> !(d.q[j].phase == PubrelSent && d.q[j].dup))
    && (forall k :: 0 <= k < stop ==> PassedBy(s, d, k))
    && |s.q| - stop <= |d.q| && d.q[|d.q| - (|s.q| - stop)..] == s.q[stop..]
    && (var f := FirstQueued(s.q);
        f < |s.q| ==> f < stop || (s.q[f].qos > 0 && s.inflight >= s.cap))
  }

  /** A drain of a live session with the invariant goes on until the queue is
      done, the next message would exceed the in-flight window, or a write does
      not complete. */
  lemma DrainReaches(s: Session, ws: seq<Write>) returns (stop: nat)
    requires Inv(s) && s.live
    ensures var (d, rc) := Drain(s, ws);
      && (AllComplete(ws) ==> rc == Sent || rc == Capped)
      && rc in {Sent, Capped, InProgress, WriteError}
      && (rc == Sent || rc == Capped ==> StopsOnlyAtCap(s, d, rc, stop))
  {
    hide DrainFrom, AllComplete, PassedBy, Survivors, Said, Launched;
    assert s.q[0..] == s.q;
    assert Ready(s, 0);
    stop := DrainForm(s, 0, ws);
    var (d, rc) := Drain(s, ws);
    if rc == Sent || rc == Capped {
      DrainedFromStart(s, stop, ws, d, rc);
      forall k | 0 <= k < stop ensures PassedBy(s, d, k) { PassedEntry(s, d, stop, k); }
      NoneNeeded(s.q[..stop]);
      if stop <= FirstQueued(s.q) { NoneLaunched(s.q[..stop]); }
      StopShape(s, d, rc, stop, Survivors(s.q[..stop]));
    }
  }

  lemma {:induction false} NoneLaunched(q: seq<Entry>)
    requires forall k :: 0 <= k < |q| ==> q[k].phase != Queued
    ensures Launched(q) == 0
  {
    if q != [] {
      NoneLaunched(q[1..]);
    }
  }

  lemma DrainedFromStart(s: Session, stop: nat, ws: seq<Write>, d: Session, rc: Rc)
    requires stop <= |s.q| && Drained(s, 0, stop, ws, d, rc) && (rc == Sent || rc == Capped)
    ensures d.q == Survivors(s.q[..stop]) + s.q[stop..]
    ensures s.log + Said(s.conn, s.q[..stop], s.partial) == d.log
    ensures d.inflight == s.inflight + Launched(s.q[..stop]) && d.cap == s.cap
    ensures rc == Sent ==> stop == |s.q|
    ensures rc == Capped ==> stop < |s.q| && s.q[stop].phase == Queued && s.q[stop].qos > 0 && d.inflight >= d.cap
  {
    hide Survivors, Said, Launched;
    assert s.q[0..stop] == s.q[..stop];
    var p := |Survivors(s.q[..stop])|;
    assert d.q == d.q[..p] + d.q[p..];
    assert s.q[..0] + Survivors(s.q[..stop]) == Survivors(s.q[..stop]);
  }

  lemma StopShape(s: Session, d: Session, rc: Rc, stop: nat, kept: seq<Entry>)
    requires stop <= |s.q| && d.q == kept + s.q[stop..] && s.log <= d.log && d.cap == s.cap
    requires forall j :: 0 <= j < |kept| ==> !Needs(kept[j])
    requires rc == Sent || rc == Capped
    requires rc == Sent ==> stop == |s.q|
    requires rc == Capped ==> stop < |s.q| && s.q[stop].phase == Queued && s.q[stop].qos > 0 && d.inflight >= d.cap
    requires stop <= FirstQueued(s.q) ==> d.inflight == s.inflight
    requires forall k :: 0 <= k < stop ==> PassedBy(s, d, k)
    ensures StopsOnlyAtCap(s, d, rc, stop)
  {
    hide PassedBy;
    assert d.q[|d.q| - (|s.q| - stop)..] == s.q[stop..];
    assert forall j :: 0 <= j < |kept| ==> d.q[j] == kept[j];
    var j := FirstQueued(d.q);
    assert j >= |kept|;
    if rc == Capped {
      assert d.q[|kept|] == s.q[stop];
      assert j == |kept|;
    } else {
      assert d.q == kept;
    }
  }

  /** Progress over every run: however the writes go, a drain stops for the
      window, for a write that did not complete, or for nothing; and whatever
      it passed is on the wire. */
  lemma DrainProgress(lim: Limits, rm: nat, evs: seq<Event>, ws: seq<Write>) returns (stop: nat)
    requires LimitsOk(lim) && Run(Initial(lim, rm), evs).live
    ensures var s := Run(Initial(lim, rm), evs);
      var (d, rc) := Drain(s, ws);
      && (AllComplete(ws) ==> rc == Sent || rc == Capped)
      && rc in {Sent, Capped, InProgress, WriteError}
      && (rc == Sent || rc == Capped ==> StopsOnlyAtCap(s, d, rc, stop))
  {
    hide Inv, Run, Drain, StopsOnlyAtCap, AllComplete;
    InitialOk(lim, rm);
    RunKeeps(Initial(lim, rm), evs);
    stop := DrainReaches(Run(Initial(lim, rm), evs), ws);
  }

  // ------------------------------------------------------- acknowledgements

  /** The acknowledgement that ends an entry in its present state. */
  predicate Ends(ev: Event, e: Entry) {
    match ev
    case EvPubAck(pid, _) => pid == e.pid && e.phase == PublishSent
    case EvPubReject(pid, _) => pid == e.pid && e.phase == PublishSent && e.qos == 2
    case EvPubComp(pid, _) => pid == e.pid && e.phase == PubrelSent
    case _ => false
  }

  function WritesOf(ev: Event): seq<Write> {
    match ev
    case EvPubAck(_, ws) => ws
    case EvPubReject(_, ws) => ws
    case EvPubComp(_, ws) => ws
    case _ => []
  }

  lemma EndsIs(s: Session, ev: Event, k: nat)
    requires Inv(s) && CanRead(s) && k < |s.q| && Ends(ev, s.q[k])
    ensures Step(s, ev) == Drain(Unlink(s, k), WritesOf(ev)).0
  {
    assert EntryOk(s.q[k]);
    var phase := s.q[k].phase;
    var i := Find(s.q, s.q[k].pid, phase);
    assert i <= k;
    assert EntryOk(s.q[i]);
    hide Drain, Unlink, Find;
  }

  /** An acknowledgement in every run ends its entry, and the freed slot is
      used: the first message still queued goes out if the window was not
      overfull, and the drain goes on until the window is full again or nothing
      is queued. */
  lemma AckLetsNextGo(lim: Limits, rm: nat, evs: seq<Event>, ev: Event, k: nat)
    requires LimitsOk(lim) && CanRead(Run(Initial(lim, rm), evs)) && k < |Run(Initial(lim, rm), evs).q|
    requires Ends(ev, Run(Initial(lim, rm), evs).q[k]) && AllComplete(WritesOf(ev))
    ensures var s := Run(Initial(lim, rm), evs);
      var d, f := Step(s, ev), FirstQueued(s.q);
      && s.log <= d.log
      && (forall j :: 0 <= j < |d.q| ==> d.q[j].seqno != s.q[k].seqno)
      && (var j := FirstQueued(d.q); j < |d.q| ==> d.q[j].qos > 0 && d.inflight >= d.cap)
      && (f < |s.q| && s.q[f].encLen != 0 && (s.q[f].qos == 0 || s.inflight <= s.cap) ==>
            Done(s.conn, s.q[f].seqno) in d.log[|s.log|..])
  {
    hide Run, Drain, AllComplete, Inv, StopsOnlyAtCap;
    var s := Run(Initial(lim, rm), evs);
    InitialOk(lim, rm);
    RunKeeps(Initial(lim, rm), evs);
    EndsIs(s, ev, k);
    UnlinkKeeps(s, k);
    var stop := DrainReaches(Unlink(s, k), WritesOf(ev));
    AckDrained(s, k, Drain(Unlink(s, k), WritesOf(ev)).0, Drain(Unlink(s, k), WritesOf(ev)).1, stop);
    UnlinkedGone(s, k);
    DrainOnly(Unlink(s, k), WritesOf(ev), s.q[k].seqno);
    hide Step, Unlink;
  }

  lemma AckDrained(s: Session, k: nat, d: Session, rc: Rc, stop: nat)
    requires Inv(s) && k < |s.q| && s.q[k].phase != Queued
    requires StopsOnlyAtCap(Unlink(s, k), d, rc, stop) && (rc == Sent || rc == Capped)
    ensures s.log <= d.log
    ensures var j := FirstQueued(d.q); j < |d.q| ==> d.q[j].qos > 0 && d.inflight >= d.cap
    ensures var f := FirstQueued(s.q);
      f < |s.q| && s.q[f].encLen != 0 && (s.q[f].qos == 0 || s.inflight <= s.cap) ==>
        Done(s.conn, s.q[f].seqno) in d.log[|s.log|..]
  {
    var u, f := Unlink(s, k), FirstQueued(s.q);
    FlyingSome(s, k);
    hide Inv, Flying;
    if f < |s.q| {
      var g := if f < k then f else f - 1;
      assert u.q[g] == s.q[f];
      assert forall j :: 0 <= j < g ==> u.q[j] == s.q[if j < k then j else j + 1];
      assert FirstQueued(u.q) == g;
      if s.q[f].encLen != 0 && (s.q[f].qos == 0 || s.inflight <= s.cap) {
        assert g < stop;
        assert PassedBy(u, d, g);
      }
    }
  }

  lemma FlyingSome(s: Session, k: nat)
    requires Inv(s) && k < |s.q| && s.q[k].phase != Queued
    ensures s.inflight > 0
  {
    FlyingAround(s.q, k);
  }

  /** A drain brings in no message. */
  lemma DrainOnly(s: Session, ws: seq<Write>, n: nat)
    requires forall j :: 0 <= j < |s.q| ==> s.q[j].seqno != n
    ensures forall j :: 0 <= j < |Drain(s, ws).0.q| ==> Drain(s, ws).0.q[j].seqno != n
  {
    hide DrainFrom, Cores;
    DrainCores(s, 0, ws);
    forall j | 0 <= j < |Drain(s, ws).0.q| ensures Drain(s, ws).0.q[j].seqno != n {
      CoreFrom(Drain(s, ws).0.q, s.q, j);
    }
  }

  lemma UnlinkedGone(s: Session, k: nat)
    requires Inv(s) && k < |s.q|
    ensures forall j :: 0 <= j < |Unlink(s, k).q| ==> Unlink(s, k).q[j].seqno != s.q[k].seqno
  {
    var q := Unlink(s, k).q;
    forall j | 0 <= j < |q| ensures q[j].seqno != s.q[k].seqno {
      assert q[j] == s.q[if j < k then j else j + 1];
    }
  }

  /** The QoS 2 handshake, in every run: a PUBREC moves the entry on, keeping
      its slot, and the PUBCOMP after it ends it. */
  lemma HandshakeCompletes(lim: Limits, rm: nat, evs: seq<Event>, k: nat, ws: seq<Write>)
    requires LimitsOk(lim) && CanRead(Run(Initial(lim, rm), evs)) && k < |Run(Initial(lim, rm), evs).q|
    requires var e := Run(Initial(lim, rm), evs).q[k];
      e.qos == 2 && e.phase == PublishSent
    ensures var s := Run(Initial(lim, rm), evs);
      var pid, n := s.q[k].pid, s.q[k].seqno;
      var r := Step(s, EvPubRec(pid));
      && r.q == s.q[k := s.q[k].(phase := PubrelSent)] && r.inflight == s.inflight
      && r.log == s.log + [RecAccepted(n)] && CanRead(r)
      && forall j :: 0 <= j < |Step(r, EvPubComp(pid, ws)).q| ==> Step(r, EvPubComp(pid, ws)).q[j].seqno != n
  {
    hide Run, Drain, Inv;
    var s := Run(Initial(lim, rm), evs);
    InitialOk(lim, rm);
    RunKeeps(Initial(lim, rm), evs);
    var pid := s.q[k].pid;
    RecIs(s, k);
    var r := Step(s, EvPubRec(pid));
    StepKeeps(s, EvPubRec(pid));
    EndsIs(r, EvPubComp(pid, ws), k);
    UnlinkedGone(r, k);
    DrainOnly(Unlink(r, k), ws, s.q[k].seqno);
  }

  lemma RecIs(s: Session, k: nat)
    requires Inv(s) && CanRead(s) && k < |s.q| && s.q[k].qos == 2 && s.q[k].phase == PublishSent
    ensures Step(s, EvPubRec(s.q[k].pid))
            == s.(q := s.q[k := s.q[k].(phase := PubrelSent)], log := s.log + [RecAccepted(s.q[k].seqno)])
  {
    assert EntryOk(s.q[k]);
    var i := Find(s.q, s.q[k].pid, PublishSent);
    assert i <= k;
    assert EntryOk(s.q[i]);
  }

  // ------------------------------------------------------------- provenance

  /** What no transition changes about an entry. */
  function Core(e: Entry): Entry {
    e.(phase := Queued, dup := false, diskSeq := 0)
  }

  function Cores(q: seq<Entry>): set<Entry> {
    set e | e in q :: Core(e)
  }

  lemma CoreFrom(a: seq<Entry>, b: seq<Entry>, j: nat)
    requires Cores(a) <= Cores(b) && j < |a|
    ensures exists k :: 0 <= k < |b| && Core(b[k]) == Core(a[j])
  {
    assert a[j] in a;
    assert Core(a[j]) in Cores(b);
    var e :| e in b && Core(e) == Core(a[j]);
    var k :| 0 <= k < |b| && b[k] == e;
  }

  lemma CoresRemove(q: seq<Entry>, i: nat)
    requires i < |q|
    ensures Cores(RemoveAt(q, i)) <= Cores(q)
  {
  }

  lemma CoresUpdate(q: seq<Entry>, i: nat, e: Entry)
    requires i < |q| && Core(e) == Core(q[i])
    ensures Cores(q[i := e]) <= Cores(q)
  {
    assert q[i] in q;
  }

  lemma VisitCores(s: Session, i: nat, w: Write)
    requires i < |s.q|
    ensures Cores(Visit(s, i, w).0.q) <= Cores(s.q)
    ensures Visit(s, i, w).1 == Onward ==> |Visit(s, i, w).0.q| == |s.q|
    ensures Visit(s, i, w).1 == Again ==> i <= |Visit(s, i, w).0.q| < |s.q|
  {
    hide Cores, Visit;
    var e := s.q[i];
    VisitShapes(s, i, w);
    CoresRemove(s.q, i);
    CoresUpdate(s.q, i, e.(dup := false));
    CoresUpdate(s.q, i, e.(dup := true));
    CoresUpdate(s.q, i, e.(phase := PublishSent, dup := false));
  }

  lemma {:induction false} DrainCores(s: Session, i: nat, ws: seq<Write>)
    requires i <= |s.q|
    ensures Cores(DrainFrom(s, i, ws).0.q) <= Cores(s.q)
    decreases |s.q| - i
  {
    hide Visit, Writes, Cores;
    if i < |s.q| {
      VisitCores(s, i, First(ws));
      var ws' := if Writes(s, i) then Rest(ws) else ws;
      var (s', v) := Visit(s, i, First(ws));
      match v
      case Onward => DrainCores(s', i + 1, ws');
      case Again => DrainCores(s', i, ws');
      case Stop(_) =>
    }
  }

  lemma AckCores(s: Session, k: nat, ws: seq<Write>)
    requires k < |s.q|
    ensures Cores(Drain(Unlink(s, k), ws).0.q) <= Cores(s.q)
  {
    hide Cores, DrainFrom;
    CoresRemove(s.q, k);
    DrainCores(Unlink(s, k), 0, ws);
  }

  lemma {:induction false} EvictCores(s: Session)
    ensures Cores(Evict(s).q) <= Cores(s.q)
    decreases |s.q|
  {
    if s.count >= s.lim.offline && s.q != [] {
      CoresRemove(s.q, 0);
      EvictCores(EvictHead(s));
    }
  }

  lemma MappedCores(a: seq<Entry>, b: seq<Entry>)
    requires |a| == |b| && forall k :: 0 <= k < |a| ==> Core(a[k]) == Core(b[k])
    ensures Cores(a) <= Cores(b)
  {
    forall x | x in Cores(a) ensures x in Cores(b) {
      var e :| e in a && Core(e) == x;
      var k :| 0 <= k < |a| && a[k] == e;
      assert b[k] in b;
    }
  }

  lemma AppendCores(q: seq<Entry>, e: Entry)
    ensures Cores(q + [e]) == Cores(q) + {Core(e)}
  {
    assert forall x :: x in q + [e] <==> x in q || x == e;
  }

  /** The entry an enqueue adds. */
  predicate Entering(s: Session, ev: Event, x: Entry) {
    && ev.EvEnqueue? && x.seqno == s.next && x.qos == ev.qos && x.encLen == ev.encLen && x.msg == ev.msg
    && (x.qos == 0 ==> x.pid == 0)
  }

  /** Every entry is one of before, with message, QoS, packet identifier and
      length as they were, or the one just enqueued, with those of the event. */
  lemma EntriesComeFrom(s: Session, ev: Event, j: nat)
    requires j < |Step(s, ev).q|
    ensures var x := Step(s, ev).q[j];
      || (exists k :: 0 <= k < |s.q| && Core(s.q[k]) == Core(x))
      || (Entering(s, ev, x) && x.phase == Queued)
  {
    hide Cores, DrainFrom, Evict;
    match ev
    case EvEnqueue(qos, encLen, m, nextPid) => EnqueueFrom(s, ev, j);
    case EvDrain(ws) =>
      if s.live { DrainCores(s, 0, ws); CoreFrom(Step(s, ev).q, s.q, j); }
    case EvPubAck(pid, ws) =>
      var k := Find(s.q, pid, PublishSent);
      if k < |s.q| { AckCores(s, k, ws); }
      CoreFromEither(s, ev, j);
    case EvPubReject(pid, ws) =>
      var k := Find(s.q, pid, PublishSent);
      if k < |s.q| { AckCores(s, k, ws); }
      CoreFromEither(s, ev, j);
    case EvPubComp(pid, ws) =>
      var k := Find(s.q, pid, PubrelSent);
      if k < |s.q| { AckCores(s, k, ws); }
      CoreFromEither(s, ev, j);
    case EvPubRec(pid) =>
      var k := Find(s.q, pid, PublishSent);
      if k < |s.q| { CoresUpdate(s.q, k, s.q[k].(phase := PubrelSent)); }
      CoreFromEither(s, ev, j);
    case EvOrphan =>
      if s.live {
        var k, q := FirstQueued(s.q), DropHalfSent(s).q;
        if k < |s.q| { CoresRemove(s.q, k); }
        MappedCores(Step(s, ev).q, q);
        CoreFrom(Step(s, ev).q, s.q, j);
      }
    case EvReclaim(rm) =>
      if !s.live {
        MappedCores(Step(s, ev).q, s.q);
        CoreFrom(Step(s, ev).q, s.q, j);
      }
    case EvFresh(_) =>
    case EvTakeover(_) =>
  }

  lemma CoreFromEither(s: Session, ev: Event, j: nat)
    requires j < |Step(s, ev).q| && (Step(s, ev).q == s.q || Cores(Step(s, ev).q) <= Cores(s.q))
    ensures exists k :: 0 <= k < |s.q| && Core(s.q[k]) == Core(Step(s, ev).q[j])
  {
    hide Step;
    CoreFrom(Step(s, ev).q, s.q, j);
  }

  lemma EnqueueFrom(s: Session, ev: Event, j: nat)
    requires ev.EvEnqueue? && j < |Step(s, ev).q|
    ensures var x := Step(s, ev).q[j];
      || (exists k :: 0 <= k < |s.q| && Core(s.q[k]) == Core(x))
      || (Entering(s, ev, x) && x.phase == Queued)
  {
    hide Cores, Evict, NextFree;
    var x := Step(s, ev).q[j];
    EvictCores(s);
    EvictNext(s);
    if s.live {
      if j < |s.q| { assert Core(s.q[j]) == Core(x); }
    } else {
      var q := Evict(s).q;
      assert (j < |q| && x == q[j]) || Step(s, ev).q == s.q || Entering(s, ev, x);
      if j < |q| && x == q[j] { CoreFrom(q, s.q, j); }
    }
  }

  lemma {:induction false} EvictNext(s: Session)
    ensures Evict(s).next == s.next
    decreases |s.q|
  {
    if s.count >= s.lim.offline && s.q != [] { EvictNext(EvictHead(s)); }
  }

  /** keep is what stays of the orphan s; d is s with the message entered behind
      it, under a free identifier and the next enqueue_seq. Only QoS 0 and an
      exhausted enqueue_seq refuse it. */
  ghost predicate OfflineEntered(s: Session, keep: seq<Entry>, d: Session, qos: QoS, encLen: nat, m: Message) {
    if qos == 0 then d == s
    else if keep != [] && keep[|keep| - 1].diskSeq == MAX_SEQ then d.q == keep
    else
      && |d.q| == |keep| + 1 && d.q[..|keep|] == keep
      && var x := d.q[|keep|];
         && x.seqno == s.next && x.qos == qos && x.msg == m && x.encLen == encLen && x.phase == Queued && !x.dup
         && 1 <= x.pid <= MAX_ID && (forall k :: 0 <= k < |keep| ==> keep[k].pid != x.pid)
         && x.diskSeq == if keep == [] then 1 else keep[|keep| - 1].diskSeq + 1
  }

  /** In every run a message for an orphaned session enters its queue, the
      oldest entries making room. */
  lemma OfflineEnters(lim: Limits, rm: nat, evs: seq<Event>, qos: QoS, encLen: nat, m: Message, nextPid: nat)
    requires LimitsOk(lim) && !Run(Initial(lim, rm), evs).live && nextPid <= MAX_ID
    ensures var s := Run(Initial(lim, rm), evs);
      var n := Max(0, |s.q| - s.lim.offline + 1);
      n <= |s.q| && OfflineEntered(s, s.q[n..], Step(s, EvEnqueue(qos, encLen, m, nextPid)), qos, encLen, m)
  {
    hide Run, Inv, Evict, NextFree, Step, OfflineEntered;
    var s := Run(Initial(lim, rm), evs);
    InitialOk(lim, rm);
    RunKeeps(Initial(lim, rm), evs);
    InvBasics(s);
    EvictsOldest(s);
    OfflineIs(s, qos, encLen, m, nextPid);
  }

  lemma OfflineIs(s: Session, qos: QoS, encLen: nat, m: Message, nextPid: nat)
    requires Inv(s) && !s.live && nextPid <= MAX_ID
    ensures OfflineEntered(s, Evict(s).q, Step(s, EvEnqueue(qos, encLen, m, nextPid)), qos, encLen, m)
  {
    hide Inv, Evict, NextFree;
    var keep := Evict(s).q;
    EvictNext(s);
    ShortKeep(s);
    ShortQueueNeverExhausts(nextPid, Pids(keep));
    forall k | 0 <= k < |keep| ensures keep[k].pid != NextFree(nextPid, Pids(keep)) {
      assert Pids(keep)[k] == keep[k].pid;
    }
  }

  lemma ShortKeep(s: Session)
    requires Inv(s)
    ensures |Evict(s).q| < MAX_ID
  {
    hide Inv;
    InvBasics(s);
    EvictsOldest(s);
  }

  // ------------------------------------------------------------------- QoS 0

  /** The queue holds message n, which encodes. */
  ghost predicate There(q: seq<Entry>, n: nat) {
    exists k :: 0 <= k < |q| && q[k].seqno == n && q[k].encLen != 0
  }

  lemma ThereAt(q: seq<Entry>, k: nat)
    requires k < |q| && q[k].encLen != 0
    ensures There(q, q[k].seqno)
  {
  }

  lemma ThereRemove(q: seq<Entry>, i: nat, n: nat)
    requires i < |q| && There(q, n) && (q[i].seqno != n || q[i].encLen == 0)
    ensures There(RemoveAt(q, i), n)
  {
    var k :| 0 <= k < |q| && q[k].seqno == n && q[k].encLen != 0;
    ThereAt(RemoveAt(q, i), if k < i then k else k - 1);
  }

  lemma ThereUpdate(q: seq<Entry>, i: nat, e: Entry, n: nat)
    requires i < |q| && There(q, n) && q[i].seqno == e.seqno && q[i].encLen == e.encLen
    ensures There(q[i := e], n)
  {
    var k :| 0 <= k < |q| && q[k].seqno == n && q[k].encLen != 0;
    ThereAt(q[i := e], k);
  }

  lemma {:induction false} WiredMono(a: seq<Wire>, b: seq<Wire>)
    requires a <= b
    ensures Wired(a) <= Wired(b)
  {
    if |a| < |b| {
      WiredMono(a, b[..|b| - 1]);
    } else {
      assert a == b;
    }
  }

  /** A visit that takes a message out of the queue has put it on the wire. */
  lemma VisitTells(s: Session, i: nat, w: Write, n: nat)
    requires Inv(s) && s.live && i < |s.q| && i <= Cursor(s.q) && There(s.q, n)
    ensures There(Visit(s, i, w).0.q, n) || n in Wired(Visit(s, i, w).0.log)
  {
    hide There, Inv, Cursor, Visit, Wired;
    var e, s' := s.q[i], Visit(s, i, w).0;
    VisitShapes(s, i, w);
    ThereUpdate(s.q, i, e.(dup := false), n);
    ThereUpdate(s.q, i, e.(dup := true), n);
    ThereUpdate(s.q, i, e.(phase := PublishSent, dup := false), n);
    if e.seqno != n || e.encLen == 0 {
      ThereRemove(s.q, i, n);
    } else {
      PartialWired(s, i);
      var l := s.log + [Header(s.conn, e.seqno, e.qos, e.dup)];
      LogGrows(s.log, Header(s.conn, e.seqno, e.qos, e.dup));
      if s.log <= s'.log { WiredMono(s.log, s'.log); }
      if l <= s'.log { WiredMono(l, s'.log); }
    }
  }

  /** What a visit can do to the queue; a message that encodes is taken out
      only behind its header. */
  lemma VisitShapes(s: Session, i: nat, w: Write)
    requires i < |s.q|
    ensures var e, s' := s.q[i], Visit(s, i, w).0;
      && (|| s'.q == s.q || s'.q == s.q[i := e.(dup := false)] || s'.q == s.q[i := e.(dup := true)]
          || s'.q == s.q[i := e.(phase := PublishSent, dup := false)] || s'.q == RemoveAt(s.q, i))
      && (|s'.q| < |s.q| && e.encLen != 0 ==>
            && e.phase == Queued && s.log <= s'.log
            && (s.partial || s.log + [Header(s.conn, e.seqno, e.qos, e.dup)] <= s'.log))
      && (Visit(s, i, w).1 == Onward ==> |s'.q| == |s.q|)
      && (Visit(s, i, w).1 == Again ==> i <= |s'.q| < |s.q|)
  {
    assert s.q[i := s.q[i]] == s.q;
  }

  lemma PartialWired(s: Session, i: nat)
    requires Inv(s) && i < |s.q| && i <= Cursor(s.q)
    ensures s.partial && s.q[i].phase == Queued ==> s.q[i].seqno in Wired(s.log)
  {
  }

  lemma {:induction false} DrainTells(s: Session, i: nat, ws: seq<Write>, n: nat)
    requires Inv(s) && s.live && i <= Cursor(s.q) && There(s.q, n)
    ensures var d := DrainFrom(s, i, ws).0; There(d.q, n) || n in Wired(d.log)
    decreases |s.q| - i
  {
    hide Inv, Visit, Writes, There, Wired, Cursor;
    if i < |s.q| {
      VisitKeeps(s, i, First(ws));
      VisitTells(s, i, First(ws), n);
      var ws' := if Writes(s, i) then Rest(ws) else ws;
      var (s', v) := Visit(s, i, First(ws));
      var at := if v == Onward then i + 1 else i;
      if v.Onward? || v.Again? {
        if There(s'.q, n) {
          DrainTells(s', at, ws', n);
        } else {
          OutQueueResume.DrainExtends(s', at, ws');
          WiredMono(s'.log, DrainFrom(s', at, ws').0.log);
        }
      }
    }
  }

  lemma AckTells(s: Session, i: nat, k: nat, ws: seq<Write>)
    requires Inv(s) && CanRead(s) && i < |s.q| && k < |s.q| && i != k && s.q[k].encLen != 0
    ensures var d := Drain(Unlink(s, i), ws).0; There(d.q, s.q[k].seqno) || s.q[k].seqno in Wired(d.log)
  {
    hide There, Cursor;
    ThereAt(s.q, k);
    assert s.q[i].seqno != s.q[k].seqno;
    ThereRemove(s.q, i, s.q[k].seqno);
    UnlinkKeeps(s, i);
    hide Inv;
    DrainTells(Unlink(s, i), 0, ws, s.q[k].seqno);
  }

  /** A QoS 0 message that encodes leaves the queue only when its first byte has
      gone out, among the oldest of a full offline queue, with its session or a
      takeover, or when its connection ends in the middle of a write. */
  lemma Qos0LeavesOnlyWhen(s: Session, ev: Event, k: nat)
    requires Inv(s) && k < |s.q| && s.q[k].qos == 0 && s.q[k].encLen != 0
    ensures
      || There(Step(s, ev).q, s.q[k].seqno)
      || s.q[k].seqno in Wired(Step(s, ev).log)
      || (ev.EvEnqueue? && !s.live && k <= |s.q| - s.lim.offline)
      || (ev.EvOrphan? && s.live && s.partial)
      || ev.EvFresh?
      || (ev.EvTakeover? && s.live)
  {
    var n := s.q[k].seqno;
    ThereAt(s.q, k);
    assert EntryOk(s.q[k]);
    hide Inv, There, DrainFrom, Wired, Evict, Cursor, EntryOk;
    match ev
    case EvEnqueue(qos, encLen, m, nextPid) => EnqueueThere(s, ev, k);
    case EvDrain(ws) => if s.live { DrainTells(s, 0, ws, n); }
    case EvPubAck(pid, ws) =>
      var i := Find(s.q, pid, PublishSent);
      if CanRead(s) && i < |s.q| { AckTells(s, i, k, ws); }
    case EvPubReject(pid, ws) =>
      var i := Find(s.q, pid, PublishSent);
      if CanRead(s) && i < |s.q| { AckTells(s, i, k, ws); }
    case EvPubComp(pid, ws) =>
      var i := Find(s.q, pid, PubrelSent);
      if CanRead(s) && i < |s.q| { AckTells(s, i, k, ws); }
    case EvPubRec(pid) =>
      var i := Find(s.q, pid, PublishSent);
      if i < |s.q| { ThereUpdate(s.q, i, s.q[i].(phase := PubrelSent), n); }
    case EvOrphan =>
      if s.live && !s.partial { ThereAt(Step(s, ev).q, k); }
    case EvReclaim(rm) =>
      if !s.live { ThereAt(Reclaim(s, rm).q, k); }
    case EvFresh(_) =>
    case EvTakeover(_) =>
  }

  lemma EnqueueThere(s: Session, ev: Event, k: nat)
    requires Inv(s) && k < |s.q| && s.q[k].encLen != 0 && ev.EvEnqueue?
    ensures There(Step(s, ev).q, s.q[k].seqno) || (!s.live && k <= |s.q| - s.lim.offline)
  {
    hide There, FirstFree, Inv, Evict;
    InvBasics(s);
    EvictsOldest(s);
    var m, q' := if s.live then 0 else Max(0, |s.q| - s.lim.offline + 1), Step(s, ev).q;
    assert q' == s.q || s.q[m..] <= q';
    if q' == s.q {
      ThereAt(q', k);
    } else if k >= m {
      assert q'[k - m] == s.q[m..][k - m] == s.q[k];
      ThereAt(q', k - m);
    }
  }
}
