/** What every transition of the outbound queue keeps. */
module OutQueueInvariant {
  import opened Common
  import opened PacketId
  import opened OutQueue

  // ---------------------------------------------- summaries of the history

  /** Messages whose PUBLISH header has been on the wire. */
  function Wired(log: seq<Wire>): set<nat> {
    if log == [] then {}
    else
      var ev := log[|log| - 1];
      var before := Wired(log[..|log| - 1]);
      if ev.Header? then before + {ev.seqno} else before
  }

  /** Messages whose PUBLISH has been written in full at least once. */
  function Finished(log: seq<Wire>): set<nat> {
    if log == [] then {}
    else
      var ev := log[|log| - 1];
      var before := Finished(log[..|log| - 1]);
      if ev.Done? then before + {ev.seqno} else before
  }

  /** Messages whose PUBREC has been accepted. */
  function Accepted(log: seq<Wire>): set<nat> {
    if log == [] then {}
    else
      var ev := log[|log| - 1];
      var before := Accepted(log[..|log| - 1]);
      if ev.RecAccepted? then before + {ev.seqno} else before
  }

  /** The last message announced on connection c, or -1. */
  function LastOn(log: seq<Wire>, c: nat): int {
    if log == [] then -1
    else if log[|log| - 1].Header? && log[|log| - 1].conn == c then log[|log| - 1].seqno
    else LastOn(log[..|log| - 1], c)
  }

  /** The event may follow the given history. */
  ghost predicate EventOk(log: seq<Wire>, ev: Wire) {
    match ev
    case Header(conn, n, qos, dup) =>
      && (dup <==> n in Wired(log))
      && (qos == 0 ==> !dup)
      && LastOn(log, conn) < n
      && n !in Accepted(log)
    case Done(_, n) => n in Wired(log)
    case _ => true
  }

  ghost predicate LogOk(log: seq<Wire>) {
    log == [] || (LogOk(log[..|log| - 1]) && EventOk(log[..|log| - 1], log[|log| - 1]))
  }

  lemma LogGrows(log: seq<Wire>, ev: Wire)
    ensures Wired(log + [ev]) == if ev.Header? then Wired(log) + {ev.seqno} else Wired(log)
    ensures Finished(log + [ev]) == if ev.Done? then Finished(log) + {ev.seqno} else Finished(log)
    ensures Accepted(log + [ev]) == if ev.RecAccepted? then Accepted(log) + {ev.seqno} else Accepted(log)
    ensures forall c: nat :: LastOn(log + [ev], c)
              == if ev.Header? && ev.conn == c then ev.seqno else LastOn(log, c)
    ensures LogOk(log + [ev]) == (LogOk(log) && EventOk(log, ev))
  {
    assert (log + [ev])[..|log|] == log;
  }

  // -------------------------------------------------------------- counting

  lemma {:induction false} FlyingSplit(a: seq<Entry>, b: seq<Entry>)
    ensures Flying(a + b) == Flying(a) + Flying(b)
  {
    if a == [] {
      assert a + b == b;
    } else {
      assert (a + b)[1..] == a[1..] + b;
      FlyingSplit(a[1..], b);
    }
  }

  lemma FlyingAround(q: seq<Entry>, i: nat)
    requires i < |q|
    ensures Flying(q) == Flying(q[..i]) + (if q[i].phase != Queued then 1 else 0) + Flying(q[i + 1..])
  {
    assert q == q[..i] + q[i..];
    FlyingSplit(q[..i], q[i..]);
  }

  lemma FlyingRemove(q: seq<Entry>, i: nat)
    requires i < |q|
    ensures Flying(RemoveAt(q, i)) == Flying(q) - (if q[i].phase != Queued then 1 else 0)
  {
    FlyingAround(q, i);
    FlyingSplit(q[..i], q[i + 1..]);
  }

  lemma FlyingUpdate(q: seq<Entry>, i: nat, e: Entry)
    requires i < |q|
    ensures Flying(q[i := e]) == Flying(q) - (if q[i].phase != Queued then 1 else 0)
                                 + (if e.phase != Queued then 1 else 0)
  {
    FlyingAround(q, i);
    FlyingAround(q[i := e], i);
    assert q[i := e][..i] == q[..i] && q[i := e][i + 1..] == q[i + 1..];
  }

  /** Entries all in flight, then none: the count is the boundary. */
  lemma {:induction false} FlyingPrefix(q: seq<Entry>, i: nat)
    requires i <= |q|
    requires forall k :: 0 <= k < i ==> q[k].phase != Queued
    requires forall k :: i <= k < |q| ==> q[k].phase == Queued
    ensures Flying(q) == i
    decreases |q|
  {
    if q != [] {
      FlyingPrefix(q[1..], if i == 0 then 0 else i - 1);
    }
  }

  // ---------------------------------------------------------------- cursor

  /** The drain must write for this entry. */
  predicate Needs(e: Entry) {
    e.phase == Queued || (e.phase == PubrelSent && e.dup)
  }

  /** Index of the first entry the drain must write for, or |q|. */
  function Cursor(q: seq<Entry>): (k: nat)
    ensures k <= |q|
    ensures forall j :: 0 <= j < k ==> !Needs(q[j])
    ensures k < |q| ==> Needs(q[k])
  {
    if q == [] || Needs(q[0]) then 0 else 1 + Cursor(q[1..])
  }

  lemma CursorIs(q: seq<Entry>, k: nat)
    requires k <= |q|
    requires forall j :: 0 <= j < k ==> !Needs(q[j])
    requires k < |q| ==> Needs(q[k])
    ensures Cursor(q) == k
  {
    assert !(Cursor(q) < k);
  }

  function WriteLen(e: Entry): nat {
    if e.phase == Queued then e.encLen else REL_LEN
  }

  // ------------------------------------------------------------- invariant

  ghost predicate EntryOk(e: Entry) {
    && (e.qos == 0 ==> e.phase == Queued && !e.dup && e.pid == 0)
    && (e.qos > 0 ==> 1 <= e.pid <= MAX_ID)
    && (e.phase == PubrelSent ==> e.qos == 2)
    && (e.phase == PublishSent ==> !e.dup)
  }

  /** Enqueue order, distinct packet identifiers, lawful phases. */
  ghost predicate Entries(q: seq<Entry>, next: nat) {
    && (forall k :: 0 <= k < |q| ==> EntryOk(q[k]) && q[k].seqno < next)
    && (forall j, k :: 0 <= j < k < |q| ==> q[j].seqno < q[k].seqno)
    && (forall j, k :: 0 <= j < k < |q| && q[j].qos > 0 ==> q[j].pid != q[k].pid)
  }

  /** How an entry's flags reflect the wired, finished and accepted messages.
      Only the entry being written may be a QoS 0 message already announced. */
  ghost predicate FlagsOk(e: Entry, w: set<nat>, f: set<nat>, a: set<nat>, writing: bool) {
    && (e.phase == Queued && e.qos > 0 ==> (e.dup <==> e.seqno in w))
    && (e.phase != Queued ==> e.seqno in w && e.seqno in f)
    && (e.qos == 0 && e.seqno in w ==> writing)
    && (e.qos == 0 ==> e.seqno !in f)
    && (e.seqno in f ==> e.encLen != 0)
    && (e.seqno in a ==> e.phase == PubrelSent)
  }

  ghost predicate Flags(q: seq<Entry>, w: set<nat>, f: set<nat>, a: set<nat>, at: int) {
    forall k :: 0 <= k < |q| ==> FlagsOk(q[k], w, f, a, k == at)
  }

  /** Nothing still to be published precedes what the connection has seen. */
  ghost predicate Order(q: seq<Entry>, last: int, at: int) {
    forall k :: 0 <= k < |q| && q[k].phase == Queued ==>
      last < q[k].seqno || (k == at && last == q[k].seqno)
  }

  /** Messages published in full form a prefix no longer than the widest
      in-flight window the session has had. */
  ghost predicate Prefix(q: seq<Entry>, f: set<nat>, peak: nat) {
    && (forall j, k :: 0 <= j < k < |q| && q[k].seqno in f ==> q[j].seqno in f)
    && (forall k :: 0 <= k < |q| && q[k].seqno in f ==> k < peak)
  }

  /** Position of the entry whose bytes are partly on the wire, or -1. */
  function At(s: Session): int {
    if s.partial then Cursor(s.q) else -1
  }

  ghost predicate Counters(s: Session) {
    && LimitsOk(s.lim)
    && s.count == |s.q| <= Max(s.lim.queued, s.lim.offline)
    && s.inflight == Flying(s.q)
    && (s.live ==> 0 < s.cap <= s.peakCap)
  }

  /** An unfinished write belongs to the entry the drain will resume with. */
  ghost predicate Unfinished(s: Session) {
    var c := Cursor(s.q);
    && (s.partial ==> s.live && c < |s.q|)
    && (s.partial && s.q[c].phase == Queued ==>
          s.q[c].encLen != 0 && s.q[c].seqno in Wired(s.log)
          && LastOn(s.log, s.conn) == s.q[c].seqno)
    && (s.pendLen != 0 ==> s.live && c < |s.q| && s.pendLen == WriteLen(s.q[c]))
  }

  /** The history speaks of past messages and connections only. */
  ghost predicate Bounded(s: Session) {
    && (forall n :: n in Wired(s.log) ==> n < s.next)
    && (forall n :: n in Finished(s.log) ==> n < s.next)
    && (forall n :: n in Accepted(s.log) ==> n < s.next)
    && (forall c :: s.conn < c ==> LastOn(s.log, c) == -1)
    && LastOn(s.log, s.conn) < s.next
  }

  ghost predicate Inv(s: Session) {
    && Counters(s)
    && Entries(s.q, s.next)
    && Flags(s.q, Wired(s.log), Finished(s.log), Accepted(s.log), At(s))
    && (s.live ==> Order(s.q, LastOn(s.log, s.conn), At(s)))
    && Prefix(s.q, Finished(s.log), s.peakCap)
    && Unfinished(s)
    && Bounded(s)
    && LogOk(s.log)
  }

  // --------------------------------------------------------------- moves

  lemma RemoveLists(q: seq<Entry>, i: nat, next: nat, f: set<nat>, peak: nat)
    requires i < |q| && Entries(q, next) && Prefix(q, f, peak)
    ensures Entries(RemoveAt(q, i), next) && Prefix(RemoveAt(q, i), f, peak)
  {
  }

  /** Unlinking leaves flags and order alone when no write is unfinished
      elsewhere. */
  lemma RemoveFlags(q: seq<Entry>, i: nat, w: set<nat>, f: set<nat>, a: set<nat>, last: int, at: int)
    requires i < |q| && Flags(q, w, f, a, at) && (at == -1 || at == i)
    ensures Flags(RemoveAt(q, i), w, f, a, -1)
    ensures Order(q, last, at) ==> Order(RemoveAt(q, i), last, -1)
  {
    var q' := RemoveAt(q, i);
    forall k | 0 <= k < |q'| ensures FlagsOk(q'[k], w, f, a, k == -1) {
      assert FlagsOk(q[if k < i then k else k + 1], w, f, a, (if k < i then k else k + 1) == at);
    }
  }

  lemma UpdateLists(q: seq<Entry>, i: nat, e: Entry, next: nat, f: set<nat>, peak: nat)
    requires i < |q| && Entries(q, next) && Prefix(q, f, peak)
    requires EntryOk(e) && e.seqno == q[i].seqno && e.qos == q[i].qos && e.pid == q[i].pid
    ensures Entries(q[i := e], next) && Prefix(q[i := e], f, peak)
  {
    var q' := q[i := e];
    assert forall k :: 0 <= k < |q| ==>
      q'[k].seqno == q[k].seqno && q'[k].qos == q[k].qos && q'[k].pid == q[k].pid;
  }

  /** Updating an entry once its write is finished. */
  lemma UpdateFlags(q: seq<Entry>, i: nat, e: Entry, w: set<nat>, f: set<nat>, a: set<nat>, last: int, at: int)
    requires i < |q| && Flags(q, w, f, a, at) && (at == -1 || at == i)
    requires FlagsOk(e, w, f, a, false)
    requires e.phase == Queued ==> last < e.seqno
    ensures Flags(q[i := e], w, f, a, -1)
    ensures Order(q, last, at) ==> Order(q[i := e], last, -1)
  {
    var q' := q[i := e];
    forall k | 0 <= k < |q'| ensures FlagsOk(q'[k], w, f, a, k == -1) {
      assert FlagsOk(q[k], w, f, a, k == at);
    }
  }

  lemma CursorAfterUpdate(q: seq<Entry>, i: nat, e: Entry)
    requires i < |q| && i <= Cursor(q) && !Needs(e)
    ensures i + 1 <= Cursor(q[i := e])
  {
    var q' := q[i := e];
    assert forall j :: 0 <= j < i ==> !Needs(q[j]) && q'[j] == q[j];
    assert !Needs(q'[i]);
  }

  lemma CursorAfterRemove(q: seq<Entry>, i: nat)
    requires i < |q| && i <= Cursor(q)
    ensures i <= Cursor(RemoveAt(q, i))
  {
    var q' := RemoveAt(q, i);
    assert forall j :: 0 <= j < i ==> !Needs(q[j]) && q'[j] == q[j];
  }

  lemma RelCompleteKeeps(s: Session, i: nat)
    requires Inv(s) && s.live && i < |s.q| && i <= Cursor(s.q)
    requires s.q[i].phase == PubrelSent && s.q[i].dup
    ensures VisitRel(s, i, Complete).1 == Onward
    ensures Inv(VisitRel(s, i, Complete).0)
    ensures i + 1 <= Cursor(VisitRel(s, i, Complete).0.q)
  {
    hide Wired, Finished, Accepted, LastOn, LogOk, Flying, Cursor;
    var e' := s.q[i].(dup := false);
    LogGrows(s.log, Rel(s.conn, s.q[i].seqno));
    FlyingUpdate(s.q, i, e');
    CursorAfterUpdate(s.q, i, e');
    UpdateLists(s.q, i, e', s.next, Finished(s.log), s.peakCap);
    assert FlagsOk(s.q[i], Wired(s.log), Finished(s.log), Accepted(s.log), i == At(s));
    UpdateFlags(s.q, i, e', Wired(s.log), Finished(s.log), Accepted(s.log), LastOn(s.log, s.conn), At(s));
  }

  lemma RelStopsKeep(s: Session, i: nat, w: Write)
    requires Inv(s) && s.live && i < |s.q| && i <= Cursor(s.q)
    requires s.q[i].phase == PubrelSent && s.q[i].dup && w != Complete
    ensures VisitRel(s, i, w).1.Stop? && VisitRel(s, i, w).1.rc != LengthMismatch
    ensures Inv(VisitRel(s, i, w).0)
  {
    hide Wired, Finished, Accepted, LastOn, LogOk, Flying, Cursor;
    assert Cursor(s.q) == i;
  }

  // ------------------------------------------------- publishing an entry

  /** Putting the header of the entry at the cursor on the wire. */
  lemma AnnounceEffects(s: Session, i: nat)
    requires Inv(s) && s.live && i < |s.q| && i == Cursor(s.q) && s.q[i].phase == Queued
    ensures var l, n := Announce(s, i, true).log, s.q[i].seqno;
      && Wired(l) == Wired(s.log) + {n}
      && Finished(l) == Finished(s.log) && Accepted(l) == Accepted(s.log)
      && LastOn(l, s.conn) == n && (forall c :: s.conn < c ==> LastOn(l, c) == -1)
      && LogOk(l)
  {
    var e := s.q[i];
    assert FlagsOk(e, Wired(s.log), Finished(s.log), Accepted(s.log), i == At(s));
    if s.partial {
      assert Wired(s.log) == Wired(s.log) + {e.seqno};
    } else {
      LogGrows(s.log, Header(s.conn, e.seqno, e.qos, e.dup));
      assert EventOk(s.log, Header(s.conn, e.seqno, e.qos, e.dup));
    }
  }

  /** Announcing one entry says nothing about the others. */
  lemma MarkFlags(q: seq<Entry>, i: nat, e: Entry, next: nat,
                  w: set<nat>, f: set<nat>, f': set<nat>, a: set<nat>, at: int, at': int)
    requires i < |q| && Entries(q, next) && Flags(q, w, f, a, at)
    requires (at == -1 || at == i) && (at' == -1 || at' == i)
    requires e.seqno == q[i].seqno && (f' == f || f' == f + {e.seqno})
    requires FlagsOk(e, w + {e.seqno}, f', a, i == at')
    ensures Flags(q[i := e], w + {e.seqno}, f', a, at')
  {
    var q' := q[i := e];
    forall k | 0 <= k < |q'| ensures FlagsOk(q'[k], w + {e.seqno}, f', a, k == at') {
      assert FlagsOk(q[k], w, f, a, k == at);
      assert k != i ==> q[k].seqno != e.seqno;
    }
  }

  /** Entries behind the one just announced are younger. */
  lemma AnnouncedOrder(q: seq<Entry>, i: nat, next: nat, at: int)
    requires i < |q| && Entries(q, next) && i <= Cursor(q)
    requires at == i || q[i].phase != Queued
    ensures Order(q, q[i].seqno, at)
  {
    assert forall k :: 0 <= k < i ==> !Needs(q[k]);
  }

  /** The first unsent entry sits right behind everything in flight. */
  lemma CapBoundsIndex(s: Session, i: nat)
    requires Inv(s) && s.live && i < |s.q| && i == Cursor(s.q) && s.q[i].phase == Queued
    requires s.q[i].qos > 0 ==> s.inflight < s.cap
    requires s.q[i].qos > 0
    ensures i < s.peakCap
    ensures forall j :: 0 <= j < i ==> s.q[j].seqno in Finished(s.log)
  {
    var f := Finished(s.log);
    forall j | 0 <= j < |s.q|
      ensures s.q[j].phase != Queued ==> s.q[j].seqno in f
      ensures j < i ==> s.q[j].phase != Queued
    {
      assert FlagsOk(s.q[j], Wired(s.log), f, Accepted(s.log), j == At(s));
      assert j < i ==> !Needs(s.q[j]);
    }
    if s.q[i].seqno !in f {
      FlyingPrefix(s.q, i);
    }
  }

  lemma FinishPrefix(q: seq<Entry>, i: nat, f: set<nat>, peak: nat, next: nat)
    requires i < |q| && i < peak && Prefix(q, f, peak) && Entries(q, next)
    requires forall j :: 0 <= j < i ==> q[j].seqno in f
    ensures Prefix(q, f + {q[i].seqno}, peak)
  {
  }

  lemma PublishCompleteKeeps(s: Session, i: nat)
    requires Inv(s) && s.live && i < |s.q| && i <= Cursor(s.q) && s.q[i].phase == Queued
    requires 0 < s.q[i].qos && s.inflight < s.cap && s.q[i].encLen != 0
    ensures VisitPublish(s, i, Complete).1 == Onward
    ensures Inv(VisitPublish(s, i, Complete).0)
    ensures i + 1 <= Cursor(VisitPublish(s, i, Complete).0.q)
  {
    hide Wired, Finished, Accepted, LastOn, LogOk, Flying, Cursor;
    assert Cursor(s.q) == i;
    var e' := s.q[i].(phase := PublishSent, dup := false);
    var l := Announce(s, i, true).log;
    var f, f' := Finished(s.log), Finished(s.log) + {e'.seqno};
    AnnounceEffects(s, i);
    LogGrows(l, Done(s.conn, e'.seqno));
    assert FlagsOk(s.q[i], Wired(s.log), f, Accepted(s.log), i == At(s));
    MarkFlags(s.q, i, e', s.next, Wired(s.log), f, f', Accepted(s.log), At(s), -1);
    CapBoundsIndex(s, i);
    FinishPrefix(s.q, i, f, s.peakCap, s.next);
    UpdateLists(s.q, i, e', s.next, f', s.peakCap);
    FlyingUpdate(s.q, i, e');
    CursorAfterUpdate(s.q, i, e');
    AnnouncedOrder(s.q[i := e'], i, s.next, -1);
  }

  /** Unlinking the announced QoS 0 entry at the cursor. */
  lemma Qos0Lists(q: seq<Entry>, i: nat, next: nat, w: set<nat>, f: set<nat>, f': set<nat>,
                  a: set<nat>, at: int, peak: nat)
    requires i < |q| && i == Cursor(q) && (at == -1 || at == i)
    requires Entries(q, next) && Flags(q, w, f, a, at) && Prefix(q, f, peak)
    requires f' == f || f' == f + {q[i].seqno}
    ensures var q', n := RemoveAt(q, i), q[i].seqno;
      Entries(q', next) && Flags(q', w + {n}, f', a, -1) && Prefix(q', f', peak) && Order(q', n, -1)
  {
    hide Cursor;
    var q', n := RemoveAt(q, i), q[i].seqno;
    RemoveLists(q, i, next, f, peak);
    forall k | 0 <= k < |q'|
      ensures FlagsOk(q'[k], w + {n}, f', a, false)
      ensures q'[k].seqno != n && (q'[k].phase == Queued ==> n < q'[k].seqno)
      ensures q'[k].seqno in f' <==> q'[k].seqno in f
    {
      var j := if k < i then k else k + 1;
      assert q'[k] == q[j] && j != i;
      assert FlagsOk(q[j], w, f, a, j == at);
      assert j < i ==> !Needs(q[j]) && q[j].seqno < n;
      assert j > i ==> n < q[j].seqno;
    }
    assert Prefix(q', f', peak) by {
      hide FlagsOk, EntryOk;
    }
  }

  /** A QoS 0 entry leaves the queue once written, or once a dead connection
      took part of it. */
  lemma Qos0GoneKeeps(s: Session, i: nat, done: bool, s': Session)
    requires Inv(s) && s.live && i < |s.q| && i <= Cursor(s.q) && s.q[i].phase == Queued
    requires s' == s.(log := Announce(s, i, true).log + (if done then [Done(s.conn, s.q[i].seqno)] else []),
                      pendLen := 0, partial := false, q := RemoveAt(s.q, i), count := s.count - 1)
    ensures Inv(s') && i <= Cursor(s'.q)
  {
    hide Wired, Finished, Accepted, LastOn, LogOk, Flying, Cursor;
    assert Cursor(s.q) == i;
    var n, l, f := s.q[i].seqno, Announce(s, i, true).log, Finished(s.log);
    AnnounceEffects(s, i);
    if done { LogGrows(l, Done(s.conn, n)); } else { assert l + [] == l; }
    FlyingRemove(s.q, i);
    CursorAfterRemove(s.q, i);
    Qos0Lists(s.q, i, s.next, Wired(s.log), f, if done then f + {n} else f, Accepted(s.log), At(s), s.peakCap);
  }

  /** What a visit must leave behind. */
  ghost predicate VisitOk(s: Session, i: nat, r: (Session, Verdict)) {
    && Inv(r.0) && r.0.live
    && (r.1 == Onward ==> |r.0.q| == |s.q| && i + 1 <= Cursor(r.0.q))
    && (r.1 == Again ==> |r.0.q| < |s.q| && i <= Cursor(r.0.q))
    && r.1 != Stop(LengthMismatch)
  }

  /** A PUBLISH of which some bytes are out stays at the cursor. */
  lemma PartlyOutKeeps(s: Session, i: nat, pend: nat, s': Session)
    requires Inv(s) && s.live && i < |s.q| && i <= Cursor(s.q) && s.q[i].phase == Queued
    requires s.q[i].encLen != 0 && (pend == 0 || pend == s.q[i].encLen)
    requires s' == Announce(s, i, true).(q := s.q[i := s.q[i].(dup := s.q[i].dup || s.q[i].qos > 0)],
                                         pendLen := pend, partial := true)
    ensures Inv(s') && s'.live
  {
    hide Wired, Finished, Accepted, LastOn, LogOk, Flying, Cursor;
    assert Cursor(s.q) == i;
    var e, e' := s.q[i], s'.q[i];
    var f, a := Finished(s.log), Accepted(s.log);
    assert FlagsOk(e, Wired(s.log), f, a, i == At(s));
    UpdateLists(s.q, i, e', s.next, f, s.peakCap);
    FlyingUpdate(s.q, i, e');
    assert Cursor(s'.q) == i by {
      assert forall j :: 0 <= j < i ==> !Needs(s.q[j]) && s'.q[j] == s.q[j];
      CursorIs(s'.q, i);
    }
    AnnounceEffects(s, i);
    MarkFlags(s.q, i, e', s.next, Wired(s.log), f, f, a, At(s), i);
    AnnouncedOrder(s'.q, i, s.next, i);
  }

  /** A write call that moved no byte only records what is pending. */
  lemma NothingOutKeeps(s: Session, i: nat, pend: nat)
    requires Inv(s) && s.live && i < |s.q| && i <= Cursor(s.q) && s.q[i].phase == Queued
    requires !s.partial && (pend == 0 || pend == s.q[i].encLen)
    ensures Inv(s.(pendLen := pend))
  {
    hide Wired, Finished, Accepted, LastOn, LogOk, Flying, Cursor;
    assert Cursor(s.q) == i;
  }

  lemma NoMismatchHere(s: Session, i: nat)
    requires Inv(s) && i < |s.q| && i <= Cursor(s.q) && s.q[i].phase == Queued
    ensures s.pendLen == 0 || s.pendLen == s.q[i].encLen
    ensures s.q[i].qos == 0 ==> !s.q[i].dup
  {
    assert Cursor(s.q) == i && EntryOk(s.q[i]);
  }

  lemma VisitPublishKeeps(s: Session, i: nat, w: Write)
    requires Inv(s) && s.live && i < |s.q| && i <= Cursor(s.q) && s.q[i].phase == Queued
    requires s.q[i].encLen != 0 && (s.q[i].qos > 0 ==> s.inflight < s.cap)
    ensures VisitOk(s, i, VisitPublish(s, i, w))
  {
    hide Inv, Cursor;
    NoMismatchHere(s, i);
    var e, r := s.q[i], VisitPublish(s, i, w);
    match w
    case Complete =>
      if e.qos == 0 { Qos0GoneKeeps(s, i, true, r.0); } else { PublishCompleteKeeps(s, i); }
    case Deferred(b) =>
      if s.partial || b {
        PartlyOutKeeps(s, i, e.encLen, r.0);
      } else {
        assert s.q[i := e] == s.q;
        NothingOutKeeps(s, i, e.encLen);
      }
    case Failed(b, timeout) =>
      if !(s.partial || b) {
        assert s.q[i := e] == s.q;
        NothingOutKeeps(s, i, 0);
      } else if e.qos == 0 && !timeout {
        Qos0GoneKeeps(s, i, false, r.0);
      } else {
        assert s.q[i := e.(dup := e.dup || e.qos > 0)] == r.0.q;
        PartlyOutKeeps(s, i, 0, r.0);
      }
  }

  /** One visit of the drain loop keeps the invariant, leaves only settled
      entries behind it and never meets a pending write of another length. */
  lemma VisitKeeps(s: Session, i: nat, w: Write)
    requires Inv(s) && s.live && i < |s.q| && i <= Cursor(s.q)
    ensures VisitOk(s, i, Visit(s, i, w))
  {
    hide Inv, VisitPublish;
    var e := s.q[i];
    if e.phase != Queued {
      if e.phase == PubrelSent && e.dup {
        if w == Complete { RelCompleteKeeps(s, i); } else { RelStopsKeep(s, i, w); }
      }
    } else if e.qos > 0 && s.inflight >= s.cap {
    } else if e.encLen == 0 {
      if s.pendLen == 0 {
        EncodeRefusedKeeps(s, i);
      }
    } else {
      VisitPublishKeeps(s, i, w);
    }
  }

  lemma EncodeRefusedKeeps(s: Session, i: nat)
    requires Inv(s) && s.live && i < |s.q| && i <= Cursor(s.q) && s.q[i].phase == Queued
    requires s.q[i].encLen == 0 && s.pendLen == 0
    ensures Inv(Drop(s, i)) && i <= Cursor(Drop(s, i).q)
  {
    hide Wired, Finished, Accepted, LastOn, LogOk, Flying, Cursor;
    assert Cursor(s.q) == i && !s.partial;
    FlyingRemove(s.q, i);
    CursorAfterRemove(s.q, i);
    RemoveLists(s.q, i, s.next, Finished(s.log), s.peakCap);
    RemoveFlags(s.q, i, Wired(s.log), Finished(s.log), Accepted(s.log), LastOn(s.log, s.conn), -1);
  }

  lemma {:induction false} DrainKeeps(s: Session, i: nat, ws: seq<Write>)
    requires Inv(s) && s.live && i <= Cursor(s.q)
    ensures Inv(DrainFrom(s, i, ws).0) && DrainFrom(s, i, ws).0.live
    ensures DrainFrom(s, i, ws).1 != LengthMismatch
    decreases |s.q| - i
  {
    hide Inv, Visit, Writes;
    if i < |s.q| {
      VisitKeeps(s, i, First(ws));
      var ws' := if Writes(s, i) then Rest(ws) else ws;
      var (s', v) := Visit(s, i, First(ws));
      match v
      case Onward => DrainKeeps(s', i + 1, ws');
      case Again => DrainKeeps(s', i, ws');
      case Stop(_) =>
    }
  }

  // ------------------------------------------------------ other transitions

  lemma UnlinkKeeps(s: Session, k: nat)
    requires Inv(s) && !s.partial && s.pendLen == 0 && k < |s.q|
    ensures Inv(Unlink(s, k))
  {
    hide Wired, Finished, Accepted, LastOn, LogOk, Flying, Cursor;
    FlyingRemove(s.q, k);
    RemoveLists(s.q, k, s.next, Finished(s.log), s.peakCap);
    RemoveFlags(s.q, k, Wired(s.log), Finished(s.log), Accepted(s.log), LastOn(s.log, s.conn), -1);
  }

  lemma AckKeeps(s: Session, k: nat, ws: seq<Write>)
    requires Inv(s) && CanRead(s) && k < |s.q|
    ensures Inv(Drain(Unlink(s, k), ws).0) && Drain(Unlink(s, k), ws).0.live
  {
    hide Inv;
    UnlinkKeeps(s, k);
    DrainKeeps(Unlink(s, k), 0, ws);
  }

  lemma PubRecKeeps(s: Session, pid: nat)
    requires Inv(s) && CanRead(s)
    ensures Inv(OnPubRec(s, pid))
  {
    hide Wired, Finished, Accepted, LastOn, LogOk, Flying, Cursor;
    var i := Find(s.q, pid, PublishSent);
    if OnPubRec(s, pid) != s {
      var e' := s.q[i].(phase := PubrelSent);
      var w, f, a := Wired(s.log), Finished(s.log), Accepted(s.log);
      var q', n := s.q[i := e'], e'.seqno;
      LogGrows(s.log, RecAccepted(n));
      UpdateLists(s.q, i, e', s.next, f, s.peakCap);
      FlyingUpdate(s.q, i, e');
      forall k | 0 <= k < |q'| ensures FlagsOk(q'[k], w, f, a + {n}, k == -1) {
        assert FlagsOk(s.q[k], w, f, a, k == -1);
        assert k != i ==> s.q[k].seqno != n;
      }
      assert forall k :: 0 <= k < |q'| && q'[k].phase == Queued ==> q'[k] == s.q[k];
    }
  }

  lemma AppendLists(q: seq<Entry>, e: Entry, next: nat, f: set<nat>, peak: nat)
    requires Entries(q, next) && Prefix(q, f, peak) && EntryOk(e)
    requires e.seqno == next && next !in f
    requires forall k :: 0 <= k < |q| && q[k].qos > 0 ==> q[k].pid != e.pid
    ensures Entries(q + [e], next + 1) && Prefix(q + [e], f, peak)
  {
  }

  lemma AppendFlags(q: seq<Entry>, e: Entry, next: nat, w: set<nat>, f: set<nat>, a: set<nat>,
                    last: int, at: int)
    requires Flags(q, w, f, a, at) && at < |q| && last < next
    requires e.seqno == next && e.phase == Queued && !e.dup
    requires next !in w && next !in f && next !in a
    ensures Flags(q + [e], w, f, a, at)
    ensures Order(q, last, at) ==> Order(q + [e], last, at)
  {
    var q' := q + [e];
    forall k | 0 <= k < |q'| ensures FlagsOk(q'[k], w, f, a, k == at) {
      if k < |q| {
        assert FlagsOk(q[k], w, f, a, k == at);
      }
    }
  }

  lemma CursorAfterAppend(q: seq<Entry>, e: Entry)
    requires Cursor(q) < |q|
    ensures Cursor(q + [e]) == Cursor(q)
  {
    CursorIs(q + [e], Cursor(q));
  }

  /** Appending a fresh message behind everything queued. */
  lemma AppendKeeps(s: Session, e: Entry)
    requires Inv(s) && |s.q| < Max(s.lim.queued, s.lim.offline)
    requires e.seqno == s.next && e.phase == Queued && !e.dup && EntryOk(e)
    requires e.qos > 0 ==> e.pid !in Pids(s.q)
    ensures Inv(s.(q := s.q + [e], count := s.count + 1, next := s.next + 1))
  {
    hide Wired, Finished, Accepted, LastOn, LogOk, Cursor;
    FlyingSplit(s.q, [e]);
    if s.partial || s.pendLen != 0 {
      CursorAfterAppend(s.q, e);
    }
    forall k | 0 <= k < |s.q| && s.q[k].qos > 0 ensures s.q[k].pid != e.pid {
      assert Pids(s.q)[k] == s.q[k].pid && EntryOk(s.q[k]);
    }
    AppendLists(s.q, e, s.next, Finished(s.log), s.peakCap);
    AppendFlags(s.q, e, s.next, Wired(s.log), Finished(s.log), Accepted(s.log),
                LastOn(s.log, s.conn), At(s));
  }

  lemma InvBasics(s: Session)
    requires Inv(s)
    ensures LimitsOk(s.lim) && s.count == |s.q| <= Max(s.lim.queued, s.lim.offline)
  {
  }

  lemma EnqueueKeeps(s: Session, qos: QoS, encLen: nat, msg: Message, nextPid: nat)
    requires Inv(s) && s.live && nextPid <= MAX_ID
    ensures Inv(Enqueue(s, qos, encLen, msg, nextPid))
  {
    hide Inv, FirstFree;
    InvBasics(s);
    NextFreeExact(nextPid, Pids(s.q));
    var pid := if qos == 0 then 0 else NextFree(nextPid, Pids(s.q));
    if s.count < s.lim.queued && (qos > 0 ==> pid != 0) {
      AppendKeeps(s, Entry(s.next, qos, pid, Queued, false, encLen, 0, msg));
    }
  }

  lemma {:induction false} EvictKeeps(s: Session)
    requires Inv(s) && !s.live
    ensures var r := Evict(s); Inv(r) && !r.live && r.lim == s.lim && |r.q| < r.lim.offline
    decreases |s.q|
  {
    hide Wired, Finished, Accepted, LastOn, LogOk, Flying, Cursor;
    if s.count >= s.lim.offline && s.q != [] {
      UnlinkKeeps(s, 0);
      assert EvictHead(s) == Unlink(s, 0);
      EvictKeeps(EvictHead(s));
    }
  }

  lemma OfflineEnqueueKeeps(s: Session, qos: QoS, encLen: nat, msg: Message, nextPid: nat)
    requires Inv(s) && !s.live && nextPid <= MAX_ID
    ensures Inv(OfflineEnqueue(s, qos, encLen, msg, nextPid))
  {
    hide Inv, FirstFree, Evict;
    EvictKeeps(s);
    var s1 := Evict(s);
    NextFreeExact(nextPid, Pids(s1.q));
    var pid, dseq := NextFree(nextPid, Pids(s1.q)), NextDiskSeq(s1.q);
    if qos != 0 && pid != 0 && dseq != 0 {
      AppendKeeps(s1, Entry(s1.next, qos, pid, Queued, false, encLen, dseq, msg));
    }
  }

  /** An entry-wise change that leaves the drain nothing new to see. */
  ghost predicate Alike(q: seq<Entry>, r: seq<Entry>) {
    |q| == |r| && forall k :: 0 <= k < |q| ==>
      q[k].seqno == r[k].seqno && q[k].qos == r[k].qos && q[k].pid == r[k].pid
  }

  lemma AlikeLists(q: seq<Entry>, r: seq<Entry>, next: nat, f: set<nat>, peak: nat, peak': nat)
    requires Alike(q, r) && Entries(q, next) && Prefix(q, f, peak) && peak <= peak'
    requires forall k :: 0 <= k < |r| ==> EntryOk(r[k])
    ensures Entries(r, next) && Prefix(r, f, peak')
  {
  }

  lemma {:induction false} FlyingSame(q: seq<Entry>, r: seq<Entry>)
    requires |q| == |r| && forall k :: 0 <= k < |q| ==> q[k].phase == r[k].phase
    ensures Flying(q) == Flying(r)
  {
    if q != [] {
      FlyingSame(q[1..], r[1..]);
    }
  }

  lemma HalfSentKeeps(s: Session)
    requires Inv(s) && s.live
    ensures var s1 := DropHalfSent(s);
      Inv(s1.(live := false, partial := false, pendLen := 0))
  {
    hide Wired, Finished, Accepted, LastOn, LogOk, Flying, Cursor;
    var k := FirstQueued(s.q);
    var w, f, a := Wired(s.log), Finished(s.log), Accepted(s.log);
    var q' := DropHalfSent(s).q;
    if s.partial && Cursor(s.q) < |s.q| && s.q[Cursor(s.q)].qos == 0 {
      assert EntryOk(s.q[Cursor(s.q)]);
      assert k == Cursor(s.q);
    }
    if s.partial && k < |s.q| && s.q[k].qos == 0 {
      FlyingRemove(s.q, k);
      RemoveLists(s.q, k, s.next, f, s.peakCap);
      forall j | 0 <= j < |q'| ensures FlagsOk(q'[j], w, f, a, false) {
        var j' := if j < k then j else j + 1;
        assert FlagsOk(s.q[j'], w, f, a, j' == At(s));
      }
    } else {
      forall j | 0 <= j < |q'| ensures FlagsOk(q'[j], w, f, a, false) {
        assert FlagsOk(s.q[j], w, f, a, j == At(s));
      }
    }
  }

  lemma RenumberKeeps(s: Session)
    requires Inv(s) && !s.live
    ensures Inv(s.(q := Renumbered(s.q)))
  {
    hide Wired, Finished, Accepted, LastOn, LogOk, Flying, Cursor;
    var r := Renumbered(s.q);
    var w, f, a := Wired(s.log), Finished(s.log), Accepted(s.log);
    FlyingSame(s.q, r);
    forall k | 0 <= k < |r| ensures FlagsOk(r[k], w, f, a, k == -1) && EntryOk(r[k]) {
      assert FlagsOk(s.q[k], w, f, a, k == -1) && EntryOk(s.q[k]);
    }
    AlikeLists(s.q, r, s.next, f, s.peakCap, s.peakCap);
  }

  lemma OrphanKeeps(s: Session)
    requires Inv(s) && s.live
    ensures Inv(Orphan(s))
  {
    hide Inv;
    HalfSentKeeps(s);
    RenumberKeeps(DropHalfSent(s).(live := false, partial := false, pendLen := 0));
  }

  lemma {:induction false} ResumedFlying(q: seq<Entry>)
    ensures Flying(Resumed(q)) == PubrelCount(q)
  {
    if q != [] {
      ResumedFlying(q[1..]);
      assert Resumed(q)[1..] == Resumed(q[1..]);
    }
  }

  lemma ReclaimKeeps(s: Session, receiveMax: nat)
    requires Inv(s) && !s.live
    ensures Inv(Reclaim(s, receiveMax))
  {
    hide Wired, Finished, Accepted, LastOn, LogOk, Flying, Cursor;
    var r := Resumed(s.q);
    var w, f, a := Wired(s.log), Finished(s.log), Accepted(s.log);
    ResumedFlying(s.q);
    forall k | 0 <= k < |r| ensures FlagsOk(r[k], w, f, a, k == -1) && EntryOk(r[k]) {
      assert FlagsOk(s.q[k], w, f, a, k == -1);
    }
    AlikeLists(s.q, r, s.next, f, s.peakCap, Reclaim(s, receiveMax).peakCap);
  }

  lemma FreshKeeps(s: Session, receiveMax: nat)
    requires Inv(s)
    ensures Inv(Fresh(s, receiveMax))
  {
  }

  lemma StepKeeps(s: Session, ev: Event)
    requires Inv(s)
    ensures Inv(Step(s, ev))
  {
    hide Inv, Enqueue, OfflineEnqueue, OnPubRec, Orphan, Reclaim, Fresh;
    match ev
    case EvEnqueue(qos, encLen, msg, nextPid) =>
      if nextPid <= MAX_ID {
        if s.live { EnqueueKeeps(s, qos, encLen, msg, nextPid); }
        else { OfflineEnqueueKeeps(s, qos, encLen, msg, nextPid); }
      }
    case EvDrain(ws) => if s.live { DrainKeeps(s, 0, ws); }
    case EvPubAck(pid, ws) =>
      var k := Find(s.q, pid, PublishSent);
      if CanRead(s) && k < |s.q| { AckKeeps(s, k, ws); }
    case EvPubRec(pid) => if CanRead(s) { PubRecKeeps(s, pid); }
    case EvPubReject(pid, ws) =>
      var k := Find(s.q, pid, PublishSent);
      if CanRead(s) && k < |s.q| { AckKeeps(s, k, ws); }
    case EvPubComp(pid, ws) =>
      var k := Find(s.q, pid, PubrelSent);
      if CanRead(s) && k < |s.q| { AckKeeps(s, k, ws); }
    case EvOrphan => if s.live { OrphanKeeps(s); }
    case EvReclaim(rm) => if !s.live { ReclaimKeeps(s, rm); }
    case EvFresh(rm) => FreshKeeps(s, rm);
    case EvTakeover(rm) => if s.live { FreshKeeps(s, rm); }
  }

  /** Every reachable state satisfies the invariant. */
  lemma {:induction false} RunKeeps(s: Session, evs: seq<Event>)
    requires Inv(s)
    ensures Inv(Run(s, evs))
  {
    hide Inv, Step;
    if evs != [] {
      RunKeeps(s, evs[..|evs| - 1]);
      StepKeeps(Run(s, evs[..|evs| - 1]), evs[|evs| - 1]);
    }
  }

  lemma InitialOk(lim: Limits, receiveMax: nat)
    requires LimitsOk(lim)
    ensures Inv(Initial(lim, receiveMax))
  {
  }
}
