/** Rebuilding outbound queues from NS_OUTQ records at startup
    (src/mqtt_broker_persist.c, wmqb_decode_and_insert_outq): the backend may
    present its records in any order. */
module Restore {
  import opened Common
  import opened BigEndian
  import opened Records

  /** The queue fields of a restored orphan. */
  datatype Restored = Restored(q: seq<OutRec>, count: nat, inflight: nat)

  const EMPTY: Restored := Restored([], 0, 0)

  const STATE_PUBLISH_SENT: byte := 1
  const STATE_PUBREL_SENT: byte := 2

  predicate InFlight(r: OutRec) {
    r.state == STATE_PUBLISH_SENT || r.state == STATE_PUBREL_SENT
  }

  function InFlightCount(q: seq<OutRec>): nat {
    if q == [] then 0 else InFlightCount(q[..|q| - 1]) + (if InFlight(q[|q| - 1]) then 1 else 0)
  }

  /** Where the insertion walk stops: the first record not enqueued earlier. */
  function Place(q: seq<OutRec>, order: nat): (k: nat)
    ensures k <= |q|
    ensures forall j :: 0 <= j < k ==> q[j].order < order
    ensures k < |q| ==> q[k].order >= order
  {
    if q == [] || q[0].order >= order then 0 else 1 + Place(q[1..], order)
  }

  function Insert(o: Restored, r: OutRec): Restored {
    var k := Place(o.q, r.order);
    Restored(o.q[..k] + [r] + o.q[k..], o.count + 1, o.inflight + (if InFlight(r) then 1 else 0))
  }

  /** The iterator callback for one record: skipped unless it decodes and its
      owner's session was restored. */
  function Load(m: map<bytes, Restored>, key: bytes, blob: bytes): map<bytes, Restored> {
    match (KeyOwner(key), DecodeOut(blob))
    case (Some(cid), Some(r)) => (if cid in m then m[cid := Insert(m[cid], r)] else m)
    case _ => m
  }

  /** The whole iteration, in the order the backend chooses. */
  function LoadAll(m: map<bytes, Restored>, disk: map<bytes, bytes>, keys: seq<bytes>): map<bytes, Restored>
    requires forall k :: k in keys ==> k in disk
  {
    if keys == [] then m
    else
      var last := keys[|keys| - 1];
      Load(LoadAll(m, disk, keys[..|keys| - 1]), last, disk[last])
  }

  /** keys lists every key of the store once. */
  ghost predicate Enumerates(keys: seq<bytes>, disk: map<bytes, bytes>) {
    && (forall k :: k in keys <==> k in disk)
    && (forall i, j :: 0 <= i < j < |keys| ==> keys[i] != keys[j])
  }

  ghost predicate Ascending(q: seq<OutRec>) {
    forall i, j :: 0 <= i < j < |q| ==> q[i].order < q[j].order
  }

  lemma SameHead(a: seq<OutRec>, b: seq<OutRec>)
    requires Ascending(a) && Ascending(b) && a != [] && b != [] && a[0] in b && b[0] in a
    ensures a[0] == b[0]
  {
    var i :| 0 <= i < |b| && b[i] == a[0];
    var j :| 0 <= j < |a| && a[j] == b[0];
  }

  lemma TailMembers(a: seq<OutRec>, r: OutRec)
    requires Ascending(a) && a != []
    ensures r in a[1..] <==> r in a && r != a[0]
  {
    if r in a && r != a[0] {
      var i :| 0 <= i < |a| && a[i] == r;
      assert a[1..][i - 1] == r;
    }
  }

  /** Ascending sequences with the same elements are equal. */
  lemma {:induction false} AscendingUnique(a: seq<OutRec>, b: seq<OutRec>)
    requires Ascending(a) && Ascending(b) && forall r :: r in a <==> r in b
    ensures a == b
  {
    assert a != [] ==> a[0] in a;
    assert b != [] ==> b[0] in b;
    if a != [] && b != [] {
      SameHead(a, b);
      forall r ensures r in a[1..] <==> r in b[1..] {
        TailMembers(a, r);
        TailMembers(b, r);
      }
      AscendingUnique(a[1..], b[1..]);
      assert a == [a[0]] + a[1..] && b == [b[0]] + b[1..];
    }
  }

  lemma InsertAscending(o: Restored, r: OutRec)
    requires Ascending(o.q) && forall x :: x in o.q ==> x.order != r.order
    ensures Ascending(Insert(o, r).q)
    ensures forall x :: x in Insert(o, r).q <==> x in o.q || x == r
  {
    var k, q' := Place(o.q, r.order), Insert(o, r).q;
    forall i, j | 0 <= i < j < |q'| ensures q'[i].order < q'[j].order {
      assert i < k ==> q'[i] == o.q[i];
      assert j > k ==> q'[j] == o.q[j - 1] && o.q[j - 1] in o.q;
      assert i > k ==> q'[i] == o.q[i - 1];
      assert j < k ==> q'[j] == o.q[j];
      if i == k {
        assert o.q[k] in o.q;
      }
    }
    assert o.q == o.q[..k] + o.q[k..];
  }

  lemma {:induction false} CountSplit(a: seq<OutRec>, b: seq<OutRec>)
    ensures InFlightCount(a + b) == InFlightCount(a) + InFlightCount(b)
  {
    if b == [] {
      assert a + b == a;
    } else {
      assert (a + b)[..|a + b| - 1] == a + b[..|b| - 1];
      CountSplit(a, b[..|b| - 1]);
    }
  }

  lemma InsertCounts(o: Restored, r: OutRec)
    requires o.count == |o.q| && o.inflight == InFlightCount(o.q)
    ensures var o' := Insert(o, r); o'.count == |o'.q| && o'.inflight == InFlightCount(o'.q)
  {
    var k := Place(o.q, r.order);
    assert o.q == o.q[..k] + o.q[k..];
    CountSplit(o.q[..k], o.q[k..]);
    CountSplit(o.q[..k] + [r], o.q[k..]);
    CountSplit(o.q[..k], [r]);
    assert InFlightCount([r]) == if InFlight(r) then 1 else 0 by {
      assert [r][..0] == [];
    }
  }

  // ------------------------------------------------ any order, same queue

  /** The store's records for cid are exactly those of the queue p. */
  ghost predicate Stores(disk: map<bytes, bytes>, cid: bytes, p: seq<OutRec>) {
    && Ascending(p)
    && (forall i :: 0 <= i < |p| ==> OutRecOk(p[i]))
    && (forall i, j :: 0 <= i < j < |p| ==> p[i].pid != p[j].pid)
    && (forall i :: 0 <= i < |p| ==>
          OutKey(cid, p[i].pid) in disk && disk[OutKey(cid, p[i].pid)] == EncodeOut(p[i]))
    && (forall key :: key in disk && KeyOwner(key) == Some(cid) ==>
          exists i :: 0 <= i < |p| && key == OutKey(cid, p[i].pid))
  }

  /** What has been loaded for cid once the given keys were visited. */
  ghost predicate LoadedSoFar(o: Restored, cid: bytes, p: seq<OutRec>, keys: seq<bytes>) {
    && Ascending(o.q) && o.count == |o.q| && o.inflight == InFlightCount(o.q)
    && (forall i :: 0 <= i < |p| ==> (p[i] in o.q <==> OutKey(cid, p[i].pid) in keys))
    && (forall r :: r in o.q ==> r in p)
  }

  /** Visiting a record of another client, or none of this queue's. */
  lemma LoadOther(m: map<bytes, Restored>, key: bytes, blob: bytes, cid: bytes)
    requires cid in m && KeyOwner(key) != Some(cid)
    ensures cid in Load(m, key, blob) && Load(m, key, blob)[cid] == m[cid]
  {
  }

  lemma LoadOwn(m: map<bytes, Restored>, disk: map<bytes, bytes>, cid: bytes, p: seq<OutRec>,
                keys: seq<bytes>, i: nat)
    requires Stores(disk, cid, p) && cid in m && i < |p|
    requires LoadedSoFar(m[cid], cid, p, keys) && OutKey(cid, p[i].pid) !in keys
    ensures var key := OutKey(cid, p[i].pid);
      cid in Load(m, key, disk[key]) && LoadedSoFar(Load(m, key, disk[key])[cid], cid, p, keys + [key])
  {
    KeyOwnerOf(cid, p[i].pid);
    OutRoundTrip(p[i]);
    hide DecodeOut, EncodeOut, OutKey, KeyOwner, OutRecOk, Insert, LoadedSoFar;
    InsertTracks(m[cid], cid, p, keys, i);
  }

  lemma InsertTracks(o: Restored, cid: bytes, p: seq<OutRec>, keys: seq<bytes>, i: nat)
    requires Ascending(p) && i < |p| && OutKey(cid, p[i].pid) !in keys
    requires forall j :: 0 <= j < |p| ==> OutRecOk(p[j])
    requires forall j, k :: 0 <= j < k < |p| ==> p[j].pid != p[k].pid
    requires LoadedSoFar(o, cid, p, keys)
    ensures LoadedSoFar(Insert(o, p[i]), cid, p, keys + [OutKey(cid, p[i].pid)])
  {
    hide OutKey, OutRecOk, Insert, InFlightCount;
    var r, key, o' := p[i], OutKey(cid, p[i].pid), Insert(o, p[i]);
    assert r !in o.q;
    forall x | x in o.q ensures x.order != r.order {
      var j :| 0 <= j < |p| && p[j] == x;
    }
    InsertAscending(o, r);
    InsertCounts(o, r);
    forall j | 0 <= j < |p| ensures p[j] in o'.q <==> OutKey(cid, p[j].pid) in keys + [key] {
      if j != i {
        OutKeysDiffer(cid, p[j].pid, p[i].pid, p[j], p[i]);
      }
    }
    assert forall x :: x in o'.q ==> x in p;
  }

  lemma OutKeysDiffer(cid: bytes, pid: nat, pid': nat, r: OutRec, r': OutRec)
    requires pid == r.pid && pid' == r'.pid && OutRecOk(r) && OutRecOk(r') && pid != pid'
    ensures OutKey(cid, pid) != OutKey(cid, pid')
  {
    if OutKey(cid, pid) == OutKey(cid, pid') {
      KeyInjective(cid, pid, cid, pid');
    }
  }

  lemma {:induction false} LoadAllTracks(m: map<bytes, Restored>, disk: map<bytes, bytes>,
                                         cid: bytes, p: seq<OutRec>, keys: seq<bytes>)
    requires Stores(disk, cid, p) && cid in m && m[cid] == EMPTY
    requires forall k :: k in keys ==> k in disk
    requires forall i, j :: 0 <= i < j < |keys| ==> keys[i] != keys[j]
    ensures cid in LoadAll(m, disk, keys)
    ensures LoadedSoFar(LoadAll(m, disk, keys)[cid], cid, p, keys)
  {
    hide Stores, KeyOwner, OutKey, Load, LoadedSoFar;
    if keys == [] {
      EmptyLoaded(cid, p);
    } else {
      var front, key := keys[..|keys| - 1], keys[|keys| - 1];
      LoadAllTracks(m, disk, cid, p, front);
      assert keys == front + [key] && key !in front;
      var m1 := LoadAll(m, disk, front);
      if KeyOwner(key) == Some(cid) {
        var i := OwnIndex(disk, cid, p, key);
        LoadOwn(m1, disk, cid, p, front, i);
      } else {
        LoadOther(m1, key, disk[key], cid);
        OtherKeyAdds(m1[cid], cid, p, front, key);
      }
    }
  }

  lemma EmptyLoaded(cid: bytes, p: seq<OutRec>)
    ensures LoadedSoFar(EMPTY, cid, p, [])
  {
  }

  lemma OwnIndex(disk: map<bytes, bytes>, cid: bytes, p: seq<OutRec>, key: bytes) returns (i: nat)
    requires Stores(disk, cid, p) && key in disk && KeyOwner(key) == Some(cid)
    ensures i < |p| && key == OutKey(cid, p[i].pid)
  {
    i :| 0 <= i < |p| && key == OutKey(cid, p[i].pid);
  }

  lemma OtherKeyAdds(o: Restored, cid: bytes, p: seq<OutRec>, keys: seq<bytes>, key: bytes)
    requires LoadedSoFar(o, cid, p, keys) && KeyOwner(key) != Some(cid)
    ensures LoadedSoFar(o, cid, p, keys + [key])
  {
    hide OutKey, KeyOwner;
    forall i | 0 <= i < |p| ensures OutKey(cid, p[i].pid) != key {
      KeyOwnerOf(cid, p[i].pid);
    }
  }

  /** Whatever order the backend iterates in, the restored queue is the stored
      one in enqueue order, with exact counters. */
  lemma RestoreExact(disk: map<bytes, bytes>, keys: seq<bytes>, m: map<bytes, Restored>,
                     cid: bytes, p: seq<OutRec>)
    requires Enumerates(keys, disk) && Stores(disk, cid, p) && cid in m && m[cid] == EMPTY
    ensures cid in LoadAll(m, disk, keys)
    ensures LoadAll(m, disk, keys)[cid] == Restored(p, |p|, InFlightCount(p))
  {
    LoadAllTracks(m, disk, cid, p, keys);
    var o := LoadAll(m, disk, keys)[cid];
    forall r ensures r in o.q <==> r in p {
      if r in p {
        var i :| 0 <= i < |p| && p[i] == r;
        assert OutKey(cid, p[i].pid) in disk;
      }
    }
    AscendingUnique(o.q, p);
  }

  /** The restore pass with its in-place insertion walk. */
  class Restorer {
    var orphans: map<bytes, Restored>

    constructor (sessions: set<bytes>)
      ensures orphans == map cid | cid in sessions :: EMPTY
    {
      orphans := map cid | cid in sessions :: EMPTY;
    }

    /** wmqb_decode_and_insert_outq. */
    method DecodeAndInsert(key: bytes, blob: bytes)
      modifies this
      ensures orphans == Load(old(orphans), key, blob)
    {
      var owner, rec := KeyOwner(key), DecodeOut(blob);
      if owner.None? || rec.None? || owner.value !in orphans {
        return;
      }
      var o, r := orphans[owner.value], rec.value;
      var k := 0;
      while k < |o.q| && o.q[k].order < r.order
        invariant k <= |o.q| && forall j :: 0 <= j < k ==> o.q[j].order < r.order
      {
        k := k + 1;
      }
      assert k == Place(o.q, r.order);
      orphans := orphans[owner.value := Restored(o.q[..k] + [r] + o.q[k..], o.count + 1,
                                                 o.inflight + (if InFlight(r) then 1 else 0))];
    }

    /** kv_iter over NS_OUTQ. */
    method IterateOutq(disk: map<bytes, bytes>, keys: seq<bytes>)
      requires Enumerates(keys, disk)
      modifies this
      ensures orphans == LoadAll(old(orphans), disk, keys)
    {
      for i := 0 to |keys|
        invariant orphans == LoadAll(old(orphans), disk, keys[..i])
      {
        assert keys[..i + 1][..i] == keys[..i];
        DecodeAndInsert(keys[i], disk[keys[i]]);
      }
      assert keys[..|keys|] == keys;
    }
  }
}
