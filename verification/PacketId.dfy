/** Packet Identifier allocation (src/mqtt_broker.c, BrokerNextPacketIdForQueue
    and the retry loop of BrokerStaticOrphan_Enqueue). */
module PacketId {
  import opened Common

  /** The identifier tried after c: 16-bit increment that skips zero. */
  function Succ(c: nat): nat
    requires 1 <= c <= MAX_ID
  {
    if c == MAX_ID then 1 else c + 1
  }

  /** The first identifier examined when the broker counter holds next. */
  function Start(next: nat): nat
    requires next <= MAX_ID
  {
    if next == 0 then 1 else next
  }

  /** The identifier k steps after c, for less than a full turn. */
  function Ahead(c: nat, k: nat): nat
    requires 1 <= c <= MAX_ID && k < MAX_ID
  {
    if c + k <= MAX_ID then c + k else c + k - MAX_ID
  }

  /** First identifier not in `used` among the n candidates c, Succ(c), ...;
      zero when all of them are used. */
  function FirstFree(c: nat, n: nat, used: seq<nat>): nat
    requires 1 <= c <= MAX_ID
    decreases n
  {
    if n == 0 then 0
    else if c !in used then c
    else FirstFree(Succ(c), n - 1, used)
  }

  /** What the allocator returns: one full turn over the 65535 identifiers. */
  function NextFree(next: nat, used: seq<nat>): nat
    requires next <= MAX_ID
  {
    FirstFree(Start(next), MAX_ID, used)
  }

  lemma {:induction false} FirstFreeFinds(c: nat, n: nat, used: seq<nat>)
    requires 1 <= c <= MAX_ID && n <= MAX_ID
    ensures FirstFree(c, n, used) <= MAX_ID
    ensures FirstFree(c, n, used) != 0 ==> FirstFree(c, n, used) !in used
    ensures FirstFree(c, n, used) == 0 <==> forall k | 0 <= k < n :: Ahead(c, k) in used
    decreases n
  {
    if n != 0 && c in used {
      FirstFreeFinds(Succ(c), n - 1, used);
      assert forall k | 0 <= k < n - 1 :: Ahead(Succ(c), k) == Ahead(c, k + 1);
      assert Ahead(c, 0) == c;
      if forall k | 0 <= k < n - 1 :: Ahead(Succ(c), k) in used {
        forall k | 0 <= k < n ensures Ahead(c, k) in used {
          if k > 0 {
            assert Ahead(c, k) == Ahead(Succ(c), k - 1);
          }
        }
      } else {
        var k :| 0 <= k < n - 1 && Ahead(Succ(c), k) !in used;
        assert Ahead(c, k + 1) !in used;
      }
    } else if n != 0 {
      assert Ahead(c, 0) == c;
    }
  }

  /** Every identifier lies on the turn that starts at c. */
  lemma OnTheTurn(c: nat, p: nat) returns (k: nat)
    requires 1 <= c <= MAX_ID && 1 <= p <= MAX_ID
    ensures k < MAX_ID && Ahead(c, k) == p
  {
    k := if p >= c then p - c else p + MAX_ID - c;
  }

  /** The allocator returns an identifier that is nonzero and unused, and
      fails exactly when all 65535 identifiers are used. */
  lemma NextFreeExact(next: nat, used: seq<nat>)
    requires next <= MAX_ID
    ensures NextFree(next, used) <= MAX_ID
    ensures NextFree(next, used) != 0 ==> NextFree(next, used) !in used
    ensures NextFree(next, used) == 0 <==> forall p | 1 <= p <= MAX_ID :: p in used
  {
    var c := Start(next);
    FirstFreeFinds(c, MAX_ID, used);
    if NextFree(next, used) == 0 {
      forall p | 1 <= p <= MAX_ID ensures p in used {
        var k := OnTheTurn(c, p);
        assert Ahead(c, k) in used;
      }
    } else {
      assert NextFree(next, used) !in used;
    }
  }

  /** A sequence that holds each of 1..n has at least n positions. */
  lemma {:induction false} CoverNeedsRoom(n: nat, s: seq<nat>)
    requires forall p | 1 <= p <= n :: p in s
    ensures |s| >= n
  {
    if n != 0 {
      assert n in s;
      var i :| 0 <= i < |s| && s[i] == n;
      var rest := RemoveAt(s, i);
      forall p | 1 <= p <= n - 1 ensures p in rest {
        assert p in s;
        var j :| 0 <= j < |s| && s[j] == p;
        assert rest[if j < i then j else j - 1] == p;
      }
      CoverNeedsRoom(n - 1, rest);
    }
  }

  /** Pigeonhole: a queue shorter than the identifier space always leaves one
      free, so a capped queue never sees the allocator fail. */
  lemma ShortQueueNeverExhausts(next: nat, used: seq<nat>)
    requires next <= MAX_ID && |used| < MAX_ID
    ensures 1 <= NextFree(next, used) <= MAX_ID && NextFree(next, used) !in used
  {
    NextFreeExact(next, used);
    if NextFree(next, used) == 0 {
      CoverNeedsRoom(MAX_ID, used);
      assert false;
    }
  }

  /** BrokerPacketIdInQueue. */
  method InQueue(used: seq<nat>, id: nat) returns (found: bool)
    ensures found <==> id in used
  {
    for i := 0 to |used|
      invariant id !in used[..i]
    {
      if used[i] == id {
        return true;
      }
    }
    assert used[..|used|] == used;
    return false;
  }

  /** BrokerNextPacketIdForQueue: the do-while loop over candidates, and the
      counter value left behind. */
  method NextPacketIdForQueue(next: nat, used: seq<nat>) returns (id: nat, next': nat)
    requires next <= MAX_ID
    ensures id == NextFree(next, used)
    ensures id != 0 ==> 1 <= id <= MAX_ID && id !in used
    ensures id == 0 <==> forall p | 1 <= p <= MAX_ID :: p in used
    ensures next' == if id == 0 then next else Succ(id)
  {
    NextFreeExact(next, used);
    var first := Start(next);
    var candidate := first;
    ghost var tried := 0;
    while true
      invariant 1 <= candidate <= MAX_ID && tried < MAX_ID
      invariant candidate == Ahead(first, tried)
      invariant FirstFree(first, MAX_ID, used) == FirstFree(candidate, MAX_ID - tried, used)
      decreases MAX_ID - tried
    {
      var busy := InQueue(used, candidate);
      if !busy {
        return candidate, Succ(candidate);
      }
      candidate := Succ(candidate);
      tried := tried + 1;
      if candidate == first {
        assert tried == MAX_ID;
        break;
      }
    }
    return 0, next;
  }

  /** The static queue's retry loop: the counter advances once per round and
      the loop ends because a queue with a free identifier cannot refuse a
      full turn of candidates. */
  method RetryUntilFree(next: nat, used: seq<nat>) returns (id: nat, next': nat)
    requires next <= MAX_ID && |used| < MAX_ID
    ensures id == NextFree(next, used) && 1 <= id <= MAX_ID && id !in used
    ensures next' == Succ(id)
  {
    ShortQueueNeverExhausts(next, used);
    id := Start(next);
    next' := Succ(id);
    ghost var tried := 0;
    var busy := InQueue(used, id);
    while busy
      invariant 1 <= id <= MAX_ID && next' == Succ(id) && tried < MAX_ID
      invariant busy <==> id in used
      invariant NextFree(next, used) == FirstFree(id, MAX_ID - tried, used)
      decreases MAX_ID - tried
    {
      id := next';
      next' := Succ(id);
      tried := tried + 1;
      busy := InQueue(used, id);
    }
  }
}
