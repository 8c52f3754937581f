/**
 * Facts about the pending-callback queue as plain sequences: what a list of
 * callbacks queues when it runs, and how consecutive rounds compose.
 */
module CallbackQueue {
  import opened BattleWorld

  /** Everything the given callbacks queue when they run, in order. */
  function Enqueued(host: Host, cbs: seq<Callback>): seq<Callback> {
    if cbs == [] then [] else host.enqueues(cbs[0]) + Enqueued(host, cbs[1..])
  }

  lemma {:induction false} EnqueuedAppend(host: Host, a: seq<Callback>, b: seq<Callback>)
    ensures Enqueued(host, a + b) == Enqueued(host, a) + Enqueued(host, b)
  {
    if a == [] {
      assert a + b == b;
    } else {
      assert (a + b)[1..] == a[1..] + b;
      EnqueuedAppend(host, a[1..], b);
    }
  }

  /** Two rounds of running callbacks and queueing what they enqueue are one round. */
  lemma {:induction false} QueueTrans(host: Host, f0: seq<Callback>, f1: seq<Callback>, f2: seq<Callback>,
                   p0: seq<Callback>, p1: seq<Callback>, p2: seq<Callback>, ends: seq<Callback>, later: seq<Callback>)
    requires f1 == f0 + ends && f2 == f1 + later
    requires p1 == p0 + Enqueued(host, ends) && p2 == p1 + Enqueued(host, later)
    ensures f2 == f0 + (ends + later) && p2 == p0 + Enqueued(host, ends + later)
  {
    EnqueuedAppend(host, ends, later);
    assert f2 == f0 + ends + later;
    assert p2 == p0 + Enqueued(host, ends) + Enqueued(host, later);
  }

  /**
   * The log after a round that ran `ends`, a flush of what was pending, and a
   * flush of what was pending plus `tail`: it starts with the old log and
   * `ends`, and finishes with `tail`.
   */
  lemma TwoFlushes(f0: seq<Callback>, ends: seq<Callback>, f2: seq<Callback>, p2: seq<Callback>,
                   f3: seq<Callback>, p3: seq<Callback>, tail: seq<Callback>, r: seq<Callback>)
    requires f2 == f0 + ends && f3 == f2 + p2 && r == f3 + (p3 + tail)
    ensures |r| >= |f0| + |ends| + |tail|
    ensures r[..|f0| + |ends|] == f0 + ends
    ensures r[|r| - |tail|..] == tail
  {
    assert r == (f0 + ends) + (p2 + p3) + tail;
  }
}
