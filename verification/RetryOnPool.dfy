/**
 The retry loop on top of the pool: what an operation's borrows, releases and invalidations do to the queues.
 */
module RetryOnPool {
  import opened Wrappers
  import opened QueueAccounting
  import opened ConnectionPool
  import PoolRuns
  import Retry = RetryOperation

  /** What the world decides about one event: the server a borrow goes to and how it fares, or whether a
      returned transport validates. */
  datatype Lease = Lease(key: Address, world: World, validates: bool)

  /** The server a transport leads to. */
  function ServerOf(p: Pool, t: Transport): Address {
    if t < |p.made| then p.made[t] else 0
  }

  /** The pool after one event, if the pool can carry it out. */
  ghost function Play(c: Config, p: Pool, e: Retry.Event, l: Lease): Option<Pool> {
    match e
    case Borrowed(t) =>
      if Walkable(p, l.world.order) && Borrow(c, p, l.key, l.world).1 == Got(t)
      then Some(Borrow(c, p, l.key, l.world).0) else None
    case Released(t) =>
      var (p', error) := Return(c, p, ServerOf(p, t), t, l.validates);
      if error == None then Some(p') else None
    case Invalidated(t) =>
      var (p', error) := Invalidate(c, p, ServerOf(p, t), t);
      if error == None then Some(p') else None
  }

  /** The pool carries out the events one after the other, from `p` to `p'`. */
  ghost predicate Plays(c: Config, p: Pool, events: seq<Retry.Event>, leases: seq<Lease>, p': Pool)
    decreases events
  {
    && |leases| == |events|
    && (events == [] ==> p' == p)
    && (events != [] ==>
          && Play(c, p, events[0], leases[0]).Some?
          && Plays(c, Play(c, p, events[0], leases[0]).value, events[1..], leases[1..], p'))
  }

  lemma {:induction false} WithoutLast(q: seq<Transport>, t: Transport)
    requires t !in q
    ensures Without(q + [t], t) == q
  {
    if q == [] {
      assert Without([t][1..], t) == [];
    } else {
      assert (q + [t])[1..] == q[1..] + [t];
      WithoutLast(q[1..], t);
    }
  }

  lemma PutAndTaken(before: Queues, after: Queues, k: Address, t: Transport)
    requires k in before && t !in before[k] && after == before[k := before[k] + [t]]
    ensures t in after[k] && after[k := Without(after[k], t)] == before
  {
    assert after[k][|before[k]|] == t;
    WithoutLast(before[k], t);
  }

  /** What a borrow adds to its server's busy queue was not there before. */
  lemma BorrowAdds(c: Config, p: Pool, t: Transport, l: Lease)
    requires PoolRuns.Sound(c, p) && Play(c, p, Retry.Borrowed(t), l).Some?
    ensures var p1 := Play(c, p, Retry.Borrowed(t), l).value;
      && PoolRuns.Sound(c, p1) && ServerOf(p1, t) == l.key
      && l.key in p.busy && t !in p.busy[l.key]
      && p1.busy == p.busy[l.key := p.busy[l.key] + [t]]
  {
    var k, w := l.key, l.world;
    PoolRuns.BorrowKeeps(c, p, k, w);
    if p.idle[k] == [] {
      PoolRuns.BorrowHandsOut(c, p, k, None, w);
    } else {
      PoolRuns.BorrowHandsOut(c, PollIdle(p, k), k, Some(p.idle[k][0]), w);
    }
    HeldOnce(c, Borrow(c, p, k, w).0, k, p.busy[k], t);
  }

  lemma HeldOnce(c: Config, p: Pool, k: Address, q: seq<Transport>, t: Transport)
    requires PoolRuns.Sound(c, p) && k in p.busy && p.busy[k] == q + [t]
    ensures t !in q
  {
    IdsOnce(|p.made|, t);
    Split(p.busy, k);
    assert Contents(p.busy)[t] <= Ids(|p.made|)[t];
    assert multiset(q + [t]) == multiset(q) + multiset{t};
    assert t in q ==> multiset(q)[t] >= 1;
  }

  lemma ReturnBusy(c: Config, p: Pool, k: Address, t: Transport, validates: bool)
    requires k in p.busy
    ensures Return(c, p, k, t, validates).0.busy == FromBusy(p, k, t).busy
    ensures Invalidate(c, p, k, t).0.busy == FromBusy(p, k, t).busy
  {
  }

  lemma ReturnTakesOut(c: Config, p: Pool, k: Address, t: Transport, validates: bool)
    requires PoolRuns.Sound(c, p) && k in p.busy && t in p.busy[k]
    requires Return(c, p, k, t, validates).1 == None
    ensures PoolRuns.Sound(c, Return(c, p, k, t, validates).0)
    ensures Return(c, p, k, t, validates).0.busy == FromBusy(p, k, t).busy
  {
    ReturnBusy(c, p, k, t, validates);
    PoolRuns.ReturnKeepsIff(c, p, k, t, validates);
  }

  lemma InvalidateTakesOut(c: Config, p: Pool, k: Address, t: Transport)
    requires PoolRuns.Sound(c, p) && k in p.busy && t in p.busy[k]
    requires Invalidate(c, p, k, t).1 == None
    ensures PoolRuns.Sound(c, Invalidate(c, p, k, t).0)
    ensures Invalidate(c, p, k, t).0.busy == FromBusy(p, k, t).busy
  {
    ReturnBusy(c, p, k, t, true);
    PoolRuns.InvalidateKeepsIff(c, p, k, t);
  }

  /** A hand-back takes the transport off its busy queue and nothing else. */
  lemma HandBackTakesOut(c: Config, p: Pool, k: Address, t: Transport, e: Retry.Event, l: Lease)
    requires PoolRuns.Sound(c, p) && ServerOf(p, t) == k && k in p.busy && t in p.busy[k]
    requires !e.Borrowed? && e.transport == t && Play(c, p, e, l).Some?
    ensures PoolRuns.Sound(c, Play(c, p, e, l).value)
    ensures Play(c, p, e, l).value.busy == FromBusy(p, k, t).busy
  {
    if e.Released? {
      assert Play(c, p, e, l).value == Return(c, p, k, t, l.validates).0;
      ReturnTakesOut(c, p, k, t, l.validates);
    } else {
      assert Play(c, p, e, l).value == Invalidate(c, p, k, t).0;
      InvalidateTakesOut(c, p, k, t);
    }
  }

  /** Borrowing and handing back leaves every busy queue as it was and the books in order. */
  lemma PairLeavesBusyAlone(c: Config, p: Pool, t: Transport, e: Retry.Event, l: Lease, l': Lease)
    requires PoolRuns.Sound(c, p) && Play(c, p, Retry.Borrowed(t), l).Some? && !e.Borrowed? && e.transport == t
    requires Play(c, Play(c, p, Retry.Borrowed(t), l).value, e, l').Some?
    ensures var p2 := Play(c, Play(c, p, Retry.Borrowed(t), l).value, e, l').value;
      PoolRuns.Sound(c, p2) && p2.busy == p.busy
  {
    var k, p1 := l.key, Play(c, p, Retry.Borrowed(t), l).value;
    BorrowAdds(c, p, t, l);
    PutAndTaken(p.busy, p1.busy, k, t);
    HandBackTakesOut(c, p1, k, t, e, l');
  }

  lemma {:induction false} PlayLeavesBusyAloneIff(
      c: Config, p: Pool, events: seq<Retry.Event>, leases: seq<Lease>, p': Pool)
    requires PoolRuns.Sound(c, p) && Plays(c, p, events, leases, p')
    requires Retry.Paired(events) || Retry.PairedButLast(events)
    ensures PoolRuns.Sound(c, p') && (p'.busy == p.busy <==> Retry.Paired(events))
    decreases |events|
  {
    if |events| == 1 {
      BorrowAdds(c, p, events[0].transport, leases[0]);
      assert |p'.busy[leases[0].key]| == |p.busy[leases[0].key]| + 1;
    } else if |events| >= 2 {
      Retry.FirstPair(events);
      var p1 := Play(c, p, events[0], leases[0]).value;
      var p2 := Play(c, p1, events[1], leases[1]).value;
      PairLeavesBusyAlone(c, p, events[0].transport, events[1], leases[0], leases[1]);
      assert events[1..][1..] == events[2..] && leases[1..][1..] == leases[2..];
      PlayLeavesBusyAloneIff(c, p2, events[2..], leases[2..], p');
    }
  }

  /** An operation on a sound pool, its events carried out one after the other: whatever was retried, the books
      stay in order, and every busy queue ends as it was exactly when no attempt within reach loses its
      transport to an exception that no clause catches. */
  lemma ExecuteLeavesBusyAloneIff(form: Retry.Form, maxRetries: int, rw: Retry.World, c: Config, p: Pool,
                                  leases: seq<Lease>, p': Pool)
    requires PoolRuns.Sound(c, p) && Plays(c, p, Retry.Run(form, maxRetries, rw).trace, leases, p')
    ensures PoolRuns.Sound(c, p')
    ensures p'.busy == p.busy <==> !Retry.LosesTransport(form, maxRetries, rw)
  {
    Retry.EveryTransportHandedBackIff(form, maxRetries, rw);
    PlayLeavesBusyAloneIff(c, p, Retry.Run(form, maxRetries, rw).trace, leases, p');
  }
}
