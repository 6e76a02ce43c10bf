/**
 Runs that go on after an invalidation has thrown half way. The transport it drops is in no queue and was never
 destroyed; the books balance once such transports are counted as well.
 */
module PoolLeaks {
  import opened Wrappers
  import opened QueueAccounting
  import opened ConnectionPool
  import opened PoolRuns

  // --------------------------------------------------- the operations do not look at what was destroyed

  /** The pool as if `lost` had been destroyed before everything else. */
  ghost function Counting(p: Pool, lost: seq<Transport>): Pool {
    p.(destroyed := lost + p.destroyed)
  }

  lemma DestroyCounting(p: Pool, lost: seq<Transport>, t: Transport)
    ensures Destroy(Counting(p, lost), t) == Counting(Destroy(p, t), lost)
  {
    assert lost + p.destroyed + [t] == lost + (p.destroyed + [t]);
  }

  lemma {:induction false} GrowCounting(p: Pool, lost: seq<Transport>, k: Address, n: nat)
    requires k in p.idle
    ensures Grow(Counting(p, lost), k, n) == Counting(Grow(p, k, n), lost)
    decreases n
  {
    if n > 0 {
      var more := ToIdle(Make(p, k), k, |p.made|);
      assert ToIdle(Make(Counting(p, lost), k), k, |p.made|) == Counting(more, lost);
      GrowCounting(more, lost, k, n - 1);
    }
  }

  lemma AddCounting(c: Config, p: Pool, lost: seq<Transport>, k: Address)
    ensures AddObject(c, Counting(p, lost), k) == Counting(AddObject(c, p, k), lost)
  {
    if k !in p.idle && k !in p.nulls {
      assert Opened(Counting(p, lost), k) == Counting(Opened(p, k), lost);
      GrowCounting(Opened(p, k), lost, k, Max(0, MinIdleGrow(c, Opened(p, k), k)));
    }
  }

  lemma StealCounting(c: Config, p: Pool, lost: seq<Transport>, order: seq<Address>)
    requires Walkable(p, order)
    ensures TryRemoveIdle(c, Counting(p, lost), order).None? <==> TryRemoveIdle(c, p, order).None?
    ensures TryRemoveIdle(c, p, order).Some? ==>
      TryRemoveIdle(c, Counting(p, lost), order).value == Counting(TryRemoveIdle(c, p, order).value, lost)
  {
    ScanPicks(c, p.idle, order, 0, None);
    match Scan(c, p.idle, order, 0, None)
    case None =>
    case Some(victim) => DestroyCounting(PollIdle(p, victim), lost, p.idle[victim][0]);
  }

  /** A turn of the borrow loop with nothing in hand and nothing idle. */
  lemma CreateCounting(c: Config, p: Pool, lost: seq<Transport>, k: Address, w: World)
    requires k in p.idle && k in p.busy && Walkable(p, w.order) && p.idle[k] == []
    ensures BorrowTurn(c, Counting(p, lost), k, None, w)
         == (Counting(BorrowTurn(c, p, k, None, w).0, lost), BorrowTurn(c, p, k, None, w).1)
  {
    if c.maxActive < 0 || |p.busy[k]| < c.maxActive {
      StealCounting(c, p, lost, w.order);
      var q := Counting(p, lost);
      var room := if HasReachedMaxTotal(c, p) then TryRemoveIdle(c, p, w.order) else Some(p);
      var room' := if HasReachedMaxTotal(c, q) then TryRemoveIdle(c, q, w.order) else Some(q);
      assert room'.None? <==> room.None?;
      if room.Some? {
        assert room'.value == Counting(room.value, lost);
        assert Make(room'.value, k) == Counting(Make(room.value, k), lost);
      }
    }
  }

  lemma TurnCounting(c: Config, p: Pool, lost: seq<Transport>, k: Address, obj: Option<Transport>, w: World)
    requires k in p.idle && k in p.busy && Walkable(p, w.order)
    ensures BorrowTurn(c, Counting(p, lost), k, obj, w)
         == (Counting(BorrowTurn(c, p, k, obj, w).0, lost), BorrowTurn(c, p, k, obj, w).1)
  {
    var p1 := if obj.Some? then Destroy(p, obj.value) else p;
    if obj.Some? {
      DestroyCounting(p, lost, obj.value);
    }
    assert BorrowTurn(c, p, k, obj, w) == BorrowTurn(c, p1, k, None, w);
    assert BorrowTurn(c, Counting(p, lost), k, obj, w) == BorrowTurn(c, Counting(p1, lost), k, None, w);
    if p1.idle[k] == [] {
      CreateCounting(c, p1, lost, k, w);
    } else {
      assert PollIdle(Counting(p1, lost), k) == Counting(PollIdle(p1, k), lost);
    }
  }

  lemma {:induction false} BorrowCounting(
      c: Config, p: Pool, lost: seq<Transport>, k: Address, obj: Option<Transport>, w: World)
    requires k in p.idle && k in p.busy && Walkable(p, w.order)
    ensures BorrowLoop(c, Counting(p, lost), k, obj, w)
         == (Counting(BorrowLoop(c, p, k, obj, w).0, lost), BorrowLoop(c, p, k, obj, w).1)
    decreases BadCreations(p, w), |p.idle[k]|, if Rejected(c, obj, w) then 1 else 0
  {
    if Rejected(c, obj, w) {
      TurnCounting(c, p, lost, k, obj, w);
      var (p', turn) := BorrowTurn(c, p, k, obj, w);
      if turn.Again? {
        BorrowCounting(c, p', lost, k, Some(turn.transport), w);
      }
    }
  }

  lemma ReturnCounting(c: Config, p: Pool, lost: seq<Transport>, k: Address, t: Transport, validates: bool)
    ensures Return(c, Counting(p, lost), k, t, validates)
         == (Counting(Return(c, p, k, t, validates).0, lost), Return(c, p, k, t, validates).1)
  {
    var p1 := if k in p.busy then FromBusy(p, k, t) else p;
    DestroyCounting(p1, lost, t);
    if p1.requests != [] && p1.requests[0] in p1.idle {
      DestroyCounting(ServeRequest(p1), lost, t);
    }
  }

  lemma InvalidateCounting(c: Config, p: Pool, lost: seq<Transport>, k: Address, t: Transport)
    ensures Invalidate(c, Counting(p, lost), k, t)
         == (Counting(Invalidate(c, p, k, t).0, lost), Invalidate(c, p, k, t).1)
  {
    if k in p.busy {
      var p1 := FromBusy(p, k, t);
      DestroyCounting(p1, lost, t);
      if p1.requests != [] && p1.requests[0] in p1.idle {
        DestroyCounting(ServeRequest(p1), lost, t);
      }
    }
  }

  lemma WakeCounting(c: Config, p: Pool, lost: seq<Transport>, k: Address, w: World)
    requires k in p.idle && k in p.busy && p.idle[k] != [] && Walkable(p, w.order)
    ensures Wake(c, Counting(p, lost), k, w).0 == Counting(Wake(c, p, k, w).0, lost)
  {
    assert PollIdle(Counting(p, lost), k) == Counting(PollIdle(p, k), lost);
    BorrowCounting(c, PollIdle(p, k), lost, k, Some(p.idle[k][0]), w);
  }

  lemma BorrowOpCounting(c: Config, p: Pool, lost: seq<Transport>, k: Address, w: World)
    requires Walkable(p, w.order)
    ensures Borrow(c, Counting(p, lost), k, w).0 == Counting(Borrow(c, p, k, w).0, lost)
  {
    if !p.closed && k in p.idle && k in p.busy {
      if p.idle[k] == [] {
        BorrowCounting(c, p, lost, k, None, w);
      } else {
        WakeCounting(c, p, lost, k, w);
      }
    }
  }

  lemma NextCounting(c: Config, p: Pool, lost: seq<Transport>, op: Op)
    requires Enabled(c, p, op)
    ensures Enabled(c, Counting(p, lost), op)
    ensures Next(c, Counting(p, lost), op) == Counting(Next(c, p, op), lost)
  {
    match op
    case Add(k) => AddCounting(c, p, lost, k);
    case BorrowOp(k, w) => BorrowOpCounting(c, p, lost, k, w);
    case WakeOp(k, w) => WakeCounting(c, p, lost, k, w);
    case ReturnOp(k, t, validates) => ReturnCounting(c, p, lost, k, t, validates);
    case InvalidateOp(k, t) => InvalidateCounting(c, p, lost, k, t);
    case Clear(k) => assert lost + p.destroyed + p.idle[k] == lost + (p.destroyed + p.idle[k]);
  }

  // -------------------------------------------------------------------------------------- leaky runs

  /** An operation of a sound run, or an invalidation that throws because its server has left the idle map. */
  ghost predicate MayHappen(c: Config, p: Pool, op: Op) {
    Enabled(c, p, op) || Throws(c, p, op)
  }

  ghost predicate Throws(c: Config, p: Pool, op: Op) {
    && op.InvalidateOp? && op.key in p.busy && op.transport in p.busy[op.key]
    && Invalidate(c, p, op.key, op.transport).1 == Some(NoIdleQueue)
  }

  /** The pool and the transports lost so far, after an operation. */
  ghost function Step(c: Config, p: Pool, lost: seq<Transport>, op: Op): (Pool, seq<Transport>)
    requires MayHappen(c, p, op)
  {
    if Throws(c, p, op) then (Invalidate(c, p, op.key, op.transport).0, lost + [op.transport])
    else (Next(c, p, op), lost)
  }

  ghost predicate LeakyRuns(c: Config, p: Pool, lost: seq<Transport>, ops: seq<Op>)
    decreases ops
  {
    ops != [] ==>
      && MayHappen(c, p, ops[0])
      && var (p', lost') := Step(c, p, lost, ops[0]);
         LeakyRuns(c, p', lost', ops[1..])
  }

  ghost function AfterLeaky(c: Config, p: Pool, lost: seq<Transport>, ops: seq<Op>): (Pool, seq<Transport>)
    requires LeakyRuns(c, p, lost, ops)
    decreases ops
  {
    if ops == [] then (p, lost)
    else
      var (p', lost') := Step(c, p, lost, ops[0]);
      AfterLeaky(c, p', lost', ops[1..])
  }

  /** Only how often a transport was destroyed matters to the books. */
  lemma SameBooks(c: Config, p: Pool, destroyed: seq<Transport>)
    requires Sound(c, p) && multiset(destroyed) == multiset(p.destroyed)
    ensures Sound(c, p.(destroyed := destroyed))
  {
  }

  lemma DropKeeps(c: Config, p: Pool, k: Address, t: Transport)
    requires Sound(c, p) && k in p.busy && t in p.busy[k]
    ensures Sound(c, Destroy(FromBusy(p, k, t), t))
  {
    FromBusyKeeps(p, k, t, multiset{});
    assert multiset{} + multiset{t} == multiset{t};
    DestroyKeeps(FromBusy(p, k, t), t, multiset{});
  }

  /** A lost transport is missing from the books as if it had been destroyed. */
  lemma LossKeeps(c: Config, p: Pool, lost: seq<Transport>, k: Address, t: Transport)
    requires Sound(c, Counting(p, lost)) && k in p.busy && t in p.busy[k]
    ensures Sound(c, Counting(FromBusy(p, k, t), lost + [t]))
  {
    var booked := Destroy(FromBusy(Counting(p, lost), k, t), t);
    DropKeeps(c, Counting(p, lost), k, t);
    SameBooks(c, booked, lost + [t] + p.destroyed);
    assert booked.(destroyed := lost + [t] + p.destroyed) == Counting(FromBusy(p, k, t), lost + [t]);
  }

  lemma ThrowKeeps(c: Config, p: Pool, lost: seq<Transport>, op: Op)
    requires Sound(c, Counting(p, lost)) && Throws(c, p, op)
    ensures Sound(c, Counting(Step(c, p, lost, op).0, Step(c, p, lost, op).1))
  {
    LossKeeps(c, p, lost, op.key, op.transport);
    assert Step(c, p, lost, op) == (FromBusy(p, op.key, op.transport), lost + [op.transport]);
  }

  lemma {:induction false} LeakyRunKeeps(c: Config, p: Pool, lost: seq<Transport>, ops: seq<Op>)
    requires Sound(c, Counting(p, lost)) && LeakyRuns(c, p, lost, ops)
    ensures Sound(c, Counting(AfterLeaky(c, p, lost, ops).0, AfterLeaky(c, p, lost, ops).1))
    decreases ops
  {
    if ops != [] {
      var (p', lost') := Step(c, p, lost, ops[0]);
      if Throws(c, p, ops[0]) {
        ThrowKeeps(c, p, lost, ops[0]);
      } else {
        NextCounting(c, p, lost, ops[0]);
        StepKeeps(c, Counting(p, lost), ops[0]);
      }
      LeakyRunKeeps(c, p', lost', ops[1..]);
    }
  }

  /** Conservation in every run from an empty pool that goes on after invalidations have thrown: the totals are
      the summed queue sizes and stay within the cap, and each transport made is exactly once in a queue,
      destroyed or lost. */
  lemma LeakyConservation(c: Config, ops: seq<Op>)
    requires LeakyRuns(c, EMPTY, [], ops)
    ensures var (p, lost) := AfterLeaky(c, EMPTY, [], ops);
      && p.totalIdle == Sizes(p.idle)
      && p.totalActive == Sizes(p.busy)
      && (forall t: Transport :: Places(p, t) + multiset(lost)[t] == if t < |p.made| then 1 else 0)
      && |p.made| - |p.destroyed| - |lost| == p.totalIdle + p.totalActive
      && (c.maxTotal > 0 ==> p.totalIdle + p.totalActive <= c.maxTotal)
  {
    EmptyIsSound(c);
    assert Counting(EMPTY, []) == EMPTY;
    LeakyRunKeeps(c, EMPTY, [], ops);
    var (p, lost) := AfterLeaky(c, EMPTY, [], ops);
    SoundCounts(c, Counting(p, lost));
    forall t: Transport ensures Places(Counting(p, lost), t) == Places(p, t) + multiset(lost)[t] {
    }
  }
}
