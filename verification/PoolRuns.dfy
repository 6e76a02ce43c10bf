/**
 What every run of the connection pool keeps: the totals are the summed queue sizes, every transport the
 factory made sits in exactly one place, and the cap over all servers holds.
 */
module PoolRuns {
  import opened Wrappers
  import opened QueueAccounting
  import opened ConnectionPool

  /** Totals agree with the queues, and each transport ever made is exactly once in an idle queue, in a busy
      queue, in the list of destroyed ones, or among those `held` by the running operation. */
  ghost predicate Balanced(p: Pool, held: multiset<Transport>) {
    && p.totalIdle == Sizes(p.idle)
    && p.totalActive == Sizes(p.busy)
    && Contents(p.idle) + Contents(p.busy) + multiset(p.destroyed) + held == Ids(|p.made|)
  }

  ghost predicate MadeFor(made: seq<Address>, t: Transport, k: Address) {
    t < |made| && made[t] == k
  }

  ghost predicate AllMadeFor(made: seq<Address>, m: Queues) {
    forall k, i :: k in m && 0 <= i < |m[k]| ==> MadeFor(made, m[k][i], k)
  }

  /** Every queued transport leads to the server whose queue it is in, every server with an idle queue has a
      busy queue, and no queue is null. */
  ghost predicate Placed(p: Pool) {
    && AllMadeFor(p.made, p.idle)
    && AllMadeFor(p.made, p.busy)
    && p.idle.Keys <= p.busy.Keys
    && p.nulls == {}
  }

  ghost predicate Capped(c: Config, p: Pool, held: nat) {
    c.maxTotal > 0 ==> p.totalIdle + p.totalActive + held <= c.maxTotal
  }

  ghost predicate Sound(c: Config, p: Pool) {
    Balanced(p, multiset{}) && Placed(p) && Capped(c, p, 0)
  }

  // ------------------------------------------------------------------------------ the small moves

  lemma MakeKeeps(p: Pool, k: Address, h: multiset<Transport>)
    requires Balanced(p, h) && Placed(p)
    ensures Balanced(Make(p, k), h + multiset{|p.made|}) && Placed(Make(p, k))
    ensures MadeFor(Make(p, k).made, |p.made|, k)
  {
  }

  lemma DestroyKeeps(p: Pool, t: Transport, h: multiset<Transport>)
    requires Balanced(p, h + multiset{t}) && Placed(p)
    ensures Balanced(Destroy(p, t), h) && Placed(Destroy(p, t))
  {
  }

  lemma ToIdleKeeps(p: Pool, k: Address, t: Transport, h: multiset<Transport>)
    requires Balanced(p, h + multiset{t}) && Placed(p) && k in p.idle && MadeFor(p.made, t, k)
    ensures Balanced(ToIdle(p, k, t), h) && Placed(ToIdle(p, k, t))
  {
    PushQueue(p.idle, k, t);
    PushPlaced(p.made, p.idle, k, t);
  }

  lemma PollIdleKeeps(p: Pool, k: Address, h: multiset<Transport>)
    requires Balanced(p, h) && Placed(p) && k in p.idle && p.idle[k] != []
    ensures Balanced(PollIdle(p, k), h + multiset{p.idle[k][0]}) && Placed(PollIdle(p, k))
    ensures MadeFor(p.made, p.idle[k][0], k)
  {
    PopQueue(p.idle, k);
    FewerPlaced(p.made, p.idle, k, p.idle[k][1..]);
  }

  lemma ToBusyKeeps(p: Pool, k: Address, t: Transport, h: multiset<Transport>)
    requires Balanced(p, h + multiset{t}) && Placed(p) && k in p.busy && MadeFor(p.made, t, k)
    ensures Balanced(ToBusy(p, k, t), h) && Placed(ToBusy(p, k, t))
  {
    PushQueue(p.busy, k, t);
    PushPlaced(p.made, p.busy, k, t);
  }

  lemma FromBusyKeeps(p: Pool, k: Address, t: Transport, h: multiset<Transport>)
    requires Balanced(p, h) && Placed(p) && k in p.busy && t in p.busy[k]
    ensures Balanced(FromBusy(p, k, t), h + multiset{t}) && Placed(FromBusy(p, k, t))
    ensures MadeFor(p.made, t, k) && |FromBusy(p, k, t).busy[k]| == |p.busy[k]| - 1
  {
    IdsOnce(|p.made|, t);
    assert Contents(p.busy)[t] <= Ids(|p.made|)[t];
    TakeFromQueue(p.busy, k, t);
    FewerPlaced(p.made, p.busy, k, Without(p.busy[k], t));
  }

  lemma PushPlaced(made: seq<Address>, m: Queues, k: Address, t: Transport)
    requires AllMadeFor(made, m) && k in m && MadeFor(made, t, k)
    ensures AllMadeFor(made, m[k := m[k] + [t]])
  {
  }

  lemma FewerPlaced(made: seq<Address>, m: Queues, k: Address, q: seq<Transport>)
    requires AllMadeFor(made, m) && k in m && forall x :: x in q ==> x in m[k]
    ensures AllMadeFor(made, m[k := q])
  {
    forall i | 0 <= i < |q| ensures MadeFor(made, q[i], k) {
      assert q[i] in m[k];
    }
  }

  // -------------------------------------------------------------------------------- the operations

  lemma MakeIdleKeeps(p: Pool, k: Address, h: multiset<Transport>)
    requires Balanced(p, h) && Placed(p) && k in p.idle
    ensures var r := ToIdle(Make(p, k), k, |p.made|);
      Balanced(r, h) && Placed(r) && r.totalIdle == p.totalIdle + 1 && r.totalActive == p.totalActive
  {
    MakeKeeps(p, k, h);
    ToIdleKeeps(Make(p, k), k, |p.made|, h);
  }

  lemma {:induction false} GrowKeeps(c: Config, p: Pool, k: Address, n: nat)
    requires Balanced(p, multiset{}) && Placed(p) && k in p.idle && Capped(c, p, n)
    ensures Sound(c, Grow(p, k, n))
    decreases n
  {
    if n > 0 {
      MakeIdleKeeps(p, k, multiset{});
      GrowKeeps(c, ToIdle(Make(p, k), k, |p.made|), k, n - 1);
    }
  }

  /** Growing touches one idle queue and nothing else that others rely on. */
  lemma {:induction false} GrowFrame(p: Pool, k: Address, n: nat)
    requires k in p.idle
    ensures var r := Grow(p, k, n);
      && r.idle.Keys == p.idle.Keys && r.busy == p.busy
      && r.destroyed == p.destroyed && r.requests == p.requests
    decreases n
  {
    if n > 0 {
      GrowFrame(ToIdle(Make(p, k), k, |p.made|), k, n - 1);
    }
  }

  function Opened(p: Pool, k: Address): Pool {
    p.(idle := p.idle[k := []], busy := if k in p.busy then p.busy else p.busy[k := []])
  }

  lemma EmptyQueueKeeps(made: seq<Address>, m: Queues, k: Address)
    requires AllMadeFor(made, m) && k !in m
    ensures AllMadeFor(made, m[k := []])
    ensures Contents(m[k := []]) == Contents(m) && Sizes(m[k := []]) == Sizes(m)
  {
    NewQueue(m, k, []);
    assert Contents(m) + multiset([]) == Contents(m);
  }

  lemma OpenKeeps(c: Config, p: Pool, k: Address)
    requires Sound(c, p) && k !in p.idle
    ensures Sound(c, Opened(p, k))
  {
    EmptyQueueKeeps(p.made, p.idle, k);
    if k !in p.busy {
      EmptyQueueKeeps(p.made, p.busy, k);
    }
  }

  lemma AddKeeps(c: Config, p: Pool, k: Address)
    requires Sound(c, p)
    ensures Sound(c, AddObject(c, p, k))
  {
    if k in p.idle {
      assert AddObject(c, p, k) == p;
    } else {
      OpenKeeps(c, p, k);
      var n := Max(0, MinIdleGrow(c, Opened(p, k), k));
      assert AddObject(c, p, k) == Grow(Opened(p, k), k, n);
      GrowKeeps(c, Opened(p, k), k, n);
    }
  }

  lemma {:induction false} GrowSizes(p: Pool, k: Address, n: nat)
    requires k in p.idle
    ensures var r := Grow(p, k, n);
      k in r.idle && |r.idle[k]| == |p.idle[k]| + n && r.totalIdle == p.totalIdle + n && r.totalActive == p.totalActive
    decreases n
  {
    if n > 0 {
      GrowSizes(ToIdle(Make(p, k), k, |p.made|), k, n - 1);
    }
  }

  /** A new server starts with minIdle transports, or with as many as the cap leaves room for. */
  lemma AddReachesMinIdle(c: Config, p: Pool, k: Address)
    requires k !in p.idle && k !in p.nulls
    ensures var r := AddObject(c, p, k);
      && k in r.idle && k in r.busy
      && (c.maxTotal <= 0 ==> |r.idle[k]| == Max(0, c.minIdle))
      && (c.maxTotal > 0 ==> |r.idle[k]| <= Max(0, c.minIdle) && (|r.idle[k]| < c.minIdle ==> HasReachedMaxTotal(c, r)))
  {
    var n := Max(0, MinIdleGrow(c, Opened(p, k), k));
    GrowSizes(Opened(p, k), k, n);
    GrowFrame(Opened(p, k), k, n);
  }

  lemma AddFrame(c: Config, p: Pool, k: Address)
    requires p.nulls == {}
    ensures var r := AddObject(c, p, k);
      r.idle.Keys == p.idle.Keys + {k} && r.destroyed == p.destroyed && r.requests == p.requests
  {
    if k !in p.idle {
      GrowFrame(Opened(p, k), k, Max(0, MinIdleGrow(c, Opened(p, k), k)));
    }
  }

  lemma StealKeeps(c: Config, p: Pool, order: seq<Address>)
    requires Balanced(p, multiset{}) && Placed(p) && Walkable(p, order)
    requires TryRemoveIdle(c, p, order).Some?
    ensures var r := TryRemoveIdle(c, p, order).value;
      Balanced(r, multiset{}) && Placed(r) && r.totalIdle == p.totalIdle - 1 && r.totalActive == p.totalActive
  {
    StealChoice(c, p, order);
    var v :| v in p.idle && p.idle[v] != []
          && TryRemoveIdle(c, p, order).value == Destroy(PollIdle(p, v), p.idle[v][0]);
    PollIdleKeeps(p, v, multiset{});
    DestroyKeeps(PollIdle(p, v), p.idle[v][0], multiset{});
  }

  /** The transport in hand, if any: it is neither queued nor counted in the totals. */
  ghost function InHand(obj: Option<Transport>): multiset<Transport> {
    if obj.Some? then multiset{obj.value} else multiset{}
  }

  ghost predicate Borrowing(c: Config, p: Pool, k: Address, obj: Option<Transport>) {
    && Balanced(p, InHand(obj)) && Placed(p) && Capped(c, p, |InHand(obj)|)
    && k in p.idle && k in p.busy
    && (obj.Some? ==> MadeFor(p.made, obj.value, k))
  }

  lemma RejectKeeps(c: Config, p: Pool, k: Address, obj: Option<Transport>)
    requires Borrowing(c, p, k, obj)
    ensures Sound(c, if obj.Some? then Destroy(p, obj.value) else p)
  {
    if obj.Some? {
      assert multiset{} + multiset{obj.value} == InHand(obj);
      DestroyKeeps(p, obj.value, multiset{});
    }
  }

  lemma TakeIdleKeeps(c: Config, p: Pool, k: Address)
    requires Sound(c, p) && k in p.idle && k in p.busy && p.idle[k] != []
    ensures Borrowing(c, PollIdle(p, k), k, Some(p.idle[k][0]))
  {
    PollIdleKeeps(p, k, multiset{});
    assert multiset{} + multiset{p.idle[k][0]} == InHand(Some(p.idle[k][0]));
  }

  lemma CreateKeeps(c: Config, p: Pool, k: Address)
    requires Balanced(p, multiset{}) && Placed(p) && Capped(c, p, 1) && k in p.idle && k in p.busy
    ensures Borrowing(c, Make(p, k), k, Some(|p.made|))
  {
    MakeKeeps(p, k, multiset{});
    assert multiset{} + multiset{|p.made|} == InHand(Some(|p.made|));
  }

  /** Room for one more: below the cap, or after destroying somebody's idle transport. */
  lemma RoomKeeps(c: Config, p: Pool, w: World)
    requires Sound(c, p) && Walkable(p, w.order)
    ensures var room := if HasReachedMaxTotal(c, p) then TryRemoveIdle(c, p, w.order) else Some(p);
      room.Some? ==> Balanced(room.value, multiset{}) && Placed(room.value) && Capped(c, room.value, 1)
  {
    if HasReachedMaxTotal(c, p) && TryRemoveIdle(c, p, w.order).Some? {
      StealKeeps(c, p, w.order);
    }
  }

  ghost predicate TurnFine(c: Config, k: Address, r: (Pool, Turn)) {
    match r.1
    case Stop(_) => Sound(c, r.0)
    case Again(t) => Borrowing(c, r.0, k, Some(t))
  }

  lemma RequestKeeps(c: Config, p: Pool, k: Address)
    requires Sound(c, p) && k in p.idle
    ensures Sound(c, p.(requests := p.requests + [k]))
  {
  }

  /** A turn that has to create: what it leaves behind. */
  lemma CreateTurnKeeps(c: Config, p: Pool, k: Address, w: World)
    requires Sound(c, p) && k in p.idle && k in p.busy && Walkable(p, w.order) && p.idle[k] == []
    ensures TurnFine(c, k, BorrowTurn(c, p, k, None, w))
  {
    var r := BorrowTurn(c, p, k, None, w);
    var room := if HasReachedMaxTotal(c, p) then TryRemoveIdle(c, p, w.order) else Some(p);
    if c.maxActive >= 0 && |p.busy[k]| >= c.maxActive {
      assert r == (p, Stop(Starved(c)));
    } else if room.None? {
      assert r == (p.(requests := p.requests + [k]), Stop(Starved(c)));
      RequestKeeps(c, p, k);
    } else {
      RoomKeeps(c, p, w);
      if |room.value.made| in w.refused {
        assert r == (room.value, Stop(Threw(MakeFailed)));
      } else {
        assert r == (Make(room.value, k), Again(|room.value.made|));
        CreateKeeps(c, room.value, k);
      }
    }
  }

  lemma TurnKeeps(c: Config, p: Pool, k: Address, obj: Option<Transport>, w: World)
    requires Borrowing(c, p, k, obj) && Walkable(p, w.order)
    ensures TurnFine(c, k, BorrowTurn(c, p, k, obj, w))
  {
    var p1 := if obj.Some? then Destroy(p, obj.value) else p;
    RejectKeeps(c, p, k, obj);
    assert BorrowTurn(c, p, k, obj, w) == BorrowTurn(c, p1, k, None, w);
    if p1.idle[k] != [] {
      TakeIdleKeeps(c, p1, k);
    } else {
      CreateTurnKeeps(c, p1, k, w);
    }
  }

  lemma {:induction false} BorrowLoopKeeps(c: Config, p: Pool, k: Address, obj: Option<Transport>, w: World)
    requires Borrowing(c, p, k, obj) && Walkable(p, w.order)
    ensures Sound(c, BorrowLoop(c, p, k, obj, w).0)
    decreases BadCreations(p, w), |p.idle[k]|, if Rejected(c, obj, w) then 1 else 0
  {
    if !Rejected(c, obj, w) {
      assert multiset{} + multiset{obj.value} == InHand(obj);
      ToBusyKeeps(p, k, obj.value, multiset{});
    } else {
      TurnKeeps(c, p, k, obj, w);
      var (p', turn) := BorrowTurn(c, p, k, obj, w);
      if turn.Again? {
        BorrowLoopKeeps(c, p', k, Some(turn.transport), w);
      }
    }
  }

  /** What a borrow hands out: a transport made for the server asked for, added to that server's busy queue
      and to no other, and validated when validation is on. Without one, no busy queue changes. */
  lemma {:induction false} BorrowHandsOut(c: Config, p: Pool, k: Address, obj: Option<Transport>, w: World)
    requires k in p.idle && k in p.busy && Walkable(p, w.order)
    requires forall i :: 0 <= i < |p.idle[k]| ==> MadeFor(p.made, p.idle[k][i], k)
    requires obj.Some? ==> MadeFor(p.made, obj.value, k)
    ensures var (p', r) := BorrowLoop(c, p, k, obj, w);
      if r.Got? then
        && MadeFor(p'.made, r.transport, k)
        && p'.busy == p.busy[k := p.busy[k] + [r.transport]]
        && (c.testOnBorrow ==> r.transport !in w.invalid)
      else p'.busy == p.busy
    decreases BadCreations(p, w), |p.idle[k]|, if Rejected(c, obj, w) then 1 else 0
  {
    if Rejected(c, obj, w) {
      var (p', turn) := BorrowTurn(c, p, k, obj, w);
      if turn.Again? {
        BorrowHandsOut(c, p', k, Some(turn.transport), w);
      }
    }
  }

  /** Nothing is left to hand out for `k`: its idle queue is empty and it is at its own limit, or the pool is at
      the cap with every idle queue empty and the request is queued. */
  ghost predicate Full(c: Config, p: Pool, k: Address) {
    && k in p.idle && k in p.busy && p.idle[k] == []
    && (|| (c.maxActive >= 0 && |p.busy[k]| >= c.maxActive)
        || (&& HasReachedMaxTotal(c, p)
            && (forall x :: x in p.idle ==> p.idle[x] == [])
            && p.requests != [] && p.requests[|p.requests| - 1] == k))
  }

  /** The borrower gets nothing: it waits, or the exhaustion is thrown if so configured. */
  ghost predicate GotNothing(outcome: Outcome) {
    outcome == Waiting || outcome == Threw(Exhausted)
  }

  lemma TurnStarvesOnlyWhenFull(c: Config, p: Pool, k: Address, obj: Option<Transport>, w: World)
    requires k in p.idle && k in p.busy && Walkable(p, w.order)
    requires BorrowTurn(c, p, k, obj, w).1.Stop? && GotNothing(BorrowTurn(c, p, k, obj, w).1.outcome)
    ensures Full(c, BorrowTurn(c, p, k, obj, w).0, k)
    ensures BorrowTurn(c, p, k, obj, w).1.outcome == Waiting <==> !c.throwsWhenExhausted
  {
    var p1 := if obj.Some? then Destroy(p, obj.value) else p;
    if HasReachedMaxTotal(c, p1) {
      StealChoice(c, p1, w.order);
    }
  }

  /** A borrow waits, or throws for exhaustion as configured, only when nothing is left to hand out. */
  lemma {:induction false} StarvesOnlyWhenFull(c: Config, p: Pool, k: Address, obj: Option<Transport>, w: World)
    requires k in p.idle && k in p.busy && Walkable(p, w.order)
    requires GotNothing(BorrowLoop(c, p, k, obj, w).1)
    ensures Full(c, BorrowLoop(c, p, k, obj, w).0, k)
    ensures BorrowLoop(c, p, k, obj, w).1 == Waiting <==> !c.throwsWhenExhausted
    decreases BadCreations(p, w), |p.idle[k]|, if Rejected(c, obj, w) then 1 else 0
  {
    if Rejected(c, obj, w) {
      var (p', turn) := BorrowTurn(c, p, k, obj, w);
      if turn.Again? {
        StarvesOnlyWhenFull(c, p', k, Some(turn.transport), w);
      } else {
        TurnStarvesOnlyWhenFull(c, p, k, obj, w);
      }
    }
  }

  lemma WakeKeeps(c: Config, p: Pool, k: Address, w: World)
    requires Sound(c, p) && k in p.idle && k in p.busy && p.idle[k] != [] && Walkable(p, w.order)
    ensures Sound(c, Wake(c, p, k, w).0)
  {
    TakeIdleKeeps(c, p, k);
    BorrowLoopKeeps(c, PollIdle(p, k), k, Some(p.idle[k][0]), w);
  }

  lemma BorrowKeeps(c: Config, p: Pool, k: Address, w: World)
    requires Sound(c, p) && Walkable(p, w.order)
    ensures Sound(c, Borrow(c, p, k, w).0)
  {
    if !p.closed && k in p.idle && k in p.busy {
      if p.idle[k] == [] {
        BorrowLoopKeeps(c, p, k, None, w);
      } else {
        WakeKeeps(c, p, k, w);
      }
    }
  }

  lemma ServeKeeps(p: Pool, h: multiset<Transport>)
    requires Balanced(p, h) && Placed(p) && p.requests != [] && p.requests[0] in p.idle
    ensures Balanced(ServeRequest(p), h) && Placed(ServeRequest(p))
  {
    var k := p.requests[0];
    MakeIdleKeeps(p.(requests := p.requests[1..]), k, h);
  }

  lemma ReleaseKeeps(c: Config, p: Pool, k: Address, t: Transport)
    requires Sound(c, p) && k in p.busy && t in p.busy[k] && (Swaps(c, p) ==> p.requests[0] in p.idle)
    ensures Sound(c, Destroy(if Swaps(c, p) then ServeRequest(FromBusy(p, k, t)) else FromBusy(p, k, t), t))
  {
    FromBusyKeeps(p, k, t, multiset{});
    var p1 := FromBusy(p, k, t);
    assert multiset{} + multiset{t} == multiset{t};
    if Swaps(c, p) {
      ServeKeeps(p1, multiset{t});
      DestroyKeeps(ServeRequest(p1), t, multiset{});
    } else {
      DestroyKeeps(p1, t, multiset{});
    }
  }

  lemma ToIdleAgainKeeps(c: Config, p: Pool, k: Address, t: Transport)
    requires Sound(c, p) && k in p.busy && t in p.busy[k] && k in p.idle
    ensures Sound(c, ToIdle(FromBusy(p, k, t), k, t))
  {
    FromBusyKeeps(p, k, t, multiset{});
    ToIdleKeeps(FromBusy(p, k, t), k, t, multiset{});
  }

  /** The queues that giving back a transport of `k` dereferences are there. */
  ghost predicate SwapDefined(c: Config, p: Pool, k: Address) {
    Swaps(c, p) ==> p.requests[0] in p.idle && k in p.idle
  }

  lemma ReturnKeeps(c: Config, p: Pool, k: Address, t: Transport, validates: bool)
    requires Sound(c, p) && k in p.busy && t in p.busy[k] && SwapDefined(c, p, k)
    ensures Return(c, p, k, t, validates).1 == None && Sound(c, Return(c, p, k, t, validates).0)
  {
    var p1 := FromBusy(p, k, t);
    if Swaps(c, p) {
      ReleaseKeeps(c, p, k, t);
      assert Return(c, p, k, t, validates) == (Destroy(ServeRequest(p1), t), None);
    } else if !p.closed && (!c.testOnReturn || validates) && k in p.idle {
      ToIdleAgainKeeps(c, p, k, t);
      assert Return(c, p, k, t, validates) == (ToIdle(p1, k, t), None);
    } else {
      ReleaseKeeps(c, p, k, t);
      assert Return(c, p, k, t, validates) == (Destroy(p1, t), None);
    }
  }

  /** A transport taken off its queue and neither queued nor destroyed is missing from the books. */
  lemma MissingIsUnsound(p: Pool, t: Transport)
    requires Balanced(p, multiset{t})
    ensures !Balanced(p, multiset{})
  {
    var booked := Contents(p.idle) + Contents(p.busy) + multiset(p.destroyed);
    assert (booked + multiset{})[t] == booked[t] && (booked + multiset{t})[t] == booked[t] + 1;
  }

  lemma LeakIsUnsound(p: Pool, k: Address, t: Transport)
    requires Balanced(p, multiset{}) && Placed(p) && k in p.busy && t in p.busy[k]
    ensures Balanced(FromBusy(p, k, t), multiset{t}) && Placed(FromBusy(p, k, t))
    ensures |FromBusy(p, k, t).busy[k]| == |p.busy[k]| - 1
    ensures !Balanced(FromBusy(p, k, t), multiset{})
    ensures p.requests != [] ==> !Balanced(FromBusy(p, k, t).(requests := p.requests[1..]), multiset{})
  {
    FromBusyKeeps(p, k, t, multiset{});
    assert multiset{} + multiset{t} == multiset{t};
    MissingIsUnsound(FromBusy(p, k, t), t);
  }

  /** Returning keeps the books, and runs into no missing queue, exactly when a swap finds the idle queues of
      the oldest request's server and of the returned transport's. */
  lemma ReturnKeepsIff(c: Config, p: Pool, k: Address, t: Transport, validates: bool)
    requires Sound(c, p) && k in p.busy && t in p.busy[k]
    ensures Sound(c, Return(c, p, k, t, validates).0) <==> SwapDefined(c, p, k)
    ensures Return(c, p, k, t, validates).1 == Some(NullQueue) <==> !SwapDefined(c, p, k)
  {
    if SwapDefined(c, p, k) {
      ReturnKeeps(c, p, k, t, validates);
    } else {
      var p1 := FromBusy(p, k, t);
      LeakIsUnsound(p, k, t);
      if p.requests[0] in p.idle {
        ServeKeeps(p1, multiset{t});
        MissingIsUnsound(ServeRequest(p1), t);
        assert Return(c, p, k, t, validates) == (ServeRequest(p1), Some(NullQueue));
      } else {
        assert Return(c, p, k, t, validates) == (p1.(requests := p.requests[1..]), Some(NullQueue));
      }
    }
  }

  /** What invalidation needs to get through: not the last busy transport of a server without an idle queue,
      and on a swap an idle queue for the oldest request. */
  ghost predicate InvalidateDefined(c: Config, p: Pool, k: Address)
    requires k in p.busy
  {
    (k in p.idle || |p.busy[k]| > 1) && (Swaps(c, p) ==> p.requests[0] in p.idle)
  }

  lemma InvalidateKeeps(c: Config, p: Pool, k: Address, t: Transport)
    requires Sound(c, p) && k in p.busy && t in p.busy[k] && InvalidateDefined(c, p, k)
    ensures Sound(c, Invalidate(c, p, k, t).0) && Invalidate(c, p, k, t).1 == None
  {
    var p1 := FromBusy(p, k, t);
    assert |p1.busy[k]| == |p.busy[k]| - 1 by {
      LeakIsUnsound(p, k, t);
    }
    ReleaseKeeps(c, p, k, t);
    assert Invalidate(c, p, k, t) == (Destroy(if Swaps(c, p) then ServeRequest(p1) else p1, t), None);
  }

  /** Invalidating keeps the books exactly when it does not give up half way: otherwise the transport is off
      its busy queue and never destroyed. */
  lemma InvalidateKeepsIff(c: Config, p: Pool, k: Address, t: Transport)
    requires Sound(c, p) && k in p.busy && t in p.busy[k]
    ensures Sound(c, Invalidate(c, p, k, t).0) <==> InvalidateDefined(c, p, k)
    ensures Invalidate(c, p, k, t).1 == None <==> InvalidateDefined(c, p, k)
  {
    if InvalidateDefined(c, p, k) {
      InvalidateKeeps(c, p, k, t);
    } else {
      var p1 := FromBusy(p, k, t);
      LeakIsUnsound(p, k, t);
      if k in p.idle || |p.busy[k]| > 1 {
        assert Invalidate(c, p, k, t) == (p1.(requests := p.requests[1..]), Some(NullQueue));
      } else {
        assert Invalidate(c, p, k, t) == (p1, Some(NoIdleQueue));
      }
    }
  }

  /** Dropping a server keeps the books, whatever is borrowed from it or requested for it. */
  lemma ClearKeeps(c: Config, p: Pool, k: Address)
    requires Sound(c, p) && k in p.idle
    ensures Sound(c, ClearKey(p, k))
  {
    Split(p.idle, k);
    var r := ClearKey(p, k);
    assert multiset(r.destroyed) == multiset(p.destroyed) + multiset(p.idle[k]);
  }

  // -------------------------------------------------------------------------------------------- runs

  datatype Op =
    | Add(key: Address)
    | BorrowOp(key: Address, world: World)
    | WakeOp(key: Address, world: World)
    | ReturnOp(key: Address, transport: Transport, validates: bool)
    | InvalidateOp(key: Address, transport: Transport)
    | Clear(key: Address)

  /** Each transport is handed back under its own key, and no queue that an operation dereferences is gone. */
  ghost predicate Enabled(c: Config, p: Pool, op: Op) {
    match op
    case Add(_) => true
    case BorrowOp(_, w) => Walkable(p, w.order)
    case WakeOp(k, w) => k in p.idle && k in p.busy && p.idle[k] != [] && Walkable(p, w.order)
    case ReturnOp(k, t, _) => k in p.busy && t in p.busy[k] && SwapDefined(c, p, k)
    case InvalidateOp(k, t) => k in p.busy && t in p.busy[k] && InvalidateDefined(c, p, k)
    case Clear(k) => k in p.idle
  }

  ghost function Next(c: Config, p: Pool, op: Op): Pool
    requires Enabled(c, p, op)
  {
    match op
    case Add(k) => AddObject(c, p, k)
    case BorrowOp(k, w) => Borrow(c, p, k, w).0
    case WakeOp(k, w) => Wake(c, p, k, w).0
    case ReturnOp(k, t, validates) => Return(c, p, k, t, validates).0
    case InvalidateOp(k, t) => Invalidate(c, p, k, t).0
    case Clear(k) => ClearKey(p, k)
  }

  lemma StepKeeps(c: Config, p: Pool, op: Op)
    requires Sound(c, p) && Enabled(c, p, op)
    ensures Sound(c, Next(c, p, op))
  {
    match op
    case Add(k) => AddKeeps(c, p, k);
    case BorrowOp(k, w) => BorrowKeeps(c, p, k, w);
    case WakeOp(k, w) => WakeKeeps(c, p, k, w);
    case ReturnOp(k, t, validates) => ReturnKeeps(c, p, k, t, validates);
    case InvalidateOp(k, t) => InvalidateKeeps(c, p, k, t);
    case Clear(k) => ClearKeeps(c, p, k);
  }

  ghost predicate Runs(c: Config, p: Pool, ops: seq<Op>)
    decreases ops
  {
    ops != [] ==> Enabled(c, p, ops[0]) && Runs(c, Next(c, p, ops[0]), ops[1..])
  }

  ghost function After(c: Config, p: Pool, ops: seq<Op>): Pool
    requires Runs(c, p, ops)
    decreases ops
  {
    if ops == [] then p else After(c, Next(c, p, ops[0]), ops[1..])
  }

  lemma {:induction false} RunKeeps(c: Config, p: Pool, ops: seq<Op>)
    requires Sound(c, p) && Runs(c, p, ops)
    ensures Sound(c, After(c, p, ops))
    decreases ops
  {
    if ops != [] {
      StepKeeps(c, p, ops[0]);
      RunKeeps(c, Next(c, p, ops[0]), ops[1..]);
    }
  }

  lemma EmptyIsSound(c: Config)
    ensures Sound(c, EMPTY)
  {
    assert Contents(EMPTY.idle) == multiset{};
  }

  /** Where transport `t` is, counted over all places it could be. */
  ghost function Places(p: Pool, t: Transport): nat {
    Contents(p.idle)[t] + Contents(p.busy)[t] + multiset(p.destroyed)[t]
  }

  /** What sound books say in numbers. */
  lemma SoundCounts(c: Config, p: Pool)
    requires Sound(c, p)
    ensures forall t: Transport :: Places(p, t) == if t < |p.made| then 1 else 0
    ensures |p.made| - |p.destroyed| == p.totalIdle + p.totalActive
  {
    forall t: Transport ensures Places(p, t) == if t < |p.made| then 1 else 0 {
      IdsOnce(|p.made|, t);
      assert (Contents(p.idle) + Contents(p.busy) + multiset(p.destroyed) + multiset{})[t] == Places(p, t);
    }
    SizesIsCardinality(p.idle);
    SizesIsCardinality(p.busy);
    IdsSize(|p.made|);
    assert |Contents(p.idle) + Contents(p.busy) + multiset(p.destroyed)| == |p.made|;
  }

  /** Conservation and the cap, in every run from an empty pool: the totals are the summed queue sizes, each
      transport made is in exactly one queue or was destroyed exactly once, created minus destroyed is the
      sum of the totals, and the totals never exceed maxTotal. */
  lemma PoolConservation(c: Config, ops: seq<Op>)
    requires Runs(c, EMPTY, ops)
    ensures var p := After(c, EMPTY, ops);
      && p.totalIdle == Sizes(p.idle)
      && p.totalActive == Sizes(p.busy)
      && (forall t: Transport :: Places(p, t) == if t < |p.made| then 1 else 0)
      && |p.made| - |p.destroyed| == p.totalIdle + p.totalActive
      && (c.maxTotal > 0 ==> p.totalIdle + p.totalActive <= c.maxTotal)
  {
    EmptyIsSound(c);
    RunKeeps(c, EMPTY, ops);
    SoundCounts(c, After(c, EMPTY, ops));
  }
}
