/**
 What each pool operation does to the queues, told from the state and the world before it: where a returned
 transport goes, which transport a borrower gets, and when it waits.
 */
module PoolOutcomes {
  import opened Wrappers
  import opened QueueAccounting
  import opened ConnectionPool

  /** As many transports as allowed exist. */
  ghost predicate AtCap(c: Config, p: Pool) {
    c.maxTotal > 0 && p.totalIdle + p.totalActive >= c.maxTotal
  }

  /** Somebody's deferred request takes the place of the next transport given back. */
  ghost predicate RequestWaits(c: Config, p: Pool) {
    AtCap(c, p) && p.requests != []
  }

  /** Transport `t` left the busy queue of `k`, and nothing else did. */
  ghost predicate Left(before: Queues, after: Queues, k: Address, t: Transport) {
    && after.Keys == before.Keys && k in before
    && (forall x :: x in before && x != k ==> after[x] == before[x])
    && multiset(after[k]) == multiset(before[k]) - multiset{t}
  }

  lemma TakenOut(p: Pool, k: Address, t: Transport)
    requires k in p.busy && multiset(p.busy[k])[t] == 1
    ensures Left(p.busy, FromBusy(p, k, t).busy, k, t)
  {
    WithoutOnce(p.busy[k], t);
  }

  // ------------------------------------------------------------------------------------ giving back

  /** A good transport goes to the end of its server's idle queue and stays alive. */
  lemma ReturnReuses(c: Config, p: Pool, k: Address, t: Transport, validates: bool)
    requires k in p.busy && multiset(p.busy[k])[t] == 1
    requires !RequestWaits(c, p) && !p.closed && (validates || !c.testOnReturn) && k in p.idle
    ensures var (r, error) := Return(c, p, k, t, validates);
      && error == None
      && r.idle == p.idle[k := p.idle[k] + [t]] && Left(p.busy, r.busy, k, t)
      && r.totalIdle == p.totalIdle + 1 && r.totalActive == p.totalActive - 1
      && r.destroyed == p.destroyed && r.made == p.made && r.requests == p.requests
  {
    TakenOut(p, k, t);
  }

  /** One that fails validation, or has no idle queue to go to, or comes back to a closed pool, is destroyed. */
  lemma ReturnDestroys(c: Config, p: Pool, k: Address, t: Transport, validates: bool)
    requires k in p.busy && multiset(p.busy[k])[t] == 1 && !RequestWaits(c, p)
    requires p.closed || (c.testOnReturn && !validates) || (k !in p.idle && k !in p.nulls)
    ensures var (r, error) := Return(c, p, k, t, validates);
      && error == None
      && r.idle == p.idle && Left(p.busy, r.busy, k, t)
      && r.totalIdle == p.totalIdle && r.totalActive == p.totalActive - 1
      && r.destroyed == p.destroyed + [t] && r.made == p.made && r.requests == p.requests
  {
    TakenOut(p, k, t);
  }

  /** The oldest request got a fresh transport in its server's idle queue, at the cost of `t`. */
  ghost predicate Swapped(p: Pool, r: Pool, k: Address, t: Transport)
    requires p.requests != [] && p.requests[0] in p.idle
  {
    var served := p.requests[0];
    && r.idle == p.idle[served := p.idle[served] + [|p.made|]] && Left(p.busy, r.busy, k, t)
    && r.made == p.made + [served] && r.requests == p.requests[1..]
    && r.destroyed == p.destroyed + [t]
    && r.totalIdle == p.totalIdle + 1 && r.totalActive == p.totalActive - 1
  }

  lemma ReturnSwaps(c: Config, p: Pool, k: Address, t: Transport, validates: bool)
    requires k in p.busy && multiset(p.busy[k])[t] == 1
    requires RequestWaits(c, p) && p.requests[0] in p.idle && k in p.idle
    ensures Return(c, p, k, t, validates).1 == None && Swapped(p, Return(c, p, k, t, validates).0, k, t)
  {
    TakenOut(p, k, t);
  }

  /** An invalidated transport is destroyed in any case; a waiting request is served as on a return. */
  lemma InvalidateDestroys(c: Config, p: Pool, k: Address, t: Transport)
    requires k in p.busy && multiset(p.busy[k])[t] == 1 && (k in p.idle || |p.busy[k]| > 1)
    requires RequestWaits(c, p) ==> p.requests[0] in p.idle
    ensures var (r, error) := Invalidate(c, p, k, t);
      && error == None
      && if RequestWaits(c, p) then Swapped(p, r, k, t)
         else
           && r.idle == p.idle && Left(p.busy, r.busy, k, t)
           && r.totalIdle == p.totalIdle && r.totalActive == p.totalActive - 1
           && r.destroyed == p.destroyed + [t] && r.made == p.made && r.requests == p.requests
  {
    TakenOut(p, k, t);
    WithoutOnce(p.busy[k], t);
  }

  // ---------------------------------------------------------------------------------------- borrowing

  /** Validation is off, or the world lets the transport pass. */
  ghost predicate Passes(c: Config, w: World, t: Transport) {
    c.testOnBorrow ==> t !in w.invalid
  }

  ghost predicate Usable(p: Pool, k: Address, w: World) {
    !p.closed && k in p.idle && k in p.busy && Walkable(p, w.order)
  }

  /** The pool after the front of `k`'s idle queue was taken and destroyed. */
  function Discarded(p: Pool, k: Address): Pool
    requires k in p.idle && p.idle[k] != []
  {
    p.(idle := p.idle[k := p.idle[k][1..]], totalIdle := p.totalIdle - 1, destroyed := p.destroyed + [p.idle[k][0]])
  }

  /** Starting with empty hands is what a borrow does. */
  lemma EmptyHanded(c: Config, p: Pool, k: Address, w: World)
    requires Usable(p, k, w)
    ensures BorrowLoop(c, p, k, None, w) == Borrow(c, p, k, w)
  {
    if p.idle[k] != [] {
      assert BorrowTurn(c, p, k, None, w) == (PollIdle(p, k), Again(p.idle[k][0]));
    }
  }

  /** A borrow goes on as if a transport at the front that does not pass had been destroyed before it. */
  lemma BorrowDiscards(c: Config, p: Pool, k: Address, w: World)
    requires Usable(p, k, w) && p.idle[k] != [] && !Passes(c, w, p.idle[k][0])
    ensures Usable(Discarded(p, k), k, w)
    ensures Borrow(c, p, k, w) == Borrow(c, Discarded(p, k), k, w)
  {
    var obj, p1, q := p.idle[k][0], PollIdle(p, k), Discarded(p, k);
    assert Destroy(p1, obj) == q;
    assert BorrowTurn(c, p1, k, Some(obj), w) == BorrowTurn(c, q, k, None, w);
    assert BorrowLoop(c, p1, k, Some(obj), w) == BorrowLoop(c, q, k, None, w);
    EmptyHanded(c, q, k, w);
  }

  /** The first idle transport that passes is handed out; those before it are destroyed, those behind it stay,
      and nothing is created, whatever the limits are. */
  lemma {:induction false} BorrowTakesFirstGood(c: Config, p: Pool, k: Address, w: World, j: nat)
    requires Usable(p, k, w) && j < |p.idle[k]| && Passes(c, w, p.idle[k][j])
    requires forall i :: 0 <= i < j ==> !Passes(c, w, p.idle[k][i])
    ensures var (r, outcome) := Borrow(c, p, k, w);
      && outcome == Got(p.idle[k][j])
      && r.idle == p.idle[k := p.idle[k][j + 1..]] && r.busy == p.busy[k := p.busy[k] + [p.idle[k][j]]]
      && r.totalIdle == p.totalIdle - (j + 1) && r.totalActive == p.totalActive + 1
      && r.destroyed == p.destroyed + p.idle[k][..j] && r.made == p.made && r.requests == p.requests
    decreases j
  {
    var queue := p.idle[k];
    if j == 0 {
      assert Borrow(c, p, k, w) == (ToBusy(PollIdle(p, k), k, queue[0]), Got(queue[0]));
      assert p.destroyed + queue[..0] == p.destroyed;
    } else {
      var q := Discarded(p, k);
      assert queue[0] == p.idle[k][0];
      BorrowDiscards(c, p, k, w);
      forall i | 0 <= i < j - 1 ensures !Passes(c, w, q.idle[k][i]) {
        assert q.idle[k][i] == queue[i + 1];
      }
      BorrowTakesFirstGood(c, q, k, w, j - 1);
      assert q.idle[k][j..] == queue[j + 1..];
      assert [queue[0]] + q.idle[k][..j - 1] == queue[..j];
      assert p.destroyed + [queue[0]] + q.idle[k][..j - 1] == p.destroyed + queue[..j];
      assert q.idle[k := q.idle[k][j..]] == p.idle[k := queue[j + 1..]];
    }
  }

  /** What a borrower that gets nothing sees. */
  ghost predicate Starves(c: Config, outcome: Outcome) {
    outcome == if c.throwsWhenExhausted then Threw(Exhausted) else Waiting
  }

  ghost predicate AtLimit(c: Config, p: Pool, k: Address)
    requires k in p.busy
  {
    0 <= c.maxActive <= |p.busy[k]|
  }

  /** With nothing idle, a server at its own limit gets nothing, and the pool stays as it is. */
  lemma BorrowRespectsLimit(c: Config, p: Pool, k: Address, w: World)
    requires Usable(p, k, w) && p.idle[k] == [] && AtLimit(c, p, k)
    ensures Borrow(c, p, k, w).0 == p && Starves(c, Borrow(c, p, k, w).1)
  {
    assert BorrowTurn(c, p, k, None, w).0 == p;
  }

  /** At the cap, with nothing idle anywhere, the request is queued and the borrower gets nothing. */
  lemma BorrowDefers(c: Config, p: Pool, k: Address, w: World)
    requires Usable(p, k, w) && !AtLimit(c, p, k) && AtCap(c, p) && forall x :: x in p.idle ==> p.idle[x] == []
    ensures Borrow(c, p, k, w).0 == p.(requests := p.requests + [k]) && Starves(c, Borrow(c, p, k, w).1)
  {
    StealChoice(c, p, w.order);
  }

  lemma HandsOver(c: Config, p: Pool, k: Address, t: Transport, w: World)
    requires k in p.idle && k in p.busy && Walkable(p, w.order) && Passes(c, w, t)
    ensures BorrowLoop(c, p, k, Some(t), w)
         == (p.(busy := p.busy[k := p.busy[k] + [t]], totalActive := p.totalActive + 1), Got(t))
  {
  }

  /** Below limit and cap a fresh transport is made and handed out, or the factory's refusal comes through. */
  lemma BorrowCreates(c: Config, p: Pool, k: Address, w: World)
    requires Usable(p, k, w) && p.idle[k] == [] && !AtLimit(c, p, k) && !AtCap(c, p)
    ensures var (r, outcome) := Borrow(c, p, k, w);
      && (|p.made| in w.refused ==> r == p && outcome == Threw(MakeFailed))
      && (|p.made| !in w.refused && Passes(c, w, |p.made|) ==>
            && outcome == Got(|p.made|)
            && r == p.(made := p.made + [k], busy := p.busy[k := p.busy[k] + [|p.made|]],
                       totalActive := p.totalActive + 1))
  {
    var fresh_ := |p.made|;
    if fresh_ in w.refused {
      assert BorrowTurn(c, p, k, None, w) == (p, Stop(Threw(MakeFailed)));
    } else {
      assert BorrowTurn(c, p, k, None, w) == (Make(p, k), Again(fresh_));
      if Passes(c, w, fresh_) {
        HandsOver(c, Make(p, k), k, fresh_, w);
      }
    }
  }

  /** A fresh transport that does not pass is destroyed, and the borrow starts over. */
  lemma BorrowStartsOver(c: Config, p: Pool, k: Address, w: World)
    requires Usable(p, k, w) && p.idle[k] == [] && !AtLimit(c, p, k) && !AtCap(c, p)
    requires |p.made| !in w.refused && !Passes(c, w, |p.made|)
    ensures var q := p.(made := p.made + [k], destroyed := p.destroyed + [|p.made|]);
      Usable(q, k, w) && Borrow(c, p, k, w) == Borrow(c, q, k, w)
  {
    var fresh_, p1 := |p.made|, Make(p, k);
    var q := Destroy(p1, fresh_);
    assert BorrowTurn(c, p, k, None, w) == (p1, Again(fresh_));
    assert BorrowTurn(c, p1, k, Some(fresh_), w) == BorrowTurn(c, q, k, None, w);
    assert BorrowLoop(c, p1, k, Some(fresh_), w) == BorrowLoop(c, q, k, None, w);
    EmptyHanded(c, q, k, w);
  }

  /** A borrower that waited goes on like one that comes now. */
  lemma WakesLikeBorrow(c: Config, p: Pool, k: Address, w: World)
    requires Usable(p, k, w) && p.idle[k] != []
    ensures Wake(c, p, k, w) == Borrow(c, p, k, w)
  {
  }

  /** At the cap somebody's oldest idle transport is destroyed to make room for the fresh one. */
  lemma BorrowSteals(c: Config, p: Pool, k: Address, w: World) returns (victim: Address)
    requires Usable(p, k, w) && p.idle[k] == [] && !AtLimit(c, p, k) && AtCap(c, p)
    requires exists x :: x in p.idle && p.idle[x] != []
    requires |p.made| !in w.refused && Passes(c, w, |p.made|)
    ensures victim in p.idle && p.idle[victim] != []
    ensures var (r, outcome) := Borrow(c, p, k, w);
      && outcome == Got(|p.made|)
      && r == p.(idle := p.idle[victim := p.idle[victim][1..]], totalIdle := p.totalIdle - 1,
                 destroyed := p.destroyed + [p.idle[victim][0]], made := p.made + [k],
                 busy := p.busy[k := p.busy[k] + [|p.made|]], totalActive := p.totalActive + 1)
  {
    StealChoice(c, p, w.order);
    victim :| victim in p.idle && p.idle[victim] != []
      && TryRemoveIdle(c, p, w.order).value == Destroy(PollIdle(p, victim), p.idle[victim][0]);
    var room := TryRemoveIdle(c, p, w.order).value;
    assert BorrowTurn(c, p, k, None, w) == (Make(room, k), Again(|p.made|));
    HandsOver(c, Make(room, k), k, |p.made|, w);
  }

  /** A closed pool, or an unknown server, changes nothing and says so. */
  lemma BorrowRefuses(c: Config, p: Pool, k: Address, w: World)
    requires Walkable(p, w.order)
    ensures p.closed ==> Borrow(c, p, k, w) == (p, Threw(PoolClosed))
    ensures !p.closed && (k !in p.idle || k !in p.busy) ==> Borrow(c, p, k, w) == (p, Threw(NoQueues))
  {
  }

  /** Only a server below its own limit ever gets a transport made for a borrower. */
  lemma {:induction false} CreatesOnlyBelowLimit(c: Config, p: Pool, k: Address, obj: Option<Transport>, w: World)
    requires k in p.idle && k in p.busy && Walkable(p, w.order) && AtLimit(c, p, k)
    ensures BorrowLoop(c, p, k, obj, w).0.made == p.made
    decreases BadCreations(p, w), |p.idle[k]|, if Rejected(c, obj, w) then 1 else 0
  {
    if Rejected(c, obj, w) {
      var (p', turn) := BorrowTurn(c, p, k, obj, w);
      if turn.Again? {
        CreatesOnlyBelowLimit(c, p', k, Some(turn.transport), w);
      }
    }
  }

  /** Returning and borrowing again: with nothing else idle, the server's next borrower gets the same transport. */
  lemma ReturnedIsBorrowedAgain(c: Config, p: Pool, k: Address, t: Transport, validates: bool, w: World)
    requires Usable(p, k, w) && multiset(p.busy[k])[t] == 1 && p.idle[k] == []
    requires !RequestWaits(c, p) && (validates || !c.testOnReturn) && Passes(c, w, t)
    ensures Borrow(c, Return(c, p, k, t, validates).0, k, w).1 == Got(t)
    ensures Borrow(c, Return(c, p, k, t, validates).0, k, w).0.made == p.made
  {
    ReturnReuses(c, p, k, t, validates);
    var r := Return(c, p, k, t, validates).0;
    assert r.idle[k] == [t];
    BorrowTakesFirstGood(c, r, k, w, 0);
  }
}
