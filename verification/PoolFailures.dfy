/**
 Where the pool's accounting ends: runs from an empty pool that reach a missing queue, lose a transport or
 leave a null queue. PoolRuns states exactly when each of them happens.
 */
module PoolFailures {
  import opened Wrappers
  import opened QueueAccounting
  import opened ConnectionPool
  import opened PoolRuns

  /** No idle transports are kept, nothing is validated, and at most `maxTotal` transports exist. */
  function Bare(maxTotal: int): Config {
    Config(maxTotal, 0, -1, false, false, false)
  }

  function Quiet(order: seq<Address>): World {
    World({}, {}, order)
  }

  ghost predicate Leads(c: Config, p: Pool, op: Op, p': Pool) {
    Enabled(c, p, op) && Next(c, p, op) == p'
  }

  /** A run from the states it goes through. */
  lemma {:induction false} RunThrough(c: Config, ps: seq<Pool>, ops: seq<Op>)
    requires |ps| == |ops| + 1
    requires forall i :: 0 <= i < |ops| ==> Leads(c, ps[i], ops[i], ps[i + 1])
    ensures Runs(c, ps[0], ops) && After(c, ps[0], ops) == ps[|ops|]
  {
    if ops != [] {
      assert Leads(c, ps[0], ops[0], ps[1]);
      forall i | 0 <= i < |ops[1..]| ensures Leads(c, ps[1..][i], ops[1..][i], ps[1..][i + 1]) {
        assert Leads(c, ps[i + 1], ops[i + 1], ps[i + 2]);
      }
      RunThrough(c, ps[1..], ops[1..]);
    }
  }

  lemma AddBare(m: int, p: Pool, k: Address)
    requires k !in p.idle && k !in p.nulls
    ensures AddObject(Bare(m), p, k) == Opened(p, k)
  {
  }

  /** Below the cap a borrower of a server without idle transports gets a new one. */
  lemma BorrowBare(m: int, p: Pool, k: Address, order: seq<Address>)
    requires k in p.idle && k in p.busy && p.idle[k] == [] && !p.closed && Walkable(p, order)
    requires !HasReachedMaxTotal(Bare(m), p)
    ensures Borrow(Bare(m), p, k, Quiet(order)) == (ToBusy(Make(p, k), k, |p.made|), Got(|p.made|))
  {
    var made := Make(p, k);
    assert BorrowTurn(Bare(m), p, k, None, Quiet(order)) == (made, Again(|p.made|));
    assert BorrowLoop(Bare(m), made, k, Some(|p.made|), Quiet(order))
        == (ToBusy(made, k, |p.made|), Got(|p.made|));
  }

  /** At the cap, with nothing idle anywhere, its request is deferred. */
  lemma DeferBare(m: int, p: Pool, k: Address, order: seq<Address>)
    requires k in p.idle && k in p.busy && !p.closed && Walkable(p, order)
    requires HasReachedMaxTotal(Bare(m), p) && forall x :: x in p.idle ==> p.idle[x] == []
    ensures Borrow(Bare(m), p, k, Quiet(order)) == (p.(requests := p.requests + [k]), Waiting)
  {
    StealChoice(Bare(m), p, order);
    assert BorrowTurn(Bare(m), p, k, None, Quiet(order)) == (p.(requests := p.requests + [k]), Stop(Waiting));
  }

  /** Two servers, one transport allowed: `a` has it, `b` waits for it, and `b` leaves. */
  function Dangling(a: Address, b: Address): seq<Op> {
    [Add(a), Add(b), BorrowOp(a, Quiet([a, b])), BorrowOp(b, Quiet([a, b])), Clear(b)]
  }

  /** The states of that run after the first server was added. */
  function OneServer(a: Address): Pool { EMPTY.(idle := map[a := []], busy := map[a := []]) }

  function TwoServers(a: Address, b: Address): Pool {
    EMPTY.(idle := map[a := [], b := []], busy := map[a := [], b := []])
  }

  function OneBorrowed(a: Address, b: Address): Pool {
    TwoServers(a, b).(busy := map[a := [0], b := []], totalActive := 1, made := [a])
  }

  lemma AddsLead(m: int, a: Address, b: Address)
    requires a != b
    ensures Leads(Bare(m), EMPTY, Add(a), OneServer(a))
    ensures Leads(Bare(m), OneServer(a), Add(b), TwoServers(a, b))
  {
    AddBare(m, EMPTY, a);
    AddBare(m, OneServer(a), b);
  }

  lemma BorrowLeads(m: int, p: Pool, k: Address, order: seq<Address>)
    requires k in p.idle && k in p.busy && p.idle[k] == [] && p.busy[k] == [] && !p.closed && Walkable(p, order)
    requires !HasReachedMaxTotal(Bare(m), p) && p.made == []
    ensures Leads(Bare(m), p, BorrowOp(k, Quiet(order)),
                  p.(busy := p.busy[k := [0]], totalActive := p.totalActive + 1, made := [k]))
  {
    BorrowBare(m, p, k, order);
    assert [] + [0] == [0] && [] + [k] == [k];
  }

  lemma DeferLeads(a: Address, b: Address)
    requires a != b
    ensures Leads(Bare(1), OneBorrowed(a, b), BorrowOp(b, Quiet([a, b])), OneBorrowed(a, b).(requests := [b]))
  {
    DeferBare(1, OneBorrowed(a, b), b, [a, b]);
  }

  lemma DanglingRuns(a: Address, b: Address)
    requires a != b
    ensures Runs(Bare(1), EMPTY, Dangling(a, b))
    ensures After(Bare(1), EMPTY, Dangling(a, b))
         == OneBorrowed(a, b).(idle := map[a := []], requests := [b])
  {
    var p4 := OneBorrowed(a, b).(requests := [b]);
    var p5 := OneBorrowed(a, b).(idle := map[a := []], requests := [b]);
    assert Leads(Bare(1), p4, Clear(b), p5);
    AddsLead(1, a, b);
    BorrowLeads(1, TwoServers(a, b), a, [a, b]);
    assert TwoServers(a, b).busy[a := [0]] == OneBorrowed(a, b).busy;
    DeferLeads(a, b);
    RunThrough(Bare(1), [EMPTY, OneServer(a), TwoServers(a, b), OneBorrowed(a, b), p4, p5], Dangling(a, b));
  }

  /** The deferred request of a server that has left: the next return, or invalidation, of the transport it
      waits for runs into the queue that is gone. */
  lemma DanglingRequestHitsNullQueue(a: Address, b: Address, validates: bool)
    requires a != b
    ensures Runs(Bare(1), EMPTY, Dangling(a, b))
    ensures var p := After(Bare(1), EMPTY, Dangling(a, b));
      && Sound(Bare(1), p) && a in p.busy && 0 in p.busy[a]
      && Return(Bare(1), p, a, 0, validates).1 == Some(NullQueue)
      && Invalidate(Bare(1), p, a, 0).1 == Some(NullQueue)
  {
    DanglingRuns(a, b);
    EmptyIsSound(Bare(1));
    RunKeeps(Bare(1), EMPTY, Dangling(a, b));
  }

  /** A borrowed transport outlives its server's idle queue, and invalidating it throws half way: it ends in no
      queue and is never destroyed. */
  lemma LastTransportLeaks(k: Address)
    ensures var ops := [Add(k), BorrowOp(k, Quiet([k])), Clear(k)];
      && Runs(Bare(0), EMPTY, ops)
      && var p := After(Bare(0), EMPTY, ops);
         && p.busy == map[k := [0]]
         && Invalidate(Bare(0), p, k, 0).1 == Some(NoIdleQueue)
         && Invalidate(Bare(0), p, k, 0).0.made == [k]
         && Places(Invalidate(Bare(0), p, k, 0).0, 0) == 0
  {
    var p2 := OneServer(k).(busy := map[k := [0]], totalActive := 1, made := [k]);
    var p3 := p2.(idle := map[]);
    AddBare(0, EMPTY, k);
    BorrowLeads(0, OneServer(k), k, [k]);
    assert OneServer(k).busy[k := [0]] == map[k := [0]];
    assert Leads(Bare(0), EMPTY, Add(k), OneServer(k));
    assert Leads(Bare(0), OneServer(k), BorrowOp(k, Quiet([k])), p2);
    assert Leads(Bare(0), p2, Clear(k), p3);
    RunThrough(Bare(0), [EMPTY, OneServer(k), p2, p3], [Add(k), BorrowOp(k, Quiet([k])), Clear(k)]);
    NothingHeld(p3, k);
  }

  lemma NothingHeld(p: Pool, k: Address)
    requires p.idle == map[] && p.busy == map[k := [0]] && p.destroyed == []
    ensures Places(FromBusy(p, k, 0), 0) == 0
  {
    var busy := FromBusy(p, k, 0).busy;
    assert busy[k] == [];
    Split(busy, k);
    assert busy - {k} == map[];
  }

  /** A server gets an idle queue from addObject exactly when no clear of an unknown key left a null queue
      in its place: clear looks the key up in a way that inserts it. */
  lemma AddAfterClearIff(c: Config, p: Pool, k: Address)
    requires k !in p.idle
    ensures k in AddObject(c, p, k).idle <==> k !in p.nulls
    ensures k !in AddObject(c, ClearKey(p, k), k).idle
  {
    if k !in p.nulls {
      GrowFrame(Opened(p, k), k, Max(0, MinIdleGrow(c, Opened(p, k), k)));
    }
  }
}
