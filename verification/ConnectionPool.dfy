/**
 The connection pool: per-server idle and busy queues, two running totals, a cap over all servers, and a
 queue of deferred allocation requests. A region that the code runs under its lock is one function from
 pool to pool; the class runs the same regions in place. Waiting borrowers re-enter through Wake, which
 takes the pop, the totals and the hand-over as one step.
 */
module ConnectionPool {
  import opened Wrappers
  import opened QueueAccounting

  type Queues = Holders<Address>

  datatype Config = Config(
    maxTotal: int,
    minIdle: int,
    maxActive: int,
    testOnBorrow: bool,
    testOnReturn: bool,
    throwsWhenExhausted: bool)

  /** `made` and `destroyed` record the factory's calls: transport t was made for server made[t].
      `nulls` holds keys that idle maps to a null queue. */
  datatype Pool = Pool(
    idle: Queues,
    busy: Queues,
    requests: seq<Address>,
    totalIdle: int,
    totalActive: int,
    closed: bool,
    nulls: set<Address>,
    made: seq<Address>,
    destroyed: seq<Transport>)

  const EMPTY := Pool(map[], map[], [], 0, 0, false, {}, [], [])

  datatype Error = PoolClosed | NoQueues | MakeFailed | Exhausted | NoBusyQueue | NoIdleQueue | NullQueue

  datatype Outcome = Got(transport: Transport) | Waiting | Threw(error: Error)

  /** What the outside world answers during one borrow: which transports fail validation, at which
      creations the factory refuses, and the order in which the idle map is walked. */
  datatype World = World(invalid: set<Transport>, refused: set<Transport>, order: seq<Address>)

  // ------------------------------------------------------------------------------------- small moves

  function Make(p: Pool, k: Address): Pool {
    p.(made := p.made + [k])
  }

  function Destroy(p: Pool, t: Transport): Pool {
    p.(destroyed := p.destroyed + [t])
  }

  function ToIdle(p: Pool, k: Address, t: Transport): Pool
    requires k in p.idle
  {
    p.(idle := p.idle[k := p.idle[k] + [t]], totalIdle := p.totalIdle + 1)
  }

  function PollIdle(p: Pool, k: Address): Pool
    requires k in p.idle && p.idle[k] != []
  {
    p.(idle := p.idle[k := p.idle[k][1..]], totalIdle := p.totalIdle - 1)
  }

  function ToBusy(p: Pool, k: Address, t: Transport): Pool
    requires k in p.busy
  {
    p.(busy := p.busy[k := p.busy[k] + [t]], totalActive := p.totalActive + 1)
  }

  function FromBusy(p: Pool, k: Address, t: Transport): Pool
    requires k in p.busy
  {
    p.(busy := p.busy[k := Without(p.busy[k], t)], totalActive := p.totalActive - 1)
  }

  // --------------------------------------------------------------------------------------- min idle

  predicate HasReachedMaxTotal(c: Config, p: Pool) {
    c.maxTotal > 0 && c.maxTotal <= p.totalActive + p.totalIdle
  }

  function MinIdleGrow(c: Config, p: Pool, k: Address): int
    requires k in p.idle
  {
    var grown := c.minIdle - |p.idle[k]|;
    if c.maxTotal > 0 then Min(grown, Max(0, c.maxTotal - p.totalIdle - p.totalActive)) else grown
  }

  function Grow(p: Pool, k: Address, n: nat): Pool
    requires k in p.idle
    decreases n
  {
    if n == 0 then p else Grow(ToIdle(Make(p, k), k, |p.made|), k, n - 1)
  }

  function AddObject(c: Config, p: Pool, k: Address): Pool {
    if k in p.idle || k in p.nulls then p
    else
      var ready := p.(idle := p.idle[k := []], busy := if k in p.busy then p.busy else p.busy[k := []]);
      Grow(ready, k, Max(0, MinIdleGrow(c, ready, k)))
  }

  // --------------------------------------------------------------------------------------- stealing

  /** `order` walks the keys of the idle map, and each has a queue: the walk dereferences all of them. */
  ghost predicate Walkable(p: Pool, order: seq<Address>) {
    && p.nulls == {}
    && (forall i :: 0 <= i < |order| ==> order[i] in p.idle)
    && forall k :: k in p.idle ==> k in order
  }

  function Scan(c: Config, idle: Queues, order: seq<Address>, longest: nat, best: Option<Address>): Option<Address>
    requires forall i :: 0 <= i < |order| ==> order[i] in idle
  {
    if order == [] then best
    else
      var size := |idle[order[0]]|;
      if c.minIdle > 0 && size > c.minIdle then Some(order[0])
      else if size > longest then Scan(c, idle, order[1..], size, Some(order[0]))
      else Scan(c, idle, order[1..], longest, best)
  }

  /** What the walk settles on: a queue above minIdle when there is one, else a longest queue, and nothing
      exactly when every queue is empty. */
  lemma {:induction false} ScanPicks(c: Config, idle: Queues, order: seq<Address>, longest: nat, best: Option<Address>)
    requires forall i :: 0 <= i < |order| ==> order[i] in idle
    requires best.Some? ==> best.value in idle && |idle[best.value]| == longest > 0
    requires best.None? ==> longest == 0
    requires best.Some? && c.minIdle > 0 ==> longest <= c.minIdle
    ensures var r := Scan(c, idle, order, longest, best);
      && (r.None? <==> best.None? && forall i :: 0 <= i < |order| ==> idle[order[i]] == [])
      && (r.Some? ==>
            && r.value in idle && idle[r.value] != []
            && (r.value in order || r == best)
            && ((c.minIdle > 0 && |idle[r.value]| > c.minIdle)
                || (&& |idle[r.value]| >= longest
                    && forall i :: 0 <= i < |order| ==> |idle[order[i]]| <= |idle[r.value]|)))
    decreases order
  {
    if order != [] {
      var size, rest := |idle[order[0]]|, order[1..];
      assert order == [order[0]] + rest;
      if c.minIdle > 0 && size > c.minIdle {
      } else if size > longest {
        ScanPicks(c, idle, rest, size, Some(order[0]));
      } else {
        ScanPicks(c, idle, rest, longest, best);
      }
    }
  }

  function TryRemoveIdle(c: Config, p: Pool, order: seq<Address>): (r: Option<Pool>)
    requires Walkable(p, order)
    ensures r.Some? ==>
      && r.value.idle.Keys == p.idle.Keys
      && r.value.busy == p.busy && r.value.made == p.made && r.value.nulls == p.nulls
      && forall k :: k in p.idle && p.idle[k] == [] ==> r.value.idle[k] == []
  {
    ScanPicks(c, p.idle, order, 0, None);
    match Scan(c, p.idle, order, 0, None)
    case None => None
    case Some(victim) => Some(Destroy(PollIdle(p, victim), p.idle[victim][0]))
  }

  /** tryRemoveIdle fails exactly when all idle queues are empty; otherwise one transport is destroyed, from
      a queue above minIdle if there is one, else from a longest queue. */
  lemma StealChoice(c: Config, p: Pool, order: seq<Address>)
    requires Walkable(p, order)
    ensures TryRemoveIdle(c, p, order).None? <==> forall k :: k in p.idle ==> p.idle[k] == []
    ensures TryRemoveIdle(c, p, order).Some? ==>
      exists v :: v in p.idle && p.idle[v] != []
        && TryRemoveIdle(c, p, order).value == Destroy(PollIdle(p, v), p.idle[v][0])
        && (if c.minIdle > 0 && exists k :: k in p.idle && |p.idle[k]| > c.minIdle
            then |p.idle[v]| > c.minIdle
            else forall k :: k in p.idle ==> |p.idle[k]| <= |p.idle[v]|)
  {
    ScanPicks(c, p.idle, order, 0, None);
    assert forall k :: k in p.idle ==> k in order;
  }

  // --------------------------------------------------------------------------------------- borrowing

  /** Creations still to come that will fail validation. */
  ghost function BadCreations(p: Pool, w: World): nat {
    var bad := set t | t in w.invalid && t >= |p.made|;
    |bad|
  }

  predicate Rejected(c: Config, obj: Option<Transport>, w: World) {
    obj.None? || (c.testOnBorrow && obj.value in w.invalid)
  }

  lemma MakeUsesUpBad(p: Pool, k: Address, w: World)
    ensures BadCreations(Make(p, k), w) <= BadCreations(p, w)
    ensures |p.made| in w.invalid ==> BadCreations(Make(p, k), w) < BadCreations(p, w)
  {
    var before := set t | t in w.invalid && t >= |p.made|;
    var after := set t | t in w.invalid && t >= |p.made| + 1;
    assert after == before - {|p.made|};
  }

  datatype Turn = Again(transport: Transport) | Stop(outcome: Outcome)

  /** One turn of the borrow loop with the rejected transport `obj` in hand: destroy it, then find another. */
  function BorrowTurn(c: Config, p: Pool, k: Address, obj: Option<Transport>, w: World): (r: (Pool, Turn))
    requires k in p.idle && k in p.busy && Walkable(p, w.order)
    ensures r.0.idle.Keys == p.idle.Keys && r.0.busy == p.busy && r.0.nulls == p.nulls
    ensures BadCreations(r.0, w) <= BadCreations(p, w)
    ensures r.1.Again? && BadCreations(r.0, w) == BadCreations(p, w) ==>
      |r.0.idle[k]| < |p.idle[k]| || (r.0.idle[k] == p.idle[k] && r.1.transport !in w.invalid)
  {
    var p1 := if obj.Some? then Destroy(p, obj.value) else p;
    if p1.idle[k] != [] then (PollIdle(p1, k), Again(p1.idle[k][0]))
    else if c.maxActive < 0 || |p1.busy[k]| < c.maxActive then
      var room := if HasReachedMaxTotal(c, p1) then TryRemoveIdle(c, p1, w.order) else Some(p1);
      if room.None? then (p1.(requests := p1.requests + [k]), Stop(Starved(c)))
      else if |room.value.made| in w.refused then (room.value, Stop(Threw(MakeFailed)))
      else
        MakeUsesUpBad(room.value, k, w);
        (Make(room.value, k), Again(|room.value.made|))
    else (p1, Stop(Starved(c)))
  }

  /** The borrow loop: it ends because rejected transports are used up and only finitely many creations fail. */
  function BorrowLoop(c: Config, p: Pool, k: Address, obj: Option<Transport>, w: World): (Pool, Outcome)
    requires k in p.idle && k in p.busy && Walkable(p, w.order)
    decreases BadCreations(p, w), |p.idle[k]|, if Rejected(c, obj, w) then 1 else 0
  {
    if !Rejected(c, obj, w) then (ToBusy(p, k, obj.value), Got(obj.value))
    else
      var (p', turn) := BorrowTurn(c, p, k, obj, w);
      match turn
      case Stop(outcome) => (p', outcome)
      case Again(t) => BorrowLoop(c, p', k, Some(t), w)
  }

  /** Nothing to hand out: wait, or throw if so configured. */
  function Starved(c: Config): Outcome {
    if c.throwsWhenExhausted then Threw(Exhausted) else Waiting
  }

  function Wake(c: Config, p: Pool, k: Address, w: World): (Pool, Outcome)
    requires k in p.idle && k in p.busy && p.idle[k] != [] && Walkable(p, w.order)
  {
    BorrowLoop(c, PollIdle(p, k), k, Some(p.idle[k][0]), w)
  }

  function Borrow(c: Config, p: Pool, k: Address, w: World): (Pool, Outcome)
    requires Walkable(p, w.order)
  {
    if p.closed then (p, Threw(PoolClosed))
    else if k !in p.idle || k !in p.busy then (p, Threw(NoQueues))
    else if p.idle[k] == [] then BorrowLoop(c, p, k, None, w)
    else Wake(c, p, k, w)
  }

  // --------------------------------------------------------------------------------- giving back

  /** A freed place goes to the oldest deferred request. */
  predicate Swaps(c: Config, p: Pool) {
    HasReachedMaxTotal(c, p) && p.requests != []
  }

  function ServeRequest(p: Pool): Pool
    requires p.requests != [] && p.requests[0] in p.idle
  {
    ToIdle(Make(p.(requests := p.requests[1..]), p.requests[0]), p.requests[0], |p.made|)
  }

  /** The swap of a return pops a request and looks at the queues of its server and of the returned
      transport's; NullQueue stands for the dereference of a queue that is not there. */
  function ReturnSwap(p: Pool, k: Address, t: Transport): (Pool, Option<Error>)
    requires p.requests != []
  {
    if p.requests[0] !in p.idle then (p.(requests := p.requests[1..]), Some(NullQueue))
    else
      var served := ServeRequest(p);
      if k !in served.idle || (served.idle[k] == [] && k !in served.busy) then (served, Some(NullQueue))
      else (Destroy(served, t), None)
  }

  function Return(c: Config, p: Pool, k: Address, t: Transport, validates: bool): (Pool, Option<Error>) {
    var p1 := if k in p.busy then FromBusy(p, k, t) else p;
    if Swaps(c, p) then ReturnSwap(p1, k, t)
    else if p.closed || (c.testOnReturn && !validates) then (Destroy(p1, t), None)
    else if k in p.idle then (ToIdle(p1, k, t), None)
    else if k in p.nulls then (p1, Some(NullQueue))
    else (Destroy(p1, t), None)
  }

  function Invalidate(c: Config, p: Pool, k: Address, t: Transport): (Pool, Option<Error>) {
    if k !in p.busy then (p, Some(NoBusyQueue))
    else
      var p1 := FromBusy(p, k, t);
      if p1.busy[k] == [] && k !in p.idle then (p1, Some(if k in p.nulls then NullQueue else NoIdleQueue))
      else if !Swaps(c, p) then (Destroy(p1, t), None)
      else if p.requests[0] !in p.idle then (p1.(requests := p1.requests[1..]), Some(NullQueue))
      else (Destroy(ServeRequest(p1), t), None)
  }

  /** Reading an absent key through the map's operator leaves a null queue behind. */
  function ClearKey(p: Pool, k: Address): Pool {
    if k in p.idle then
      p.(idle := p.idle - {k}, totalIdle := p.totalIdle - |p.idle[k]|, destroyed := p.destroyed + p.idle[k])
    else p.(nulls := p.nulls + {k})
  }

  // -------------------------------------------------------------------------------- the class itself

  class TransportPool {
    const c: Config
    var idle: Queues
    var busy: Queues
    var allocationQueue: seq<Address>
    var totalIdle: int
    var totalActive: int
    var closed: bool
    var nulls: set<Address>
    var made: seq<Address>
    var destroyed: seq<Transport>

    function State(): Pool
      reads this
    {
      Pool(idle, busy, allocationQueue, totalIdle, totalActive, closed, nulls, made, destroyed)
    }

    constructor (c: Config)
      ensures this.c == c && State() == EMPTY
    {
      this.c := c;
      idle, busy, allocationQueue, totalIdle, totalActive := map[], map[], [], 0, 0;
      closed, nulls, made, destroyed := false, {}, [], [];
    }

    method MakeObject(key: Address) returns (t: Transport)
      modifies this`made
      ensures t == |old(made)| && made == old(made) + [key]
    {
      t := |made|;
      made := made + [key];
    }

    method DestroyObject(t: Transport)
      modifies this`destroyed
      ensures destroyed == old(destroyed) + [t]
    {
      destroyed := destroyed + [t];
    }

    method EnsureMinIdle(key: Address)
      requires key in idle
      modifies this`idle, this`totalIdle, this`made
      ensures State() == Grow(old(State()), key, Max(0, MinIdleGrow(c, old(State()), key)))
    {
      var grown := MinIdleGrow(c, State(), key);
      while grown > 0
        invariant key in idle
        invariant Grow(State(), key, Max(0, grown))
               == Grow(old(State()), key, Max(0, MinIdleGrow(c, old(State()), key)))
      {
        var t := MakeObject(key);
        idle := idle[key := idle[key] + [t]];
        grown := grown - 1;
        totalIdle := totalIdle + 1;
      }
    }

    method AddNewObject(key: Address)
      modifies this`idle, this`busy, this`totalIdle, this`made
      ensures State() == AddObject(c, old(State()), key)
    {
      if key in idle || key in nulls {
        return;
      }
      idle := idle[key := []];
      if key !in busy {
        busy := busy[key := []];
      }
      EnsureMinIdle(key);
    }

    method TryToRemoveIdle(order: seq<Address>) returns (removed: bool)
      requires Walkable(State(), order)
      modifies this`idle, this`totalIdle, this`destroyed
      ensures removed == TryRemoveIdle(c, old(State()), order).Some?
      ensures State() == if removed then TryRemoveIdle(c, old(State()), order).value else old(State())
    {
      var keyToRemove: Option<Address> := None;
      var longerQueueSize := 0;
      ghost var all := Scan(c, idle, order, 0, None);
      var i := 0;
      while i < |order|
        invariant 0 <= i <= |order|
        invariant Scan(c, idle, order[i..], longerQueueSize, keyToRemove) == all
      {
        var size := |idle[order[i]]|;
        assert order[i..][1..] == order[i + 1..];
        if c.minIdle > 0 && size > c.minIdle {
          keyToRemove := Some(order[i]);
          break;
        } else if size > longerQueueSize {
          keyToRemove := Some(order[i]);
          longerQueueSize := size;
        }
        i := i + 1;
      }
      assert keyToRemove == all;
      ScanPicks(c, idle, order, 0, None);
      match keyToRemove
      case Some(key) =>
        var t := idle[key][0];
        idle := idle[key := idle[key][1..]];
        DestroyObject(t);
        totalIdle := totalIdle - 1;
        removed := true;
      case None =>
        removed := false;
    }

    /** The body of the borrow loop. */
    method FindTransport(key: Address, obj: Option<Transport>, w: World) returns (turn: Turn)
      requires key in idle && key in busy && Walkable(State(), w.order)
      modifies this
      ensures (State(), turn) == BorrowTurn(c, old(State()), key, obj, w)
    {
      if obj.Some? {
        DestroyObject(obj.value);
      }
      var create := idle[key] == [] && (c.maxActive < 0 || |busy[key]| < c.maxActive);
      if create && HasReachedMaxTotal(c, State()) {
        create := TryToRemoveIdle(w.order);
        if !create {
          allocationQueue := allocationQueue + [key];
        }
      }
      if create {
        if |made| in w.refused {
          return Stop(Threw(MakeFailed));
        }
        var t := MakeObject(key);
        turn := Again(t);
      } else {
        if idle[key] == [] {
          return Stop(Starved(c));
        }
        turn := Again(idle[key][0]);
        idle := idle[key := idle[key][1..]];
        totalIdle := totalIdle - 1;
      }
    }

    /** The borrow loop, from a candidate in hand to the point where it returns, throws or starts to wait. */
    method SettleOn(key: Address, candidate: Option<Transport>, w: World) returns (r: Outcome)
      requires key in idle && key in busy && Walkable(State(), w.order)
      modifies this
      ensures (State(), r) == BorrowLoop(c, old(State()), key, candidate, w)
    {
      var obj := candidate;
      while Rejected(c, obj, w)
        invariant key in idle && key in busy && Walkable(State(), w.order)
        invariant BorrowLoop(c, State(), key, obj, w) == BorrowLoop(c, old(State()), key, candidate, w)
        decreases BadCreations(State(), w), |idle[key]|, if Rejected(c, obj, w) then 1 else 0
      {
        var turn := FindTransport(key, obj, w);
        match turn
        case Stop(outcome) => return outcome;
        case Again(t) => obj := Some(t);
      }
      busy := busy[key := busy[key] + [obj.value]];
      totalActive := totalActive + 1;
      r := Got(obj.value);
    }

    /** A waiting borrower gets its queue's oldest transport and goes on with the loop. */
    method WakeBorrower(key: Address, w: World) returns (r: Outcome)
      requires key in idle && key in busy && idle[key] != [] && Walkable(State(), w.order)
      modifies this
      ensures (State(), r) == Wake(c, old(State()), key, w)
    {
      var obj := idle[key][0];
      idle := idle[key := idle[key][1..]];
      totalIdle := totalIdle - 1;
      r := SettleOn(key, Some(obj), w);
    }

    method BorrowObject(key: Address, w: World) returns (r: Outcome)
      requires Walkable(State(), w.order)
      modifies this
      ensures (State(), r) == Borrow(c, old(State()), key, w)
    {
      if closed {
        return Threw(PoolClosed);
      }
      if key !in idle || key !in busy {
        return Threw(NoQueues);
      }
      var obj: Option<Transport> := None;
      if idle[key] != [] {
        obj := Some(idle[key][0]);
        idle := idle[key := idle[key][1..]];
        totalIdle := totalIdle - 1;
      }
      r := SettleOn(key, obj, w);
    }

    /** Serves the oldest request, unless its server has no queue to push to. */
    method AllocateForRequest() returns (served: bool)
      requires allocationQueue != []
      modifies this`idle, this`totalIdle, this`made, this`allocationQueue
      ensures served == (old(allocationQueue)[0] in old(idle))
      ensures State() == if served then ServeRequest(old(State()))
                         else old(State()).(requests := old(allocationQueue)[1..])
    {
      var keyToAllocate := allocationQueue[0];
      allocationQueue := allocationQueue[1..];
      served := keyToAllocate in idle;
      if served {
        var t := MakeObject(keyToAllocate);
        idle := idle[keyToAllocate := idle[keyToAllocate] + [t]];
        totalIdle := totalIdle + 1;
      }
    }

    method ReturnObject(key: Address, val: Transport, validates: bool) returns (error: Option<Error>)
      modifies this
      ensures (State(), error) == Return(c, old(State()), key, val, validates)
    {
      var ok := true;
      var maxTotalReached := HasReachedMaxTotal(c, State());
      if key in busy {
        busy := busy[key := Without(busy[key], val)];
        totalActive := totalActive - 1;
      }
      if closed || (c.testOnReturn && !validates) {
        ok := false;
      }
      if maxTotalReached && allocationQueue != [] {
        var served := AllocateForRequest();
        if !served || key !in idle || (idle[key] == [] && key !in busy) {
          return Some(NullQueue);
        }
        ok := false;
      }
      if ok {
        if key in idle {
          idle := idle[key := idle[key] + [val]];
          totalIdle := totalIdle + 1;
        } else if key in nulls {
          return Some(NullQueue);
        } else {
          ok := false;
        }
      }
      if !ok {
        DestroyObject(val);
      }
      error := None;
    }

    method InvalidateObject(key: Address, val: Transport) returns (error: Option<Error>)
      modifies this
      ensures (State(), error) == Invalidate(c, old(State()), key, val)
    {
      var maxTotalReached := HasReachedMaxTotal(c, State());
      if key !in busy {
        return Some(NoBusyQueue);
      }
      busy := busy[key := Without(busy[key], val)];
      totalActive := totalActive - 1;
      if busy[key] == [] && key !in idle {
        return Some(if key in nulls then NullQueue else NoIdleQueue);
      }
      if maxTotalReached && allocationQueue != [] {
        var served := AllocateForRequest();
        if !served {
          return Some(NullQueue);
        }
      }
      DestroyObject(val);
      error := None;
    }

    method Clear(key: Address)
      modifies this
      ensures State() == ClearKey(old(State()), key)
    {
      if key !in idle {
        nulls := nulls + {key};
        return;
      }
      var queue := idle[key];
      totalIdle := totalIdle - |queue|;
      while queue != []
        invariant destroyed + queue == old(destroyed) + old(idle)[key]
        invariant State() == old(State()).(totalIdle := totalIdle, destroyed := destroyed)
        invariant totalIdle == old(totalIdle) - |old(idle)[key]|
        decreases |queue|
      {
        DestroyObject(queue[0]);
        queue := queue[1..];
      }
      idle := idle - {key};
    }
  }
}
