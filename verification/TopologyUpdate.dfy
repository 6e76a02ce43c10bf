/**
 TransportFactory::updateServers: the pool follows a new server list. Added servers get queues first,
 departed ones lose their idle queues, and transports still borrowed from them stay on the books.
 */
module TopologyUpdate {
  import opened Wrappers
  import opened QueueAccounting
  import opened ConnectionPool
  import opened PoolRuns

  // ------------------------------------------------------------------ sorting and set difference

  function Insert(x: Address, s: seq<Address>): seq<Address> {
    if s == [] || x <= s[0] then [x] + s else [s[0]] + Insert(x, s[1..])
  }

  function Sort(s: seq<Address>): seq<Address> {
    if s == [] then [] else Insert(s[0], Sort(s[1..]))
  }

  /** std::set_difference of two sorted ranges. */
  function Difference(a: seq<Address>, b: seq<Address>): seq<Address> {
    if a == [] then []
    else if b == [] then a
    else if a[0] < b[0] then [a[0]] + Difference(a[1..], b)
    else if b[0] < a[0] then Difference(a, b[1..])
    else Difference(a[1..], b[1..])
  }

  /** How often a list names a server. */
  ghost function Count(s: seq<Address>, x: Address): nat {
    multiset(s)[x]
  }

  lemma CountCons(s: seq<Address>, x: Address)
    requires s != []
    ensures Count(s, x) == Count(s[1..], x) + if x == s[0] then 1 else 0
  {
    assert s == [s[0]] + s[1..];
  }

  lemma CountIn(s: seq<Address>, x: Address)
    ensures x in s <==> Count(s, x) > 0
  {
  }

  lemma {:induction false} InsertCounts(x: Address, s: seq<Address>)
    ensures multiset(Insert(x, s)) == multiset(s) + multiset{x}
  {
    if s != [] && x > s[0] {
      assert s == [s[0]] + s[1..];
      InsertCounts(x, s[1..]);
    }
  }

  lemma {:induction false} InsertSorts(x: Address, s: seq<Address>)
    requires Ascending(s)
    ensures Ascending(Insert(x, s))
  {
    if s != [] && x > s[0] {
      InsertSorts(x, s[1..]);
      InsertCounts(x, s[1..]);
      forall y | y in multiset(Insert(x, s[1..])) ensures s[0] <= y {
        assert y == x || y in s[1..];
      }
      AscendingCons(s[0], Insert(x, s[1..]));
    }
  }

  lemma AscendingCons(x: Address, s: seq<Address>)
    requires Ascending(s) && forall y :: y in multiset(s) ==> x <= y
    ensures Ascending([x] + s)
  {
    assert forall i :: 0 <= i < |s| ==> s[i] in multiset(s);
  }

  lemma {:induction false} SortSorts(s: seq<Address>)
    ensures Ascending(Sort(s)) && multiset(Sort(s)) == multiset(s)
  {
    if s != [] {
      assert s == [s[0]] + s[1..];
      SortSorts(s[1..]);
      InsertSorts(s[0], Sort(s[1..]));
      InsertCounts(s[0], Sort(s[1..]));
    }
  }

  /** Below its first element a sorted list has nothing. */
  lemma NoneBelow(s: seq<Address>, x: Address)
    requires Ascending(s) && s != [] && x < s[0]
    ensures Count(s, x) == 0
  {
    CountIn(s, x);
  }

  /** What a difference of sorted lists means: it takes away as many copies as the other list has. */
  lemma {:induction false} DifferenceCounts(a: seq<Address>, b: seq<Address>, x: Address)
    requires Ascending(a) && Ascending(b)
    ensures Count(Difference(a, b), x) == Max(0, Count(a, x) - Count(b, x))
    decreases |a| + |b|
  {
    if a != [] && b != [] {
      CountCons(a, x);
      CountCons(b, x);
      if a[0] < b[0] {
        DifferenceCounts(a[1..], b, x);
        CountCons([a[0]] + Difference(a[1..], b), x);
        NoneBelow(b, a[0]);
      } else if b[0] < a[0] {
        DifferenceCounts(a, b[1..], x);
        NoneBelow(a, b[0]);
      } else {
        DifferenceCounts(a[1..], b[1..], x);
      }
    }
  }

  // --------------------------------------------------------------------------------- the update

  function AddAll(c: Config, p: Pool, ks: seq<Address>): Pool
    decreases ks
  {
    if ks == [] then p else AddAll(c, AddObject(c, p, ks[0]), ks[1..])
  }

  function ClearAll(p: Pool, ks: seq<Address>): Pool
    decreases ks
  {
    if ks == [] then p else ClearAll(ClearKey(p, ks[0]), ks[1..])
  }

  function Added(servers: seq<Address>, newServers: seq<Address>): seq<Address> {
    Difference(Sort(newServers), Sort(servers))
  }

  function Departed(servers: seq<Address>, newServers: seq<Address>): seq<Address> {
    Difference(Sort(servers), Sort(newServers))
  }

  /** The pool and the server list after the update. */
  function Update(c: Config, p: Pool, servers: seq<Address>, newServers: seq<Address>): (Pool, seq<Address>) {
    if Departed(servers, newServers) == [] && newServers == [] then (p, servers)
    else (ClearAll(AddAll(c, p, Added(servers, newServers)), Departed(servers, newServers)), Sort(newServers))
  }

  class TransportFactory {
    const connectionPool: TransportPool
    var servers: seq<Address>
    var balanced: seq<Address>

    constructor (connectionPool: TransportPool, servers: seq<Address>)
      ensures this.connectionPool == connectionPool && this.servers == servers && balanced == servers
    {
      this.connectionPool := connectionPool;
      this.servers, balanced := servers, servers;
    }

    method UpdateServers(newServers: seq<Address>)
      modifies this, connectionPool
      ensures (connectionPool.State(), servers)
           == Update(connectionPool.c, old(connectionPool.State()), old(servers), newServers)
      ensures balanced == if newServers == [] && Departed(old(servers), newServers) == [] then old(balanced)
                          else Sort(newServers)
    {
      var sorted, topoServers := Sort(newServers), Sort(servers);
      var addedServers := Difference(sorted, topoServers);
      var failedServers := Difference(topoServers, sorted);
      assert sorted == [] <==> newServers == [] by {
        SortEmpty(newServers);
      }
      if failedServers == [] && sorted == [] {
        return;
      }
      var i := 0;
      while i < |addedServers|
        invariant 0 <= i <= |addedServers|
        invariant AddAll(connectionPool.c, connectionPool.State(), addedServers[i..])
               == AddAll(connectionPool.c, old(connectionPool.State()), addedServers)
        invariant servers == old(servers)
      {
        assert addedServers[i..][1..] == addedServers[i + 1..];
        connectionPool.AddNewObject(addedServers[i]);
        i := i + 1;
      }
      balanced := sorted;
      ghost var grown := connectionPool.State();
      i := 0;
      while i < |failedServers|
        invariant 0 <= i <= |failedServers|
        invariant ClearAll(connectionPool.State(), failedServers[i..]) == ClearAll(grown, failedServers)
        invariant servers == old(servers) && balanced == sorted
      {
        assert failedServers[i..][1..] == failedServers[i + 1..];
        connectionPool.Clear(failedServers[i]);
        i := i + 1;
      }
      servers := sorted;
    }
  }

  lemma {:induction false} SortEmpty(s: seq<Address>)
    ensures Sort(s) == [] <==> s == []
  {
    if s != [] {
      assert |Insert(s[0], Sort(s[1..]))| > 0;
    }
  }

  // -------------------------------------------------------------------- what an update keeps

  ghost function Members(s: seq<Address>): set<Address> {
    set x | x in s
  }

  lemma {:induction false} AddAllKeeps(c: Config, p: Pool, ks: seq<Address>)
    requires Sound(c, p)
    ensures Sound(c, AddAll(c, p, ks))
    decreases ks
  {
    if ks != [] {
      AddKeeps(c, p, ks[0]);
      AddAllKeeps(c, AddObject(c, p, ks[0]), ks[1..]);
    }
  }

  /** Adding servers opens queues for them and leaves every other queue alone. */
  lemma {:induction false} AddAllFrame(c: Config, p: Pool, ks: seq<Address>)
    requires p.nulls == {}
    ensures var r := AddAll(c, p, ks);
      && r.idle.Keys == p.idle.Keys + Members(ks)
      && r.destroyed == p.destroyed && r.requests == p.requests && r.nulls == {}
      && (forall k :: k in p.idle ==> k in r.idle && r.idle[k] == p.idle[k])
      && (forall k :: k in p.busy ==> k in r.busy && r.busy[k] == p.busy[k])
    decreases ks
  {
    if ks != [] {
      AddFrame(c, p, ks[0]);
      AddObjectFrame(c, p, ks[0]);
      AddAllFrame(c, AddObject(c, p, ks[0]), ks[1..]);
      assert ks == [ks[0]] + ks[1..];
    }
  }

  lemma AddObjectFrame(c: Config, p: Pool, k: Address)
    requires p.nulls == {}
    ensures var r := AddObject(c, p, k);
      && r.nulls == {}
      && (forall x :: x in p.idle ==> x in r.idle && r.idle[x] == p.idle[x])
      && (forall x :: x in p.busy ==> x in r.busy && r.busy[x] == p.busy[x])
  {
    if k !in p.idle {
      GrowOthers(Opened(p, k), k, Max(0, MinIdleGrow(c, Opened(p, k), k)));
    }
  }

  lemma {:induction false} GrowOthers(p: Pool, k: Address, n: nat)
    requires k in p.idle
    ensures var r := Grow(p, k, n);
      && r.nulls == p.nulls && r.busy == p.busy && r.idle.Keys == p.idle.Keys
      && forall x :: x in p.idle && x != k ==> r.idle[x] == p.idle[x]
    decreases n
  {
    if n > 0 {
      GrowOthers(ToIdle(Make(p, k), k, |p.made|), k, n - 1);
    }
  }

  /** The idle transports of the listed servers, in the order they are destroyed. */
  function IdleOf(p: Pool, ks: seq<Address>): seq<Transport> {
    if ks == [] then [] else (if ks[0] in p.idle then p.idle[ks[0]] else []) + IdleOf(p, ks[1..])
  }

  /** The pool's books, leaving null queues aside. */
  ghost predicate Booked(c: Config, p: Pool) {
    Sound(c, p.(nulls := {}))
  }

  lemma {:induction false} ClearAllKeeps(c: Config, p: Pool, ks: seq<Address>)
    requires Booked(c, p)
    ensures Booked(c, ClearAll(p, ks))
    decreases ks
  {
    if ks != [] {
      var p1 := ClearKey(p, ks[0]);
      if ks[0] in p.idle {
        ClearKeeps(c, p.(nulls := {}), ks[0]);
        assert p1.(nulls := {}) == ClearKey(p.(nulls := {}), ks[0]);
      } else {
        assert p1.(nulls := {}) == p.(nulls := {});
      }
      ClearAllKeeps(c, p1, ks[1..]);
    }
  }

  /** Clearing drops the idle queues named; naming a server again leaves a null queue. */
  lemma {:induction false} ClearAllQueues(p: Pool, ks: seq<Address>, k: Address)
    ensures var r := ClearAll(p, ks);
      && (k in r.idle <==> k in p.idle && Count(ks, k) == 0)
      && (k in r.nulls <==> k in p.nulls || Count(ks, k) > if k in p.idle then 1 else 0)
    decreases ks
  {
    if ks != [] {
      CountCons(ks, k);
      ClearAllQueues(ClearKey(p, ks[0]), ks[1..], k);
    }
  }

  /** Clearing distinct servers, all known. */
  lemma {:induction false} ClearAllFrame(p: Pool, ks: seq<Address>)
    requires NoDuplicates(ks) && forall i :: 0 <= i < |ks| ==> ks[i] in p.idle
    ensures var r := ClearAll(p, ks);
      && r.idle == p.idle - Members(ks)
      && r.busy == p.busy && r.requests == p.requests && r.made == p.made
      && r.destroyed == p.destroyed + IdleOf(p, ks)
    decreases ks
  {
    if ks == [] {
      assert p.idle - Members(ks) == p.idle;
    } else {
      var p1, rest := ClearKey(p, ks[0]), ks[1..];
      assert ks[0] !in rest;
      MembersCons(ks);
      ClearAllFrame(p1, rest);
      IdleOfOthers(p, p1, ks[0], rest);
      assert p1.idle - Members(rest) == p.idle - Members(ks);
      assert p1.destroyed + IdleOf(p, rest) == p.destroyed + IdleOf(p, ks);
    }
  }

  lemma MembersCons(ks: seq<Address>)
    requires ks != []
    ensures Members(ks) == {ks[0]} + Members(ks[1..])
  {
    assert ks == [ks[0]] + ks[1..];
  }

  lemma {:induction false} IdleOfOthers(p: Pool, p1: Pool, gone: Address, ks: seq<Address>)
    requires gone !in ks && p1.idle == p.idle - {gone}
    ensures IdleOf(p1, ks) == IdleOf(p, ks)
  {
    if ks != [] {
      IdleOfOthers(p, p1, gone, ks[1..]);
    }
  }

  /** What servers and pool agree on between operations. A list may name a server more than once. */
  ghost predicate InSync(c: Config, p: Pool, servers: seq<Address>) {
    Sound(c, p) && p.idle.Keys == Members(servers)
  }

  /** How often an update adds and clears a server. */
  lemma ListsDiffer(servers: seq<Address>, newServers: seq<Address>, k: Address)
    ensures Count(Added(servers, newServers), k) == Max(0, Count(newServers, k) - Count(servers, k))
    ensures Count(Departed(servers, newServers), k) == Max(0, Count(servers, k) - Count(newServers, k))
    ensures Count(Sort(newServers), k) == Count(newServers, k)
  {
    SortSorts(servers);
    SortSorts(newServers);
    DifferenceCounts(Sort(newServers), Sort(servers), k);
    DifferenceCounts(Sort(servers), Sort(newServers), k);
  }

  /** The early return changes nothing that the long way would not. */
  lemma UpdateIs(c: Config, p: Pool, servers: seq<Address>, newServers: seq<Address>)
    ensures Update(c, p, servers, newServers)
         == (ClearAll(AddAll(c, p, Added(servers, newServers)), Departed(servers, newServers)), Sort(newServers))
  {
    SortEmpty(servers);
  }

  /** What becomes of each server in any update, told by how often the two lists name it: it has a queue
      afterwards exactly when the new list names it, and at least as often as the old one; and it is left with
      a null queue exactly when the old list names it more than once too often. */
  lemma UpdateByCounts(c: Config, p: Pool, servers: seq<Address>, newServers: seq<Address>, k: Address)
    requires p.idle.Keys == Members(servers) && p.nulls == {}
    ensures var r := Update(c, p, servers, newServers).0;
      && (k in r.idle <==> k in newServers && Count(servers, k) <= Count(newServers, k))
      && (k in r.nulls <==> Count(servers, k) > Count(newServers, k) + 1)
  {
    var added, gone := Added(servers, newServers), Departed(servers, newServers);
    UpdateIs(c, p, servers, newServers);
    ListsDiffer(servers, newServers, k);
    AddAllFrame(c, p, added);
    ClearAllQueues(AddAll(c, p, added), gone, k);
    CountIn(added, k);
    CountIn(servers, k);
    CountIn(newServers, k);
    assert k in p.idle <==> k in servers;
  }

  /** The accounting survives every update, whatever the lists and the deferred requests: what can go wrong is
      that a null queue is left behind. */
  lemma UpdateKeepsBooks(c: Config, p: Pool, servers: seq<Address>, newServers: seq<Address>)
    requires Sound(c, p)
    ensures Booked(c, Update(c, p, servers, newServers).0)
  {
    var added, gone := Added(servers, newServers), Departed(servers, newServers);
    UpdateIs(c, p, servers, newServers);
    AddAllKeeps(c, p, added);
    ClearAllKeeps(c, AddAll(c, p, added), gone);
  }

  /** The old list names no server more often than the new one, except once a server that leaves. A list without
      duplicates always meets this. */
  ghost predicate Follows(servers: seq<Address>, newServers: seq<Address>) {
    forall k :: Count(servers, k) <= Max(1, Count(newServers, k))
  }

  lemma DistinctFollows(servers: seq<Address>, newServers: seq<Address>)
    requires NoDuplicates(servers)
    ensures Follows(servers, newServers)
  {
    forall k ensures Count(servers, k) <= 1 {
      CountDistinct(servers, k);
    }
  }

  lemma {:induction false} CountDistinct(s: seq<Address>, x: Address)
    requires NoDuplicates(s)
    ensures Count(s, x) <= 1
  {
    if s != [] {
      CountCons(s, x);
      CountIn(s[1..], x);
      CountDistinct(s[1..], x);
    }
  }

  /** The pool has sound books and queues for exactly the new servers after an update if and only if the old list
      names no server too often. */
  lemma UpdateStaysInSyncIff(c: Config, p: Pool, servers: seq<Address>, newServers: seq<Address>)
    requires InSync(c, p, servers)
    ensures InSync(c, Update(c, p, servers, newServers).0, Update(c, p, servers, newServers).1)
       <==> Follows(servers, newServers)
  {
    var (r, servers') := Update(c, p, servers, newServers);
    UpdateIs(c, p, servers, newServers);
    UpdateKeepsBooks(c, p, servers, newServers);
    forall k ensures (k in r.idle <==> k in newServers && Count(servers, k) <= Count(newServers, k))
                  && (k in r.nulls <==> Count(servers, k) > Count(newServers, k) + 1)
                  && (k in newServers <==> Count(newServers, k) > 0)
                  && (k in servers' <==> k in newServers) {
      UpdateByCounts(c, p, servers, newServers, k);
      ListsDiffer(servers, newServers, k);
      CountIn(newServers, k);
      CountIn(servers', k);
    }
    SyncByKeys(c, r, servers', servers, newServers);
  }

  lemma SyncByKeys(c: Config, r: Pool, servers': seq<Address>, servers: seq<Address>, newServers: seq<Address>)
    requires Booked(c, r)
    requires forall k :: k in r.idle <==> k in newServers && Count(servers, k) <= Count(newServers, k)
    requires forall k :: k in r.nulls <==> Count(servers, k) > Count(newServers, k) + 1
    requires forall k :: k in servers' <==> k in newServers
    ensures InSync(c, r, servers') <==> Follows(servers, newServers)
  {
    if Follows(servers, newServers) {
      forall k ensures k !in r.nulls && (k in r.idle.Keys <==> k in Members(servers')) {
        assert Count(servers, k) <= Max(1, Count(newServers, k));
        CountIn(newServers, k);
      }
      assert r.nulls == {} && r.(nulls := {}) == r;
    } else {
      var k :| Count(servers, k) > Max(1, Count(newServers, k));
      CountIn(newServers, k);
      if k in newServers {
        assert k in Members(servers') && k !in r.idle.Keys;
      } else {
        assert k in r.nulls;
      }
    }
  }

  /** Configured twice, a server that stays is dropped by the first update that names it once. */
  lemma TwiceConfiguredIsDropped(c: Config, a: Address)
    ensures var p := AddAll(c, EMPTY, [a, a]);
      && InSync(c, p, [a, a])
      && a !in Update(c, p, [a, a], [a]).0.idle
  {
    StartsInSync(c, [a, a]);
    UpdateByCounts(c, AddAll(c, EMPTY, [a, a]), [a, a], [a], a);
  }

  /** What leaves, when the old list names no server too often. */
  lemma DepartedAre(servers: seq<Address>, newServers: seq<Address>)
    requires Follows(servers, newServers)
    ensures NoDuplicates(Departed(servers, newServers))
    ensures forall k :: k in Departed(servers, newServers) <==> k in servers && k !in newServers
  {
    var gone := Departed(servers, newServers);
    forall k ensures Count(gone, k) <= 1 && (k in gone <==> k in servers && k !in newServers) {
      ListsDiffer(servers, newServers, k);
      CountIn(gone, k);
      CountIn(servers, k);
      CountIn(newServers, k);
    }
    CountsDistinct(gone);
  }

  lemma {:induction false} CountsDistinct(s: seq<Address>)
    requires forall k :: Count(s, k) <= 1
    ensures NoDuplicates(s)
  {
    if s != [] {
      var rest := s[1..];
      forall k ensures Count(rest, k) <= 1 && (k == s[0] ==> k !in rest) {
        assert Count(s, k) <= 1;
        CountCons(s, k);
        CountIn(rest, k);
      }
      CountsDistinct(rest);
      assert s[0] !in rest;
      forall i, j | 0 <= i < j < |s| ensures s[i] != s[j] {
        assert s[j] == rest[j - 1] && rest[j - 1] in rest;
      }
    }
  }

  /** Opening some queues and then dropping others, as seen from the pool before. */
  lemma NetEffect(c: Config, p: Pool, added: seq<Address>, gone: seq<Address>)
    requires p.nulls == {} && NoDuplicates(gone) && forall i :: 0 <= i < |gone| ==> gone[i] in p.idle
    ensures var r := ClearAll(AddAll(c, p, added), gone);
      && r.destroyed == p.destroyed + IdleOf(p, gone) && r.requests == p.requests
      && (forall k :: k in p.idle && k !in gone ==> k in r.idle && r.idle[k] == p.idle[k])
      && (forall k :: k in p.busy ==> k in r.busy && r.busy[k] == p.busy[k])
  {
    var grown := AddAll(c, p, added);
    AddAllFrame(c, p, added);
    ClearAllFrame(grown, gone);
    IdleOfSame(p, grown, gone);
  }

  /** After such an update the pool has destroyed exactly the idle transports of the departed servers, and keeps
      the queues of the others, the deferred requests and every borrowed transport. */
  lemma UpdateFollowsServers(c: Config, p: Pool, servers: seq<Address>, newServers: seq<Address>)
    requires Follows(servers, newServers) && p.idle.Keys == Members(servers) && p.nulls == {}
    ensures forall k :: k in Departed(servers, newServers) <==> k in servers && k !in newServers
    ensures var r := Update(c, p, servers, newServers).0;
      && r.destroyed == p.destroyed + IdleOf(p, Departed(servers, newServers)) && r.requests == p.requests
      && (forall k :: k in p.idle && k in newServers ==> k in r.idle && r.idle[k] == p.idle[k])
      && (forall k :: k in p.busy ==> k in r.busy && r.busy[k] == p.busy[k])
  {
    var added, gone := Added(servers, newServers), Departed(servers, newServers);
    UpdateIs(c, p, servers, newServers);
    DepartedAre(servers, newServers);
    forall i | 0 <= i < |gone| ensures gone[i] in p.idle {
      assert gone[i] in gone;
    }
    NetEffect(c, p, added, gone);
  }

  /** What an update can break is a later return: it runs into a missing queue exactly when it swaps and the
      oldest request, or the transport itself, is for a server that the update dropped. */
  lemma ReturnAfterUpdateIff(c: Config, p: Pool, servers: seq<Address>, newServers: seq<Address>, k: Address,
                             t: Transport, validates: bool)
    requires InSync(c, p, servers) && Follows(servers, newServers) && k in p.busy && t in p.busy[k]
    ensures var r := Update(c, p, servers, newServers).0;
      Return(c, r, k, t, validates).1 == Some(NullQueue)
      <==> Swaps(c, r) && (r.requests[0] !in newServers || k !in newServers)
  {
    var (r, servers') := Update(c, p, servers, newServers);
    UpdateStaysInSyncIff(c, p, servers, newServers);
    UpdateFollowsServers(c, p, servers, newServers);
    UpdateIs(c, p, servers, newServers);
    SortSorts(newServers);
    forall x ensures x in r.idle <==> x in newServers {
      assert x in r.idle.Keys <==> x in servers';
      assert x in servers' <==> x in multiset(servers');
    }
    ReturnKeepsIff(c, r, k, t, validates);
  }

  lemma {:induction false} IdleOfSame(p: Pool, grown: Pool, ks: seq<Address>)
    requires forall i :: 0 <= i < |ks| ==> ks[i] in p.idle && ks[i] in grown.idle && grown.idle[ks[i]] == p.idle[ks[i]]
    ensures IdleOf(grown, ks) == IdleOf(p, ks)
  {
    if ks != [] {
      IdleOfSame(p, grown, ks[1..]);
    }
  }

  // ------------------------------------------------------------------------------------------- runs

  datatype Move = Topology(newServers: seq<Address>) | Traffic(op: Op)

  ghost predicate Possible(c: Config, p: Pool, servers: seq<Address>, m: Move) {
    match m
    case Topology(newServers) => Follows(servers, newServers)
    case Traffic(op) => !op.Add? && !op.Clear? && Enabled(c, p, op)
  }

  ghost function Moved(c: Config, p: Pool, servers: seq<Address>, m: Move): (Pool, seq<Address>)
    requires Possible(c, p, servers, m)
  {
    match m
    case Topology(newServers) => Update(c, p, servers, newServers)
    case Traffic(op) => (Next(c, p, op), servers)
  }

  lemma {:induction false} BorrowLoopKeys(c: Config, p: Pool, k: Address, obj: Option<Transport>, w: World)
    requires k in p.idle && k in p.busy && Walkable(p, w.order)
    ensures BorrowLoop(c, p, k, obj, w).0.idle.Keys == p.idle.Keys
    decreases BadCreations(p, w), |p.idle[k]|, if Rejected(c, obj, w) then 1 else 0
  {
    if Rejected(c, obj, w) {
      var (p', turn) := BorrowTurn(c, p, k, obj, w);
      if turn.Again? {
        BorrowLoopKeys(c, p', k, Some(turn.transport), w);
      }
    }
  }

  lemma TrafficKeepsKeys(c: Config, p: Pool, op: Op)
    requires Sound(c, p) && Enabled(c, p, op) && !op.Add? && !op.Clear?
    ensures Next(c, p, op).idle.Keys == p.idle.Keys
  {
    match op
    case BorrowOp(k, w) =>
      if !p.closed && k in p.idle && k in p.busy {
        if p.idle[k] == [] {
          BorrowLoopKeys(c, p, k, None, w);
        } else {
          BorrowLoopKeys(c, PollIdle(p, k), k, Some(p.idle[k][0]), w);
        }
      }
    case WakeOp(k, w) =>
      BorrowLoopKeys(c, PollIdle(p, k), k, Some(p.idle[k][0]), w);
    case ReturnOp(_, _, _) =>
    case InvalidateOp(_, _) =>
  }

  lemma MoveKeepsSync(c: Config, p: Pool, servers: seq<Address>, m: Move)
    requires InSync(c, p, servers) && Possible(c, p, servers, m)
    ensures InSync(c, Moved(c, p, servers, m).0, Moved(c, p, servers, m).1)
  {
    match m
    case Topology(newServers) =>
      UpdateStaysInSyncIff(c, p, servers, newServers);
    case Traffic(op) =>
      StepKeeps(c, p, op);
      TrafficKeepsKeys(c, p, op);
  }

  ghost predicate MovesPossible(c: Config, p: Pool, servers: seq<Address>, ms: seq<Move>)
    decreases ms
  {
    ms != [] ==>
      && Possible(c, p, servers, ms[0])
      && var (p', servers') := Moved(c, p, servers, ms[0]);
         MovesPossible(c, p', servers', ms[1..])
  }

  ghost function AfterMoves(c: Config, p: Pool, servers: seq<Address>, ms: seq<Move>): (Pool, seq<Address>)
    requires MovesPossible(c, p, servers, ms)
    decreases ms
  {
    if ms == [] then (p, servers)
    else
      var (p', servers') := Moved(c, p, servers, ms[0]);
      AfterMoves(c, p', servers', ms[1..])
  }

  /** Preparing an empty pool for the configured servers starts such a run. */
  lemma StartsInSync(c: Config, servers: seq<Address>)
    ensures InSync(c, AddAll(c, EMPTY, servers), servers)
  {
    EmptyIsSound(c);
    AddAllKeeps(c, EMPTY, servers);
    AddAllFrame(c, EMPTY, servers);
  }

  /** Over every run of topology updates mixed with borrows, wake-ups, returns and invalidations, the pool
      keeps queues for exactly the current servers and its accounting stays valid. */
  lemma {:induction false} RunStaysInSync(c: Config, p: Pool, servers: seq<Address>, ms: seq<Move>)
    requires InSync(c, p, servers) && MovesPossible(c, p, servers, ms)
    ensures InSync(c, AfterMoves(c, p, servers, ms).0, AfterMoves(c, p, servers, ms).1)
    decreases ms
  {
    if ms != [] {
      MoveKeepsSync(c, p, servers, ms[0]);
      var (p', servers') := Moved(c, p, servers, ms[0]);
      RunStaysInSync(c, p', servers', ms[1..]);
    }
  }
}
