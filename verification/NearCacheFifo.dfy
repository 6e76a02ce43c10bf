/**
 The map and queue of the near cache as one insertion-ordered list. While only absent keys are added
 and the map is never invalidated on its own, the pair behaves exactly like a list that evicts its
 oldest surviving entry; fail-over breaks that order, and the last lemmas say when.
 */
module NearCacheFifo {
  import opened Wrappers
  import opened NearCache

  /** The queue lists exactly the cached keys, each once. */
  ghost predicate InStep(n: Near) {
    && NoDuplicates(n.fifo)
    && (forall i :: 0 <= i < |n.fifo| ==> n.fifo[i] in n.entries)
    && forall k :: k in n.entries ==> k in n.fifo
  }

  /** Cached entries, oldest first. */
  type Ages = seq<(Key, Versioned)>

  ghost function ByAge(n: Near): Ages
    requires InStep(n)
  {
    seq(|n.fifo|, i requires 0 <= i < |n.fifo| => (n.fifo[i], n.entries[n.fifo[i]]))
  }

  // ------------------------------------------------------------------------- the list specification

  function ListAdd(maxEntries: nat, l: Ages, k: Key, v: Versioned): Ages {
    (if l != [] && |l| >= maxEntries then l[1..] else l) + [(k, v)]
  }

  function ListRemove(l: Ages, k: Key): Ages {
    if l == [] then []
    else if l[0].0 == k then l[1..]
    else [l[0]] + ListRemove(l[1..], k)
  }

  /** Regions of an orderly run: no region invalidates the map alone. */
  ghost predicate Orderly(maxEntries: nat, n: Near, rs: seq<Region>)
    decreases rs
  {
    rs != [] ==>
      && !rs[0].InvalidateCache?
      && (rs[0].Add? ==> rs[0].key !in n.entries)
      && Orderly(maxEntries, Apply(maxEntries, n, rs[0]), rs[1..])
  }

  function ListApply(maxEntries: nat, l: Ages, r: Region): Ages {
    match r
    case Add(k, v) => ListAdd(maxEntries, l, k, v)
    case Remove(k) => ListRemove(l, k)
    case ClearMap => []
    case InvalidateCache => []
  }

  function ListRun(maxEntries: nat, l: Ages, rs: seq<Region>): Ages
    decreases rs
  {
    if rs == [] then l else ListRun(maxEntries, ListApply(maxEntries, l, rs[0]), rs[1..])
  }

  // ------------------------------------------------------------------------------------ refinement

  lemma {:induction false} SizeOfDistinct(s: seq<Key>, keys: set<Key>)
    requires NoDuplicates(s) && forall k :: k in s <==> k in keys
    ensures |s| == |keys|
  {
    if s == [] {
      assert keys == {};
    } else {
      var last := s[|s| - 1];
      var front := s[..|s| - 1];
      assert forall k :: k in s <==> k in front || k == last;
      assert last in s;
      SizeOfDistinct(front, keys - {last});
    }
  }

  /** Queueing an absent key at the back of a queue in step. */
  lemma AppendInStep(n: Near, k: Key, v: Versioned)
    requires InStep(n) && k !in n.entries
    ensures InStep(Near(n.entries[k := v], n.fifo + [k]))
    ensures ByAge(Near(n.entries[k := v], n.fifo + [k])) == ByAge(n) + [(k, v)]
  {
    var after := Near(n.entries[k := v], n.fifo + [k]);
    forall other | other in after.entries ensures other in after.fifo {
      if other == k {
        assert after.fifo[|n.fifo|] == k;
      }
    }
    assert InStep(after);
    assert ByAge(after) == ByAge(n) + [(k, v)];
  }

  lemma DropDistinct(s: seq<Key>, i: nat)
    requires NoDuplicates(s) && i < |s|
    ensures NoDuplicates(Drop(s, i))
    ensures forall j :: 0 <= j < |s| - 1 ==> Drop(s, i)[j] != s[i]
  {
    var d := Drop(s, i);
    forall j | 0 <= j < |d| ensures d[j] == s[if j < i then j else j + 1] {
    }
  }

  /** Leaving out position `i` and the entry it names. */
  lemma DropKeepsStep(n: Near, i: nat)
    requires InStep(n) && i < |n.fifo|
    ensures InStep(Near(n.entries - {n.fifo[i]}, Drop(n.fifo, i)))
  {
    var entries, fifo := n.entries - {n.fifo[i]}, Drop(n.fifo, i);
    DropDistinct(n.fifo, i);
    forall j | 0 <= j < |fifo| ensures fifo[j] in entries {
      assert fifo[j] == n.fifo[if j < i then j else j + 1];
    }
    forall other | other in entries ensures other in fifo {
      var j :| 0 <= j < |n.fifo| && n.fifo[j] == other;
      assert fifo[if j < i then j else j - 1] == other;
    }
  }

  lemma DropInStep(n: Near, i: nat)
    requires InStep(n) && i < |n.fifo|
    ensures InStep(Near(n.entries - {n.fifo[i]}, Drop(n.fifo, i)))
    ensures ByAge(Near(n.entries - {n.fifo[i]}, Drop(n.fifo, i))) == Drop(ByAge(n), i)
  {
    DropKeepsStep(n, i);
    var after := Near(n.entries - {n.fifo[i]}, Drop(n.fifo, i));
    forall j | 0 <= j < |after.fifo| ensures ByAge(after)[j] == Drop(ByAge(n), i)[j] {
      assert after.fifo[j] == n.fifo[if j < i then j else j + 1];
    }
  }

  /** A full cache in step drops the front of its queue. */
  lemma FullAddIs(maxEntries: nat, n: Near, k: Key, v: Versioned)
    requires maxEntries > 0 && InStep(n) && Bounded(maxEntries, n) && |n.entries| == maxEntries
    ensures n.fifo != []
    ensures AddElement(maxEntries, n, k, v) == Near((n.entries - {n.fifo[0]})[k := v], Drop(n.fifo, 0) + [k])
  {
    var i := FullAddEvictsFirstLive(maxEntries, n, k, v);
    assert n.fifo[0] in n.entries;
    assert i == 0;
  }

  lemma AddRefines(maxEntries: nat, n: Near, k: Key, v: Versioned)
    requires maxEntries > 0 && InStep(n) && Bounded(maxEntries, n) && k !in n.entries
    ensures InStep(AddElement(maxEntries, n, k, v))
    ensures ByAge(AddElement(maxEntries, n, k, v)) == ListAdd(maxEntries, ByAge(n), k, v)
  {
    SizeOfDistinct(n.fifo, n.entries.Keys);
    if |n.entries| == maxEntries {
      FullAddIs(maxEntries, n, k, v);
      var rest := Near(n.entries - {n.fifo[0]}, Drop(n.fifo, 0));
      DropInStep(n, 0);
      AppendInStep(rest, k, v);
      assert ListAdd(maxEntries, ByAge(n), k, v) == Drop(ByAge(n), 0) + [(k, v)];
    } else {
      AppendInStep(n, k, v);
    }
  }

  lemma {:induction false} EraseFirstAt(fifo: seq<Key>, k: Key, i: nat)
    requires i < |fifo| && fifo[i] == k && forall j :: 0 <= j < i ==> fifo[j] != k
    ensures EraseFirst(fifo, k) == Drop(fifo, i)
  {
    if i > 0 {
      EraseFirstAt(fifo[1..], k, i - 1);
      assert Drop(fifo, i) == [fifo[0]] + Drop(fifo[1..], i - 1);
    }
  }

  lemma {:induction false} EraseFirstAbsent(fifo: seq<Key>, k: Key)
    requires k !in fifo
    ensures EraseFirst(fifo, k) == fifo
  {
    if fifo != [] {
      EraseFirstAbsent(fifo[1..], k);
    }
  }

  lemma {:induction false} ListRemoveAt(l: Ages, k: Key, i: nat)
    requires i < |l| && l[i].0 == k && forall j :: 0 <= j < i ==> l[j].0 != k
    ensures ListRemove(l, k) == Drop(l, i)
  {
    if i > 0 {
      ListRemoveAt(l[1..], k, i - 1);
      assert Drop(l, i) == [l[0]] + Drop(l[1..], i - 1);
    }
  }

  lemma {:induction false} ListRemoveAbsent(l: Ages, k: Key)
    requires forall j :: 0 <= j < |l| ==> l[j].0 != k
    ensures ListRemove(l, k) == l
  {
    if l != [] {
      ListRemoveAbsent(l[1..], k);
    }
  }

  lemma RemoveRefines(maxEntries: nat, n: Near, k: Key)
    requires maxEntries > 0 && InStep(n)
    ensures InStep(RemoveElement(maxEntries, n, k))
    ensures ByAge(RemoveElement(maxEntries, n, k)) == ListRemove(ByAge(n), k)
  {
    if k in n.fifo {
      var i :| 0 <= i < |n.fifo| && n.fifo[i] == k;
      EraseFirstAt(n.fifo, k, i);
      ListRemoveAt(ByAge(n), k, i);
      DropInStep(n, i);
    } else {
      EraseFirstAbsent(n.fifo, k);
      ListRemoveAbsent(ByAge(n), k);
      assert n.entries - {k} == n.entries;
    }
  }

  /** Every orderly run of the near cache is a run of the insertion-ordered list. */
  lemma {:induction false} RunRefines(maxEntries: nat, n: Near, rs: seq<Region>)
    requires maxEntries > 0 && InStep(n) && Bounded(maxEntries, n) && Orderly(maxEntries, n, rs)
    ensures InStep(Run(maxEntries, n, rs))
    ensures ByAge(Run(maxEntries, n, rs)) == ListRun(maxEntries, ByAge(n), rs)
    decreases rs
  {
    if rs != [] {
      match rs[0] {
        case Add(k, v) =>
          AddRefines(maxEntries, n, k, v);
          AddKeepsBound(maxEntries, n, k, v);
        case Remove(k) =>
          RemoveRefines(maxEntries, n, k);
          RemoveKeepsBound(maxEntries, n, k);
        case ClearMap =>
          assert ByAge(EMPTY) == [];
      }
      RunRefines(maxEntries, Apply(maxEntries, n, rs[0]), rs[1..]);
    }
  }

  // ------------------------------------------------- eviction order in arbitrary runs

  /** Every queued copy of `x` has a copy of `y` behind it. */
  ghost predicate QueuedAfter(fifo: seq<Key>, x: Key, y: Key) {
    forall q :: 0 <= q < |fifo| && fifo[q] == x ==> exists p :: q < p < |fifo| && fifo[p] == y
  }

  /** When each key was last added, counted in regions run so far: a history the code does not keep. */
  datatype Clock = Clock(now: nat, added: map<Key, nat>)

  function Tick(c: Clock, r: Region): Clock {
    Clock(c.now + 1, if r.Add? then c.added[r.key := c.now] else c.added)
  }

  function ClockAfter(c: Clock, rs: seq<Region>): Clock
    decreases rs
  {
    if rs == [] then c else ClockAfter(Tick(c, rs[0]), rs[1..])
  }

  /** Cached keys were added at distinct past times, and the queue's last positions agree with them. */
  ghost predicate Aged(n: Near, c: Clock) {
    && (forall k :: k in n.entries ==> k in c.added && c.added[k] < c.now && k in n.fifo)
    && forall x, y :: x in n.entries && y in n.entries && x != y ==>
         c.added[x] != c.added[y] && (c.added[x] < c.added[y] ==> QueuedAfter(n.fifo, x, y))
  }

  /** Dropping a prefix of the queue, or one copy of an uninvolved key, keeps `QueuedAfter`. */
  lemma QueuedAfterSuffix(fifo: seq<Key>, from: nat, x: Key, y: Key)
    requires from <= |fifo| && QueuedAfter(fifo, x, y)
    ensures QueuedAfter(fifo[from..], x, y)
  {
    forall q | 0 <= q < |fifo[from..]| && fifo[from..][q] == x
      ensures exists p :: q < p < |fifo[from..]| && fifo[from..][p] == y
    {
      var p :| q + from < p < |fifo| && fifo[p] == y;
      assert fifo[from..][p - from] == y;
    }
  }

  lemma {:induction false} QueuedAfterErase(fifo: seq<Key>, k: Key, x: Key, y: Key)
    requires x != k && y != k && QueuedAfter(fifo, x, y)
    ensures QueuedAfter(EraseFirst(fifo, k), x, y)
  {
    if k !in fifo {
      EraseFirstAbsent(fifo, k);
    } else {
      var i := FirstAt(fifo, k);
      EraseFirstAt(fifo, k, i);
      var e := EraseFirst(fifo, k);
      forall q | 0 <= q < |e| && e[q] == x ensures exists p :: q < p < |e| && e[p] == y {
        var q' := if q < i then q else q + 1;
        assert fifo[q'] == x;
        var p' :| q' < p' < |fifo| && fifo[p'] == y;
        assert e[if p' < i then p' else p' - 1] == y;
      }
    }
  }

  lemma {:induction false} FirstAt(fifo: seq<Key>, k: Key) returns (i: nat)
    requires k in fifo
    ensures i < |fifo| && fifo[i] == k && forall j :: 0 <= j < i ==> fifo[j] != k
  {
    if fifo[0] == k {
      i := 0;
    } else {
      i := FirstAt(fifo[1..], k);
      i := i + 1;
    }
  }

  /** How two cached keys stand to each other after a queue that lost a front and got `k` at its back. */
  lemma PairKeepsAge(n: Near, c: Clock, from: nat, k: Key, x: Key, y: Key)
    requires Aged(n, c) && from <= |n.fifo| && x != y
    requires x == k || x in n.entries
    requires y == k || y in n.entries
    ensures var added := c.added[k := c.now];
      added[x] != added[y] && (added[x] < added[y] ==> QueuedAfter(n.fifo[from..] + [k], x, y))
  {
    var rest := n.fifo[from..];
    if y == k {
      QueuedBeforeLast(rest, x, k);
    } else if x != k && c.added[x] < c.added[y] {
      QueuedAfterSuffix(n.fifo, from, x, y);
      QueuedAfterPush(rest, x, y, k);
    }
  }

  /** An add drops a front of the queue, possibly nothing, and puts its key at the back. */
  lemma AddQueues(maxEntries: nat, n: Near, k: Key, v: Versioned) returns (from: nat)
    requires maxEntries > 0 && Bounded(maxEntries, n)
    ensures from <= |n.fifo| && AddElement(maxEntries, n, k, v).fifo == n.fifo[from..] + [k]
  {
    from := 0;
    if |n.entries| == maxEntries {
      var i := FullAddEvictsFirstLive(maxEntries, n, k, v);
      from := i + 1;
    }
  }

  /** A cache whose queue lost a front and got `k` at its back is aged, with `k` the youngest. */
  lemma AgedAfter(n: Near, c: Clock, from: nat, k: Key, after: Near, c': Clock)
    requires Aged(n, c) && from <= |n.fifo| && after.fifo == n.fifo[from..] + [k]
    requires c' == Clock(c.now + 1, c.added[k := c.now])
    requires forall x :: x in after.entries && x != k ==> x in n.entries
    requires forall x :: x in after.entries ==> x in after.fifo
    ensures Aged(after, c')
  {
    forall x, y | x in after.entries && y in after.entries && x != y
      ensures c'.added[x] != c'.added[y] && (c'.added[x] < c'.added[y] ==> QueuedAfter(after.fifo, x, y))
    {
      PairKeepsAge(n, c, from, k, x, y);
    }
  }

  /** Adding a key makes it the youngest, whatever the run did before. */
  lemma AddKeepsAges(maxEntries: nat, n: Near, c: Clock, k: Key, v: Versioned)
    requires maxEntries > 0 && Bounded(maxEntries, n) && Aged(n, c)
    ensures Aged(AddElement(maxEntries, n, k, v), Tick(c, Add(k, v)))
  {
    AddKeepsBound(maxEntries, n, k, v);
    var from := AddQueues(maxEntries, n, k, v);
    AgedAfter(n, c, from, k, AddElement(maxEntries, n, k, v), Tick(c, Add(k, v)));
  }

  lemma QueuedBeforeLast(fifo: seq<Key>, x: Key, k: Key)
    requires x != k
    ensures QueuedAfter(fifo + [k], x, k)
  {
    forall q | 0 <= q < |fifo + [k]| && (fifo + [k])[q] == x
      ensures exists p :: q < p < |fifo + [k]| && (fifo + [k])[p] == k
    {
      assert (fifo + [k])[|fifo|] == k;
    }
  }

  lemma QueuedAfterPush(fifo: seq<Key>, x: Key, y: Key, k: Key)
    requires x != k && QueuedAfter(fifo, x, y)
    ensures QueuedAfter(fifo + [k], x, y)
  {
    forall q | 0 <= q < |fifo + [k]| && (fifo + [k])[q] == x
      ensures exists p :: q < p < |fifo + [k]| && (fifo + [k])[p] == y
    {
      var p :| q < p < |fifo| && fifo[p] == y;
      assert (fifo + [k])[p] == y;
    }
  }

  lemma RemoveKeepsAges(maxEntries: nat, n: Near, c: Clock, k: Key)
    requires maxEntries > 0 && Bounded(maxEntries, n) && Aged(n, c)
    ensures Aged(RemoveElement(maxEntries, n, k), Tick(c, Remove(k)))
  {
    RemoveKeepsBound(maxEntries, n, k);
    var erased := EraseFirst(n.fifo, k);
    forall x, y | x in n.entries && y in n.entries && x != k && y != k && c.added[x] < c.added[y]
      ensures QueuedAfter(erased, x, y)
    {
      QueuedAfterErase(n.fifo, k, x, y);
    }
    FewerAged(n, c, k, erased);
  }

  /** Forgetting one entry and any queue that keeps the order of the others. */
  lemma FewerAged(n: Near, c: Clock, k: Key, erased: seq<Key>)
    requires Aged(n, c)
    requires forall x :: x in n.entries && x != k ==> x in erased
    requires forall x, y :: x in n.entries && y in n.entries && x != k && y != k && c.added[x] < c.added[y] ==>
               QueuedAfter(erased, x, y)
    ensures Aged(Near(n.entries - {k}, erased), Clock(c.now + 1, c.added))
  {
  }

  /** In any run at all, the queue's last positions reproduce the order in which entries were added. */
  lemma {:induction false} RunKeepsAges(maxEntries: nat, n: Near, c: Clock, rs: seq<Region>)
    requires maxEntries > 0 && Bounded(maxEntries, n) && Aged(n, c)
    ensures Bounded(maxEntries, Run(maxEntries, n, rs))
    ensures Aged(Run(maxEntries, n, rs), ClockAfter(c, rs))
    decreases rs
  {
    if rs != [] {
      match rs[0] {
        case Add(k, v) =>
          AddKeepsBound(maxEntries, n, k, v);
          AddKeepsAges(maxEntries, n, c, k, v);
        case Remove(k) =>
          RemoveKeepsBound(maxEntries, n, k);
          RemoveKeepsAges(maxEntries, n, c, k);
        case _ =>
      }
      RunKeepsAges(maxEntries, Apply(maxEntries, n, rs[0]), Tick(c, rs[0]), rs[1..]);
    }
  }

  lemma {:induction false} NotBothAfter(fifo: seq<Key>, x: Key, y: Key, q: nat)
    requires q < |fifo| && fifo[q] == x
    requires QueuedAfter(fifo, x, y)
    ensures !QueuedAfter(fifo, y, x)
    decreases |fifo| - q
  {
    if QueuedAfter(fifo, y, x) {
      var p :| q < p < |fifo| && fifo[p] == y;
      NotBothAfter(fifo, y, x, p);
    }
  }

  /** `x` was added before every other cached key. */
  ghost predicate Oldest(n: Near, c: Clock, x: Key)
    requires Aged(n, c)
  {
    x in n.entries && forall y :: y in n.entries ==> c.added[x] <= c.added[y]
  }

  /** Exactly when a full cache evicts its oldest entry: every other cached key must be queued again
      behind each copy of the victim. Queues without repeated keys always meet that condition. */
  lemma EvictsOldestIff(n: Near, c: Clock, i: nat)
    requires Aged(n, c) && FirstLive(n, i)
    ensures Oldest(n, c, n.fifo[i]) <==>
              forall y :: y in n.entries && y != n.fifo[i] ==> QueuedAfter(n.fifo, n.fifo[i], y)
  {
    var x := n.fifo[i];
    if forall y :: y in n.entries && y != x ==> QueuedAfter(n.fifo, x, y) {
      forall y | y in n.entries ensures c.added[x] <= c.added[y] {
        if y != x {
          NotBothAfter(n.fifo, x, y, i);
        }
      }
    }
  }

  // --------------------------------------------------------- what invalidation does to the order

  /** After a fail-over the queue still holds the old position of a key, so a full cache of two evicts
      "a", which was added last, and keeps the older "b". */
  lemma InvalidationEvictsNewest(v: Versioned)
    ensures Run(2, EMPTY, [Add("a", v), InvalidateCache, Add("b", v), Add("a", v), Add("c", v)]).entries
         == map["b" := v, "c" := v]
  {
    var all := [Add("a", v), InvalidateCache, Add("b", v), Add("a", v), Add("c", v)];
    var r2, r3 := [Add("c", v)], [Add("a", v), Add("c", v)];
    var r4, r5 := [Add("b", v)] + r3, [InvalidateCache, Add("b", v)] + r3;
    assert all[1..] == r5 && r5[1..] == r4 && r4[1..] == r3 && r3[1..] == r2 && r2[1..] == [];
    var s1 := Near(map["a" := v], ["a"]);
    var s2 := Near(map[], ["a"]);
    var s3 := Near(map["b" := v], ["a", "b"]);
    var s4 := Near(map["b" := v, "a" := v], ["a", "b", "a"]);
    assert AddElement(2, EMPTY, "a", v) == s1 && AddElement(2, s2, "b", v) == s3;
    assert Run(2, EMPTY, all) == Run(2, s1, r5) == Run(2, s2, r4);
    assert Run(2, s2, r4) == Run(2, s3, r3);
    RequeueOld(v);
    assert Run(2, s3, r3) == Run(2, s4, r2) == AddElement(2, s4, "c", v);
    FullAddDropsFront(v);
  }

  lemma RequeueOld(v: Versioned)
    ensures AddElement(2, Near(map["b" := v], ["a", "b"]), "a", v)
         == Near(map["b" := v, "a" := v], ["a", "b", "a"])
  {
    assert map["b" := v].Keys == {"b"};
  }

  lemma FullAddDropsFront(v: Versioned)
    ensures AddElement(2, Near(map["b" := v, "a" := v], ["a", "b", "a"]), "c", v).entries
         == map["b" := v, "c" := v]
  {
    var entries := map["b" := v, "a" := v];
    assert entries.Keys == {"a", "b"};
    assert (["a", "b", "a"] + ["c"])[0] == "a";
    assert (entries - {"a"})["c" := v] == map["b" := v, "c" := v];
  }
}
