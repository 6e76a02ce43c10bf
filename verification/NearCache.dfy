/**
 The client-side near cache of NearRemoteCacheImpl: a map of versioned values plus a queue of keys
 that decides which entry is evicted. The functions give the meaning of each locked region, the
 class does the same work in place, and the lemmas say what any interleaving of the regions keeps.
 */
module NearCache {
  import opened Wrappers

  type Key = string
  type Value = string

  datatype Versioned = Versioned(value: Value, version: int)

  datatype Near = Near(entries: map<Key, Versioned>, fifo: seq<Key>)

  const EMPTY := Near(map[], [])

  // ---------------------------------------------------------------- meaning of the locked regions

  /** The queue after popping every leading key that the map no longer holds. */
  function DropStale(fifo: seq<Key>, entries: map<Key, Versioned>): seq<Key> {
    if fifo != [] && fifo[0] !in entries then DropStale(fifo[1..], entries) else fifo
  }

  function AddElement(maxEntries: nat, n: Near, k: Key, v: Versioned): Near {
    if maxEntries == 0 then n.(entries := n.entries[k := v])
    else if |n.entries| < maxEntries then Near(n.entries[k := v], n.fifo + [k])
    else
      var live := DropStale(n.fifo + [k], n.entries);
      if live == [] then Near(n.entries[k := v], [])
      else Near((n.entries - {live[0]})[k := v], live[1..])
  }

  /** The queue without its first occurrence of `k`. */
  function EraseFirst(fifo: seq<Key>, k: Key): seq<Key> {
    if fifo == [] then []
    else if fifo[0] == k then fifo[1..]
    else [fifo[0]] + EraseFirst(fifo[1..], k)
  }

  function RemoveElement(maxEntries: nat, n: Near, k: Key): Near {
    Near(n.entries - {k}, if maxEntries > 0 then EraseFirst(n.fifo, k) else n.fifo)
  }

  /** Fail-over empties the map only: the queue keeps keys that are no longer cached. */
  function Invalidate(n: Near): Near {
    n.(entries := map[])
  }

  // ------------------------------------------------------------------------------ size and eviction

  /** Every cached key is queued, and a bounded cache is within its bound. */
  ghost predicate Bounded(maxEntries: nat, n: Near) {
    maxEntries > 0 ==>
      && |n.entries| <= maxEntries
      && forall k :: k in n.entries ==> k in n.fifo
  }

  /** `i` is the position of the first queued key that is still cached. */
  ghost predicate FirstLive(n: Near, i: nat) {
    && i < |n.fifo|
    && n.fifo[i] in n.entries
    && forall j :: 0 <= j < i ==> n.fifo[j] !in n.entries
  }

  lemma {:induction false} DropStaleStopsAt(fifo: seq<Key>, entries: map<Key, Versioned>, i: nat)
    requires i < |fifo| && fifo[i] in entries
    requires forall j :: 0 <= j < i ==> fifo[j] !in entries
    ensures DropStale(fifo, entries) == fifo[i..]
  {
    if i > 0 {
      DropStaleStopsAt(fifo[1..], entries, i - 1);
    }
  }

  lemma {:induction false} FirstLiveExists(n: Near, k: Key, from: nat)
    requires k in n.entries && k in n.fifo
    requires from <= |n.fifo| && forall j :: 0 <= j < from ==> n.fifo[j] !in n.entries
    ensures exists i: nat :: FirstLive(n, i)
    decreases |n.fifo| - from
  {
    if n.fifo[from] in n.entries {
      assert FirstLive(n, from);
    } else {
      FirstLiveExists(n, k, from + 1);
    }
  }

  /** A full cache evicts exactly one live entry, the first one queued, and keeps the key it has just
      queued: the popping loop never runs the queue dry. */
  lemma FullAddEvictsFirstLive(maxEntries: nat, n: Near, k: Key, v: Versioned) returns (i: nat)
    requires maxEntries > 0 && Bounded(maxEntries, n) && |n.entries| == maxEntries
    ensures FirstLive(n, i)
    ensures AddElement(maxEntries, n, k, v)
         == Near((n.entries - {n.fifo[i]})[k := v], n.fifo[i + 1..] + [k])
  {
    var cached :| cached in n.entries;
    FirstLiveExists(n, cached, 0);
    i :| FirstLive(n, i);
    var queued := n.fifo + [k];
    DropStaleStopsAt(queued, n.entries, i);
    assert queued[i..][1..] == n.fifo[i + 1..] + [k];
  }

  lemma {:induction false} EraseFirstKeepsOthers(fifo: seq<Key>, k: Key, other: Key)
    requires other != k
    ensures other in EraseFirst(fifo, k) <==> other in fifo
  {
    if fifo != [] && fifo[0] != k {
      EraseFirstKeepsOthers(fifo[1..], k, other);
    }
  }

  /** Every key but the victim is still queued behind it. */
  lemma StillQueued(n: Near, i: nat)
    requires FirstLive(n, i) && forall k :: k in n.entries ==> k in n.fifo
    ensures forall k :: k in n.entries && k != n.fifo[i] ==> k in n.fifo[i + 1..]
  {
    forall k | k in n.entries && k != n.fifo[i] ensures k in n.fifo[i + 1..] {
      var j :| 0 <= j < |n.fifo| && n.fifo[j] == k;
      assert n.fifo[i + 1..][j - i - 1] == k;
    }
  }

  lemma FullAddKeepsBound(maxEntries: nat, n: Near, k: Key, v: Versioned)
    requires maxEntries > 0 && Bounded(maxEntries, n) && |n.entries| == maxEntries
    ensures Bounded(maxEntries, AddElement(maxEntries, n, k, v))
  {
    var i := FullAddEvictsFirstLive(maxEntries, n, k, v);
    var kept := n.entries - {n.fifo[i]};
    assert n.entries.Keys == kept.Keys + {n.fifo[i]};
    assert kept[k := v].Keys == kept.Keys + {k};
    StillQueued(n, i);
  }

  /** Adding keeps the bound, whether or not the key is already present. */
  lemma AddKeepsBound(maxEntries: nat, n: Near, k: Key, v: Versioned)
    requires Bounded(maxEntries, n)
    ensures Bounded(maxEntries, AddElement(maxEntries, n, k, v))
    ensures k in AddElement(maxEntries, n, k, v).entries
    ensures AddElement(maxEntries, n, k, v).entries[k] == v
    ensures forall other :: other in AddElement(maxEntries, n, k, v).entries && other != k ==>
              other in n.entries && AddElement(maxEntries, n, k, v).entries[other] == n.entries[other]
  {
    if maxEntries > 0 {
      if |n.entries| == maxEntries {
        FullAddKeepsBound(maxEntries, n, k, v);
      } else {
        assert n.entries[k := v].Keys == n.entries.Keys + {k};
      }
    }
  }

  /** With room left, or without a bound, an add changes nothing but its own entry and queues its key last. */
  lemma RoomyAddKeepsAll(maxEntries: nat, n: Near, k: Key, v: Versioned)
    requires maxEntries == 0 || |n.entries| < maxEntries
    ensures AddElement(maxEntries, n, k, v).entries == n.entries[k := v]
    ensures AddElement(maxEntries, n, k, v).fifo == if maxEntries == 0 then n.fifo else n.fifo + [k]
  {
  }

  /** A remove drops its own entry and nothing else, and one copy of its key from the queue of a bounded cache. */
  lemma {:induction false} RemoveDropsOnly(maxEntries: nat, n: Near, k: Key)
    ensures RemoveElement(maxEntries, n, k).entries == n.entries - {k}
    ensures multiset(RemoveElement(maxEntries, n, k).fifo)
         == multiset(n.fifo) - if maxEntries > 0 then multiset{k} else multiset{}
  {
    EraseFirstCounts(n.fifo, k);
  }

  /** Invalidation at fail-over forgets every entry and no queue position; clearing forgets both. */
  lemma InvalidateKeepsQueue(maxEntries: nat, n: Near)
    ensures Apply(maxEntries, n, InvalidateCache) == Near(map[], n.fifo)
    ensures Apply(maxEntries, n, ClearMap) == Near(map[], [])
  {
  }

  lemma {:induction false} EraseFirstCounts(fifo: seq<Key>, k: Key)
    ensures multiset(EraseFirst(fifo, k)) == multiset(fifo) - multiset{k}
  {
    if fifo != [] {
      assert fifo == [fifo[0]] + fifo[1..];
      if fifo[0] != k {
        EraseFirstCounts(fifo[1..], k);
      }
    }
  }

  lemma RemoveKeepsBound(maxEntries: nat, n: Near, k: Key)
    requires Bounded(maxEntries, n)
    ensures Bounded(maxEntries, RemoveElement(maxEntries, n, k))
  {
    var kept := n.entries - {k};
    assert kept.Keys == n.entries.Keys - {k};
    forall other | maxEntries > 0 && other in kept
      ensures other in EraseFirst(n.fifo, k)
    {
      EraseFirstKeepsOthers(n.fifo, k, other);
    }
  }

  /** The locked regions that a client or its listener can run, in any order. */
  datatype Region = Add(key: Key, value: Versioned) | Remove(key: Key) | ClearMap | InvalidateCache

  function Apply(maxEntries: nat, n: Near, r: Region): Near {
    match r
    case Add(k, v) => AddElement(maxEntries, n, k, v)
    case Remove(k) => RemoveElement(maxEntries, n, k)
    case ClearMap => EMPTY
    case InvalidateCache => Invalidate(n)
  }

  function Run(maxEntries: nat, n: Near, rs: seq<Region>): Near
    decreases rs
  {
    if rs == [] then n else Run(maxEntries, Apply(maxEntries, n, rs[0]), rs[1..])
  }

  lemma {:induction false} RunKeepsBound(maxEntries: nat, n: Near, rs: seq<Region>)
    requires Bounded(maxEntries, n)
    ensures Bounded(maxEntries, Run(maxEntries, n, rs))
    decreases rs
  {
    if rs != [] {
      match rs[0] {
        case Add(k, v) => AddKeepsBound(maxEntries, n, k, v);
        case Remove(k) => RemoveKeepsBound(maxEntries, n, k);
        case _ =>
      }
      RunKeepsBound(maxEntries, Apply(maxEntries, n, rs[0]), rs[1..]);
    }
  }

  // ------------------------------------------------------------------------------ the class itself

  /** The mutable near cache. Remote replies are parameters of the methods that wait for them. */
  class NearRemoteCache {
    const maxEntries: nat
    var nearMap: map<Key, Versioned>
    var nearFifo: seq<Key>
    var hits: nat
    var removed: nat

    function State(): Near
      reads this
    {
      Near(nearMap, nearFifo)
    }

    constructor (maxEntries: nat)
      ensures this.maxEntries == maxEntries && State() == EMPTY && hits == 0 && removed == 0
    {
      this.maxEntries := maxEntries;
      nearMap, nearFifo, hits, removed := map[], [], 0, 0;
    }

    method AddElementToMap(key: Key, value: Versioned)
      modifies this`nearMap, this`nearFifo
      ensures State() == AddElement(maxEntries, old(State()), key, value)
    {
      if maxEntries > 0 {
        nearFifo := nearFifo + [key];
        if |nearMap| >= maxEntries {
          while nearFifo != [] && nearFifo[0] !in nearMap
            invariant nearMap == old(nearMap)
            invariant DropStale(nearFifo, nearMap) == DropStale(old(nearFifo) + [key], nearMap)
            decreases |nearFifo|
          {
            nearFifo := nearFifo[1..];
          }
          if nearFifo != [] {
            nearMap := nearMap - {nearFifo[0]};
            nearFifo := nearFifo[1..];
          }
        }
      }
      nearMap := nearMap[key := value];
    }

    method RemoveElementFromMap(key: Key)
      modifies this`nearMap, this`nearFifo, this`removed
      ensures State() == RemoveElement(maxEntries, old(State()), key)
      ensures removed == old(removed) + 1
    {
      if maxEntries > 0 {
        nearFifo := EraseFirst(nearFifo, key);
      }
      nearMap := nearMap - {key};
      removed := removed + 1;
    }

    method ClearNearMap()
      modifies this`nearMap, this`nearFifo
      ensures State() == EMPTY
    {
      nearFifo := [];
      nearMap := map[];
    }

    method InvalidateNearMap()
      modifies this`nearMap
      ensures State() == Invalidate(old(State()))
    {
      nearMap := map[];
    }

    /** The locked lookup at the start of a get. */
    method LookUpNear(key: Key) returns (hit: Option<Versioned>)
      modifies this`hits
      ensures hit == if key in nearMap then Some(nearMap[key]) else None
      ensures hits == old(hits) + if hit.Some? then 1 else 0
    {
      if key in nearMap {
        hits := hits + 1;
        return Some(nearMap[key]);
      }
      return None;
    }

    /** The end of a miss, after the lock was given up for the remote read: other regions may have run since. */
    method FillNear(key: Key, reply: Option<Versioned>)
      modifies this`nearMap, this`nearFifo
      ensures State() == if reply.Some? then AddElement(maxEntries, old(State()), key, reply.value)
                         else old(State())
    {
      if reply.Some? {
        AddElementToMap(key, reply.value);
      }
    }

    /** A hit answers from the map; a miss returns the server's reply and caches it when it is a value. */
    method GetWithVersion(key: Key, reply: Option<Versioned>) returns (r: Option<Versioned>)
      modifies this`nearMap, this`nearFifo, this`hits
      ensures key in old(nearMap) ==>
                && r == Some(old(nearMap)[key])
                && State() == old(State())
                && hits == old(hits) + 1
      ensures key !in old(nearMap) ==>
                && r == reply
                && hits == old(hits)
                && State() == if reply.Some? then AddElement(maxEntries, old(State()), key, reply.value)
                              else old(State())
    {
      r := LookUpNear(key);
      if r.None? {
        FillNear(key, reply);
        r := reply;
      }
    }

    /** replaceWithVersion and removeWithVersion drop the entry only once the server has accepted. */
    method VersionedWrite(key: Key, accepted: bool) returns (r: bool)
      modifies this`nearMap, this`nearFifo, this`removed
      ensures r == accepted
      ensures State() == if accepted then RemoveElement(maxEntries, old(State()), key) else old(State())
      ensures removed == old(removed) + if accepted then 1 else 0
    {
      if accepted {
        RemoveElementFromMap(key);
      }
      return accepted;
    }
  }
}
