/**
 SegmentConsistentHash: which segment a key belongs to, who owns a segment, and the inverse index from
 servers to segments.
 */
module SegmentHash {
  import opened Wrappers

  type Bytes = seq<bv8>

  /** The largest normalised hash. */
  const TOP := 0x7FFF_FFFF

  /** Hash with the sign bit cleared; `h` is a hash value as an unsigned 32-bit number. */
  function Normalized(h: nat): nat {
    h % (TOP + 1)
  }

  function SegmentSize(numSegments: nat): nat
    requires numSegments >= 1
  {
    TOP / numSegments + 1
  }

  function Segment(numSegments: nat, h: nat): nat
    requires numSegments >= 1
  {
    Normalized(h) / SegmentSize(numSegments)
  }

  lemma MulMonotone(a: nat, b: nat, c: nat)
    requires a <= b
    ensures a * c <= b * c
  {
  }

  /** Division by its defining equation. */
  lemma QuotientIs(n: nat, size: nat, q: nat, r: nat, s: nat)
    requires n == q * size + r && r < size
    ensures q == s <==> s * size <= n < (s + 1) * size
  {
    assert (s + 1) * size == s * size + size && (q + 1) * size == q * size + size;
    if s < q {
      MulMonotone(s + 1, q, size);
    } else if q < s {
      MulMonotone(q + 1, s, size);
    }
  }

  lemma DivIs(n: nat, size: nat, s: nat)
    requires size > 0
    ensures n / size == s <==> s * size <= n < (s + 1) * size
  {
    QuotientIs(n, size, n / size, n % size, s);
  }

  /** The size is the least one with which that many segments cover the hash space. */
  lemma SizeIsLeast(numSegments: nat)
    requires numSegments >= 1
    ensures (SegmentSize(numSegments) - 1) * numSegments < 0x8000_0000 <= SegmentSize(numSegments) * numSegments
  {
    var q, r := TOP / numSegments, TOP % numSegments;
    assert TOP == q * numSegments + r && r < numSegments;
    assert (q + 1) * numSegments == q * numSegments + numSegments;
  }

  /** Hash `h` lies in interval number `s`, with intervals of the least size `q` for that many segments. */
  ghost predicate FallsInto(numSegments: nat, h: nat, q: nat, s: nat) {
    && q >= 1 && (q - 1) * numSegments < 0x8000_0000 <= q * numSegments
    && s * q <= h % 0x8000_0000 < (s + 1) * q
  }

  /** Which segment a hash falls into: the hash space of 31 bits is cut into consecutive intervals of the least
      size `q` with which all segments cover it. */
  lemma SegmentIsInterval(numSegments: nat, h: nat, q: nat, s: nat)
    requires numSegments >= 1 && q >= 1 && (q - 1) * numSegments < 0x8000_0000 <= q * numSegments
    ensures Segment(numSegments, h) == s <==> s * q <= h % 0x8000_0000 < (s + 1) * q
  {
    DivIs(TOP, numSegments, q - 1);
    assert SegmentSize(numSegments) == q;
    DivIs(h % 0x8000_0000, q, s);
  }

  /** For every hash and every number of segments from one up, the segment is in range. */
  lemma SegmentInRange(numSegments: nat, h: nat)
    requires numSegments >= 1
    ensures Segment(numSegments, h) < numSegments
  {
    var size, s := SegmentSize(numSegments), Segment(numSegments, h);
    SizeIsLeast(numSegments);
    SegmentIsInterval(numSegments, h, size, s);
    if numSegments <= s {
      MulMonotone(numSegments, s, size);
    }
  }

  /** Rounding the size up can leave the last segments without any key: a segment is ever chosen exactly when
      it starts inside the hash space. */
  lemma SegmentUsedIff(numSegments: nat, q: nat, s: nat)
    requires numSegments >= 1 && q >= 1 && (q - 1) * numSegments < 0x8000_0000 <= q * numSegments
    ensures (exists h: nat :: Segment(numSegments, h) == s) <==> s * q < 0x8000_0000
  {
    if s * q < 0x8000_0000 {
      SegmentIsInterval(numSegments, s * q, q, s);
      assert (s + 1) * q == s * q + q;
      assert Segment(numSegments, s * q) == s;
    } else if exists h: nat :: Segment(numSegments, h) == s {
      var h: nat :| Segment(numSegments, h) == s;
      SegmentIsInterval(numSegments, h, q, s);
    }
  }

  /** With sixty thousand segments no key ever falls into the last one. */
  lemma LastSegmentUnused(h: nat)
    ensures Segment(60000, h) != 59999
  {
    SegmentUsedIff(60000, 35792, 59999);
  }

  /** A number of segments that divides the hash space, as every power of two up to it does, leaves none out. */
  lemma DividingLeavesNoneOut(numSegments: nat, q: nat, s: nat)
    requires numSegments * q == 0x8000_0000 && s < numSegments
    ensures exists h: nat :: Segment(numSegments, h) == s
  {
    MulMonotone(s + 1, numSegments, q);
    assert (s + 1) * q == s * q + q && (q - 1) * numSegments == q * numSegments - numSegments;
    SegmentUsedIff(numSegments, q, s);
  }

  // --------------------------------------------------------------------------------- the inverse index

  type Owners = seq<seq<Address>>

  type Index = map<Address, seq<nat>>

  function At(m: Index, a: Address): seq<nat> {
    if a in m then m[a] else []
  }

  /** How often the table names `a` as an owner of segment `x`. */
  ghost function Times(owners: Owners, a: Address, x: nat): nat {
    if x < |owners| then multiset(owners[x])[a] else 0
  }

  /** How often `a` is listed for segment `x` in the first `i` segments and `j` owners of segment `i`. */
  ghost function Listed(owners: Owners, i: nat, j: nat, a: Address, x: nat): nat
    requires i <= |owners| && (i < |owners| ==> j <= |owners[i]|)
  {
    if x < i then multiset(owners[x])[a]
    else if x == i && i < |owners| then multiset(owners[i][..j])[a]
    else 0
  }

  ghost predicate Counted(owners: Owners, i: nat, j: nat, m: Index)
    requires i <= |owners| && (i < |owners| ==> j <= |owners[i]|)
  {
    forall a, x: nat :: multiset(At(m, a))[x] == Listed(owners, i, j, a, x)
  }

  /** Lists of segments in ascending order, none empty and none beyond `i`. */
  ghost predicate Ordered(i: nat, m: Index) {
    forall a :: a in m ==> m[a] != [] && Ascending(m[a]) && forall n :: 0 <= n < |m[a]| ==> m[a][n] <= i
  }

  /** `m` is the exact inverse of the owners table: ascending segments, with the table's multiplicities. */
  ghost predicate Inverts(owners: Owners, m: Index) {
    && (forall a, x: nat :: multiset(At(m, a))[x] == Times(owners, a, x))
    && (forall a :: a in m ==> m[a] != [] && Ascending(m[a]))
  }

  lemma CountPush<T>(s: seq<T>, e: T, x: T)
    ensures multiset(s + [e])[x] == multiset(s)[x] + if x == e then 1 else 0
  {
  }

  /** Looking at one more owner of segment `i`. */
  lemma ListedStep(owners: Owners, i: nat, j: nat, b: Address, x: nat)
    requires i < |owners| && j < |owners[i]|
    ensures Listed(owners, i, j + 1, b, x)
         == Listed(owners, i, j, b, x) + if x == i && b == owners[i][j] then 1 else 0
  {
    assert owners[i][..j + 1] == owners[i][..j] + [owners[i][j]];
    CountPush(owners[i][..j], owners[i][j], b);
  }

  lemma PushCounted(owners: Owners, i: nat, j: nat, m: Index)
    requires i < |owners| && j < |owners[i]| && Counted(owners, i, j, m)
    ensures Counted(owners, i, j + 1, m[owners[i][j] := At(m, owners[i][j]) + [i]])
  {
    var a := owners[i][j];
    var m' := m[a := At(m, a) + [i]];
    forall b, x: nat ensures multiset(At(m', b))[x] == Listed(owners, i, j + 1, b, x) {
      assert multiset(At(m, b))[x] == Listed(owners, i, j, b, x);
      ListedStep(owners, i, j, b, x);
      CountPush(At(m, b), i, x);
    }
  }

  lemma PushOrdered(i: nat, m: Index, a: Address)
    requires Ordered(i, m)
    ensures Ordered(i, m[a := At(m, a) + [i]])
  {
  }

  class SegmentConsistentHash {
    const hash: Bytes -> nat
    var segmentOwners: Owners
    var numSegments: nat
    var segmentSize: nat

    ghost predicate Valid()
      reads this
    {
      && numSegments >= 1 && segmentSize == SegmentSize(numSegments)
      && |segmentOwners| == numSegments
      && forall i :: 0 <= i < numSegments ==> segmentOwners[i] != []
    }

    constructor (hash: Bytes -> nat, owners: Owners, num: nat)
      requires num >= 1
      ensures this.hash == hash
      ensures segmentOwners == owners && numSegments == num && segmentSize == SegmentSize(num)
    {
      this.hash := hash;
      segmentOwners, numSegments, segmentSize := owners, num, SegmentSize(num);
    }

    /** The owner lookup stays inside the table for every key, whatever the hash, and finds the first owner of the
        segment that the hash falls into. */
    method GetServer(key: Bytes) returns (server: Address)
      requires Valid()
      ensures forall q: nat, s: nat :: FallsInto(numSegments, hash(key), q, s) ==>
                s < |segmentOwners| && server == segmentOwners[s][0]
    {
      SegmentInRange(numSegments, hash(key));
      var segmentId := Normalized(hash(key)) / segmentSize;
      server := segmentOwners[segmentId][0];
      forall q: nat, s: nat | FallsInto(numSegments, hash(key), q, s) ensures s == segmentId {
        SegmentIsInterval(numSegments, hash(key), q, s);
      }
    }

    method GetSegmentsByServers() returns (m: Index)
      ensures Inverts(segmentOwners, m)
    {
      m := map[];
      var i := 0;
      while i < |segmentOwners|
        invariant 0 <= i <= |segmentOwners| && Counted(segmentOwners, i, 0, m) && Ordered(i, m)
      {
        m := IndexRow(segmentOwners, i, m);
        NextRow(segmentOwners, i, m);
        i := i + 1;
      }
      AllRows(segmentOwners, m);
    }
  }

  /** The inner loop: the owners of one segment. */
  method IndexRow(owners: Owners, i: nat, before: Index) returns (m: Index)
    requires i < |owners| && Counted(owners, i, 0, before) && Ordered(i, before)
    ensures Counted(owners, i, |owners[i]|, m) && Ordered(i, m)
  {
    m := before;
    for j := 0 to |owners[i]|
      invariant Counted(owners, i, j, m) && Ordered(i, m)
    {
      PushCounted(owners, i, j, m);
      PushOrdered(i, m, owners[i][j]);
      m := m[owners[i][j] := At(m, owners[i][j]) + [i]];
    }
  }

  lemma NextRow(owners: Owners, i: nat, m: Index)
    requires i < |owners| && Counted(owners, i, |owners[i]|, m)
    ensures Counted(owners, i + 1, 0, m)
  {
    assert owners[i][..|owners[i]|] == owners[i];
    forall a, x: nat ensures multiset(At(m, a))[x] == Listed(owners, i + 1, 0, a, x) {
      assert multiset(At(m, a))[x] == Listed(owners, i, |owners[i]|, a, x);
    }
  }

  lemma AllRows(owners: Owners, m: Index)
    requires Counted(owners, |owners|, 0, m) && Ordered(|owners|, m)
    ensures Inverts(owners, m)
  {
    forall a, x: nat ensures multiset(At(m, a))[x] == Times(owners, a, x) {
      assert multiset(At(m, a))[x] == Listed(owners, |owners|, 0, a, x);
    }
  }

  /** An owner appears under a segment exactly as often as the segment under the owner. */
  lemma InverseMembership(owners: Owners, m: Index, a: Address, i: nat)
    requires Inverts(owners, m)
    ensures (a in m && i in m[a]) <==> (i < |owners| && a in owners[i])
  {
    assert i in At(m, a) <==> multiset(At(m, a))[i] > 0;
    assert i < |owners| ==> (a in owners[i] <==> multiset(owners[i])[a] > 0);
  }

  lemma SameLast(s: seq<nat>, t: seq<nat>)
    requires Ascending(s) && Ascending(t) && multiset(s) == multiset(t) && s != []
    ensures |s| == |t| && s[|s| - 1] == t[|t| - 1]
  {
    assert |s| == |multiset(s)| && |t| == |multiset(t)|;
    var n := |s| - 1;
    assert s[n] in multiset(t) && t[n] in multiset(s);
    assert s[n] in t && t[n] in s;
  }

  lemma WithoutLast(s: seq<nat>)
    requires s != []
    ensures multiset(s[..|s| - 1]) == multiset(s) - multiset{s[|s| - 1]}
  {
    assert s == s[..|s| - 1] + [s[|s| - 1]];
  }

  /** Two ascending sequences of the same elements still are so without their last ones. */
  lemma SamePrefix(s: seq<nat>, t: seq<nat>, n: nat)
    requires Ascending(s) && Ascending(t) && multiset(s) == multiset(t) && |s| == n + 1
    ensures |t| == n + 1 && s[n] == t[n] && multiset(s[..n]) == multiset(t[..n])
    ensures Ascending(s[..n]) && Ascending(t[..n])
  {
    SameLast(s, t);
    WithoutLast(s);
    WithoutLast(t);
  }

  lemma {:induction false} AscendingIsUnique(s: seq<nat>, t: seq<nat>)
    requires Ascending(s) && Ascending(t) && multiset(s) == multiset(t)
    ensures s == t
  {
    if s == [] {
      assert |t| == |multiset(t)|;
    } else {
      var n := |s| - 1;
      SamePrefix(s, t, n);
      AscendingIsUnique(s[..n], t[..n]);
      assert s == s[..n] + [s[n]] && t == t[..n] + [t[n]];
    }
  }

  /** The owners table has one inverse, so the index carries all of it. */
  lemma InverseIsUnique(owners: Owners, m: Index, m': Index)
    requires Inverts(owners, m) && Inverts(owners, m')
    ensures m == m'
  {
    forall a ensures At(m, a) == At(m', a) {
      forall x: nat ensures multiset(At(m, a))[x] == multiset(At(m', a))[x] {
        assert multiset(At(m, a))[x] == Times(owners, a, x) == multiset(At(m', a))[x];
      }
      assert multiset(At(m, a)) == multiset(At(m', a));
      AscendingIsUnique(At(m, a), At(m', a));
    }
    forall a ensures a in m <==> a in m' {
      assert At(m, a) == At(m', a);
    }
    forall a | a in m ensures m[a] == m'[a] {
      assert At(m, a) == At(m', a);
    }
  }
}
