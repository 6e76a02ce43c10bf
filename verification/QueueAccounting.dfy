/** Maps from keys to queues of numbered objects: what they hold and how much. */
module QueueAccounting {
  /** An object is named by the position of its creation. */
  type Item = nat

  type Holders<K> = map<K, seq<Item>>

  ghost function Pick<K>(keys: set<K>): (k: K)
    requires exists k :: k in keys
    ensures k in keys
  {
    var k :| k in keys;
    k
  }

  /** Every object held by some queue, with multiplicity. */
  ghost function Contents<K>(m: Holders<K>): multiset<Item>
    decreases m.Keys
  {
    if exists k :: k in m.Keys then
      var k := Pick(m.Keys);
      multiset(m[k]) + Contents(m - {k})
    else multiset{}
  }

  /** The sum of the queue sizes. */
  ghost function Sizes<K>(m: Holders<K>): nat
    decreases m.Keys
  {
    if exists k :: k in m.Keys then
      var k := Pick(m.Keys);
      |m[k]| + Sizes(m - {k})
    else 0
  }

  /** All objects created so far, once each. */
  ghost function Ids(n: nat): multiset<Item> {
    if n == 0 then multiset{} else Ids(n - 1) + multiset{n - 1}
  }

  /** list::remove drops every occurrence. */
  function Without(q: seq<Item>, t: Item): seq<Item> {
    if q == [] then []
    else (if q[0] == t then [] else [q[0]]) + Without(q[1..], t)
  }

  lemma {:induction false} Split<K>(m: Holders<K>, k: K)
    requires k in m
    ensures Contents(m) == multiset(m[k]) + Contents(m - {k})
    ensures Sizes(m) == |m[k]| + Sizes(m - {k})
    decreases m.Keys
  {
    var first := Pick(m.Keys);
    if first != k {
      Split(m - {first}, k);
      Split(m - {k}, first);
      assert m - {first} - {k} == m - {k} - {first};
    }
  }

  lemma SetQueue<K>(m: Holders<K>, k: K, q: seq<Item>)
    requires k in m
    ensures multiset(m[k]) <= Contents(m)
    ensures Contents(m[k := q]) == Contents(m) - multiset(m[k]) + multiset(q)
    ensures Sizes(m[k := q]) == Sizes(m) - |m[k]| + |q|
  {
    Split(m, k);
    Split(m[k := q], k);
    assert m[k := q] - {k} == m - {k};
  }

  lemma PushQueue<K>(m: Holders<K>, k: K, t: Item)
    requires k in m
    ensures Contents(m[k := m[k] + [t]]) == Contents(m) + multiset{t}
    ensures Sizes(m[k := m[k] + [t]]) == Sizes(m) + 1
  {
    SetQueue(m, k, m[k] + [t]);
  }

  lemma PopQueue<K>(m: Holders<K>, k: K)
    requires k in m && m[k] != []
    ensures Contents(m) == Contents(m[k := m[k][1..]]) + multiset{m[k][0]}
    ensures Sizes(m) == Sizes(m[k := m[k][1..]]) + 1
  {
    SetQueue(m, k, m[k][1..]);
    assert m[k] == [m[k][0]] + m[k][1..];
  }

  /** Taking an object out of the one queue that holds it, once. */
  lemma TakeFromQueue<K>(m: Holders<K>, k: K, t: Item)
    requires k in m && t in m[k] && Contents(m)[t] <= 1
    ensures Contents(m) == Contents(m[k := Without(m[k], t)]) + multiset{t}
    ensures Sizes(m) == Sizes(m[k := Without(m[k], t)]) + 1
    ensures |Without(m[k], t)| == |m[k]| - 1
    ensures forall x :: x in Without(m[k], t) ==> x in m[k]
  {
    SetQueue(m, k, Without(m[k], t));
    assert 1 <= multiset(m[k])[t] <= Contents(m)[t];
    WithoutOnce(m[k], t);
  }

  lemma NewQueue<K>(m: Holders<K>, k: K, q: seq<Item>)
    requires k !in m
    ensures Contents(m[k := q]) == Contents(m) + multiset(q)
    ensures Sizes(m[k := q]) == Sizes(m) + |q|
  {
    Split(m[k := q], k);
    assert m[k := q] - {k} == m;
  }

  lemma {:induction false} IdsOnce(n: nat, t: Item)
    ensures Ids(n)[t] == if t < n then 1 else 0
  {
    if n > 0 {
      IdsOnce(n - 1, t);
    }
  }

  lemma {:induction false} SizesIsCardinality<K>(m: Holders<K>)
    ensures |Contents(m)| == Sizes(m)
    decreases m.Keys
  {
    if exists k :: k in m.Keys {
      SizesIsCardinality(m - {Pick(m.Keys)});
    }
  }

  lemma {:induction false} IdsSize(n: nat)
    ensures |Ids(n)| == n
  {
    if n > 0 {
      IdsSize(n - 1);
    }
  }

  lemma {:induction false} WithoutAbsent(q: seq<Item>, t: Item)
    requires t !in q
    ensures Without(q, t) == q
  {
    if q != [] {
      WithoutAbsent(q[1..], t);
    }
  }

  lemma {:induction false} WithoutOnce(q: seq<Item>, t: Item)
    requires multiset(q)[t] == 1
    ensures multiset(Without(q, t)) == multiset(q) - multiset{t}
    ensures |Without(q, t)| == |q| - 1
    ensures forall x :: x in Without(q, t) ==> x in q
  {
    var rest := q[1..];
    assert q == [q[0]] + rest;
    assert multiset(q) == multiset([q[0]]) + multiset(rest);
    if q[0] == t {
      assert t !in multiset(rest);
      WithoutAbsent(rest, t);
    } else {
      WithoutOnce(rest, t);
      assert multiset(Without(q, t)) == multiset([q[0]]) + multiset(Without(rest, t));
    }
  }
}
