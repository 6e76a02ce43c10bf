/**
 Who destroys which value object in a transaction over any number of caches. Objects are numbered as they are
 allocated; each is owned by a context, was destroyed, or is in the caller's hands. The context operations are
 those of the overlay, instantiated with object numbers and with the keys of all caches.
 */
module ValueOwnership {
  import opened Wrappers
  import opened QueueAccounting
  import opened TransactionContext

  type Object = nat

  type Cache = int

  /** A key of one of the caches registered with the transaction: its contexts, taken together. */
  type Place = (Cache, Key)

  datatype Heap = Heap(ctx: Context<Place, Object>, next: nat, destroyed: seq<Object>, held: seq<Object>)

  const START := Heap(map[], 0, [], [])

  /** What a remote read brings: a fresh object or none, and its metadata. */
  datatype Seen = Seen(found: bool, meta: Meta)

  // -------------------------------------------------------------------------------- the operations

  /** First touch: the remote read allocates the object that the context keeps. */
  function Fetch(h: Heap, k: Place, seen: Seen): Heap {
    if k in h.ctx then h
    else if seen.found then h.(ctx := AddValue(h.ctx, k, Some(h.next), seen.meta, Plain), next := h.next + 1)
    else h.(ctx := AddValue(h.ctx, k, None, seen.meta, NonExisting))
  }

  function GiveCopy(h: Heap): Heap {
    h.(held := h.held + [h.next], next := h.next + 1)
  }

  function Get(h: Heap, k: Place, seen: Seen): Heap {
    var h1 := Fetch(h, k, seen);
    if Visible(EntryAt(h1.ctx, k)).Some? then GiveCopy(h1) else h1
  }

  /** The context stores its own copy of the caller's value. */
  function Store(h: Heap, k: Place, meta: Meta): Heap {
    var copied := h.(next := h.next + 1);
    if k in h.ctx then
      copied.(ctx := SetValue(h.ctx, k, h.next, meta), destroyed := h.destroyed + Freed(h.ctx[k]))
    else copied.(ctx := AddValue(h.ctx, k, Some(h.next), meta, NotRead))
  }

  function Put(h: Heap, k: Place, meta: Meta, forceReturn: bool, seen: Seen): Heap {
    Store(if forceReturn then Get(h, k, seen) else h, k, meta)
  }

  function DropValue(h: Heap, k: Place): Heap {
    h.(ctx := SetDeleted(h.ctx, k), destroyed := h.destroyed + Freed(EntryAt(h.ctx, k)))
  }

  function Remove(h: Heap, k: Place, forceReturn: bool, seen: Seen): Heap {
    DropValue(if forceReturn then Get(h, k, seen) else h, k)
  }

  function ClearContext(h: Heap, order: seq<Place>): Heap {
    h.(ctx := map[], destroyed := h.destroyed + FreedInOrder(h.ctx, order))
  }

  /** How a transaction ends: commit, whether it succeeds or rolls back, clears the adapter itself and then
      again while cleaning up; rollback only cleans up. */
  datatype Ending = Commit | Rollback

  function Finish(h: Heap, order: seq<Place>, ending: Ending): Heap {
    if ending.Commit? then ClearContext(ClearContext(h, order), []) else ClearContext(h, order)
  }

  // -------------------------------------------------------------------------------- who owns what

  function Slot(e: Entry<Object>): seq<Object> {
    if e.value.Some? then [e.value.value] else []
  }

  ghost function Slots(ctx: Context<Place, Object>): Holders<Place> {
    map k | k in ctx :: Slot(ctx[k])
  }

  /** Every object ever allocated is exactly once in the context, destroyed, or in the caller's hands, and the
      context can destroy what it holds. */
  ghost predicate Owned(h: Heap) {
    && Contents(Slots(h.ctx)) + multiset(h.destroyed) + multiset(h.held) == Ids(h.next)
    && forall k :: k in h.ctx ==> Destructible(h.ctx[k])
  }

  lemma SlotsUpdate(ctx: Context<Place, Object>, k: Place, e: Entry<Object>)
    ensures Slots(ctx[k := e]) == Slots(ctx)[k := Slot(e)]
  {
  }

  /** Rewriting one entry moves what it held out and what it now holds in. */
  lemma Rewrite(ctx: Context<Place, Object>, k: Place, e: Entry<Object>)
    ensures Contents(Slots(ctx[k := e])) + multiset(Slot(EntryAt(ctx, k))) == Contents(Slots(ctx)) + multiset(Slot(e))
  {
    SlotsUpdate(ctx, k, e);
    var m := Slots(ctx);
    if k in ctx {
      SetQueue(m, k, Slot(e));
    } else {
      NewQueue(m, k, Slot(e));
    }
  }

  ghost predicate Destructible(e: Entry<Object>) {
    e.value.Some? ==> e.deleter && e.action.Set?
  }

  type Objects = multiset<Object>

  /** The arithmetic of moving objects: `out` leaves the context and `in_` enters it. */
  lemma Rebalance(before: Objects, after: Objects, out: Objects, in_: Objects, gone: Objects, gone': Objects,
                  all: Objects, all': Objects)
    requires after + out == before + in_ && before + gone == all
    requires in_ + gone' + all == out + gone + all'
    ensures after + gone' == all'
  {
    forall x: Object ensures (after + gone')[x] == all'[x] {
      assert (after + out)[x] == (before + in_)[x];
      assert (before + gone)[x] == all[x];
      assert (in_ + gone' + all)[x] == (out + gone + all')[x];
    }
  }

  /** What has left the context. */
  ghost function Gone(destroyed: seq<Object>, held: seq<Object>): Objects {
    multiset(destroyed) + multiset(held)
  }

  /** An operation on one entry is sound when what enters the three places equals what leaves them plus what
      was allocated. */
  lemma Moves(h: Heap, k: Place, e: Entry<Object>, next: nat, destroyed: seq<Object>, held: seq<Object>)
    requires Owned(h) && Destructible(e)
    requires multiset(Slot(e)) + Gone(destroyed, held) + Ids(h.next)
          == multiset(Slot(EntryAt(h.ctx, k))) + Gone(h.destroyed, h.held) + Ids(next)
    ensures Owned(Heap(h.ctx[k := e], next, destroyed, held))
  {
    Rewrite(h.ctx, k, e);
    var before, after := Contents(Slots(h.ctx)), Contents(Slots(h.ctx[k := e]));
    assert before + multiset(h.destroyed) + multiset(h.held) == before + Gone(h.destroyed, h.held);
    Rebalance(before, after, multiset(Slot(EntryAt(h.ctx, k))), multiset(Slot(e)), Gone(h.destroyed, h.held),
              Gone(destroyed, held), Ids(h.next), Ids(next));
    assert after + multiset(destroyed) + multiset(held) == after + Gone(destroyed, held);
  }

  /** The arithmetic of one fresh object added to a place. */
  lemma OneMore(slots: Objects, a: Objects, a': Objects, b: Objects, all: Objects, all': Objects, fresh_: Object)
    requires slots + a + b == all && a' == a + multiset{fresh_} && all' == all + multiset{fresh_}
    ensures slots + a' + b == all' && slots + b + a' == all'
  {
  }

  lemma CopyKeeps(h: Heap)
    requires Owned(h)
    ensures Owned(GiveCopy(h))
  {
    var slots := Contents(Slots(h.ctx));
    var held: seq<Object> := h.held + [h.next];
    assert slots + multiset(h.held) + multiset(h.destroyed) == Ids(h.next);
    assert multiset(held) == multiset(h.held) + multiset{h.next};
    OneMore(slots, multiset(h.held), multiset(held), multiset(h.destroyed), Ids(h.next), Ids(h.next + 1), h.next);
  }

  lemma GetKeeps(h: Heap, k: Place, seen: Seen)
    requires Owned(h)
    ensures Owned(Get(h, k, seen))
  {
    var h1 := Fetch(h, k, seen);
    FetchKeeps(h, k, seen);
    if Visible(EntryAt(h1.ctx, k)).Some? {
      CopyKeeps(h1);
      assert Get(h, k, seen) == GiveCopy(h1);
    } else {
      assert Get(h, k, seen) == h1;
    }
  }

  lemma FreedIsSlot(h: Heap, k: Place)
    requires Owned(h)
    ensures multiset(h.destroyed + Freed(EntryAt(h.ctx, k))) == multiset(h.destroyed) + multiset(Slot(EntryAt(h.ctx, k)))
  {
    assert Freed(EntryAt(h.ctx, k)) == Slot(EntryAt(h.ctx, k));
  }

  /** The arithmetic of storing: `fresh_` comes in, `out` is destroyed. */
  lemma StoreBalance(fresh_: Objects, out: Objects, destroyed: Objects, destroyed': Objects, held: Objects,
                     all: Objects, all': Objects)
    requires destroyed' == destroyed + out && all' == all + fresh_
    ensures fresh_ + (destroyed' + held) + all == out + (destroyed + held) + all'
  {
  }

  /** A fresh object goes into the entry, what the entry held is destroyed. */
  lemma StoreEntry(h: Heap, k: Place, e: Entry<Object>)
    requires Owned(h) && e.value == Some(h.next) && Destructible(e)
    ensures Owned(Heap(h.ctx[k := e], h.next + 1, h.destroyed + Freed(EntryAt(h.ctx, k)), h.held))
  {
    var destroyed: seq<Object> := h.destroyed + Freed(EntryAt(h.ctx, k));
    FreedIsSlot(h, k);
    assert multiset(Slot(e)) == multiset{h.next};
    StoreBalance(multiset(Slot(e)), multiset(Slot(EntryAt(h.ctx, k))), multiset(h.destroyed), multiset(destroyed),
                 multiset(h.held), Ids(h.next), Ids(h.next + 1));
    Moves(h, k, e, h.next + 1, destroyed, h.held);
  }

  lemma FetchKeeps(h: Heap, k: Place, seen: Seen)
    requires Owned(h)
    ensures Owned(Fetch(h, k, seen)) && k in Fetch(h, k, seen).ctx
  {
    if k !in h.ctx {
      var h' := Fetch(h, k, seen);
      if seen.found {
        StoreEntry(h, k, h'.ctx[k]);
        assert h.destroyed + Freed(EntryAt(h.ctx, k)) == h.destroyed;
        assert h' == Heap(h.ctx[k := h'.ctx[k]], h.next + 1, h.destroyed, h.held);
      } else {
        assert Slot(h'.ctx[k]) == Slot(EntryAt(h.ctx, k));
        Moves(h, k, h'.ctx[k], h.next, h.destroyed, h.held);
      }
    }
  }

  lemma StoreKeeps(h: Heap, k: Place, meta: Meta)
    requires Owned(h)
    ensures Owned(Store(h, k, meta))
  {
    if k in h.ctx {
      var e := SetValue(h.ctx, k, h.next, meta)[k];
      StoreEntry(h, k, e);
      assert Store(h, k, meta) == Heap(h.ctx[k := e], h.next + 1, h.destroyed + Freed(h.ctx[k]), h.held);
    } else {
      var e := Entry(Set, Some(h.next), meta, meta, false, true, NotRead);
      StoreEntry(h, k, e);
      assert Store(h, k, meta) == Heap(h.ctx[k := e], h.next + 1, h.destroyed, h.held);
      assert h.destroyed + Freed(EntryAt(h.ctx, k)) == h.destroyed;
    }
  }

  lemma RemoveKeeps(h: Heap, k: Place)
    requires Owned(h)
    ensures Owned(DropValue(h, k))
  {
    var e := SetDeleted(h.ctx, k)[k];
    var destroyed := h.destroyed + Freed(EntryAt(h.ctx, k));
    FreedIsSlot(h, k);
    Moves(h, k, e, h.next, destroyed, h.held);
  }

  /** A walk without its last step. */
  lemma WalkLess(ctx: Context<Place, Object>, rest: seq<Place>, k: Place)
    requires WalksOnce(ctx, rest + [k])
    ensures k in ctx && WalksOnce(ctx - {k}, rest)
    ensures forall i :: 0 <= i < |rest| ==> EntryAt(ctx, rest[i]) == EntryAt(ctx - {k}, rest[i])
  {
    var order := rest + [k];
    assert order[|rest|] == k;
    forall i | 0 <= i < |rest| ensures rest[i] in ctx && rest[i] != k {
      assert order[i] == rest[i];
    }
    forall i, j | 0 <= i < j < |rest| ensures rest[i] != rest[j] {
      assert order[i] != order[j];
    }
    forall x | x in ctx && x != k ensures x in rest {
      assert x in order;
    }
  }

  lemma {:induction false} FreedIsAll(ctx: Context<Place, Object>, order: seq<Place>)
    requires WalksOnce(ctx, order)
    requires forall k :: k in ctx ==> Destructible(ctx[k])
    ensures multiset(FreedInOrder(ctx, order)) == Contents(Slots(ctx))
    decreases order
  {
    if order == [] {
      assert Slots(ctx) == map[];
    } else {
      var rest, k := order[..|order| - 1], order[|order| - 1];
      assert order == rest + [k];
      WalkLess(ctx, rest, k);
      FreedIsAll(ctx - {k}, rest);
      FreedFrame(ctx, ctx - {k}, rest);
      SlotsSplit(ctx, k);
      assert FreedInOrder(ctx, order) == FreedInOrder(ctx, rest) + Freed(ctx[k]);
    }
  }

  lemma SlotsSplit(ctx: Context<Place, Object>, k: Place)
    requires k in ctx && Destructible(ctx[k])
    ensures Contents(Slots(ctx)) == multiset(Freed(ctx[k])) + Contents(Slots(ctx - {k}))
  {
    var m := Slots(ctx);
    assert Slots(ctx - {k}) == m - {k};
    Split(m, k);
  }

  lemma {:induction false} FreedFrame(ctx: Context<Place, Object>, less: Context<Place, Object>, order: seq<Place>)
    requires forall i :: 0 <= i < |order| ==> EntryAt(ctx, order[i]) == EntryAt(less, order[i])
    ensures FreedInOrder(ctx, order) == FreedInOrder(less, order)
  {
    if order != [] {
      FreedFrame(ctx, less, order[..|order| - 1]);
    }
  }

  // ------------------------------------------------------------------------------------------- runs

  /** The calls of a transaction, and the caller making objects of its own. */
  datatype Op =
    | MakeOp
    | GetOp(key: Place, seen: Seen)
    | PutOp(key: Place, meta: Meta, forceReturn: bool, seen: Seen)
    | RemoveOp(key: Place, forceReturn: bool, seen: Seen)

  function Next(h: Heap, op: Op): Heap {
    match op
    case MakeOp => GiveCopy(h)
    case GetOp(k, seen) => Get(h, k, seen)
    case PutOp(k, meta, force, seen) => Put(h, k, meta, force, seen)
    case RemoveOp(k, force, seen) => Remove(h, k, force, seen)
  }

  function Run(h: Heap, ops: seq<Op>): Heap
    decreases ops
  {
    if ops == [] then h else Run(Next(h, ops[0]), ops[1..])
  }

  lemma NextKeeps(h: Heap, op: Op)
    requires Owned(h)
    ensures Owned(Next(h, op))
  {
    match op
    case MakeOp => CopyKeeps(h);
    case GetOp(k, seen) => GetKeeps(h, k, seen);
    case PutOp(k, meta, force, seen) =>
      GetKeeps(h, k, seen);
      StoreKeeps(if force then Get(h, k, seen) else h, k, meta);
    case RemoveOp(k, force, seen) =>
      GetKeeps(h, k, seen);
      RemoveKeeps(if force then Get(h, k, seen) else h, k);
  }

  lemma {:induction false} RunKeeps(h: Heap, ops: seq<Op>)
    requires Owned(h)
    ensures Owned(Run(h, ops))
    decreases ops
  {
    if ops != [] {
      NextKeeps(h, ops[0]);
      RunKeeps(Next(h, ops[0]), ops[1..]);
    }
  }

  /** Both endings leave the same heap. */
  lemma FinishIs(h: Heap, order: seq<Place>, ending: Ending)
    ensures Finish(h, order, ending) == h.(ctx := map[], destroyed := h.destroyed + FreedInOrder(h.ctx, order))
  {
    var freed := h.destroyed + FreedInOrder(h.ctx, order);
    assert freed + [] == freed;
  }

  /** What is destroyed or held by the caller in the end is everything there was. */
  lemma AllAccountedFor(h: Heap, order: seq<Place>, x: Object)
    requires Owned(h) && WalksOnce(h.ctx, order)
    ensures multiset(h.destroyed + FreedInOrder(h.ctx, order))[x] + multiset(h.held)[x] == if x < h.next then 1 else 0
  {
    FreedIsAll(h.ctx, order);
    IdsOnce(h.next, x);
    assert (Contents(Slots(h.ctx)) + multiset(h.destroyed) + multiset(h.held))[x] == Ids(h.next)[x];
  }

  /** Value ownership: after any gets, puts and removes on any of its caches, and a commit or a rollback, every
      object allocated on the way was destroyed exactly once or is held by the caller exactly once, and never
      both. */
  lemma EveryValueDestroyedOnce(ops: seq<Op>, order: seq<Place>, ending: Ending, x: Object)
    requires WalksOnce(Run(START, ops).ctx, order)
    ensures var h := Finish(Run(START, ops), order, ending);
      && h.ctx == map[]
      && multiset(h.destroyed)[x] + multiset(h.held)[x] == (if x < h.next then 1 else 0)
  {
    assert Slots(START.ctx) == map[];
    RunKeeps(START, ops);
    AllAccountedFor(Run(START, ops), order, x);
    FinishIs(Run(START, ops), order, ending);
  }

  // --------------------------------------------------------------------------- where it stops holding

  /** replace stores the caller's object itself. The copy it read is returned or destroyed. */
  function Replace(h: Heap, k: Place, callers: Object, meta: Meta, forceReturn: bool, seen: Seen): Heap {
    var h1 := Fetch(h, k, seen);
    if Visible(EntryAt(h1.ctx, k)).None? then h1
    else
      var h2 := if forceReturn then GiveCopy(h1) else h1.(destroyed := h1.destroyed + [h1.next], next := h1.next + 1);
      h2.(ctx := SetValue(h2.ctx, k, callers, meta), destroyed := h2.destroyed + Freed(EntryAt(h2.ctx, k)))
  }

  /** Replacing with an object that the caller owns keeps ownership apart exactly when nothing is replaced;
      otherwise the context will destroy an object that the caller still holds. */
  lemma ReplaceOwnershipIff(h: Heap, k: Place, callers: Object, meta: Meta, forceReturn: bool, seen: Seen)
    requires Owned(h) && callers in h.held
    ensures Owned(Replace(h, k, callers, meta, forceReturn, seen))
       <==> Visible(EntryAt(Fetch(h, k, seen).ctx, k)).None?
  {
    FetchKeeps(h, k, seen);
    var h' := Replace(h, k, callers, meta, forceReturn, seen);
    if Visible(EntryAt(Fetch(h, k, seen).ctx, k)).Some? {
      Rewrite(Fetch(h, k, seen).ctx, k, h'.ctx[k]);
      IdsOnce(h'.next, callers);
      assert multiset(h'.held)[callers] >= 1;
      assert Slots(h'.ctx)[k] == [callers];
      Split(Slots(h'.ctx), k);
      assert (Contents(Slots(h'.ctx)) + multiset(h'.destroyed) + multiset(h'.held))[callers] >= 2;
    }
  }

  /** What a replace does to each object: the copy it read goes to the caller or is destroyed, the value it replaces
      is destroyed, and the caller's object takes its place. */
  lemma ReplaceExactly(h: Heap, k: Place, callers: Object, meta: Meta, forceReturn: bool, seen: Seen)
    requires Owned(h) && Visible(EntryAt(Fetch(h, k, seen).ctx, k)).Some?
    ensures var h1, r := Fetch(h, k, seen), Replace(h, k, callers, meta, forceReturn, seen);
      && r.next == h1.next + 1 && k in r.ctx && r.ctx[k].value == Some(callers)
      && r.held == h1.held + (if forceReturn then [h1.next] else [])
      && r.destroyed == h1.destroyed + (if forceReturn then [] else [h1.next]) + [EntryAt(h1.ctx, k).value.value]
  {
    FetchKeeps(h, k, seen);
    assert Destructible(Fetch(h, k, seen).ctx[k]);
  }

  /** putIfAbsent reads a copy and returns null in any case. */
  function PutIfAbsent(h: Heap, k: Place, meta: Meta, seen: Seen): Heap {
    var h1 := Fetch(h, k, seen);
    if Visible(EntryAt(h1.ctx, k)).Some? then h1.(next := h1.next + 1) else Store(h1, k, meta)
  }

  /** It accounts for every object exactly when the key has no value; otherwise the copy is lost. */
  lemma PutIfAbsentOwnershipIff(h: Heap, k: Place, meta: Meta, seen: Seen)
    requires Owned(h)
    ensures Owned(PutIfAbsent(h, k, meta, seen)) <==> Visible(EntryAt(Fetch(h, k, seen).ctx, k)).None?
  {
    var h1 := Fetch(h, k, seen);
    FetchKeeps(h, k, seen);
    if Visible(EntryAt(h1.ctx, k)).None? {
      StoreKeeps(h1, k, meta);
      assert PutIfAbsent(h, k, meta, seen) == Store(h1, k, meta);
    } else {
      LostIsUnowned(h1);
      assert PutIfAbsent(h, k, meta, seen) == h1.(next := h1.next + 1);
    }
  }

  /** The copy that a versioned call reads, destroyed again. */
  function ReadAndDestroy(h: Heap): Heap {
    h.(destroyed := h.destroyed + [h.next], next := h.next + 1)
  }

  lemma ReadAndDestroyKeeps(h: Heap)
    requires Owned(h)
    ensures Owned(ReadAndDestroy(h))
  {
    var all, all' := Ids(h.next), Ids(h.next + 1);
    assert multiset(h.destroyed + [h.next]) == multiset(h.destroyed) + multiset{h.next};
    assert all' == all + multiset{h.next};
    var slots := Contents(Slots(h.ctx));
    assert slots + (multiset(h.destroyed) + multiset{h.next}) + multiset(h.held)
        == slots + multiset(h.destroyed) + multiset(h.held) + multiset{h.next};
  }

  /** The entry that a versioned call sees, if it shows a value. */
  predicate Accepts(h: Heap, k: Place, version: int) {
    EntryAt(h.ctx, k).meta.version == version
  }

  /** A refused versioned call returns without destroying the copy it read. */
  function RemoveVersion(h: Heap, k: Place, version: int, seen: Seen): Heap {
    var h1 := Fetch(h, k, seen);
    if Visible(EntryAt(h1.ctx, k)).None? then h1
    else if Accepts(h1, k, version) then DropValue(ReadAndDestroy(h1), k)
    else h1.(next := h1.next + 1)
  }

  function ReplaceVersion(h: Heap, k: Place, callers: Object, version: int, meta: Meta, seen: Seen): Heap {
    var h1 := Fetch(h, k, seen);
    if Visible(EntryAt(h1.ctx, k)).None? then h1
    else if Accepts(h1, k, version) then Replace(h, k, callers, meta, false, seen)
    else h1.(next := h1.next + 1)
  }

  /** An object that was allocated and is nowhere breaks ownership. */
  lemma LostIsUnowned(h: Heap)
    requires Owned(h)
    ensures !Owned(h.(next := h.next + 1))
  {
    IdsOnce(h.next, h.next);
    IdsOnce(h.next + 1, h.next);
  }

  /** removeWithVersion accounts for every object exactly when the key has no value or the version matches. */
  lemma RemoveVersionOwnershipIff(h: Heap, k: Place, version: int, seen: Seen)
    requires Owned(h)
    ensures var h1 := Fetch(h, k, seen);
      Owned(RemoveVersion(h, k, version, seen))
      <==> Visible(EntryAt(h1.ctx, k)).None? || Accepts(h1, k, version)
  {
    var h1 := Fetch(h, k, seen);
    var r := RemoveVersion(h, k, version, seen);
    FetchKeeps(h, k, seen);
    if Visible(EntryAt(h1.ctx, k)).None? {
      assert r == h1;
    } else if Accepts(h1, k, version) {
      ReadAndDestroyKeeps(h1);
      RemoveKeeps(ReadAndDestroy(h1), k);
      assert r == DropValue(ReadAndDestroy(h1), k);
    } else {
      LostIsUnowned(h1);
      assert r == h1.(next := h1.next + 1);
    }
  }

  /** replaceWithVersion does so exactly when the key has no value: refused it loses a copy, accepted it shares
      the caller's object. */
  lemma ReplaceVersionOwnershipIff(h: Heap, k: Place, callers: Object, version: int, meta: Meta, seen: Seen)
    requires Owned(h) && callers in h.held
    ensures Owned(ReplaceVersion(h, k, callers, version, meta, seen))
       <==> Visible(EntryAt(Fetch(h, k, seen).ctx, k)).None?
  {
    var h1 := Fetch(h, k, seen);
    var r := ReplaceVersion(h, k, callers, version, meta, seen);
    FetchKeeps(h, k, seen);
    if Visible(EntryAt(h1.ctx, k)).None? {
      assert r == h1;
    } else if Accepts(h1, k, version) {
      ReplaceOwnershipIff(h, k, callers, meta, false, seen);
      assert r == Replace(h, k, callers, meta, false, seen);
    } else {
      LostIsUnowned(h1);
      assert r == h1.(next := h1.next + 1);
    }
  }

  /** A run in which it matters: get, then replace with the copy received. The caller's object ends up destroyed
      by the transaction. */
  lemma ReplaceDestroysCallers(k: Place, meta: Meta, ending: Ending)
    ensures var h1 := Get(START, k, Seen(true, meta));
      var h2 := Finish(Replace(h1, k, 1, meta, true, Seen(true, meta)), [k], ending);
      && h1.held == [1]
      && 1 in h2.held && 1 in h2.destroyed
  {
    var h1 := Get(START, k, Seen(true, meta));
    assert h1.held == [1] && Visible(h1.ctx[k]) == Some(0);
    var h2 := Replace(h1, k, 1, meta, true, Seen(true, meta));
    assert h2.ctx == map[k := h2.ctx[k]] && h2.ctx[k].value == Some(1) && h2.ctx[k].deleter;
    assert FreedInOrder(h2.ctx, []) == [] && [k][..0] == [];
    assert FreedInOrder(h2.ctx, [k]) == [1];
    FinishIs(h2, [k], ending);
    assert h2.held[0] == 1;
  }

  /** Get, then putIfAbsent: the copy it reads is neither destroyed nor held by anyone. */
  lemma PutIfAbsentLosesCopy(k: Place, meta: Meta, ending: Ending)
    ensures var h := Finish(PutIfAbsent(Get(START, k, Seen(true, meta)), k, meta, Seen(true, meta)), [k], ending);
      h.next == 3 && 2 !in h.held && 2 !in h.destroyed
  {
    var h1 := Get(START, k, Seen(true, meta));
    assert h1.held == [1] && h1.next == 2 && h1.destroyed == [] && Visible(h1.ctx[k]) == Some(0);
    var h2 := PutIfAbsent(h1, k, meta, Seen(true, meta));
    assert FreedInOrder(h2.ctx, []) == [] && [k][..0] == [];
    assert FreedInOrder(h2.ctx, [k]) == [0];
    FinishIs(h2, [k], ending);
  }
}
