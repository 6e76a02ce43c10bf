/**
 The two views of a transaction agree: the ownership model moves objects exactly as the overlay moves values, and
 the caller gets a fresh object exactly when the overlay answers a value.
 */
module OwnershipOverlay {
  import opened Wrappers
  import opened TransactionContext
  import Overlay = TransactionOverlay
  import Own = ValueOwnership

  type Ctx = Context<Key, Overlay.Value>

  /** The same entry, with an object in place of a value. */
  ghost predicate Alike(e: Entry<Own.Object>, v: Entry<Overlay.Value>) {
    && e.action == v.action && e.value.Some? == v.value.Some? && e.origMeta == v.origMeta && e.meta == v.meta
    && e.changed == v.changed && e.deleter == v.deleter && e.control == v.control
  }

  /** The heap's entry at `place` is the overlay's entry of `k`. */
  ghost predicate Matches(h: Own.Heap, place: Own.Place, ctx: Ctx, k: Key) {
    (place in h.ctx <==> k in ctx) && (k in ctx ==> Alike(h.ctx[place], ctx[k]))
  }

  /** From `h` to `h'` the caller was handed one new object, or none. */
  ghost predicate Handed(h: Own.Heap, h': Own.Heap, some: bool) {
    if some then |h'.held| == |h.held| + 1 && h'.held[..|h.held|] == h.held && h.next <= h'.held[|h.held|] < h'.next
    else h'.held == h.held
  }

  ghost function SeenAs(remote: Overlay.Remote): Own.Seen {
    Own.Seen(remote.value.Some?, remote.meta)
  }

  function Expiry(life: int, idle: int): Meta {
    NO_META.(lifespan := life, maxIdle := idle)
  }

  /** First touch: the remote read, on both sides. */
  lemma FetchMatches(h: Own.Heap, place: Own.Place, ctx: Ctx, k: Key, remote: Overlay.Remote)
    requires Matches(h, place, ctx, k)
    ensures var h', r := Own.Fetch(h, place, SeenAs(remote)), Overlay.TxGet(ctx, k, remote);
      && Matches(h', place, r.0, k) && k in r.0 && h'.held == h.held && h.next <= h'.next
      && (Visible(EntryAt(h'.ctx, place)).Some? <==> r.1.Some?)
  {
  }

  lemma GetMatches(h: Own.Heap, place: Own.Place, ctx: Ctx, k: Key, remote: Overlay.Remote)
    requires Matches(h, place, ctx, k)
    ensures var h', r := Own.Get(h, place, SeenAs(remote)), Overlay.TxGet(ctx, k, remote);
      Matches(h', place, r.0, k) && Handed(h, h', r.1.Some?) && h.next <= h'.next
  {
    FetchMatches(h, place, ctx, k, remote);
  }

  lemma StoreMatches(h: Own.Heap, place: Own.Place, ctx: Ctx, k: Key, v: Overlay.Value, life: int, idle: int,
                     remote: Overlay.Remote)
    requires Matches(h, place, ctx, k)
    ensures var h' := Own.Store(h, place, Expiry(life, idle));
      && Matches(h', place, Overlay.TxPut(ctx, k, v, life, idle, false, remote).0, k)
      && h'.held == h.held && h.next <= h'.next
  {
  }

  lemma PutMatches(h: Own.Heap, place: Own.Place, ctx: Ctx, k: Key, v: Overlay.Value, life: int, idle: int,
                   force: bool, remote: Overlay.Remote)
    requires Matches(h, place, ctx, k)
    ensures var h' := Own.Put(h, place, Expiry(life, idle), force, SeenAs(remote));
      var r := Overlay.TxPut(ctx, k, v, life, idle, force, remote);
      Matches(h', place, r.0, k) && Handed(h, h', r.1.Some?)
  {
    if force {
      var h1, ctx1 := Own.Get(h, place, SeenAs(remote)), Overlay.TxGet(ctx, k, remote).0;
      GetMatches(h, place, ctx, k, remote);
      StoreMatches(h1, place, ctx1, k, v, life, idle, remote);
      assert Overlay.TxPut(ctx, k, v, life, idle, true, remote).0
          == Overlay.TxPut(ctx1, k, v, life, idle, false, remote).0;
    } else {
      StoreMatches(h, place, ctx, k, v, life, idle, remote);
    }
  }

  lemma RemoveMatches(h: Own.Heap, place: Own.Place, ctx: Ctx, c: Overlay.Call)
    requires Matches(h, place, ctx, c.op.key) && c.op.RemoveKey?
    ensures var h', r := Own.Remove(h, place, c.op.forceReturn, SeenAs(c.remote)), Overlay.Perform(ctx, c);
      Matches(h', place, r.0, c.op.key) && Handed(h, h', r.1.value.Some?)
  {
    if c.op.forceReturn {
      GetMatches(h, place, ctx, c.op.key, c.remote);
    }
  }

  lemma PutIfAbsentMatches(h: Own.Heap, place: Own.Place, ctx: Ctx, c: Overlay.Call)
    requires Matches(h, place, ctx, c.op.key) && c.op.PutIfAbsent?
    ensures var h' := Own.PutIfAbsent(h, place, Expiry(c.op.life, c.op.idle), SeenAs(c.remote));
      Matches(h', place, Overlay.Perform(ctx, c).0, c.op.key) && h'.held == h.held
  {
    var k, seen := c.op.key, SeenAs(c.remote);
    var h1, ctx1 := Own.Fetch(h, place, seen), Overlay.TxGet(ctx, k, c.remote).0;
    FetchMatches(h, place, ctx, k, c.remote);
    StoreMatches(h1, place, ctx1, k, c.op.val, c.op.life, c.op.idle, c.remote);
  }

  lemma ReplaceMatches(h: Own.Heap, place: Own.Place, ctx: Ctx, c: Overlay.Call, callers: Own.Object)
    requires Matches(h, place, ctx, c.op.key) && c.op.Replace?
    ensures var h' := Own.Replace(h, place, callers, Expiry(c.op.life, c.op.idle), c.op.forceReturn, SeenAs(c.remote));
      var r := Overlay.Perform(ctx, c);
      Matches(h', place, r.0, c.op.key) && Handed(h, h', r.1.value.Some?)
  {
    FetchMatches(h, place, ctx, c.op.key, c.remote);
  }

  lemma VersionedMatches(h: Own.Heap, place: Own.Place, ctx: Ctx, c: Overlay.Call, callers: Own.Object)
    requires Matches(h, place, ctx, c.op.key) && (c.op.ReplaceVersion? || c.op.RemoveVersion?)
    ensures var h' := Played(h, place, c, callers);
      Matches(h', place, Overlay.Perform(ctx, c).0, c.op.key) && h'.held == h.held
  {
    FetchMatches(h, place, ctx, c.op.key, c.remote);
  }

  /** The heap after a call of the overlay; `callers` is the object that a replace is given. */
  ghost function Played(h: Own.Heap, place: Own.Place, c: Overlay.Call, callers: Own.Object): Own.Heap {
    var seen := SeenAs(c.remote);
    match c.op
    case Get(_) => Own.Get(h, place, seen)
    case Put(_, _, life, idle, force) => Own.Put(h, place, Expiry(life, idle), force, seen)
    case PutIfAbsent(_, _, life, idle) => Own.PutIfAbsent(h, place, Expiry(life, idle), seen)
    case Replace(_, _, life, idle, force) => Own.Replace(h, place, callers, Expiry(life, idle), force, seen)
    case RemoveKey(_, force) => Own.Remove(h, place, force, seen)
    case ReplaceVersion(_, _, version, life, idle) =>
      Own.ReplaceVersion(h, place, callers, version, Expiry(life, idle), seen)
    case RemoveVersion(_, version) => Own.RemoveVersion(h, place, version, seen)
  }

  /** Every call does to the objects what it does to the values, and the caller is handed a fresh copy exactly when
      the call answers a value. */
  lemma CallMatches(h: Own.Heap, place: Own.Place, ctx: Ctx, c: Overlay.Call, callers: Own.Object)
    requires Matches(h, place, ctx, c.op.key)
    ensures var h', r := Played(h, place, c, callers), Overlay.Perform(ctx, c);
      Matches(h', place, r.0, c.op.key) && Handed(h, h', r.1.Found? && r.1.value.Some?)
  {
    var k := c.op.key;
    match c.op
    case Get(_) => GetMatches(h, place, ctx, k, c.remote);
    case Put(_, v, life, idle, force) => PutMatches(h, place, ctx, k, v, life, idle, force, c.remote);
    case PutIfAbsent(_, _, _, _) => PutIfAbsentMatches(h, place, ctx, c);
    case Replace(_, _, _, _, _) => ReplaceMatches(h, place, ctx, c, callers);
    case RemoveKey(_, _) => RemoveMatches(h, place, ctx, c);
    case ReplaceVersion(_, _, _, _, _) => VersionedMatches(h, place, ctx, c, callers);
    case RemoveVersion(_, _) => VersionedMatches(h, place, ctx, c, callers);
  }

  /** Nothing changed at `other`. */
  ghost predicate SameAt(h: Own.Heap, h': Own.Heap, other: Own.Place) {
    (other in h'.ctx <==> other in h.ctx) && (other in h.ctx ==> h'.ctx[other] == h.ctx[other])
  }

  lemma ReadsStay(h: Own.Heap, place: Own.Place, seen: Own.Seen, other: Own.Place)
    requires other != place
    ensures SameAt(h, Own.Fetch(h, place, seen), other) && SameAt(h, Own.Get(h, place, seen), other)
  {
  }

  lemma WritesStay(h: Own.Heap, place: Own.Place, meta: Meta, other: Own.Place)
    requires other != place
    ensures SameAt(h, Own.Store(h, place, meta), other) && SameAt(h, Own.DropValue(h, place), other)
  {
  }

  lemma ReplaceStays(h: Own.Heap, place: Own.Place, callers: Own.Object, meta: Meta, force: bool, seen: Own.Seen,
                     other: Own.Place)
    requires other != place
    ensures SameAt(h, Own.Replace(h, place, callers, meta, force, seen), other)
  {
    ReadsStay(h, place, seen, other);
  }

  /** No call touches the entries of other places. */
  lemma OtherPlacesStay(h: Own.Heap, place: Own.Place, c: Overlay.Call, callers: Own.Object, other: Own.Place)
    requires other != place
    ensures SameAt(h, Played(h, place, c, callers), other)
  {
    var seen := SeenAs(c.remote);
    ReadsStay(h, place, seen, other);
    match c.op
    case Get(_) =>
    case Put(_, _, life, idle, force) =>
      WritesStay(if force then Own.Get(h, place, seen) else h, place, Expiry(life, idle), other);
    case PutIfAbsent(_, _, life, idle) => WritesStay(Own.Fetch(h, place, seen), place, Expiry(life, idle), other);
    case Replace(_, _, life, idle, force) => ReplaceStays(h, place, callers, Expiry(life, idle), force, seen, other);
    case RemoveKey(_, force) => WritesStay(if force then Own.Get(h, place, seen) else h, place, NO_META, other);
    case ReplaceVersion(_, _, _, life, idle) =>
      ReplaceStays(h, place, callers, Expiry(life, idle), false, seen, other);
    case RemoveVersion(_, _) => WritesStay(Own.ReadAndDestroy(Own.Fetch(h, place, seen)), place, NO_META, other);
  }
}
