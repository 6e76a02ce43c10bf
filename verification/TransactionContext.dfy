/**
 The per-cache transaction context: a map from keys to entries that remember the first touch (original
 metadata and control byte) and the transaction's own value. It is generic in its keys and values, so that
 the same operations serve the value-level overlay and the ownership argument over all caches.
 */
module TransactionContext {
  import opened Wrappers

  type Key = string

  datatype Meta = Meta(version: int, created: int, lifespan: int, lastUsed: int, maxIdle: int)

  const NO_META := Meta(0, -1, -1, -1, -1)

  datatype Action = Set | Deleted

  /** The control byte; the context never sets the remove bit. */
  datatype Control = Plain | NotRead | NonExisting

  datatype Entry<V> = Entry(
    action: Action,
    value: Option<V>,
    origMeta: Meta,
    meta: Meta,
    changed: bool,
    deleter: bool,
    control: Control)

  type Context<K, V> = map<K, Entry<V>>

  function DefaultEntry<V>(): Entry<V> {
    Entry(Set, None, NO_META, NO_META, false, false, Plain)
  }

  /** Reading through the map's operator inserts a default entry. */
  function Touched<K(==), V>(ctx: Context<K, V>, k: K): Context<K, V> {
    if k in ctx then ctx else ctx[k := DefaultEntry()]
  }

  function EntryAt<K(==), V>(ctx: Context<K, V>, k: K): Entry<V> {
    if k in ctx then ctx[k] else DefaultEntry()
  }

  /** What a reader sees of an entry. */
  function Visible<V>(e: Entry<V>): Option<V> {
    if e.action.Deleted? then None else e.value
  }

  /** The value that overwriting or dropping the entry destroys. */
  function Freed<V>(e: Entry<V>): seq<V> {
    if e.value.Some? && e.deleter then [e.value.value] else []
  }

  function SetValue<K(==), V>(ctx: Context<K, V>, k: K, v: V, meta: Meta): Context<K, V> {
    var e := EntryAt(ctx, k);
    ctx[k := e.(action := Set, value := Some(v), meta := meta.(version := e.origMeta.version + 1),
                changed := true, deleter := true)]
  }

  function AddValue<K(==), V>(ctx: Context<K, V>, k: K, v: Option<V>, meta: Meta, control: Control): Context<K, V> {
    ctx[k := Entry(Set, v, meta, meta, false, true, control)]
  }

  function SetDeleted<K(==), V>(ctx: Context<K, V>, k: K): Context<K, V> {
    var e := EntryAt(ctx, k);
    ctx[k := e.(action := Deleted, value := None, meta := NO_META.(version := e.origMeta.version + 1),
                changed := true, deleter := false)]
  }

  /** The values destroyed when the context is cleared, in the order its map is walked. */
  function FreedInOrder<K(==), V>(ctx: Context<K, V>, order: seq<K>): seq<V> {
    if order == [] then []
    else FreedInOrder(ctx, order[..|order| - 1]) + Freed(EntryAt(ctx, order[|order| - 1]))
  }

  /** `order` walks the keys of the map, each once. */
  ghost predicate WalksOnce<K, V>(ctx: Context<K, V>, order: seq<K>) {
    && NoDuplicates(order)
    && (forall i :: 0 <= i < |order| ==> order[i] in ctx)
    && forall k :: k in ctx ==> k in order
  }

  /** The mutable context. `freed` records the calls of the value deleter. */
  class ContextMap<V> {
    var context: Context<Key, V>
    ghost var freed: seq<V>

    constructor ()
      ensures context == map[] && freed == []
    {
      context := map[];
      freed := [];
    }

    method GetValue(key: Key) returns (r: Option<V>)
      modifies this`context
      ensures context == Touched(old(context), key)
      ensures r == Visible(EntryAt(old(context), key))
    {
      context := Touched(context, key);
      r := Visible(context[key]);
    }

    method SetNewValue(key: Key, value: V, meta: Meta)
      modifies this
      ensures context == SetValue(old(context), key, value, meta)
      ensures freed == old(freed) + Freed(EntryAt(old(context), key))
    {
      context := Touched(context, key);
      var ce := context[key];
      ce := ce.(action := Set, meta := meta.(version := ce.origMeta.version + 1), changed := true);
      if ce.value.Some? && ce.deleter {
        freed := freed + [ce.value.value];
      }
      ce := ce.(deleter := true, value := Some(value));
      context := context[key := ce];
    }

    method AddNewValue(key: Key, value: Option<V>, meta: Meta, control: Control)
      modifies this`context
      ensures context == AddValue(old(context), key, value, meta, control)
    {
      context := context[key := Entry(Set, value, meta, meta, false, true, Plain)];
      context := context[key := context[key].(control := control)];
    }

    method SetValueAsDeleted(key: Key)
      modifies this
      ensures context == SetDeleted(old(context), key)
      ensures freed == old(freed) + Freed(EntryAt(old(context), key))
    {
      context := Touched(context, key);
      var ce := context[key];
      ce := ce.(action := Deleted, meta := NO_META.(version := ce.origMeta.version + 1), changed := true);
      if ce.value.Some? && ce.deleter {
        freed := freed + [ce.value.value];
      }
      ce := ce.(value := None, deleter := false);
      context := context[key := ce];
    }

    method Clear(order: seq<Key>)
      requires WalksOnce(context, order)
      modifies this
      ensures context == map[]
      ensures freed == old(freed) + FreedInOrder(old(context), order)
    {
      var i := 0;
      while i < |order|
        invariant 0 <= i <= |order|
        invariant context == old(context)
        invariant freed == old(freed) + FreedInOrder(context, order[..i])
      {
        var ce := context[order[i]];
        assert order[..i + 1][..i] == order[..i];
        if ce.value.Some? && ce.deleter {
          freed := freed + [ce.value.value];
        }
        i := i + 1;
      }
      assert order[..i] == order;
      context := map[];
    }
  }
}
