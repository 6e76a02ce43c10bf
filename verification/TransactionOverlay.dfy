/**
 The transactional branches of RemoteCacheBase over one context. The server's answers at the moment of
 each call are parameters, so the remote store may change arbitrarily between calls. The reference is a
 log of effects: the first read of a key and every write that took effect.
 */
module TransactionOverlay {
  import opened Wrappers
  import opened TransactionContext
  import opened TransactionStatus

  type Value = string

  /** What getWithMetadata would answer now. */
  datatype Remote = Remote(value: Option<Value>, meta: Meta)

  datatype Op =
    | Get(key: Key)
    | Put(key: Key, val: Value, life: int, idle: int, forceReturn: bool)
    | PutIfAbsent(key: Key, val: Value, life: int, idle: int)
    | Replace(key: Key, val: Value, life: int, idle: int, forceReturn: bool)
    | RemoveKey(key: Key, forceReturn: bool)
    | ReplaceVersion(key: Key, val: Value, version: int, life: int, idle: int)
    | RemoveVersion(key: Key, version: int)

  /** A call together with the server's state when it is made. */
  datatype Call = Call(op: Op, remote: Remote)

  datatype Answer = Found(value: Option<Value>) | Accepted(ok: bool)

  // ------------------------------------------------------------------------- meaning of the branches

  function TxGet(ctx: Context<Key, Value>, k: Key, remote: Remote): (Context<Key, Value>, Option<Value>) {
    if k in ctx then (ctx, Visible(ctx[k]))
    else (AddValue(ctx, k, remote.value, remote.meta, if remote.value.Some? then Plain else NonExisting), remote.value)
  }

  function TxPut(ctx: Context<Key, Value>, k: Key, v: Value, life: int, idle: int, forceReturn: bool, remote: Remote)
    : (Context<Key, Value>, Option<Value>)
  {
    var (ctx1, prior) := if forceReturn then TxGet(ctx, k, remote) else (ctx, None);
    var meta := NO_META.(lifespan := life, maxIdle := idle);
    if k in ctx1 then (SetValue(ctx1, k, v, meta), prior)
    else (AddValue(ctx1, k, Some(v), meta, NotRead), prior)
  }

  function Perform(ctx: Context<Key, Value>, c: Call): (Context<Key, Value>, Answer) {
    match c.op
    case Get(k) =>
      var (ctx1, r) := TxGet(ctx, k, c.remote);
      (ctx1, Found(r))
    case Put(k, v, life, idle, force) =>
      var (ctx1, r) := TxPut(ctx, k, v, life, idle, force, c.remote);
      (ctx1, Found(r))
    case PutIfAbsent(k, v, life, idle) =>
      var (ctx1, r) := TxGet(ctx, k, c.remote);
      (if r.None? then TxPut(ctx1, k, v, life, idle, false, c.remote).0 else ctx1, Found(None))
    case Replace(k, v, life, idle, force) =>
      var (ctx1, r) := TxGet(ctx, k, c.remote);
      if r.Some? then
        (SetValue(ctx1, k, v, NO_META.(lifespan := life, maxIdle := idle)), Found(if force then r else None))
      else (ctx1, Found(None))
    case RemoveKey(k, force) =>
      var (ctx1, r) := if force then TxGet(ctx, k, c.remote) else (ctx, None);
      (SetDeleted(ctx1, k), Found(r))
    case ReplaceVersion(k, v, version, life, idle) =>
      var (ctx1, r) := TxGet(ctx, k, c.remote);
      if r.Some? && EntryAt(ctx1, k).meta.version == version then
        (SetValue(ctx1, k, v, Meta(version + 1, -1, life, -1, idle)), Accepted(true))
      else (ctx1, Accepted(false))
    case RemoveVersion(k, version) =>
      var (ctx1, r) := TxGet(ctx, k, c.remote);
      if r.Some? && EntryAt(ctx1, k).meta.version == version then (SetDeleted(ctx1, k), Accepted(true))
      else (ctx1, Accepted(false))
  }

  // ------------------------------------------------------------------------------- the class itself

  /** Without a transaction the call goes straight to the remote operation. */
  datatype Reply = Answered(answer: Answer) | IllegalState | PassedOn

  /** The transactional half of a remote cache, for a thread whose transaction has the given status. */
  class TransactionalCache {
    const tc: ContextMap<Value>
    const forceReturnValue: bool
    var status: Status

    constructor (tc: ContextMap<Value>, forceReturnValue: bool)
      ensures this.tc == tc && this.forceReturnValue == forceReturnValue && status == Active
    {
      this.tc, this.forceReturnValue, status := tc, forceReturnValue, Active;
    }

    method TransactionalGet(key: Key, remote: Remote) returns (r: Option<Value>)
      modifies tc
      ensures (tc.context, r) == TxGet(old(tc.context), key, remote)
    {
      if key !in tc.context {
        tc.AddNewValue(key, remote.value, remote.meta, if remote.value.Some? then Plain else NonExisting);
      }
      r := tc.GetValue(key);
    }

    method TransactionalPut(key: Key, val: Value, life: int, idle: int, forceRV: bool, remote: Remote)
      returns (r: Option<Value>)
      modifies tc
      ensures (tc.context, r) == TxPut(old(tc.context), key, val, life, idle, forceRV, remote)
    {
      r := None;
      if forceRV {
        r := TransactionalGet(key, remote);
      }
      var meta := NO_META.(lifespan := life, maxIdle := idle);
      if key in tc.context {
        tc.SetNewValue(key, val, meta);
      } else {
        tc.AddNewValue(key, Some(val), meta, NotRead);
      }
    }

    method BaseGet(key: Key, remote: Remote) returns (r: Reply)
      modifies tc
      ensures if status.NoTransaction? then tc.context == old(tc.context) && r == PassedOn
              else if AcceptRead(status)
              then (tc.context, r) == Answering(Perform(old(tc.context), Call(Get(key), remote)))
              else tc.context == old(tc.context) && r == IllegalState
    {
      if status.NoTransaction? {
        return PassedOn;
      }
      if !AcceptRead(status) {
        return IllegalState;
      }
      var v := TransactionalGet(key, remote);
      r := Answered(Found(v));
    }

    method BasePut(key: Key, val: Value, life: int, idle: int, remote: Remote) returns (r: Reply)
      modifies tc
      ensures if status.NoTransaction? then tc.context == old(tc.context) && r == PassedOn
              else if AcceptRW(status)
              then (tc.context, r)
                   == Answering(Perform(old(tc.context), Call(Put(key, val, life, idle, forceReturnValue), remote)))
              else tc.context == old(tc.context) && r == IllegalState
    {
      if status.NoTransaction? {
        return PassedOn;
      }
      if !AcceptRW(status) {
        return IllegalState;
      }
      var v := TransactionalPut(key, val, life, idle, forceReturnValue, remote);
      r := Answered(Found(v));
    }

    /** The read is guarded by the weaker test, so a refused write may leave the first touch behind. */
    method BasePutIfAbsent(key: Key, val: Value, life: int, idle: int, remote: Remote) returns (r: Reply)
      modifies tc
      ensures status.NoTransaction? ==> tc.context == old(tc.context) && r == PassedOn
      ensures AcceptRW(status) ==>
        (tc.context, r) == Answering(Perform(old(tc.context), Call(PutIfAbsent(key, val, life, idle), remote)))
      ensures AcceptRead(status) && !AcceptRW(status) && !status.NoTransaction? ==>
        && tc.context == TxGet(old(tc.context), key, remote).0
        && (r == IllegalState <==> TxGet(old(tc.context), key, remote).1.None?)
      ensures !AcceptRead(status) ==> tc.context == old(tc.context) && r == IllegalState
    {
      if status.NoTransaction? {
        return PassedOn;
      }
      if !AcceptRead(status) {
        return IllegalState;
      }
      var v := TransactionalGet(key, remote);
      if v.None? {
        if !AcceptRW(status) {
          return IllegalState;
        }
        var _ := TransactionalPut(key, val, life, idle, false, remote);
      }
      r := Answered(Found(None));
    }

    method BaseReplace(key: Key, val: Value, life: int, idle: int, remote: Remote) returns (r: Reply)
      modifies tc
      ensures if status.NoTransaction? then tc.context == old(tc.context) && r == PassedOn
              else if AcceptRW(status)
              then (tc.context, r)
                   == Answering(Perform(old(tc.context), Call(Replace(key, val, life, idle, forceReturnValue), remote)))
              else tc.context == old(tc.context) && r == IllegalState
    {
      if status.NoTransaction? {
        return PassedOn;
      }
      if !AcceptRW(status) {
        return IllegalState;
      }
      var v := TransactionalGet(key, remote);
      r := Answered(Found(None));
      if v.Some? {
        tc.SetNewValue(key, val, NO_META.(lifespan := life, maxIdle := idle));
        if forceReturnValue {
          r := Answered(Found(v));
        }
      }
    }

    method BaseRemove(key: Key, remote: Remote) returns (r: Reply)
      modifies tc
      ensures if status.NoTransaction? then tc.context == old(tc.context) && r == PassedOn
              else if AcceptRW(status)
              then (tc.context, r) == Answering(Perform(old(tc.context), Call(RemoveKey(key, forceReturnValue), remote)))
              else tc.context == old(tc.context) && r == IllegalState
    {
      if status.NoTransaction? {
        return PassedOn;
      }
      if !AcceptRW(status) {
        return IllegalState;
      }
      var v := None;
      if forceReturnValue {
        v := TransactionalGet(key, remote);
      }
      tc.SetValueAsDeleted(key);
      r := Answered(Found(v));
    }

    method BaseReplaceWithVersion(key: Key, val: Value, version: int, life: int, idle: int, remote: Remote)
      returns (r: Reply)
      modifies tc
      ensures if status.NoTransaction? then tc.context == old(tc.context) && r == PassedOn
              else if AcceptRW(status)
              then (tc.context, r)
                   == Answering(Perform(old(tc.context), Call(ReplaceVersion(key, val, version, life, idle), remote)))
              else tc.context == old(tc.context) && r == IllegalState
    {
      if status.NoTransaction? {
        return PassedOn;
      }
      if !AcceptRW(status) {
        return IllegalState;
      }
      var v := TransactionalGet(key, remote);
      r := Answered(Accepted(false));
      if v.Some? && tc.context[key].meta.version == version {
        tc.SetNewValue(key, val, Meta(tc.context[key].meta.version + 1, -1, life, -1, idle));
        r := Answered(Accepted(true));
      }
    }

    method BaseRemoveWithVersion(key: Key, version: int, remote: Remote) returns (r: Reply)
      modifies tc
      ensures if status.NoTransaction? then tc.context == old(tc.context) && r == PassedOn
              else if AcceptRW(status)
              then (tc.context, r) == Answering(Perform(old(tc.context), Call(RemoveVersion(key, version), remote)))
              else tc.context == old(tc.context) && r == IllegalState
    {
      if status.NoTransaction? {
        return PassedOn;
      }
      if !AcceptRW(status) {
        return IllegalState;
      }
      var v := TransactionalGet(key, remote);
      r := Answered(Accepted(false));
      if v.Some? && tc.context[key].meta.version == version {
        tc.SetValueAsDeleted(key);
        r := Answered(Accepted(true));
      }
    }
  }

  function Answering(r: (Context<Key, Value>, Answer)): (Context<Key, Value>, Reply) {
    (r.0, Answered(r.1))
  }

  // ----------------------------------------------------------------------------- the reference: effects

  /** The first read of a key, or a write that took effect, with the expiry it asked for. */
  datatype Effect =
    | FirstRead(key: Key, value: Option<Value>, meta: Meta)
    | Wrote(key: Key, value: Option<Value>, life: int, idle: int)

  /** The latest effect on `k`. */
  function Latest(log: seq<Effect>, k: Key): Option<Effect> {
    if log == [] then None
    else if log[|log| - 1].key == k then Some(log[|log| - 1])
    else Latest(log[..|log| - 1], k)
  }

  /** The first effect on `k`. */
  function Earliest(log: seq<Effect>, k: Key): Option<Effect> {
    if log == [] then None
    else if log[0].key == k then Some(log[0])
    else Earliest(log[1..], k)
  }

  /** How many effects there are on `k`. */
  function Count(log: seq<Effect>, k: Key): nat {
    if log == [] then 0 else Count(log[..|log| - 1], k) + if log[|log| - 1].key == k then 1 else 0
  }

  /** The version of `k` that the versioned calls compare with: the one first read, or zero if the key was
      written unread, and one more once a write has followed the first touch or the first touch was a remove. */
  function VersionOf(log: seq<Effect>, k: Key): int {
    match Earliest(log, k)
    case None => 0
    case Some(FirstRead(_, _, meta)) => meta.version + if Count(log, k) > 1 then 1 else 0
    case Some(Wrote(_, v, _, _)) => if Count(log, k) > 1 || v.None? then 1 else 0
  }

  function Touch(log: seq<Effect>, k: Key, remote: Remote): seq<Effect> {
    if Latest(log, k).None? then log + [FirstRead(k, remote.value, remote.meta)] else log
  }

  /** What a reader of `k` must see: its latest write or, failing that, what the server held at first touch. */
  function View(log: seq<Effect>, k: Key): Option<Value> {
    if Latest(log, k).Some? then Latest(log, k).value.value else None
  }

  /** The effects and the answer of a call. */
  function Refer(log: seq<Effect>, c: Call): (seq<Effect>, Answer) {
    var read := Touch(log, c.op.key, c.remote);
    var seen := View(read, c.op.key);
    match c.op
    case Get(k) => (read, Found(seen))
    case Put(k, v, life, idle, force) =>
      var effect := [Wrote(k, Some(v), life, idle)];
      if force then (read + effect, Found(seen)) else (log + effect, Found(None))
    case PutIfAbsent(k, v, life, idle) =>
      (if seen.None? then read + [Wrote(k, Some(v), life, idle)] else read, Found(None))
    case Replace(k, v, life, idle, force) =>
      if seen.Some? then (read + [Wrote(k, Some(v), life, idle)], Found(if force then seen else None))
      else (read, Found(None))
    case RemoveKey(k, force) =>
      var effect := [Wrote(k, None, -1, -1)];
      if force then (read + effect, Found(seen)) else (log + effect, Found(None))
    case ReplaceVersion(k, v, version, life, idle) =>
      var ok := seen.Some? && VersionOf(read, k) == version;
      (if ok then read + [Wrote(k, Some(v), life, idle)] else read, Accepted(ok))
    case RemoveVersion(k, version) =>
      var ok := seen.Some? && VersionOf(read, k) == version;
      (if ok then read + [Wrote(k, None, -1, -1)] else read, Accepted(ok))
  }

  // ------------------------------------------------------------------------------------- agreement

  /** How the first effect on a key fixes the entry's original metadata and control byte. */
  ghost predicate FirstTouchKept(e: Entry<Value>, first: Effect) {
    match first
    case FirstRead(_, v, meta) => e.origMeta == meta && e.control == (if v.Some? then Plain else NonExisting)
    case Wrote(_, v, _, _) => e.origMeta.version == 0 && e.control == (if v.Some? then NotRead else Plain)
  }

  /** The lifespan and the idle time are those of the latest effect. */
  ghost predicate ExpiresLike(meta: Meta, latest: Effect) {
    match latest
    case FirstRead(_, _, read) => meta.lifespan == read.lifespan && meta.maxIdle == read.maxIdle
    case Wrote(_, _, life, idle) => meta.lifespan == life && meta.maxIdle == idle
  }

  ghost predicate EntryAgrees(e: Entry<Value>, log: seq<Effect>, k: Key) {
    && Latest(log, k).Some? && Earliest(log, k).Some?
    && Visible(e) == View(log, k)
    && FirstTouchKept(e, Earliest(log, k).value)
    && e.meta.version == VersionOf(log, k)
    && ExpiresLike(e.meta, Latest(log, k).value)
  }

  /** The context holds exactly the touched keys, each showing the log's view and its first touch. */
  ghost predicate Agree(ctx: Context<Key, Value>, log: seq<Effect>) {
    && (forall k :: k in ctx <==> Latest(log, k).Some?)
    && (forall k :: k in ctx ==> EntryAgrees(ctx[k], log, k))
  }

  lemma Appended(log: seq<Effect>, e: Effect, k: Key)
    ensures Latest(log + [e], k) == if e.key == k then Some(e) else Latest(log, k)
    ensures Earliest(log + [e], k)
         == if Earliest(log, k).Some? then Earliest(log, k) else if e.key == k then Some(e) else None
    ensures Count(log + [e], k) == Count(log, k) + if e.key == k then 1 else 0
  {
    assert (log + [e])[..|log|] == log;
    EarliestAppended(log, e, k);
  }

  lemma {:induction false} EarliestAppended(log: seq<Effect>, e: Effect, k: Key)
    ensures Earliest(log + [e], k)
         == if Earliest(log, k).Some? then Earliest(log, k) else if e.key == k then Some(e) else None
  {
    if log == [] {
      assert (log + [e])[1..] == [];
    } else {
      assert (log + [e])[1..] == log[1..] + [e];
      EarliestAppended(log[1..], e, k);
    }
  }

  lemma {:induction false} LatestIffEarliest(log: seq<Effect>, k: Key)
    ensures Latest(log, k).Some? <==> Earliest(log, k).Some?
    ensures Latest(log, k).Some? <==> Count(log, k) > 0
  {
    if log != [] {
      var front := log[..|log| - 1];
      LatestIffEarliest(front, k);
      assert log == front + [log[|log| - 1]];
      Appended(front, log[|log| - 1], k);
    }
  }

  /** Writing one entry and logging one effect on the same key. */
  lemma AgreeUpdate(ctx: Context<Key, Value>, log: seq<Effect>, k: Key, entry: Entry<Value>, e: Effect)
    requires Agree(ctx, log) && e.key == k
    requires EntryAgrees(entry, log + [e], k)
    ensures Agree(ctx[k := entry], log + [e])
  {
    var ctx' := ctx[k := entry];
    forall other ensures other in ctx' <==> Latest(log + [e], other).Some? {
      Appended(log, e, other);
    }
    forall other | other in ctx' ensures EntryAgrees(ctx'[other], log + [e], other) {
      Appended(log, e, other);
    }
  }

  lemma GetAgrees(ctx: Context<Key, Value>, log: seq<Effect>, k: Key, remote: Remote)
    requires Agree(ctx, log)
    ensures Agree(TxGet(ctx, k, remote).0, Touch(log, k, remote))
    ensures k in TxGet(ctx, k, remote).0
    ensures TxGet(ctx, k, remote).1 == View(Touch(log, k, remote), k)
  {
    if k !in ctx {
      var e := FirstRead(k, remote.value, remote.meta);
      LatestIffEarliest(log, k);
      Appended(log, e, k);
      var entry := Entry(Set, remote.value, remote.meta, remote.meta, false, true,
                         if remote.value.Some? then Plain else NonExisting);
      AgreeUpdate(ctx, log, k, entry, e);
    }
  }

  lemma SetAgrees(ctx: Context<Key, Value>, log: seq<Effect>, k: Key, v: Value, meta: Meta)
    requires Agree(ctx, log) && k in ctx
    ensures Agree(SetValue(ctx, k, v, meta), log + [Wrote(k, Some(v), meta.lifespan, meta.maxIdle)])
  {
    LatestIffEarliest(log, k);
    Appended(log, Wrote(k, Some(v), meta.lifespan, meta.maxIdle), k);
    AgreeUpdate(ctx, log, k, SetValue(ctx, k, v, meta)[k], Wrote(k, Some(v), meta.lifespan, meta.maxIdle));
  }

  lemma DeleteAgrees(ctx: Context<Key, Value>, log: seq<Effect>, k: Key)
    requires Agree(ctx, log)
    ensures Agree(SetDeleted(ctx, k), log + [Wrote(k, None, -1, -1)])
  {
    LatestIffEarliest(log, k);
    Appended(log, Wrote(k, None, -1, -1), k);
    AgreeUpdate(ctx, log, k, SetDeleted(ctx, k)[k], Wrote(k, None, -1, -1));
  }

  lemma PutAgrees(ctx: Context<Key, Value>, log: seq<Effect>, k: Key, v: Value, life: int, idle: int, remote: Remote)
    requires Agree(ctx, log)
    ensures Agree(TxPut(ctx, k, v, life, idle, false, remote).0, log + [Wrote(k, Some(v), life, idle)])
  {
    if k in ctx {
      SetAgrees(ctx, log, k, v, NO_META.(lifespan := life, maxIdle := idle));
    } else {
      LatestIffEarliest(log, k);
      Appended(log, Wrote(k, Some(v), life, idle), k);
      var meta := NO_META.(lifespan := life, maxIdle := idle);
      AgreeUpdate(ctx, log, k, Entry(Set, Some(v), meta, meta, false, true, NotRead), Wrote(k, Some(v), life, idle));
    }
  }

  /** Every call does to the context what it does to the log, and answers what the log answers. */
  lemma PerformAgrees(ctx: Context<Key, Value>, log: seq<Effect>, c: Call)
    requires Agree(ctx, log)
    ensures Agree(Perform(ctx, c).0, Refer(log, c).0)
    ensures Perform(ctx, c).1 == Refer(log, c).1
  {
    var k := c.op.key;
    var (ctx1, _) := TxGet(ctx, k, c.remote);
    var read := Touch(log, k, c.remote);
    GetAgrees(ctx, log, k, c.remote);
    match c.op
    case Get(_) =>
    case Put(_, v, life, idle, force) =>
      if force {
        SetAgrees(ctx1, read, k, v, NO_META.(lifespan := life, maxIdle := idle));
      } else {
        PutAgrees(ctx, log, k, v, life, idle, c.remote);
      }
    case PutIfAbsent(_, v, life, idle) => PutAgrees(ctx1, read, k, v, life, idle, c.remote);
    case Replace(_, v, life, idle, _) => SetAgrees(ctx1, read, k, v, NO_META.(lifespan := life, maxIdle := idle));
    case RemoveKey(_, force) =>
      DeleteAgrees(if force then ctx1 else ctx, if force then read else log, k);
    case ReplaceVersion(_, v, version, life, idle) =>
      SetAgrees(ctx1, read, k, v, Meta(version + 1, -1, life, -1, idle));
    case RemoveVersion(_, _) => DeleteAgrees(ctx1, read, k);
  }

  // ------------------------------------------------------------------------------------------- runs

  function Session(ctx: Context<Key, Value>, calls: seq<Call>): (Context<Key, Value>, seq<Answer>)
    decreases calls
  {
    if calls == [] then (ctx, [])
    else
      var (ctx1, answer) := Perform(ctx, calls[0]);
      var (ctx2, answers) := Session(ctx1, calls[1..]);
      (ctx2, [answer] + answers)
  }

  function Reference(log: seq<Effect>, calls: seq<Call>): (seq<Effect>, seq<Answer>)
    decreases calls
  {
    if calls == [] then (log, [])
    else
      var (log1, answer) := Refer(log, calls[0]);
      var (log2, answers) := Reference(log1, calls[1..]);
      (log2, [answer] + answers)
  }

  /** First reads really are first: no earlier effect touches the same key. */
  ghost predicate ReadsFirst(log: seq<Effect>) {
    forall i, j :: 0 <= i < j < |log| && log[j].FirstRead? ==> log[i].key != log[j].key
  }

  lemma {:induction false} LatestNone(log: seq<Effect>, k: Key)
    requires Latest(log, k).None?
    ensures forall i :: 0 <= i < |log| ==> log[i].key != k
  {
    if log != [] {
      LatestNone(log[..|log| - 1], k);
    }
  }

  lemma TouchReadsFirst(log: seq<Effect>, k: Key, remote: Remote)
    requires ReadsFirst(log)
    ensures ReadsFirst(Touch(log, k, remote))
  {
    if Latest(log, k).None? {
      LatestNone(log, k);
    }
  }

  lemma ReferReadsFirst(log: seq<Effect>, c: Call)
    requires ReadsFirst(log)
    ensures ReadsFirst(Refer(log, c).0)
  {
    TouchReadsFirst(log, c.op.key, c.remote);
  }

  lemma {:induction false} SessionAgrees(ctx: Context<Key, Value>, log: seq<Effect>, calls: seq<Call>)
    requires Agree(ctx, log) && ReadsFirst(log)
    ensures Agree(Session(ctx, calls).0, Reference(log, calls).0)
    ensures ReadsFirst(Reference(log, calls).0)
    ensures Session(ctx, calls).1 == Reference(log, calls).1
    decreases calls
  {
    if calls != [] {
      var c := calls[0];
      PerformAgrees(ctx, log, c);
      ReferReadsFirst(log, c);
      SessionAgrees(Perform(ctx, c).0, Refer(log, c).0, calls[1..]);
    }
  }

  /** Transaction overlay: after any calls with any remote changes in between, a get answers the value of the
      latest write that took effect, or the server's value at first touch if there is none. */
  lemma Overlay(calls: seq<Call>, k: Key, remote: Remote)
    ensures var (ctx, answers) := Session(map[], calls);
      var (log, expected) := Reference([], calls);
      && answers == expected
      && ReadsFirst(log)
      && TxGet(ctx, k, remote).1 == if Latest(log, k).Some? then View(log, k) else remote.value
  {
    SessionAgrees(map[], [], calls);
    var ctx, log := Session(map[], calls).0, Reference([], calls).0;
    GetAgrees(ctx, log, k, remote);
    if Latest(log, k).None? {
      Appended(log, FirstRead(k, remote.value, remote.meta), k);
    }
  }

  /** The call changes the value that readers of its key see. */
  predicate TakesEffect(ctx: Context<Key, Value>, c: Call) {
    var (ctx1, seen) := TxGet(ctx, c.op.key, c.remote);
    match c.op
    case Get(_) => false
    case Put(_, _, _, _, _) => true
    case PutIfAbsent(_, _, _, _) => seen.None?
    case Replace(_, _, _, _, _) => seen.Some?
    case RemoveKey(_, _) => true
    case ReplaceVersion(k, _, version, _, _) => seen.Some? && EntryAt(ctx1, k).meta.version == version
    case RemoveVersion(k, version) => seen.Some? && EntryAt(ctx1, k).meta.version == version
  }

  /** No call takes effect on `k`. */
  ghost predicate LeaveAlone(ctx: Context<Key, Value>, k: Key, calls: seq<Call>)
    decreases calls
  {
    calls != [] ==>
      && (calls[0].op.key == k ==> !TakesEffect(ctx, calls[0]))
      && LeaveAlone(Perform(ctx, calls[0]).0, k, calls[1..])
  }

  /** Reads are repeatable: a second get of `k` answers like the first, whatever the server holds by then, as
      long as no call in between takes effect on `k`. */
  lemma RepeatableRead(ctx: Context<Key, Value>, k: Key, calls: seq<Call>, r1: Remote, r2: Remote)
    requires LeaveAlone(TxGet(ctx, k, r1).0, k, calls)
    ensures TxGet(Session(TxGet(ctx, k, r1).0, calls).0, k, r2).1 == TxGet(ctx, k, r1).1
  {
    EntrySurvives(TxGet(ctx, k, r1).0, k, calls);
  }

  /** A call leaves alone the entries of other keys, and that of its own key if it takes no effect. */
  lemma CallLeavesAlone(ctx: Context<Key, Value>, c: Call, k: Key)
    requires k in ctx && (c.op.key == k ==> !TakesEffect(ctx, c))
    ensures k in Perform(ctx, c).0 && Perform(ctx, c).0[k] == ctx[k]
  {
  }

  lemma {:induction false} EntrySurvives(ctx: Context<Key, Value>, k: Key, calls: seq<Call>)
    requires k in ctx && LeaveAlone(ctx, k, calls)
    ensures k in Session(ctx, calls).0 && Session(ctx, calls).0[k] == ctx[k]
    decreases calls
  {
    if calls != [] {
      CallLeavesAlone(ctx, calls[0], k);
      EntrySurvives(Perform(ctx, calls[0]).0, k, calls[1..]);
    }
  }

  // ------------------------------------------------------------------------- first-touch metadata

  ghost predicate SameFirstTouch(ctx: Context<Key, Value>, after: Context<Key, Value>, k: Key) {
    k in ctx && k in after && after[k].origMeta == ctx[k].origMeta && after[k].control == ctx[k].control
  }

  lemma CallKeepsFirstTouch(ctx: Context<Key, Value>, c: Call, k: Key)
    requires k in ctx
    ensures SameFirstTouch(ctx, Perform(ctx, c).0, k)
  {
    if c.op.key != k || !TakesEffect(ctx, c) {
      CallLeavesAlone(ctx, c, k);
    }
  }

  /** No call changes the original metadata or control byte of an entry that is already there. */
  lemma {:induction false} FirstTouchFrozen(ctx: Context<Key, Value>, calls: seq<Call>, k: Key)
    requires k in ctx
    ensures SameFirstTouch(ctx, Session(ctx, calls).0, k)
    decreases calls
  {
    if calls != [] {
      CallKeepsFirstTouch(ctx, calls[0], k);
      FirstTouchFrozen(Perform(ctx, calls[0]).0, calls[1..], k);
    }
  }

  /** The version that prepare writes for an entry, if it writes one. */
  function PreparedVersion(e: Entry<Value>): Option<int> {
    if e.control.Plain? then Some(e.origMeta.version) else None
  }

  /** What prepare says about a key is fixed by the first effect on it: the version read if a value was read,
      nothing if none existed or the key was written unread, and version zero if the key was removed unread. */
  lemma PrepareCarriesFirstTouch(calls: seq<Call>, k: Key)
    requires k in Session(map[], calls).0
    ensures var e := Session(map[], calls).0[k];
      var first := Earliest(Reference([], calls).0, k);
      && first.Some?
      && PreparedVersion(e) == (match first.value
                                case FirstRead(_, v, meta) => if v.Some? then Some(meta.version) else None
                                case Wrote(_, v, _, _) => if v.Some? then None else Some(0))
      && (e.meta.version == e.origMeta.version || e.meta.version == e.origMeta.version + 1)
  {
    SessionAgrees(map[], [], calls);
    assert EntryAgrees(Session(map[], calls).0[k], Reference([], calls).0, k);
  }

  /** And the lifespan and idle time that prepare sends for a key are those of the latest write to it that took
      effect, or as first read if there is none. */
  lemma PrepareCarriesLatestExpiry(calls: seq<Call>, k: Key)
    requires k in Session(map[], calls).0
    ensures var e := Session(map[], calls).0[k];
      var latest := Latest(Reference([], calls).0, k);
      latest.Some? && ExpiresLike(e.meta, latest.value)
  {
    SessionAgrees(map[], [], calls);
    assert EntryAgrees(Session(map[], calls).0[k], Reference([], calls).0, k);
  }

  // --------------------------------------------------------------------------------- containsKey

  /** containsKey looks the key up through getValue, which leaves a default entry behind. */
  function ContainsKey(ctx: Context<Key, Value>, k: Key, remoteHas: bool): (Context<Key, Value>, bool) {
    (Touched(ctx, k), Visible(EntryAt(ctx, k)).Some? || remoteHas)
  }

  /** containsKey agrees with get except on a key that the transaction sees without a value, for instance after
      removing it, while the server has one: there it answers what the server would. */
  lemma ContainsKeyAgreesIff(ctx: Context<Key, Value>, k: Key, remote: Remote)
    ensures ContainsKey(ctx, k, remote.value.Some?).1 == TxGet(ctx, k, remote).1.Some?
       <==> !(k in ctx && (ctx[k].action == Deleted || ctx[k].value == None) && remote.value.Some?)
  {
  }

  /** A removed key is still contained. */
  lemma RemovedKeyIsContained(k: Key, remote: Remote)
    requires remote.value.Some?
    ensures var ctx := Session(map[], [Call(RemoveKey(k, false), remote)]).0;
      TxGet(ctx, k, remote).1 == None && ContainsKey(ctx, k, true).1
  {
    var calls := [Call(RemoveKey(k, false), remote)];
    assert calls[1..] == [];
    assert Session(map[], calls).0 == Session(Perform(map[], calls[0]).0, []).0;
  }

  /** A get after containsKey answers as it would without it exactly when the key was touched before or the
      server has no value for it; otherwise it answers null. */
  lemma ContainsKeyHarmlessIff(ctx: Context<Key, Value>, k: Key, remote: Remote, remoteHas: bool)
    ensures TxGet(ContainsKey(ctx, k, remoteHas).0, k, remote).1 == TxGet(ctx, k, remote).1
       <==> k in ctx || remote.value.None?
  {
  }
}
