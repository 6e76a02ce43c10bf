/**
 One near-caching client, the server and everybody else, as a step protocol. Client calls are split
 where the code releases its lock: a miss reads the server in one step and fills the map in another,
 put/replace/remove drop the local entry before the remote call, the versioned writes after it.
 Events queue up between the server and the listener; losing the connection loses a tail of them and
 every event until fail-over re-registers the listener.
 */
module NearCacheProtocol {
  import opened Wrappers
  import opened NearCache

  type Store = map<Key, Versioned>

  datatype Event = Changed(key: Key) | FailOver

  /** What the client has learned, with the position in the server's history that it learned about. */
  datatype Obs = Read(key: Key, result: Option<Versioned>, at: nat) | Wrote(key: Key, at: nat) | Cleared(at: nat)

  datatype Write = Put(value: Value) | Replace(value: Value) | Remove

  /** Where the single client thread is inside a call. */
  datatype Pc =
    | Idle
    | Fetched(key: Key, reply: Option<Versioned>, at: nat)
    | Writing(key: Key, write: Write)
    | Dropping(key: Key)
    | Clearing

  datatype Sys = Sys(
    near: Near,
    hist: seq<Store>,
    pending: seq<Event>,
    listening: bool,
    pc: Pc,
    readAt: map<Key, nat>,
    log: seq<Obs>)

  datatype Step =
    | GetHit(key: Key)
    | GetFetch(key: Key)
    | GetInsert
    | BeginWrite(key: Key, write: Write)
    | FinishWrite(version: int)
    | ReplaceWithVersion(key: Key, value: Value, expected: int, version: int)
    | RemoveWithVersion(key: Key, expected: int)
    | DropLocal
    | ClearRemote(order: seq<Key>)
    | ClearLocal
    | PutIfAbsent(key: Key, value: Value, version: int)
    | OtherWrite(key: Key, outcome: Option<Versioned>)
    | OtherClear(order: seq<Key>)
    | Deliver
    | LoseConnection(kept: nat)

  // --------------------------------------------------------------------------------------- the steps

  function Lookup(store: Store, k: Key): Option<Versioned> {
    if k in store then Some(store[k]) else None
  }

  ghost predicate WellFormed(s: Sys) {
    s.hist != []
  }

  function Now(s: Sys): nat
    requires WellFormed(s)
  {
    |s.hist| - 1
  }

  function Current(s: Sys): Store
    requires WellFormed(s)
  {
    s.hist[|s.hist| - 1]
  }

  function Announce(order: seq<Key>): seq<Event> {
    seq(|order|, i requires 0 <= i < |order| => Changed(order[i]))
  }

  /** The server moves to `store` and tells a registered listener which keys changed. */
  function Commit(s: Sys, store: Store, order: seq<Key>): Sys {
    s.(hist := s.hist + [store], pending := s.pending + if s.listening then Announce(order) else [])
  }

  function Set(store: Store, k: Key, v: Option<Versioned>): Store {
    if v.Some? then store[k := v.value] else store - {k}
  }

  /** put always takes effect; replace and remove only on a present key. */
  predicate Effective(s: Sys, k: Key, w: Write)
    requires WellFormed(s)
  {
    w.Put? || k in Current(s)
  }

  function Written(w: Write, version: int): Option<Versioned> {
    if w.Remove? then None else Some(Versioned(w.value, version))
  }

  predicate HasVersion(s: Sys, k: Key, expected: int)
    requires WellFormed(s)
  {
    k in Current(s) && Current(s)[k].version == expected
  }

  ghost predicate Enabled(s: Sys, st: Step)
    requires WellFormed(s)
  {
    match st
    case GetHit(k) => s.pc.Idle? && k in s.near.entries
    case GetFetch(k) => s.pc.Idle? && k !in s.near.entries
    case GetInsert => s.pc.Fetched?
    case BeginWrite(_, _) => s.pc.Idle?
    case FinishWrite(_) => s.pc.Writing?
    case ReplaceWithVersion(_, _, _, _) => s.pc.Idle?
    case RemoveWithVersion(_, _) => s.pc.Idle?
    case DropLocal => s.pc.Dropping?
    case ClearRemote(order) => s.pc.Idle? && forall k :: k in Current(s) ==> k in order
    case ClearLocal => s.pc.Clearing?
    case PutIfAbsent(_, _, _) => s.pc.Idle?
    case OtherWrite(_, _) => true
    case OtherClear(order) => forall k :: k in Current(s) ==> k in order
    case Deliver => s.pending != []
    case LoseConnection(kept) => kept <= |s.pending|
  }

  /** The client's own write of `k` reaches the server now. */
  function OwnWrite(s: Sys, k: Key, v: Option<Versioned>, pc: Pc): Sys
    requires WellFormed(s)
  {
    Commit(s, Set(Current(s), k, v), [k]).(pc := pc, log := s.log + [Wrote(k, |s.hist|)])
  }

  function HitOf(s: Sys, k: Key): Obs
    requires k in s.near.entries
  {
    Read(k, Some(s.near.entries[k]), if k in s.readAt then s.readAt[k] else 0)
  }

  function Next(maxEntries: nat, s: Sys, st: Step): (r: Sys)
    requires WellFormed(s)
    ensures WellFormed(r)
  {
    match st
    case GetHit(k) =>
      if k in s.near.entries then s.(log := s.log + [HitOf(s, k)]) else s
    case GetFetch(k) =>
      s.(pc := Fetched(k, Lookup(Current(s), k), Now(s)))
    case GetInsert =>
      if s.pc.Fetched? then
        var done := s.(pc := Idle, log := s.log + [Read(s.pc.key, s.pc.reply, s.pc.at)]);
        if s.pc.reply.Some? then
          done.(near := AddElement(maxEntries, s.near, s.pc.key, s.pc.reply.value),
                readAt := s.readAt[s.pc.key := s.pc.at])
        else done
      else s
    case BeginWrite(k, w) =>
      s.(near := RemoveElement(maxEntries, s.near, k), pc := Writing(k, w))
    case FinishWrite(version) =>
      if s.pc.Writing? then
        if Effective(s, s.pc.key, s.pc.write) then
          OwnWrite(s, s.pc.key, Written(s.pc.write, version), Idle)
        else s.(pc := Idle)
      else s
    case ReplaceWithVersion(k, v, expected, version) =>
      if HasVersion(s, k, expected) then OwnWrite(s, k, Some(Versioned(v, version)), Dropping(k)) else s
    case RemoveWithVersion(k, expected) =>
      if HasVersion(s, k, expected) then OwnWrite(s, k, None, Dropping(k)) else s
    case DropLocal =>
      if s.pc.Dropping? then s.(near := RemoveElement(maxEntries, s.near, s.pc.key), pc := Idle) else s
    case ClearRemote(order) =>
      Commit(s, map[], order).(pc := Clearing, log := s.log + [Cleared(|s.hist|)])
    case ClearLocal =>
      s.(near := EMPTY, pc := Idle)
    case PutIfAbsent(k, v, version) =>
      if k in Current(s) then s else OwnWrite(s, k, Some(Versioned(v, version)), Idle)
    case OtherWrite(k, v) =>
      Commit(s, Set(Current(s), k, v), [k])
    case OtherClear(order) =>
      Commit(s, map[], order)
    case Deliver =>
      if s.pending == [] then s
      else if s.pending[0].FailOver? then
        s.(near := Invalidate(s.near), pending := s.pending[1..], listening := true)
      else
        s.(near := RemoveElement(maxEntries, s.near, s.pending[0].key), pending := s.pending[1..])
    case LoseConnection(kept) =>
      if kept <= |s.pending| then s.(pending := s.pending[..kept] + [FailOver], listening := false) else s
  }

  function Initial(store: Store): Sys {
    Sys(EMPTY, [store], [], true, Idle, map[], [])
  }

  // ----------------------------------------------------------------------------------- shape of runs

  /** Facts that hold in every run, whatever is interleaved. */
  ghost predicate Shape(maxEntries: nat, s: Sys) {
    && WellFormed(s)
    && Bounded(maxEntries, s.near)
    && s.near.entries.Keys <= s.readAt.Keys
    && (!s.listening ==> FailOver in s.pending)
  }

  lemma EventKeepsShape(maxEntries: nat, s: Sys, st: Step)
    requires Shape(maxEntries, s) && Enabled(s, st) && (st.Deliver? || st.LoseConnection?)
    ensures Shape(maxEntries, Next(maxEntries, s, st))
  {
    if st.Deliver? {
      if s.pending[0].Changed? {
        RemoveKeepsBound(maxEntries, s.near, s.pending[0].key);
        assert FailOver in s.pending ==> FailOver in s.pending[1..];
      }
    } else {
      assert (s.pending[..st.kept] + [FailOver])[st.kept] == FailOver;
    }
  }

  lemma StepKeepsShape(maxEntries: nat, s: Sys, st: Step)
    requires Shape(maxEntries, s) && Enabled(s, st)
    ensures Shape(maxEntries, Next(maxEntries, s, st))
  {
    if st.Deliver? || st.LoseConnection? {
      EventKeepsShape(maxEntries, s, st);
    } else if st.GetInsert? {
      if s.pc.reply.Some? {
        AddKeepsBound(maxEntries, s.near, s.pc.key, s.pc.reply.value);
      }
    } else if st.BeginWrite? {
      RemoveKeepsBound(maxEntries, s.near, st.key);
    } else if st.DropLocal? {
      RemoveKeepsBound(maxEntries, s.near, s.pc.key);
    }
  }

  // -------------------------------------------------------------------------------------- coherence

  /** An invalidation of `k` is on its way. */
  ghost predicate Warned(s: Sys, k: Key) {
    Changed(k) in s.pending || FailOver in s.pending
  }

  /** `v` is what the server holds for `k`, or the client is about to be told otherwise. */
  ghost predicate Covered(s: Sys, k: Key, v: Option<Versioned>)
    requires WellFormed(s)
  {
    Lookup(Current(s), k) == v || Warned(s, k)
  }

  ghost predicate Coherent(s: Sys)
    requires WellFormed(s)
  {
    forall k :: k in s.near.entries ==> Covered(s, k, Some(s.near.entries[k]))
  }

  /** The reply of an unfinished miss is still covered. */
  ghost predicate FetchCovered(s: Sys)
    requires WellFormed(s)
  {
    s.pc.Fetched? ==> Covered(s, s.pc.key, s.pc.reply)
  }

  /** The one interleaving that coherence cannot stand: while a reply waits to be inserted, the last event that
      warns of its key is delivered, and the server no longer holds the reply. */
  ghost predicate Overtakes(s: Sys, st: Step)
    requires WellFormed(s)
  {
    && st.Deliver? && s.pc.Fetched? && s.pending != []
    && Lookup(Current(s), s.pc.key) != s.pc.reply
    && Changed(s.pc.key) !in s.pending[1..] && FailOver !in s.pending[1..]
  }

  /** What a change of the server's store does to coverage. */
  lemma CommitCovers(s: Sys, store: Store, order: seq<Key>, k: Key, v: Option<Versioned>)
    requires WellFormed(s) && (!s.listening ==> FailOver in s.pending)
    requires Covered(s, k, v)
    requires Lookup(store, k) != Lookup(Current(s), k) ==> k in order
    ensures Covered(Commit(s, store, order), k, v)
  {
    var s' := Commit(s, store, order);
    if s.listening && k in order {
      var i :| 0 <= i < |order| && order[i] == k;
      assert s'.pending[|s.pending| + i] == Changed(k);
    }
    assert forall e :: e in s.pending ==> e in s'.pending;
  }

  /** Delivering the oldest event keeps everything covered that the event does not speak about. */
  lemma DeliverCovers(maxEntries: nat, s: Sys, k: Key, v: Option<Versioned>)
    requires Shape(maxEntries, s) && s.pending != []
    requires Covered(s, k, v) && s.pending[0] !in {Changed(k), FailOver}
    ensures Covered(Next(maxEntries, s, Deliver), k, v)
  {
    assert forall e :: e in s.pending && e != s.pending[0] ==> e in s.pending[1..];
  }

  /** Inserting a covered reply keeps every entry covered, and inserting an uncovered one does not. */
  lemma InsertKeepsCoherenceIff(maxEntries: nat, s: Sys)
    requires Shape(maxEntries, s) && Enabled(s, GetInsert) && Coherent(s)
    ensures Coherent(Next(maxEntries, s, GetInsert))
       <==> (s.pc.reply.Some? ==> Covered(s, s.pc.key, s.pc.reply))
  {
    var s' := Next(maxEntries, s, GetInsert);
    if s.pc.reply.Some? {
      var k := s.pc.key;
      AddKeepsBound(maxEntries, s.near, k, s.pc.reply.value);
      if Coherent(s') {
        assert Covered(s', k, Some(s'.near.entries[k]));
      }
    }
  }

  lemma OwnStepKeepsCoherence(maxEntries: nat, s: Sys, st: Step)
    requires Shape(maxEntries, s) && Enabled(s, st) && Coherent(s)
    requires st.GetHit? || st.GetFetch? || st.BeginWrite? || st.DropLocal? || st.ClearLocal?
    ensures Coherent(Next(maxEntries, s, st)) && FetchCovered(Next(maxEntries, s, st))
  {
  }

  lemma EventStepKeepsCoherence(maxEntries: nat, s: Sys, st: Step)
    requires Shape(maxEntries, s) && Enabled(s, st) && Coherent(s)
    requires st.Deliver? || st.LoseConnection?
    ensures Coherent(Next(maxEntries, s, st))
    ensures FetchCovered(s) ==> (FetchCovered(Next(maxEntries, s, st)) <==> !Overtakes(s, st))
  {
    var s' := Next(maxEntries, s, st);
    if st.LoseConnection? {
      assert s'.pending[st.kept] == FailOver;
    } else {
      forall k | k in s'.near.entries ensures Covered(s', k, Some(s'.near.entries[k])) {
        DeliverCovers(maxEntries, s, k, Some(s.near.entries[k]));
      }
    }
  }

  /** The store and the announcement of a step that changes the server. */
  function ServerMove(s: Sys, st: Step): Option<(Store, seq<Key>)>
    requires WellFormed(s)
  {
    var now := Current(s);
    match st
    case FinishWrite(version) =>
      if s.pc.Writing? && Effective(s, s.pc.key, s.pc.write) then
        Some((Set(now, s.pc.key, Written(s.pc.write, version)), [s.pc.key]))
      else None
    case ReplaceWithVersion(k, v, e, version) =>
      if HasVersion(s, k, e) then Some((Set(now, k, Some(Versioned(v, version))), [k])) else None
    case RemoveWithVersion(k, e) => if HasVersion(s, k, e) then Some((Set(now, k, None), [k])) else None
    case ClearRemote(order) => Some((map[], order))
    case PutIfAbsent(k, v, version) =>
      if k in now then None else Some((Set(now, k, Some(Versioned(v, version))), [k]))
    case OtherWrite(k, v) => Some((Set(now, k, v), [k]))
    case OtherClear(order) => Some((map[], order))
    case _ => None
  }

  lemma ServerStepKeepsCoherence(maxEntries: nat, s: Sys, st: Step)
    requires Shape(maxEntries, s) && Enabled(s, st) && Coherent(s)
    requires ServerMove(s, st).Some?
    ensures Coherent(Next(maxEntries, s, st))
    ensures FetchCovered(s) ==> FetchCovered(Next(maxEntries, s, st))
  {
    var s' := Next(maxEntries, s, st);
    var (store, order) := ServerMove(s, st).value;
    var moved := Commit(s, store, order);
    assert s'.hist == moved.hist && s'.pending == moved.pending && s'.near == s.near;
    forall k, v | Covered(s, k, v) ensures Covered(s', k, v) {
      CommitCovers(s, store, order, k, v);
    }
  }

  /** Every step but an insertion keeps coherence, whatever waits to be inserted; and a reply that is covered
      loses its cover exactly when it is overtaken. */
  lemma StepKeepsCoherence(maxEntries: nat, s: Sys, st: Step)
    requires Shape(maxEntries, s) && Enabled(s, st) && Coherent(s)
    ensures !st.GetInsert? ==> Coherent(Next(maxEntries, s, st))
    ensures FetchCovered(s) ==> (FetchCovered(Next(maxEntries, s, st)) <==> !Overtakes(s, st))
  {
    if st.Deliver? || st.LoseConnection? {
      EventStepKeepsCoherence(maxEntries, s, st);
    } else if ServerMove(s, st).Some? {
      ServerStepKeepsCoherence(maxEntries, s, st);
    } else if st.GetHit? || st.GetFetch? || st.BeginWrite? || st.DropLocal? || st.ClearLocal? {
      OwnStepKeepsCoherence(maxEntries, s, st);
    }
  }

  /** The guard that fails: delivering the next event and inserting the reply at once ends coherent exactly
      when the delivery does not overtake the reply. */
  lemma DeliverInsertCoherentIff(maxEntries: nat, s: Sys)
    requires Shape(maxEntries, s) && Coherent(s) && FetchCovered(s)
    requires s.pc.Fetched? && s.pc.reply.Some? && s.pending != []
    ensures Coherent(Next(maxEntries, Next(maxEntries, s, Deliver), GetInsert)) <==> !Overtakes(s, Deliver)
  {
    StepKeepsCoherence(maxEntries, s, Deliver);
    StepKeepsShape(maxEntries, s, Deliver);
    InsertKeepsCoherenceIff(maxEntries, Next(maxEntries, s, Deliver));
  }

  // ------------------------------------------------------------------------------------------- runs

  ghost predicate Runs(maxEntries: nat, s: Sys, steps: seq<Step>)
    requires Shape(maxEntries, s)
    decreases steps
  {
    steps != [] ==>
      && Enabled(s, steps[0])
      && (StepKeepsShape(maxEntries, s, steps[0]);
          Runs(maxEntries, Next(maxEntries, s, steps[0]), steps[1..]))
  }

  ghost function After(maxEntries: nat, s: Sys, steps: seq<Step>): (r: Sys)
    requires Shape(maxEntries, s) && Runs(maxEntries, s, steps)
    ensures Shape(maxEntries, r)
    decreases steps
  {
    if steps == [] then s
    else
      StepKeepsShape(maxEntries, s, steps[0]);
      After(maxEntries, Next(maxEntries, s, steps[0]), steps[1..])
  }

  /** No fetched key is overtaken by its own invalidation. */
  ghost predicate NeverOvertaken(maxEntries: nat, s: Sys, steps: seq<Step>)
    requires Shape(maxEntries, s) && Runs(maxEntries, s, steps)
    decreases steps
  {
    steps != [] ==>
      && !Overtakes(s, steps[0])
      && (StepKeepsShape(maxEntries, s, steps[0]);
          NeverOvertaken(maxEntries, Next(maxEntries, s, steps[0]), steps[1..]))
  }

  /** Every state that the run goes through is coherent. */
  ghost predicate AlwaysCoherent(maxEntries: nat, s: Sys, steps: seq<Step>)
    requires Shape(maxEntries, s) && Runs(maxEntries, s, steps)
    decreases steps
  {
    && Coherent(s)
    && (steps != [] ==>
          (StepKeepsShape(maxEntries, s, steps[0]);
           AlwaysCoherent(maxEntries, Next(maxEntries, s, steps[0]), steps[1..])))
  }

  /** Every value that the run inserts is, at that moment, the server's or about to be invalidated. */
  ghost predicate InsertsCovered(maxEntries: nat, s: Sys, steps: seq<Step>)
    requires Shape(maxEntries, s) && Runs(maxEntries, s, steps)
    decreases steps
  {
    steps != [] ==>
      && (steps[0].GetInsert? && s.pc.reply.Some? ==> Covered(s, s.pc.key, s.pc.reply))
      && (StepKeepsShape(maxEntries, s, steps[0]);
          InsertsCovered(maxEntries, Next(maxEntries, s, steps[0]), steps[1..]))
  }

  /** A run stays coherent throughout exactly when each value it inserts is covered when it is inserted:
      nothing else the client, the server or the event channel does can break coherence. */
  lemma {:induction false} CoherentThroughoutIff(maxEntries: nat, s: Sys, steps: seq<Step>)
    requires Shape(maxEntries, s) && Runs(maxEntries, s, steps) && Coherent(s)
    ensures AlwaysCoherent(maxEntries, s, steps) <==> InsertsCovered(maxEntries, s, steps)
    decreases steps
  {
    if steps != [] {
      var s' := Next(maxEntries, s, steps[0]);
      StepKeepsShape(maxEntries, s, steps[0]);
      StepKeepsCoherence(maxEntries, s, steps[0]);
      if steps[0].GetInsert? {
        InsertKeepsCoherenceIff(maxEntries, s);
      }
      if Coherent(s') {
        CoherentThroughoutIff(maxEntries, s', steps[1..]);
      }
    }
  }

  lemma {:induction false} RunKeepsCoherence(maxEntries: nat, s: Sys, steps: seq<Step>)
    requires Shape(maxEntries, s) && Runs(maxEntries, s, steps) && Coherent(s) && InsertsCovered(maxEntries, s, steps)
    ensures Coherent(After(maxEntries, s, steps))
    decreases steps
  {
    if steps != [] {
      StepKeepsShape(maxEntries, s, steps[0]);
      StepKeepsCoherence(maxEntries, s, steps[0]);
      if steps[0].GetInsert? {
        InsertKeepsCoherenceIff(maxEntries, s);
      }
      RunKeepsCoherence(maxEntries, Next(maxEntries, s, steps[0]), steps[1..]);
    }
  }

  /** If no reply is overtaken, every insertion is covered; so the only source of incoherence is the delivery
      that overtakes a reply. */
  lemma {:induction false} NeverOvertakenIsCovered(maxEntries: nat, s: Sys, steps: seq<Step>)
    requires Shape(maxEntries, s) && Runs(maxEntries, s, steps) && NeverOvertaken(maxEntries, s, steps)
    requires Coherent(s) && FetchCovered(s)
    ensures InsertsCovered(maxEntries, s, steps)
    decreases steps
  {
    if steps != [] {
      StepKeepsShape(maxEntries, s, steps[0]);
      StepKeepsCoherence(maxEntries, s, steps[0]);
      if steps[0].GetInsert? {
        InsertKeepsCoherenceIff(maxEntries, s);
      }
      NeverOvertakenIsCovered(maxEntries, Next(maxEntries, s, steps[0]), steps[1..]);
    }
  }

  /** What a get started and finished now would return: the cached entry, or else the server's. */
  ghost function Answer(s: Sys, k: Key): Option<Versioned>
    requires WellFormed(s)
  {
    if k in s.near.entries then Some(s.near.entries[k]) else Lookup(Current(s), k)
  }

  /** Near-cache coherence: in every run from an empty near cache whose insertions are covered, and so in every
      run in which no reply is overtaken, each cached entry is the server's or is about to be invalidated; once
      nothing is pending, every get, hit or miss, answers what the server would. */
  lemma Coherence(maxEntries: nat, store: Store, steps: seq<Step>)
    requires Runs(maxEntries, Initial(store), steps)
    requires InsertsCovered(maxEntries, Initial(store), steps) || NeverOvertaken(maxEntries, Initial(store), steps)
    ensures var s := After(maxEntries, Initial(store), steps);
      && Coherent(s)
      && (s.pending == [] ==> forall k :: Answer(s, k) == Lookup(Current(s), k))
  {
    if NeverOvertaken(maxEntries, Initial(store), steps) {
      NeverOvertakenIsCovered(maxEntries, Initial(store), steps);
    }
    RunKeepsCoherence(maxEntries, Initial(store), steps);
    var s := After(maxEntries, Initial(store), steps);
    forall k | s.pending == [] ensures Answer(s, k) == Lookup(Current(s), k) {
      assert k in s.near.entries ==> Covered(s, k, Some(s.near.entries[k]));
    }
  }
}
