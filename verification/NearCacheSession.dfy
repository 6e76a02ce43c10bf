/**
 Session guarantees of the near cache, for one client thread and any behaviour of the server, the other
 clients and the event channel: reads and own writes of a key never go backwards in the server's history.
 The last part shows where a guarantee stops, and exactly when.
 */
module NearCacheSession {
  import opened Wrappers
  import opened NearCache
  import opened NearCacheProtocol

  ghost predicate Touches(o: Obs, k: Key) {
    o.Cleared? || o.key == k
  }

  /** Nothing the client knows about `k` is newer than position `at`. */
  ghost predicate Newest(log: seq<Obs>, k: Key, at: nat) {
    forall i :: 0 <= i < |log| && Touches(log[i], k) ==> log[i].at <= at
  }

  /** Every read answered from the server's history, at the position it claims. */
  ghost predicate Truthful(hist: seq<Store>, log: seq<Obs>) {
    forall i :: 0 <= i < |log| ==>
      log[i].at < |hist| && (log[i].Read? ==> log[i].result == Lookup(hist[log[i].at], log[i].key))
  }

  /** For each key, later observations are of later positions. */
  ghost predicate Monotone(log: seq<Obs>) {
    forall i, j, k :: 0 <= i < j < |log| && Touches(log[i], k) && Touches(log[j], k) ==> log[i].at <= log[j].at
  }

  /** Between an own write and the local drop that follows it, the written entry may be out of date. */
  ghost predicate Exempt(s: Sys, k: Key) {
    s.pc == Dropping(k) || s.pc.Clearing?
  }

  ghost predicate EntryFits(s: Sys, k: Key)
    requires k in s.near.entries && k in s.readAt
  {
    && s.readAt[k] < |s.hist|
    && Lookup(s.hist[s.readAt[k]], k) == Some(s.near.entries[k])
    && (Exempt(s, k) || Newest(s.log, k, s.readAt[k]))
  }

  ghost predicate PcFits(s: Sys) {
    match s.pc
    case Fetched(k, reply, at) =>
      && k !in s.near.entries
      && at < |s.hist| && reply == Lookup(s.hist[at], k) && Newest(s.log, k, at)
    case Writing(k, _) => k !in s.near.entries
    case _ => true
  }

  ghost predicate Session(s: Sys) {
    && Truthful(s.hist, s.log)
    && Monotone(s.log)
    && s.near.entries.Keys <= s.readAt.Keys
    && (forall k :: k in s.near.entries ==> EntryFits(s, k))
    && PcFits(s)
  }

  /** Observing the newest position known for the touched keys keeps the log in order. */
  lemma Observe(hist: seq<Store>, log: seq<Obs>, o: Obs)
    requires Truthful(hist, log) && Monotone(log)
    requires o.at < |hist| && (o.Read? ==> o.result == Lookup(hist[o.at], o.key))
    requires forall k :: Touches(o, k) ==> Newest(log, k, o.at)
    ensures Truthful(hist, log + [o]) && Monotone(log + [o])
  {
  }

  /** A longer history leaves every past answer true. */
  lemma Extend(s: Sys, store: Store)
    requires Session(s)
    ensures Session(s.(hist := s.hist + [store]))
  {
    var s' := s.(hist := s.hist + [store]);
    forall k | k in s'.near.entries ensures EntryFits(s', k) {
      assert EntryFits(s, k);
    }
    assert PcFits(s');
  }

  lemma HitKeepsSession(maxEntries: nat, s: Sys, k: Key)
    requires Shape(maxEntries, s) && Enabled(s, GetHit(k)) && Session(s)
    ensures Session(Next(maxEntries, s, GetHit(k)))
  {
    var s' := Next(maxEntries, s, GetHit(k));
    assert EntryFits(s, k);
    Observe(s.hist, s.log, HitOf(s, k));
    forall k' | k' in s'.near.entries ensures EntryFits(s', k') {
      assert EntryFits(s, k');
    }
  }

  /** Observing `k` at its newest known position leaves what is known of every key as new as before. */
  lemma StillNewest(log: seq<Obs>, o: Obs, k: Key, at: nat)
    requires Newest(log, k, at) && (Touches(o, k) ==> o.at <= at)
    ensures Newest(log + [o], k, at)
  {
  }

  /** The state after inserting `v`, read at position `at`. */
  function Inserted(maxEntries: nat, s: Sys, k: Key, v: Versioned, at: nat): Sys {
    s.(pc := Idle, log := s.log + [Read(k, Some(v), at)],
       near := AddElement(maxEntries, s.near, k, v), readAt := s.readAt[k := at])
  }

  lemma AddedFits(maxEntries: nat, s: Sys, k: Key, v: Versioned, at: nat)
    requires Bounded(maxEntries, s.near)
    requires at < |s.hist| && Lookup(s.hist[at], k) == Some(v) && Newest(s.log, k, at)
    ensures k in Inserted(maxEntries, s, k, v, at).near.entries
    ensures EntryFits(Inserted(maxEntries, s, k, v, at), k)
  {
    AddKeepsBound(maxEntries, s.near, k, v);
    StillNewest(s.log, Read(k, Some(v), at), k, at);
  }

  lemma OthersFit(maxEntries: nat, s: Sys, k: Key, v: Versioned, at: nat, k': Key)
    requires Bounded(maxEntries, s.near) && k' != k && !Exempt(s, k')
    requires k' in Inserted(maxEntries, s, k, v, at).near.entries && k' in s.readAt
    requires k' in s.near.entries ==> EntryFits(s, k')
    ensures EntryFits(Inserted(maxEntries, s, k, v, at), k')
  {
    AddKeepsBound(maxEntries, s.near, k, v);
    StillNewest(s.log, Read(k, Some(v), at), k', s.readAt[k']);
  }

  lemma InsertKeepsSession(maxEntries: nat, s: Sys)
    requires Shape(maxEntries, s) && Enabled(s, GetInsert) && Session(s)
    ensures Session(Next(maxEntries, s, GetInsert))
  {
    var s' := Next(maxEntries, s, GetInsert);
    var k, at := s.pc.key, s.pc.at;
    Observe(s.hist, s.log, Read(k, s.pc.reply, at));
    StepKeepsShape(maxEntries, s, GetInsert);
    forall k' | k' in s'.near.entries ensures EntryFits(s', k') {
      if s.pc.reply.None? {
        assert EntryFits(s, k');
      } else if k' == k {
        AddedFits(maxEntries, s, k, s.pc.reply.value, at);
      } else {
        OthersFit(maxEntries, s, k, s.pc.reply.value, at, k');
      }
    }
  }

  lemma ReadKeepsSession(maxEntries: nat, s: Sys, st: Step)
    requires Shape(maxEntries, s) && Enabled(s, st) && Session(s)
    requires st.GetHit? || st.GetFetch? || st.GetInsert?
    ensures Session(Next(maxEntries, s, st))
  {
    if st.GetHit? {
      HitKeepsSession(maxEntries, s, st.key);
    } else if st.GetInsert? {
      InsertKeepsSession(maxEntries, s);
    } else {
      var s' := Next(maxEntries, s, st);
      forall k' | k' in s'.near.entries ensures EntryFits(s', k') {
        assert EntryFits(s, k');
      }
    }
  }

  /** Dropping entries, locally or because of an event, needs no argument about time. */
  lemma DropKeepsSession(maxEntries: nat, s: Sys, st: Step)
    requires Shape(maxEntries, s) && Enabled(s, st) && Session(s)
    requires st.BeginWrite? || st.DropLocal? || st.ClearLocal? || st.Deliver? || st.LoseConnection?
    ensures Session(Next(maxEntries, s, st))
  {
    var s' := Next(maxEntries, s, st);
    forall k | k in s'.near.entries ensures EntryFits(s', k) {
      assert k in s.near.entries && EntryFits(s, k);
    }
  }

  lemma OwnWriteKeepsSession(s: Sys, k: Key, v: Option<Versioned>, pc: Pc)
    requires Session(s) && WellFormed(s)
    requires pc == Dropping(k) || (pc == Idle && k !in s.near.entries)
    requires s.pc.Idle? || s.pc.Writing?
    ensures Session(OwnWrite(s, k, v, pc))
  {
    var s' := OwnWrite(s, k, v, pc);
    Extend(s, Set(Current(s), k, v));
    Observe(s'.hist, s.log, Wrote(k, |s.hist|));
    forall k' | k' in s'.near.entries ensures EntryFits(s', k') {
      assert EntryFits(s, k');
    }
  }

  lemma WriteKeepsSession(maxEntries: nat, s: Sys, st: Step)
    requires Shape(maxEntries, s) && Enabled(s, st) && Session(s)
    requires st.FinishWrite? || st.ReplaceWithVersion? || st.RemoveWithVersion?
    ensures Session(Next(maxEntries, s, st))
  {
    match st
    case FinishWrite(version) =>
      if Effective(s, s.pc.key, s.pc.write) {
        OwnWriteKeepsSession(s, s.pc.key, Written(s.pc.write, version), Idle);
      } else {
        forall k | k in s.near.entries ensures EntryFits(s.(pc := Idle), k) {
          assert EntryFits(s, k);
        }
      }
    case ReplaceWithVersion(k, v, expected, version) =>
      if HasVersion(s, k, expected) {
        OwnWriteKeepsSession(s, k, Some(Versioned(v, version)), Dropping(k));
      }
    case RemoveWithVersion(k, expected) =>
      if HasVersion(s, k, expected) {
        OwnWriteKeepsSession(s, k, None, Dropping(k));
      }
  }

  lemma ServerKeepsSession(maxEntries: nat, s: Sys, st: Step)
    requires Shape(maxEntries, s) && Enabled(s, st) && Session(s)
    requires st.ClearRemote? || st.OtherWrite? || st.OtherClear?
    ensures Session(Next(maxEntries, s, st))
  {
    var s' := Next(maxEntries, s, st);
    Extend(s, s'.hist[|s.hist|]);
    if st.ClearRemote? {
      Observe(s'.hist, s.log, Cleared(|s.hist|));
    }
    forall k | k in s'.near.entries ensures EntryFits(s', k) {
      assert EntryFits(s, k);
    }
  }

  /** putIfAbsent is not overridden and leaves a cached entry in place: it is harmless when the server refuses
      it, or when nothing is cached under its key. Every other step is harmless. */
  ghost predicate Harmless(s: Sys, st: Step)
    requires WellFormed(s)
  {
    st.PutIfAbsent? ==> st.key in Current(s) || st.key !in s.near.entries
  }

  lemma PutIfAbsentKeepsSessionIff(maxEntries: nat, s: Sys, k: Key, v: Value, version: int)
    requires Shape(maxEntries, s) && s.pc.Idle? && Session(s)
    ensures Session(Next(maxEntries, s, PutIfAbsent(k, v, version))) <==> k in Current(s) || k !in s.near.entries
  {
    if k !in Current(s) {
      var s' := Next(maxEntries, s, PutIfAbsent(k, v, version));
      if k !in s.near.entries {
        OwnWriteKeepsSession(s, k, Some(Versioned(v, version)), Idle);
      } else {
        assert EntryFits(s, k);
        assert s'.log[|s.log|] == Wrote(k, |s.hist|);
        assert !Newest(s'.log, k, s'.readAt[k]);
        assert !EntryFits(s', k);
      }
    }
  }

  /** A step keeps the session invariant exactly when it is harmless. */
  lemma StepKeepsSessionIff(maxEntries: nat, s: Sys, st: Step)
    requires Shape(maxEntries, s) && Enabled(s, st) && Session(s)
    ensures Session(Next(maxEntries, s, st)) <==> Harmless(s, st)
  {
    if st.PutIfAbsent? {
      PutIfAbsentKeepsSessionIff(maxEntries, s, st.key, st.value, st.version);
    } else if st.GetHit? || st.GetFetch? || st.GetInsert? {
      ReadKeepsSession(maxEntries, s, st);
    } else if st.FinishWrite? || st.ReplaceWithVersion? || st.RemoveWithVersion? {
      WriteKeepsSession(maxEntries, s, st);
    } else if st.ClearRemote? || st.OtherWrite? || st.OtherClear? {
      ServerKeepsSession(maxEntries, s, st);
    } else {
      DropKeepsSession(maxEntries, s, st);
    }
  }

  /** Every step of the run is harmless. */
  ghost predicate AllHarmless(maxEntries: nat, s: Sys, steps: seq<Step>)
    requires Shape(maxEntries, s) && Runs(maxEntries, s, steps)
    decreases steps
  {
    steps != [] ==>
      && Harmless(s, steps[0])
      && (StepKeepsShape(maxEntries, s, steps[0]);
          AllHarmless(maxEntries, Next(maxEntries, s, steps[0]), steps[1..]))
  }

  /** Every state that the run goes through meets the session invariant. */
  ghost predicate AlwaysSession(maxEntries: nat, s: Sys, steps: seq<Step>)
    requires Shape(maxEntries, s) && Runs(maxEntries, s, steps)
    decreases steps
  {
    && Session(s)
    && (steps != [] ==>
          (StepKeepsShape(maxEntries, s, steps[0]);
           AlwaysSession(maxEntries, Next(maxEntries, s, steps[0]), steps[1..])))
  }

  /** A run meets the session invariant throughout exactly when no accepted putIfAbsent in it finds its key
      cached. */
  lemma {:induction false} SessionThroughoutIff(maxEntries: nat, s: Sys, steps: seq<Step>)
    requires Shape(maxEntries, s) && Runs(maxEntries, s, steps) && Session(s)
    ensures AlwaysSession(maxEntries, s, steps) <==> AllHarmless(maxEntries, s, steps)
    decreases steps
  {
    if steps != [] {
      var s' := Next(maxEntries, s, steps[0]);
      StepKeepsShape(maxEntries, s, steps[0]);
      StepKeepsSessionIff(maxEntries, s, steps[0]);
      if Session(s') {
        SessionThroughoutIff(maxEntries, s', steps[1..]);
      }
    }
  }

  lemma {:induction false} RunKeepsSession(maxEntries: nat, s: Sys, steps: seq<Step>)
    requires Shape(maxEntries, s) && Runs(maxEntries, s, steps) && Session(s) && AllHarmless(maxEntries, s, steps)
    ensures Session(After(maxEntries, s, steps))
    decreases steps
  {
    if steps != [] {
      StepKeepsShape(maxEntries, s, steps[0]);
      StepKeepsSessionIff(maxEntries, s, steps[0]);
      RunKeepsSession(maxEntries, Next(maxEntries, s, steps[0]), steps[1..]);
    }
  }

  /** Read-your-writes and monotonic reads, with any events pending, in every run in which no accepted putIfAbsent
      finds its key cached: a read of `k` that follows an own write, clear or read of `k` answers from the same
      or a later position of the server's history. */
  lemma SessionGuarantees(maxEntries: nat, store: Store, steps: seq<Step>, i: nat, j: nat, k: Key)
    requires Runs(maxEntries, Initial(store), steps) && AllHarmless(maxEntries, Initial(store), steps)
    requires var log := After(maxEntries, Initial(store), steps).log;
      i < j < |log| && Touches(log[i], k) && log[j].Read? && log[j].key == k
    ensures var s := After(maxEntries, Initial(store), steps);
      && s.log[i].at <= s.log[j].at < |s.hist|
      && s.log[j].result == Lookup(s.hist[s.log[j].at], k)
  {
    RunKeepsSession(maxEntries, Initial(store), steps);
  }

  // ------------------------------------------------------------------------------------ where it stops

  /** `st` may happen in `s` and leads to `s'`. */
  ghost predicate Leads(maxEntries: nat, s: Sys, st: Step, s': Sys) {
    Shape(maxEntries, s) && Enabled(s, st) && Next(maxEntries, s, st) == s'
  }

  lemma RunCons(maxEntries: nat, s: Sys, st: Step, s': Sys, rest: seq<Step>)
    requires Leads(maxEntries, s, st, s') && Shape(maxEntries, s')
    requires Runs(maxEntries, s', rest)
    ensures Runs(maxEntries, s, [st] + rest)
    ensures After(maxEntries, s, [st] + rest) == After(maxEntries, s', rest)
  {
    assert ([st] + rest)[1..] == rest;
  }

  lemma RunOfTwo(maxEntries: nat, s: Sys, a: Step, s1: Sys, b: Step, s2: Sys)
    requires Leads(maxEntries, s, a, s1) && Leads(maxEntries, s1, b, s2)
    ensures Shape(maxEntries, s2)
    ensures Runs(maxEntries, s, [a, b]) && After(maxEntries, s, [a, b]) == s2
  {
    StepKeepsShape(maxEntries, s1, b);
    RunCons(maxEntries, s1, b, s2, []);
    assert [b] + [] == [b] && [a] + [b] == [a, b];
    RunCons(maxEntries, s, a, s1, [b]);
  }

  /** A run of four steps, from its states. */
  lemma RunOfFour(maxEntries: nat, s: seq<Sys>, steps: seq<Step>)
    requires |s| == 5 && |steps| == 4
    requires Leads(maxEntries, s[0], steps[0], s[1]) && Leads(maxEntries, s[1], steps[1], s[2])
    requires Leads(maxEntries, s[2], steps[2], s[3]) && Leads(maxEntries, s[3], steps[3], s[4])
    ensures Runs(maxEntries, s[0], steps) && After(maxEntries, s[0], steps) == s[4]
  {
    RunOfTwo(maxEntries, s[2], steps[2], s[3], steps[3], s[4]);
    RunCons(maxEntries, s[1], steps[1], s[2], [steps[2], steps[3]]);
    RunCons(maxEntries, s[0], steps[0], s[1], [steps[1]] + [steps[2], steps[3]]);
    assert [steps[0]] + ([steps[1]] + [steps[2], steps[3]]) == steps;
  }

  /** A miss of `k`, up to the remote reply. */
  function Missed(store: Store, k: Key): Sys {
    Initial(store).(pc := Fetched(k, Lookup(store, k), 0))
  }

  lemma MissLeads(maxEntries: nat, store: Store, k: Key)
    ensures Leads(maxEntries, Initial(store), GetFetch(k), Missed(store, k))
    ensures Shape(maxEntries, Missed(store, k))
  {
  }

  /** Somebody else's write of `k` adds a store and an event. */
  lemma OtherLeads(maxEntries: nat, s: Sys, k: Key, v: Option<Versioned>, s': Sys)
    requires Shape(maxEntries, s) && s.listening
    requires s' == s.(hist := s.hist + [Set(Current(s), k, v)], pending := s.pending + [Changed(k)])
    ensures Leads(maxEntries, s, OtherWrite(k, v), s') && Shape(maxEntries, s')
  {
    assert Announce([k]) == [Changed(k)];
  }

  /** A four-step run that leaves a stale entry with nothing pending: the invalidation of the key arrives
      between the remote read and the insertion. */
  lemma OvertakenFetchIsIncoherent(maxEntries: nat, k: Key, v0: Versioned, v1: Versioned)
    requires v0 != v1
    ensures var steps := [GetFetch(k), OtherWrite(k, Some(v1)), Deliver, GetInsert];
      && Runs(maxEntries, Initial(map[k := v0]), steps)
      && var s := After(maxEntries, Initial(map[k := v0]), steps);
         && s.pending == [] && k in s.near.entries
         && s.near.entries[k] == v0 && Lookup(Current(s), k) == Some(v1)
         && !Coherent(s)
  {
    var s0 := Initial(map[k := v0]);
    var s1 := Missed(map[k := v0], k);
    var s2 := s1.(hist := s1.hist + [Set(Current(s1), k, Some(v1))], pending := s1.pending + [Changed(k)]);
    var s3 := Next(maxEntries, s2, Deliver);
    var s4 := Next(maxEntries, s3, GetInsert);
    MissLeads(maxEntries, map[k := v0], k);
    OtherLeads(maxEntries, s1, k, Some(v1), s2);
    LastWarningDelivered(maxEntries, s2, k, v0, v1);
    RunOfFour(maxEntries, [s0, s1, s2, s3, s4], [GetFetch(k), OtherWrite(k, Some(v1)), Deliver, GetInsert]);
  }

  /** The only event pending is that of the fetched key, and the server has moved on. */
  lemma LastWarningDelivered(maxEntries: nat, s: Sys, k: Key, v0: Versioned, v1: Versioned)
    requires Shape(maxEntries, s) && s.pc.Fetched? && s.pc.key == k && s.pc.reply == Some(v0) && s.near == EMPTY
    requires s.pending == [Changed(k)] && Lookup(Current(s), k) == Some(v1) && v0 != v1
    ensures var s3 := Next(maxEntries, s, Deliver);
      var s4 := Next(maxEntries, s3, GetInsert);
      && Leads(maxEntries, s, Deliver, s3) && Leads(maxEntries, s3, GetInsert, s4)
      && s4.pending == [] && k in s4.near.entries && s4.near.entries[k] == v0
      && Lookup(Current(s4), k) == Some(v1) && !Coherent(s4)
  {
    var s3 := Next(maxEntries, s, Deliver);
    StepKeepsShape(maxEntries, s, Deliver);
    AddKeepsBound(maxEntries, s3.near, k, v0);
    DeliverInsertCoherentIff(maxEntries, s);
  }

  /** What a client sees of it: a get right after putIfAbsent on a cached key goes backwards exactly when the
      server accepted. */
  lemma GetAfterPutIfAbsentIff(maxEntries: nat, s: Sys, k: Key, v: Value, version: int)
    requires Shape(maxEntries, s) && Session(s) && s.pc.Idle? && k in s.near.entries
    ensures var s' := Next(maxEntries, s, PutIfAbsent(k, v, version));
      Monotone(Next(maxEntries, s', GetHit(k)).log) <==> k in Current(s)
  {
    var s' := Next(maxEntries, s, PutIfAbsent(k, v, version));
    if k in Current(s) {
      HitKeepsSession(maxEntries, s, k);
    } else {
      assert EntryFits(s, k);
      PutIfAbsentLeads(maxEntries, s, k, v, version);
      StaleHit(maxEntries, s', k);
    }
  }

  /** A run in which it matters: the cached key is removed by someone else and the event is still pending,
      putIfAbsent succeeds, and the get that follows answers the removed value. */
  lemma PutIfAbsentBreaksSession(maxEntries: nat, k: Key, v0: Versioned, v: Value, version: int)
    ensures var steps := [GetFetch(k), GetInsert, OtherWrite(k, None), PutIfAbsent(k, v, version)];
      && Runs(maxEntries, Initial(map[k := v0]), steps)
      && var s := After(maxEntries, Initial(map[k := v0]), steps);
         && Enabled(s, GetHit(k))
         && Lookup(Current(s), k) == Some(Versioned(v, version))
         && HitOf(s, k).result == Some(v0)
         && !Monotone(Next(maxEntries, s, GetHit(k)).log)
  {
    var s0 := Initial(map[k := v0]);
    var s1 := Missed(map[k := v0], k);
    var s2 := Next(maxEntries, s1, GetInsert);
    var s3 := s2.(hist := s2.hist + [Set(Current(s2), k, None)], pending := s2.pending + [Changed(k)]);
    var s4 := Next(maxEntries, s3, PutIfAbsent(k, v, version));
    MissLeads(maxEntries, map[k := v0], k);
    InsertLeads(maxEntries, k, v0, s2);
    OtherLeads(maxEntries, s2, k, None, s3);
    PutIfAbsentLeads(maxEntries, s3, k, v, version);
    RunOfFour(maxEntries, [s0, s1, s2, s3, s4],
      [GetFetch(k), GetInsert, OtherWrite(k, None), PutIfAbsent(k, v, version)]);
    StaleHit(maxEntries, s4, k);
  }

  /** A putIfAbsent that the server accepts leaves the cached entry and its position alone. */
  lemma PutIfAbsentLeads(maxEntries: nat, s: Sys, k: Key, v: Value, version: int)
    requires Shape(maxEntries, s) && s.pc.Idle? && k !in Current(s)
    ensures var s' := Next(maxEntries, s, PutIfAbsent(k, v, version));
      && Leads(maxEntries, s, PutIfAbsent(k, v, version), s')
      && s'.pc.Idle? && s'.near == s.near && s'.readAt == s.readAt && |s'.hist| == |s.hist| + 1
      && s'.log == s.log + [Wrote(k, |s.hist|)]
      && Lookup(Current(s'), k) == Some(Versioned(v, version))
  {
  }

  /** The end of a first miss. */
  lemma InsertLeads(maxEntries: nat, k: Key, v0: Versioned, s: Sys)
    requires s == Next(maxEntries, Missed(map[k := v0], k), GetInsert)
    ensures Leads(maxEntries, Missed(map[k := v0], k), GetInsert, s) && Shape(maxEntries, s)
    ensures s.pc == Idle && s.listening && s.hist == [map[k := v0]] && s.readAt == map[k := 0]
    ensures k in s.near.entries && s.near.entries[k] == v0
  {
    var s1 := Missed(map[k := v0], k);
    MissLeads(maxEntries, map[k := v0], k);
    AddKeepsBound(maxEntries, s1.near, k, v0);
    StepKeepsShape(maxEntries, s1, GetInsert);
  }

  /** A hit on an entry read before an own write of its key goes backwards. */
  lemma StaleHit(maxEntries: nat, s: Sys, k: Key)
    requires WellFormed(s) && k in s.near.entries && k in s.readAt
    requires s.log != [] && s.log[|s.log| - 1] == Wrote(k, Now(s)) && s.readAt[k] < Now(s)
    ensures !Monotone(Next(maxEntries, s, GetHit(k)).log)
  {
    var log := Next(maxEntries, s, GetHit(k)).log;
    var n := |s.log|;
    assert log[n - 1] == s.log[n - 1] && log[n] == HitOf(s, k);
    assert Touches(log[n - 1], k) && Touches(log[n], k);
  }
}
