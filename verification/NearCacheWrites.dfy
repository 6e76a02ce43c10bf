/**
 Read-your-writes by value: what the server holds after each kind of write, what the next get answers, what the
 client logs, and which cached entries a step leaves alone.
 */
module NearCacheWrites {
  import opened Wrappers
  import opened NearCache
  import opened NearCacheProtocol

  // --------------------------------------------------------------------------- what a write leaves behind

  /** What the server holds under the key of a write that found `before` there and got version `n`. */
  function Left(w: Write, before: Option<Versioned>, n: int): Option<Versioned> {
    match w
    case Put(v) => Some(Versioned(v, n))
    case Replace(v) => if before == None then None else Some(Versioned(v, n))
    case Remove => None
  }

  ghost function Held(s: Sys, k: Key): Option<Versioned>
    requires WellFormed(s)
  {
    Lookup(Current(s), k)
  }

  /** Steps of the server, the events and the other clients that do not write `k`. */
  ghost predicate Background(st: Step, k: Key) {
    st.Deliver? || st.LoseConnection? || (st.OtherWrite? && st.key != k)
  }

  ghost predicate AllBackground(steps: seq<Step>, k: Key) {
    forall i :: 0 <= i < |steps| ==> Background(steps[i], k)
  }

  /** They do not move the client, change what the server holds under `k`, or bring `k` into the near cache. */
  lemma BackgroundKeeps(maxEntries: nat, s: Sys, st: Step, k: Key)
    requires WellFormed(s) && Enabled(s, st) && Background(st, k)
    ensures var s' := Next(maxEntries, s, st);
      && s'.pc == s.pc && s'.log == s.log && Held(s', k) == Held(s, k)
      && (k in s'.near.entries ==> k in s.near.entries && s'.near.entries[k] == s.near.entries[k])
  {
  }

  lemma {:induction false} BackgroundRunKeeps(maxEntries: nat, s: Sys, steps: seq<Step>, k: Key)
    requires Shape(maxEntries, s) && Runs(maxEntries, s, steps) && AllBackground(steps, k)
    ensures var s' := After(maxEntries, s, steps);
      && s'.pc == s.pc && s'.log == s.log && Held(s', k) == Held(s, k)
      && (k in s'.near.entries ==> k in s.near.entries && s'.near.entries[k] == s.near.entries[k])
    decreases steps
  {
    if steps != [] {
      StepKeepsShape(maxEntries, s, steps[0]);
      BackgroundKeeps(maxEntries, s, steps[0], k);
      assert Background(steps[0], k);
      BackgroundRunKeeps(maxEntries, Next(maxEntries, s, steps[0]), steps[1..], k);
    }
  }

  /** The state after `st` and then a run of background steps. */
  ghost predicate LeadsTo(maxEntries: nat, s: Sys, st: Step, steps: seq<Step>, s': Sys) {
    && Shape(maxEntries, s) && Enabled(s, st)
    && Shape(maxEntries, Next(maxEntries, s, st))
    && Runs(maxEntries, Next(maxEntries, s, st), steps)
    && After(maxEntries, Next(maxEntries, s, st), steps) == s'
  }

  /** What the background leaves of the state right after `st`. */
  lemma LeadsToKeeps(maxEntries: nat, s: Sys, st: Step, steps: seq<Step>, s': Sys, k: Key)
    requires LeadsTo(maxEntries, s, st, steps, s') && AllBackground(steps, k)
    ensures var s1 := Next(maxEntries, s, st);
      && s'.pc == s1.pc && s'.log == s1.log && Held(s', k) == Held(s1, k)
      && (k in s'.near.entries ==> k in s1.near.entries && s'.near.entries[k] == s1.near.entries[k])
  {
    BackgroundRunKeeps(maxEntries, Next(maxEntries, s, st), steps, k);
  }

  lemma BeginEffect(maxEntries: nat, s: Sys, k: Key, w: Write)
    requires WellFormed(s)
    ensures var s' := Next(maxEntries, s, BeginWrite(k, w));
      s'.pc == Writing(k, w) && s'.log == s.log && Held(s', k) == Held(s, k) && k !in s'.near.entries
  {
  }

  lemma FinishEffect(maxEntries: nat, s: Sys, k: Key, w: Write, n: int)
    requires WellFormed(s) && s.pc == Writing(k, w) && k !in s.near.entries
    ensures var s' := Next(maxEntries, s, FinishWrite(n));
      && s'.pc == Idle && Held(s', k) == Left(w, Held(s, k), n) && k !in s'.near.entries
      && s'.log == s.log + if w.Put? || Held(s, k) != None then [Wrote(k, |s.hist|)] else []
  {
  }

  /** put, replace and remove: the entry is dropped first and the server written then, with anything in the
      background between and after. The server ends with what was written, nothing stale is cached, and the
      write is logged if it took effect. */
  lemma WriteTakesEffect(maxEntries: nat, s: Sys, k: Key, w: Write, n: int, mid: seq<Step>, s1: Sys,
                         rest: seq<Step>, s2: Sys)
    requires s.pc.Idle? && LeadsTo(maxEntries, s, BeginWrite(k, w), mid, s1) && AllBackground(mid, k)
    requires LeadsTo(maxEntries, s1, FinishWrite(n), rest, s2) && AllBackground(rest, k)
    ensures s2.pc == Idle && Held(s2, k) == Left(w, Held(s, k), n) && k !in s2.near.entries
    ensures s2.log == s.log + if w.Put? || Held(s, k) != None then [Wrote(k, |s1.hist|)] else []
  {
    BeginEffect(maxEntries, s, k, w);
    LeadsToKeeps(maxEntries, s, BeginWrite(k, w), mid, s1, k);
    FinishEffect(maxEntries, s1, k, w, n);
    LeadsToKeeps(maxEntries, s1, FinishWrite(n), rest, s2, k);
  }

  lemma VersionedEffect(maxEntries: nat, s: Sys, k: Key, v: Option<Value>, expected: int, n: int)
    requires WellFormed(s) && Held(s, k).Some? && Held(s, k).value.version == expected
    ensures var s' := Next(maxEntries, s, VersionedStep(k, v, expected, n));
      && s'.pc == Dropping(k) && s'.log == s.log + [Wrote(k, |s.hist|)]
      && Held(s', k) == if v.Some? then Some(Versioned(v.value, n)) else None
  {
  }

  lemma DropEffect(maxEntries: nat, s: Sys, k: Key)
    requires WellFormed(s) && s.pc == Dropping(k)
    ensures var s' := Next(maxEntries, s, DropLocal);
      s'.pc == Idle && s'.log == s.log && Held(s', k) == Held(s, k) && k !in s'.near.entries
  {
  }

  /** replaceWithVersion and removeWithVersion: `v` is the new value, or none for a removal. With the version the
      server holds, it is written and the entry dropped afterwards. */
  lemma VersionedWriteTakesEffect(maxEntries: nat, s: Sys, k: Key, v: Option<Value>, expected: int, n: int,
                                  mid: seq<Step>, s1: Sys, rest: seq<Step>, s2: Sys)
    requires LeadsTo(maxEntries, s, VersionedStep(k, v, expected, n), mid, s1) && AllBackground(mid, k)
    requires Held(s, k).Some? && Held(s, k).value.version == expected
    requires LeadsTo(maxEntries, s1, DropLocal, rest, s2) && AllBackground(rest, k)
    ensures s2.pc == Idle && k !in s2.near.entries && s2.log == s.log + [Wrote(k, |s.hist|)]
    ensures Held(s2, k) == if v.Some? then Some(Versioned(v.value, n)) else None
  {
    VersionedEffect(maxEntries, s, k, v, expected, n);
    LeadsToKeeps(maxEntries, s, VersionedStep(k, v, expected, n), mid, s1, k);
    DropEffect(maxEntries, s1, k);
    LeadsToKeeps(maxEntries, s1, DropLocal, rest, s2, k);
  }

  function VersionedStep(k: Key, v: Option<Value>, expected: int, n: int): Step {
    if v.Some? then ReplaceWithVersion(k, v.value, expected, n) else RemoveWithVersion(k, expected)
  }

  /** With any other version, or no value at all, nothing changes. */
  lemma VersionedWriteRefused(maxEntries: nat, s: Sys, k: Key, v: Option<Value>, expected: int, n: int)
    requires WellFormed(s) && (Held(s, k) == None || Held(s, k).value.version != expected)
    ensures Next(maxEntries, s, VersionedStep(k, v, expected, n)) == s
  {
  }

  lemma ClearRemoteEffect(maxEntries: nat, s: Sys, order: seq<Key>, k: Key)
    requires WellFormed(s)
    ensures var s' := Next(maxEntries, s, ClearRemote(order));
      s'.pc == Clearing && s'.log == s.log + [Cleared(|s.hist|)] && Held(s', k) == None
  {
  }

  lemma ClearLocalEffect(maxEntries: nat, s: Sys)
    requires WellFormed(s)
    ensures Next(maxEntries, s, ClearLocal) == s.(near := EMPTY, pc := Idle)
  {
  }

  /** clear empties the server and then the near cache. */
  lemma ClearTakesEffect(maxEntries: nat, s: Sys, order: seq<Key>, mid: seq<Step>, s1: Sys, k: Key)
    requires LeadsTo(maxEntries, s, ClearRemote(order), mid, s1) && AllBackground(mid, k)
    ensures s1.pc == Clearing && Held(s1, k) == None && s1.log == s.log + [Cleared(|s.hist|)]
    ensures var s2 := Next(maxEntries, s1, ClearLocal);
      s2.pc == Idle && s2.near == EMPTY && Held(s2, k) == None && s2.log == s1.log
  {
    ClearRemoteEffect(maxEntries, s, order, k);
    LeadsToKeeps(maxEntries, s, ClearRemote(order), mid, s1, k);
    ClearLocalEffect(maxEntries, s1);
  }

  /** putIfAbsent writes an absent key and leaves a present one alone. */
  lemma PutIfAbsentTakesEffect(maxEntries: nat, s: Sys, k: Key, v: Value, n: int)
    requires WellFormed(s) && s.pc.Idle?
    ensures var s' := Next(maxEntries, s, PutIfAbsent(k, v, n));
      && (Held(s, k) != None ==> s' == s)
      && (Held(s, k) == None ==> Held(s', k) == Some(Versioned(v, n)) && s'.log == s.log + [Wrote(k, |s.hist|)])
  {
  }

  /** A write by anybody changes the server under its own key only. */
  lemma OtherKeysStay(maxEntries: nat, s: Sys, st: Step, k: Key)
    requires WellFormed(s) && Enabled(s, st) && !st.ClearRemote? && !st.OtherClear?
    requires st.FinishWrite? ==> s.pc.key != k
    requires st.ReplaceWithVersion? || st.RemoveWithVersion? || st.PutIfAbsent? || st.OtherWrite? ==> st.key != k
    ensures Held(Next(maxEntries, s, st), k) == Held(s, k)
  {
  }

  lemma OthersWrite(maxEntries: nat, s: Sys, k: Key, v: Option<Versioned>, order: seq<Key>)
    requires WellFormed(s)
    ensures Held(Next(maxEntries, s, OtherWrite(k, v)), k) == v
    ensures Held(Next(maxEntries, s, OtherClear(order)), k) == None
  {
  }

  // --------------------------------------------------------------------------------------- what a get answers

  lemma FetchEffect(maxEntries: nat, s: Sys, k: Key)
    requires WellFormed(s)
    ensures Next(maxEntries, s, GetFetch(k)) == s.(pc := Fetched(k, Held(s, k), |s.hist| - 1))
  {
  }

  lemma InsertEffect(maxEntries: nat, s: Sys, k: Key, reply: Option<Versioned>, at: nat)
    requires Shape(maxEntries, s) && s.pc == Fetched(k, reply, at)
    ensures var s' := Next(maxEntries, s, GetInsert);
      && s'.pc == Idle && s'.log == s.log + [Read(k, reply, at)] && s'.hist == s.hist
      && (reply == None ==> s'.near == s.near)
      && (reply != None ==> k in s'.near.entries && s'.near.entries[k] == reply.value)
  {
    if reply != None {
      AddKeepsBound(maxEntries, s.near, k, reply.value);
    }
  }

  /** A miss answers what the server held at the fetch, whatever happens in the background meanwhile, caches it if
      it is a value, and logs it. */
  lemma MissAnswers(maxEntries: nat, s: Sys, k: Key, mid: seq<Step>, s1: Sys)
    requires LeadsTo(maxEntries, s, GetFetch(k), mid, s1) && AllBackground(mid, k) && Shape(maxEntries, s1)
    ensures var s2 := Next(maxEntries, s1, GetInsert);
      && s2.pc == Idle && s2.log == s.log + [Read(k, Held(s, k), |s.hist| - 1)] && Held(s2, k) == Held(s, k)
      && (Held(s, k) == None ==> s2.near == s1.near)
      && (Held(s, k) != None ==> k in s2.near.entries && s2.near.entries[k] == Held(s, k).value)
  {
    FetchEffect(maxEntries, s, k);
    LeadsToKeeps(maxEntries, s, GetFetch(k), mid, s1, k);
    InsertEffect(maxEntries, s1, k, Held(s, k), |s.hist| - 1);
  }

  /** A hit answers the cached entry, logs it and changes nothing else. */
  lemma HitAnswers(maxEntries: nat, s: Sys, k: Key)
    requires WellFormed(s) && k in s.near.entries && k in s.readAt
    ensures Next(maxEntries, s, GetHit(k)) == s.(log := s.log + [Read(k, Some(s.near.entries[k]), s.readAt[k])])
  {
  }

  /** Read-your-writes by value: a get after a finished write of its key answers what the write left behind. */
  lemma GetAnswersOwnWrite(maxEntries: nat, s: Sys, k: Key, w: Write, n: int, mid: seq<Step>, s1: Sys,
                           rest: seq<Step>, s2: Sys, fetching: seq<Step>, s3: Sys)
    requires s.pc.Idle? && LeadsTo(maxEntries, s, BeginWrite(k, w), mid, s1) && AllBackground(mid, k)
    requires LeadsTo(maxEntries, s1, FinishWrite(n), rest, s2) && AllBackground(rest, k)
    requires LeadsTo(maxEntries, s2, GetFetch(k), fetching, s3) && AllBackground(fetching, k)
    requires Shape(maxEntries, s3)
    ensures Next(maxEntries, s3, GetInsert).log == s2.log + [Read(k, Left(w, Held(s, k), n), |s2.hist| - 1)]
  {
    WriteTakesEffect(maxEntries, s, k, w, n, mid, s1, rest, s2);
    MissAnswers(maxEntries, s2, k, fetching, s3);
  }

  // ---------------------------------------------------------- which locked region each step runs

  /** The near cache after a step is what one locked region, or none, makes of it. */
  ghost function RegionOf(s: Sys, st: Step): Option<Region> {
    match st
    case GetInsert => if s.pc.Fetched? && s.pc.reply.Some? then Some(Add(s.pc.key, s.pc.reply.value)) else None
    case BeginWrite(k, _) => Some(Region.Remove(k))
    case DropLocal => if s.pc.Dropping? then Some(Region.Remove(s.pc.key)) else None
    case ClearLocal => Some(ClearMap)
    case Deliver =>
      if s.pending == [] then None
      else if s.pending[0] == FailOver then Some(InvalidateCache)
      else Some(Region.Remove(s.pending[0].key))
    case _ => None
  }

  lemma StepRunsRegion(maxEntries: nat, s: Sys, st: Step)
    requires WellFormed(s) && Enabled(s, st)
    ensures Next(maxEntries, s, st).near
         == if RegionOf(s, st).Some? then Apply(maxEntries, s.near, RegionOf(s, st).value) else s.near
  {
  }

  /** Events are delivered in order, one at a time; fail-over brings the listener back. Losing the connection loses
      a tail of them and leaves fail-over as the next to come. */
  lemma EventsInOrder(maxEntries: nat, s: Sys, kept: nat)
    requires WellFormed(s)
    ensures s.pending != [] ==>
      var s' := Next(maxEntries, s, Deliver);
      s'.pending == s.pending[1..] && s'.listening == (s.listening || s.pending[0] == FailOver) && s'.hist == s.hist
    ensures kept <= |s.pending| ==>
      Next(maxEntries, s, LoseConnection(kept)) == s.(pending := s.pending[..kept] + [FailOver], listening := false)
  {
  }

  // ------------------------------------------------------------------------------- what is logged and kept

  /** The call that `st` completes, if any, and its key; a clear has none. */
  ghost predicate Completes(s: Sys, st: Step, o: Obs)
    requires WellFormed(s)
  {
    match o
    case Read(k, _, _) => st == GetHit(k) || (st == GetInsert && s.pc.Fetched? && s.pc.key == k)
    case Wrote(k, _) =>
      || (st.FinishWrite? && s.pc.Writing? && s.pc.key == k)
      || ((st.ReplaceWithVersion? || st.RemoveWithVersion? || st.PutIfAbsent?) && st.key == k)
    case Cleared(_) => st.ClearRemote?
  }

  /** A step logs at most one observation, and only of the call it completes. */
  lemma LogsOnlyItsCall(maxEntries: nat, s: Sys, st: Step)
    requires WellFormed(s) && Enabled(s, st)
    ensures var log := Next(maxEntries, s, st).log;
      log == s.log || (|log| == |s.log| + 1 && log[..|s.log|] == s.log && Completes(s, st, log[|s.log|]))
    ensures st.GetHit? || st.GetInsert? || st.ClearRemote? ==> Next(maxEntries, s, st).log != s.log
  {
    var log := Next(maxEntries, s, st).log;
    assert log != s.log ==> log[..|s.log|] == s.log;
  }

  /** The step may drop the cached entry of `k`: it is about `k`, about everything, or needs room. */
  ghost predicate MayDrop(maxEntries: nat, s: Sys, st: Step, k: Key) {
    match st
    case BeginWrite(x, _) => x == k
    case DropLocal => s.pc == Dropping(k)
    case ClearLocal => true
    case Deliver => s.pending != [] && s.pending[0] in {Changed(k), FailOver}
    case GetInsert => s.pc.Fetched? && (s.pc.key == k || (maxEntries > 0 && |s.near.entries| >= maxEntries))
    case _ => false
  }

  /** No other step touches a cached entry. */
  lemma EntriesStay(maxEntries: nat, s: Sys, st: Step, k: Key)
    requires Shape(maxEntries, s) && Enabled(s, st) && k in s.near.entries && !MayDrop(maxEntries, s, st, k)
    ensures k in Next(maxEntries, s, st).near.entries
    ensures Next(maxEntries, s, st).near.entries[k] == s.near.entries[k]
  {
  }
}
