/**
 TransactionManager: begin, commit and rollback of the current thread's transaction, and the messages they
 send. Replies of the caches are inputs; a lost reply stands for any client exception other than a remote
 transaction state.
 */
module TwoPhaseCommit {
  import opened Wrappers
  import opened TransactionStatus
  import opened XaReplies

  /** Caches are kept in the order of the registering map. */
  type Cache = int
  type Thread = nat

  datatype Reply = Answered(code: Code) | Lost

  datatype World = World(votes: Cache -> Reply, commits: Cache -> Reply, rollbacks: Cache -> Reply)

  datatype Msg = Prepare(cache: Cache) | Commit(cache: Cache) | Rollback(cache: Cache)

  datatype Tx = Tx(status: Status, registered: seq<Cache>, prepared: set<Cache>)

  const FRESH := Tx(NoTransaction, [], {})

  datatype Failure = RemoteState(code: Code) | OtherFailure

  datatype Outcome = Done | RolledBackWith(code: Code) | RollbackFailed(failure: Failure) | IllegalState

  // -------------------------------------------------------------------------------------- phase one

  datatype Votes = AllReadOnly | Ready | Refused(code: Code) | Broken

  /** How many caches were asked, which of them now count as prepared, and what the votes amount to. */
  datatype Phase1 = Phase1(asked: nat, prepared: set<Cache>, result: Votes)

  function PrepareFrom(cs: seq<Cache>, votes: Cache -> Reply, i: nat, prepared: set<Cache>, readOnly: bool): Phase1
    requires i <= |cs|
    decreases |cs| - i
  {
    if i == |cs| then Phase1(i, prepared, if readOnly then AllReadOnly else Ready)
    else
      match votes(cs[i])
      case Lost => Phase1(i + 1, prepared, Broken)
      case Answered(c) =>
        if c == XA_OK then PrepareFrom(cs, votes, i + 1, prepared + {cs[i]}, false)
        else if c == XA_RDONLY then PrepareFrom(cs, votes, i + 1, prepared, readOnly)
        else Phase1(i + 1, prepared + {cs[i]}, Refused(c))
  }

  function PreparePhase(tx: Tx, votes: Cache -> Reply): Phase1 {
    PrepareFrom(tx.registered, votes, 0, tx.prepared, true)
  }

  // -------------------------------------------------------------------------------------- phase two

  /** Asking caches in order until one reply is lost. */
  datatype Asked = Asked(sent: nat, codes: seq<Code>, lost: bool)

  function AskFrom(cs: seq<Cache>, replies: Cache -> Reply, i: nat, codes: seq<Code>): Asked
    requires i <= |cs|
    decreases |cs| - i
  {
    if i == |cs| then Asked(i, codes, false)
    else
      match replies(cs[i])
      case Lost => Asked(i + 1, codes, true)
      case Answered(c) => AskFrom(cs, replies, i + 1, codes + [c])
  }

  function CommitPhase(cs: seq<Cache>, replies: Cache -> Reply): (nat, Option<Failure>) {
    var a := AskFrom(cs, replies, 0, []);
    (a.sent, if a.lost then Some(OtherFailure) else AsFailure(CommitVerdict(CommitFlags(a.codes))))
  }

  function RollbackPhase(cs: seq<Cache>, replies: Cache -> Reply): (nat, Option<Failure>) {
    var a := AskFrom(cs, replies, 0, []);
    (a.sent, if a.lost then Some(OtherFailure) else AsFailure(RollbackVerdict(RollbackFlags(a.codes))))
  }

  function AsFailure(v: Verdict): Option<Failure> {
    if v.Raised? then Some(RemoteState(v.code)) else None
  }

  /** The prepared caches in the order of the map. */
  function InOrder(cs: seq<Cache>, prepared: set<Cache>): seq<Cache> {
    if cs == [] then []
    else (if cs[0] in prepared then [cs[0]] else []) + InOrder(cs[1..], prepared)
  }

  function Prepares(cs: seq<Cache>): seq<Msg> { seq(|cs|, i requires 0 <= i < |cs| => Prepare(cs[i])) }

  function Commits(cs: seq<Cache>): seq<Msg> { seq(|cs|, i requires 0 <= i < |cs| => Commit(cs[i])) }

  function Rollbacks(cs: seq<Cache>): seq<Msg> { seq(|cs|, i requires 0 <= i < |cs| => Rollback(cs[i])) }

  datatype Report = Report(tx: Tx, trace: seq<Msg>, outcome: Outcome)

  /** Roll back what is prepared. If that fails the exception escapes before any clean-up. */
  function Abort(tx: Tx, sent: seq<Msg>, code: Code, replies: Cache -> Reply): Report {
    var targets := InOrder(tx.registered, tx.prepared);
    AskedWithin(targets, replies, 0, []);
    var (n, failure) := RollbackPhase(targets, replies);
    var trace := sent + Rollbacks(targets[..n]);
    if failure.Some? then Report(tx, trace, RollbackFailed(failure.value))
    else Report(FRESH, trace, RolledBackWith(code))
  }

  /** The code that a failed commit reports; only a remote transaction state has one of its own. */
  function CodeOf(failure: Option<Failure>): Option<Code> {
    match failure
    case None => None
    case Some(RemoteState(c)) => Some(c)
    case Some(OtherFailure) => Some(XA_RBROLLBACK)
  }

  /** Both phases of a commit: what was sent, what is prepared, and the code to roll back with, if any. */
  function Attempt(tx: Tx, w: World): (seq<Msg>, set<Cache>, Option<Code>) {
    VotesMean(tx, w.votes);
    AskedWithin(tx.registered, w.commits, 0, []);
    var p := PreparePhase(tx, w.votes);
    var asked := Prepares(tx.registered[..p.asked]);
    match p.result
    case AllReadOnly => (asked, p.prepared, None)
    case Refused(c) => (asked, p.prepared, Some(c))
    case Broken => (asked, p.prepared, Some(XA_RBROLLBACK))
    case Ready =>
      var (n, failure) := CommitPhase(tx.registered, w.commits);
      (asked + Commits(tx.registered[..n]), p.prepared, CodeOf(failure))
  }

  function CommitTx(tx: Tx, w: World): Report {
    if !CanCommit(tx.status) then Report(tx, [], IllegalState)
    else
      var (sent, prepared, code) := Attempt(tx, w);
      if code.None? then Report(FRESH, sent, Done)
      else Abort(tx.(prepared := prepared), sent, code.value, w.rollbacks)
  }

  function RollbackTx(tx: Tx, w: World): Report {
    if !CanRollback(tx.status) then Report(tx, [], IllegalState)
    else
      var r := Abort(tx, [], XA_RBROLLBACK, w.rollbacks);
      r.(outcome := if r.outcome.RolledBackWith? then Done else r.outcome)
  }

  // ----------------------------------------------------------------------------- what votes amount to

  predicate Good(r: Reply) {
    r == Answered(XA_OK) || r == Answered(XA_RDONLY)
  }

  ghost function OkVoters(cs: seq<Cache>, votes: Cache -> Reply): set<Cache> {
    set c | c in cs && votes(c) == Answered(XA_OK)
  }

  /** Phase one stops at the first bad vote and nowhere else, and the caches it leaves prepared are the ones
      prepared before, the XA_OK voters asked, and a voter that answered with a bad code. */
  ghost predicate VotesTold(cs: seq<Cache>, votes: Cache -> Reply, before: set<Cache>, p: Phase1) {
    && p.asked <= |cs|
    && (p.result.AllReadOnly? || p.result.Ready? ==> p.asked == |cs|)
    && (p.result.AllReadOnly? ==> forall j :: 0 <= j < |cs| ==> votes(cs[j]) == Answered(XA_RDONLY))
    && (p.result.Ready? ==>
          && (forall j :: 0 <= j < |cs| ==> Good(votes(cs[j])))
          && exists j :: 0 <= j < |cs| && votes(cs[j]) == Answered(XA_OK))
    && (p.result.Refused? || p.result.Broken? ==>
          && p.asked > 0
          && (forall j :: 0 <= j < p.asked - 1 ==> Good(votes(cs[j])))
          && votes(cs[p.asked - 1]) == (if p.result.Refused? then Answered(p.result.code) else Lost)
          && !Good(votes(cs[p.asked - 1])))
    && p.prepared == before + OkVoters(cs[..p.asked], votes)
                     + if p.result.Refused? then {cs[p.asked - 1]} else {}
  }

  lemma OneMoreVoter(cs: seq<Cache>, votes: Cache -> Reply, i: nat)
    requires i < |cs|
    ensures OkVoters(cs[..i + 1], votes)
         == OkVoters(cs[..i], votes) + if votes(cs[i]) == Answered(XA_OK) then {cs[i]} else {}
  {
    assert cs[..i + 1] == cs[..i] + [cs[i]];
  }

  /** The vote at position `i` is bad: phase one ends there. */
  lemma BadVoteTold(cs: seq<Cache>, votes: Cache -> Reply, i: nat, before: set<Cache>, readOnly: bool)
    requires i < |cs| && !Good(votes(cs[i])) && forall j :: 0 <= j < i ==> Good(votes(cs[j]))
    ensures VotesTold(cs, votes, before, PrepareFrom(cs, votes, i, before + OkVoters(cs[..i], votes), readOnly))
  {
    OneMoreVoter(cs, votes, i);
    var p := PrepareFrom(cs, votes, i, before + OkVoters(cs[..i], votes), readOnly);
    assert p.asked == i + 1;
  }

  lemma {:induction false} VotesMeanFrom(cs: seq<Cache>, votes: Cache -> Reply, i: nat, before: set<Cache>, readOnly: bool)
    requires i <= |cs| && forall j :: 0 <= j < i ==> Good(votes(cs[j]))
    requires readOnly <==> forall j :: 0 <= j < i ==> votes(cs[j]) == Answered(XA_RDONLY)
    ensures VotesTold(cs, votes, before,
                      PrepareFrom(cs, votes, i, before + OkVoters(cs[..i], votes), readOnly))
    decreases |cs| - i
  {
    var prepared := before + OkVoters(cs[..i], votes);
    if i == |cs| {
      assert cs[..i] == cs;
    } else if !Good(votes(cs[i])) {
      BadVoteTold(cs, votes, i, before, readOnly);
    } else {
      var ok := votes(cs[i]) == Answered(XA_OK);
      OneMoreVoter(cs, votes, i);
      assert (if ok then prepared + {cs[i]} else prepared) == before + OkVoters(cs[..i + 1], votes);
      VotesMeanFrom(cs, votes, i + 1, before, readOnly && !ok);
    }
  }

  lemma VotesMean(tx: Tx, votes: Cache -> Reply)
    ensures VotesTold(tx.registered, votes, tx.prepared, PreparePhase(tx, votes))
  {
    assert tx.prepared + OkVoters(tx.registered[..0], votes) == tx.prepared;
    VotesMeanFrom(tx.registered, votes, 0, tx.prepared, true);
  }

  /** Asking stops early only at a lost reply. */
  lemma {:induction false} AskedWithin(cs: seq<Cache>, replies: Cache -> Reply, i: nat, codes: seq<Code>)
    requires i <= |cs|
    ensures var a := AskFrom(cs, replies, i, codes);
      && i <= a.sent <= |cs|
      && (a.sent < |cs| ==> a.lost)
      && (a.lost ==> a.sent > 0 && replies(cs[a.sent - 1]) == Lost)
      && forall j :: i <= j < a.sent - (if a.lost then 1 else 0) ==> replies(cs[j]) != Lost
    decreases |cs| - i
  {
    if i < |cs| && replies(cs[i]) != Lost {
      AskedWithin(cs, replies, i + 1, codes + [replies(cs[i]).code]);
    }
  }

  lemma {:induction false} InOrderMembers(cs: seq<Cache>, prepared: set<Cache>)
    ensures forall c :: c in InOrder(cs, prepared) <==> c in cs && c in prepared
  {
    if cs != [] {
      InOrderMembers(cs[1..], prepared);
      assert cs == [cs[0]] + cs[1..];
    }
  }

  // ------------------------------------------------------------------------------------ safety

  lemma AbortSends(tx: Tx, sent: seq<Msg>, code: Code, replies: Cache -> Reply) returns (n: nat)
    ensures var targets := InOrder(tx.registered, tx.prepared);
      var r := Abort(tx, sent, code, replies);
      && n <= |targets|
      && r.trace == sent + Rollbacks(targets[..n])
      && (n < |targets| ==> n > 0 && replies(targets[n - 1]) == Lost)
      && (if r.outcome.RollbackFailed? then r.tx == tx
          else r.tx == FRESH && r.outcome == RolledBackWith(code) && n == |targets|)
    ensures forall c :: Commit(c) in Abort(tx, sent, code, replies).trace <==> Commit(c) in sent
  {
    var targets := InOrder(tx.registered, tx.prepared);
    AskedWithin(targets, replies, 0, []);
    n := RollbackPhase(targets, replies).0;
  }

  /** Two-phase safety: COMMIT is sent to a cache only if every registered cache voted XA_OK or XA_RDONLY. */
  lemma CommitNeedsAllVotes(tx: Tx, w: World, c: Cache)
    requires Commit(c) in CommitTx(tx, w).trace
    ensures forall j :: 0 <= j < |tx.registered| ==> Good(w.votes(tx.registered[j]))
    ensures c in tx.registered
    ensures exists j :: 0 <= j < |tx.registered| && w.votes(tx.registered[j]) == Answered(XA_OK)
  {
    VotesMean(tx, w.votes);
    AskedWithin(tx.registered, w.commits, 0, []);
    var (sent, prepared, code) := Attempt(tx, w);
    if code.Some? {
      var _ := AbortSends(tx.(prepared := prepared), sent, code.value, w.rollbacks);
    }
    assert Commit(c) in sent;
    assert PreparePhase(tx, w.votes).result.Ready?;
  }

  /** If every vote is read-only the transaction commits and neither COMMIT nor ROLLBACK is sent. */
  lemma ReadOnlySendsNothing(tx: Tx, w: World)
    requires CanCommit(tx.status)
    requires forall j :: 0 <= j < |tx.registered| ==> w.votes(tx.registered[j]) == Answered(XA_RDONLY)
    ensures CommitTx(tx, w) == Report(FRESH, Prepares(tx.registered), Done)
  {
    VotesMean(tx, w.votes);
    assert tx.registered[..|tx.registered|] == tx.registered;
  }

  /** The caches that a bad vote at position `b` obliges the manager to roll back. */
  ghost function MustRollBack(tx: Tx, w: World, b: nat): set<Cache>
    requires b < |tx.registered|
  {
    OkVoters(tx.registered[..b], w.votes) + if w.votes(tx.registered[b]).Answered? then {tx.registered[b]} else {}
  }

  ghost predicate FirstBadVote(tx: Tx, w: World, b: nat) {
    && b < |tx.registered|
    && !Good(w.votes(tx.registered[b]))
    && forall j :: 0 <= j < b ==> Good(w.votes(tx.registered[j]))
  }

  /** On a bad vote, PREPARE has gone to the caches up to the bad voter and ROLLBACK goes, in order, to those
      already prepared, the earlier XA_OK voters, and the bad voter if it answered; the list is cut short only
      by a lost reply. */
  lemma BadVoteRollsBack(tx: Tx, w: World, b: nat) returns (n: nat)
    requires CanCommit(tx.status) && FirstBadVote(tx, w, b)
    ensures var targets := InOrder(tx.registered, tx.prepared + MustRollBack(tx, w, b));
      && n <= |targets|
      && CommitTx(tx, w).trace == Prepares(tx.registered[..b + 1]) + Rollbacks(targets[..n])
      && (n < |targets| ==> n > 0 && w.rollbacks(targets[n - 1]) == Lost)
      && (CommitTx(tx, w).outcome.RolledBackWith? ==> n == |targets|)
  {
    VotesMean(tx, w.votes);
    var p := PreparePhase(tx, w.votes);
    assert p.asked == b + 1;
    assert tx.registered[..b + 1] == tx.registered[..b] + [tx.registered[b]];
    assert p.prepared == tx.prepared + MustRollBack(tx, w, b);
    var code := if p.result.Refused? then p.result.code else XA_RBROLLBACK;
    var sent := Prepares(tx.registered[..b + 1]);
    n := AbortSends(tx.(prepared := p.prepared), sent, code, w.rollbacks);
  }

  /** Which caches the rollback after a bad vote goes to. */
  lemma TargetsAre(tx: Tx, w: World, b: nat)
    requires FirstBadVote(tx, w, b) && forall c :: c in tx.prepared ==> c in tx.registered
    ensures forall c :: c in InOrder(tx.registered, tx.prepared + MustRollBack(tx, w, b))
                   <==> c in tx.prepared || c in MustRollBack(tx, w, b)
  {
    InOrderMembers(tx.registered, tx.prepared + MustRollBack(tx, w, b));
    assert forall c :: c in tx.registered[..b] ==> c in tx.registered;
    assert tx.registered[b] in tx.registered;
  }

  lemma RollbacksOf(sent: seq<Msg>, cs: seq<Cache>)
    requires forall i :: 0 <= i < |sent| ==> sent[i].Prepare?
    ensures forall c :: Rollback(c) in sent + Rollbacks(cs) <==> c in cs
    ensures forall c :: Commit(c) !in sent + Rollbacks(cs)
  {
    forall c | c in cs ensures Rollback(c) in sent + Rollbacks(cs) {
      var i :| 0 <= i < |cs| && cs[i] == c;
      assert (sent + Rollbacks(cs))[|sent| + i] == Rollback(c);
    }
  }

  /** What a bad vote sends: no COMMIT, and ROLLBACK to nobody but the caches prepared before and those owed
      one, to all of them if the rollback succeeds. */
  lemma BadVoteSends(tx: Tx, w: World, b: nat)
    requires CanCommit(tx.status) && FirstBadVote(tx, w, b) && forall c :: c in tx.prepared ==> c in tx.registered
    ensures forall c :: Commit(c) !in CommitTx(tx, w).trace
    ensures forall c :: Rollback(c) in CommitTx(tx, w).trace ==> c in tx.prepared || c in MustRollBack(tx, w, b)
    ensures CommitTx(tx, w).outcome.RolledBackWith? ==>
              forall c :: c in tx.prepared || c in MustRollBack(tx, w, b) ==> Rollback(c) in CommitTx(tx, w).trace
  {
    var n := BadVoteRollsBack(tx, w, b);
    var targets := InOrder(tx.registered, tx.prepared + MustRollBack(tx, w, b));
    TargetsAre(tx, w, b);
    RollbacksOf(Prepares(tx.registered[..b + 1]), targets[..n]);
    if n == |targets| {
      assert targets[..n] == targets;
    }
  }

  /** A commit that a bad vote ends with a successful rollback has sent ROLLBACK to exactly the earlier XA_OK
      voters and the bad voter if and only if nothing else was left prepared by an earlier commit whose own
      rollback failed. */
  lemma RollbackExactIff(tx: Tx, w: World, b: nat)
    requires CanCommit(tx.status) && FirstBadVote(tx, w, b) && forall c :: c in tx.prepared ==> c in tx.registered
    requires CommitTx(tx, w).outcome.RolledBackWith?
    ensures (forall c :: Rollback(c) in CommitTx(tx, w).trace <==> c in MustRollBack(tx, w, b))
       <==> tx.prepared <= MustRollBack(tx, w, b)
  {
    BadVoteSends(tx, w, b);
    var trace, must := CommitTx(tx, w).trace, MustRollBack(tx, w, b);
    if forall c :: Rollback(c) in trace <==> c in must {
      forall c | c in tx.prepared ensures c in must {
        assert Rollback(c) in trace;
      }
    }
  }

  // ---------------------------------------------------------------------- commit and rollback in one

  /** The codes of replies that all arrived. */
  ghost function Codes(cs: seq<Cache>, replies: Cache -> Reply): seq<Code>
    requires forall j :: 0 <= j < |cs| ==> replies(cs[j]).Answered?
  {
    seq(|cs|, j requires 0 <= j < |cs| => replies(cs[j]).code)
  }

  lemma {:induction false} AskedAll(cs: seq<Cache>, replies: Cache -> Reply, i: nat)
    requires i <= |cs| && forall j :: 0 <= j < |cs| ==> replies(cs[j]).Answered?
    ensures AskFrom(cs, replies, i, Codes(cs, replies)[..i]) == Asked(|cs|, Codes(cs, replies), false)
    decreases |cs| - i
  {
    var codes := Codes(cs, replies);
    if i == |cs| {
      assert codes[..i] == codes;
    } else {
      assert codes[..i + 1] == codes[..i] + [replies(cs[i]).code];
      AskedAll(cs, replies, i + 1);
    }
  }

  /** The replies to COMMIT let the transaction down: one is lost, one says rolled back, or none says committed. */
  ghost predicate CommitFails(cs: seq<Cache>, replies: Cache -> Reply) {
    || (exists j :: 0 <= j < |cs| && replies(cs[j]) == Lost)
    || (exists j :: 0 <= j < |cs| && replies(cs[j]).Answered? && SaysRolledBack(replies(cs[j]).code))
    || (forall j :: 0 <= j < |cs| ==> replies(cs[j]).Answered? && !SaysCommitted(replies(cs[j]).code))
  }

  lemma CodesFailIff(codes: seq<Code>)
    requires codes != []
    ensures CommitVerdict(CommitFlags(codes)).Raised?
       <==> (exists c :: c in codes && SaysRolledBack(c)) || (forall c :: c in codes ==> !SaysCommitted(c))
  {
    FlagsMean(codes);
    var c := codes[0];
    assert c in codes && (SaysCommitted(c) || SaysRolledBack(c) || c == XAER_NOTA || IsUnknown(c));
  }

  /** What makes the second phase fail, told from the replies. */
  lemma CommitPhaseFailsIff(cs: seq<Cache>, replies: Cache -> Reply)
    requires cs != []
    ensures CommitPhase(cs, replies).1.Some? <==> CommitFails(cs, replies)
  {
    AskedWithin(cs, replies, 0, []);
    if forall j :: 0 <= j < |cs| ==> replies(cs[j]).Answered? {
      var codes := Codes(cs, replies);
      AskedAll(cs, replies, 0);
      assert codes[..0] == [];
      CodesFailIff(codes);
      assert forall j :: 0 <= j < |cs| ==> codes[j] == replies(cs[j]).code && codes[j] in codes;
    }
  }

  /** All caches are ready and at least one has something to commit. */
  ghost predicate VotedReady(tx: Tx, w: World) {
    && (forall j :: 0 <= j < |tx.registered| ==> Good(w.votes(tx.registered[j])))
    && exists j :: 0 <= j < |tx.registered| && w.votes(tx.registered[j]) == Answered(XA_OK)
  }

  lemma ReadyIff(tx: Tx, w: World)
    ensures PreparePhase(tx, w.votes).result.Ready? <==> VotedReady(tx, w)
  {
    VotesMean(tx, w.votes);
  }

  /** Both phases of a transaction that voted ready. */
  lemma ReadyAttempt(tx: Tx, w: World) returns (n: nat)
    requires VotedReady(tx, w)
    ensures 0 < n <= |tx.registered| && (n < |tx.registered| ==> w.commits(tx.registered[n - 1]) == Lost)
    ensures Attempt(tx, w).0 == Prepares(tx.registered) + Commits(tx.registered[..n])
    ensures Attempt(tx, w).1 == tx.prepared + OkVoters(tx.registered, w.votes)
    ensures Attempt(tx, w).2.Some? <==> CommitFails(tx.registered, w.commits)
  {
    ReadyIff(tx, w);
    VotesMean(tx, w.votes);
    AskedWithin(tx.registered, w.commits, 0, []);
    CommitPhaseFailsIff(tx.registered, w.commits);
    n := CommitPhase(tx.registered, w.commits).0;
    assert tx.registered[..|tx.registered|] == tx.registered;
  }

  lemma CommitsIn(sent: seq<Msg>, cs: seq<Cache>)
    requires forall i :: 0 <= i < |sent| ==> sent[i].Prepare?
    ensures forall c :: Commit(c) in sent + Commits(cs) <==> c in cs
    ensures forall c :: Rollback(c) !in sent + Commits(cs)
  {
    forall c | c in cs ensures Commit(c) in sent + Commits(cs) {
      var i :| 0 <= i < |cs| && cs[i] == c;
      assert (sent + Commits(cs))[|sent| + i] == Commit(c);
    }
  }

  /** COMMIT goes to every registered cache, read-only voters included, when the votes are good and no reply is
      lost. */
  lemma CommitReachesAll(tx: Tx, w: World, c: Cache)
    requires CanCommit(tx.status) && VotedReady(tx, w)
    requires forall j :: 0 <= j < |tx.registered| ==> w.commits(tx.registered[j]) != Lost
    ensures Commit(c) in CommitTx(tx, w).trace <==> c in tx.registered
  {
    var n := ReadyAttempt(tx, w);
    var (sent, prepared, code) := Attempt(tx, w);
    assert tx.registered[..n] == tx.registered;
    CommitsIn(Prepares(tx.registered), tx.registered);
    if code.Some? {
      var _ := AbortSends(tx.(prepared := prepared), sent, code.value, w.rollbacks);
    }
  }

  /** A rollback that has someone to go to sends at least one message. */
  lemma AbortSendsOne(tx: Tx, sent: seq<Msg>, code: Code, replies: Cache -> Reply, c: Cache)
    requires c in tx.registered && c in tx.prepared
    ensures exists r :: Rollback(r) in Abort(tx, sent, code, replies).trace
  {
    var n := AbortSends(tx, sent, code, replies);
    var targets := InOrder(tx.registered, tx.prepared);
    InOrderMembers(tx.registered, tx.prepared);
    assert c in targets;
    assert Abort(tx, sent, code, replies).trace[|sent|] == Rollback(targets[0]);
  }

  ghost predicate Sends(trace: seq<Msg>, commit: bool) {
    if commit then exists c :: Commit(c) in trace else exists c :: Rollback(c) in trace
  }

  /** One commit() sends both COMMIT and ROLLBACK exactly when all caches voted well, one of them XA_OK, and the
      replies to COMMIT then let it down. */
  lemma CommitAndRollbackIff(tx: Tx, w: World)
    requires CanCommit(tx.status)
    ensures Sends(CommitTx(tx, w).trace, true) && Sends(CommitTx(tx, w).trace, false)
       <==> VotedReady(tx, w) && CommitFails(tx.registered, w.commits)
  {
    var trace := CommitTx(tx, w).trace;
    if VotedReady(tx, w) {
      var n := ReadyAttempt(tx, w);
      var (sent, prepared, code) := Attempt(tx, w);
      CommitsIn(Prepares(tx.registered), tx.registered[..n]);
      assert tx.registered[..n][0] in tx.registered[..n];
      if code.Some? {
        var j :| 0 <= j < |tx.registered| && w.votes(tx.registered[j]) == Answered(XA_OK);
        AbortSendsOne(tx.(prepared := prepared), sent, code.value, w.rollbacks, tx.registered[j]);
        var _ := AbortSends(tx.(prepared := prepared), sent, code.value, w.rollbacks);
        assert Commit(tx.registered[0]) in trace;
      } else {
        assert trace == sent;
      }
    } else if Sends(trace, true) {
      var c :| Commit(c) in trace;
      CommitNeedsAllVotes(tx, w, c);
    }
  }

  /** Then the first cache, if it voted XA_OK, gets both messages. */
  lemma FirstCacheGetsBoth(tx: Tx, w: World)
    requires CanCommit(tx.status) && VotedReady(tx, w) && CommitFails(tx.registered, w.commits)
    requires w.votes(tx.registered[0]) == Answered(XA_OK)
    ensures Commit(tx.registered[0]) in CommitTx(tx, w).trace && Rollback(tx.registered[0]) in CommitTx(tx, w).trace
  {
    var first := tx.registered[0];
    var n := ReadyAttempt(tx, w);
    var (sent, prepared, code) := Attempt(tx, w);
    CommitsIn(Prepares(tx.registered), tx.registered[..n]);
    assert tx.registered[..n][0] == first;
    var m := AbortSends(tx.(prepared := prepared), sent, code.value, w.rollbacks);
    assert InOrder(tx.registered, prepared)[0] == first;
    assert Abort(tx.(prepared := prepared), sent, code.value, w.rollbacks).trace[|sent|] == Rollback(first);
  }

  /** Two caches vote XA_OK and the first commits; the second's reply is lost, and ROLLBACK goes to the cache that
      has committed. */
  lemma CommittedIsRolledBack(w: World)
    requires w.votes(1) == Answered(XA_OK) && w.votes(2) == Answered(XA_OK)
    requires w.commits(1) == Answered(XA_OK) && w.commits(2) == Lost
    ensures var trace := CommitTx(Tx(Active, [1, 2], {}), w).trace;
      Commit(1) in trace && Rollback(1) in trace
  {
    var tx := Tx(Active, [1, 2], {});
    assert tx.registered[0] == 1 && tx.registered[1] == 2;
    assert VotedReady(tx, w) && w.commits(tx.registered[1]) == Lost;
    FirstCacheGetsBoth(tx, w);
  }

  // ------------------------------------------------------------------------- how the calls end

  ghost predicate AllReadOnlyVotes(tx: Tx, w: World) {
    forall j :: 0 <= j < |tx.registered| ==> w.votes(tx.registered[j]) == Answered(XA_RDONLY)
  }

  /** commit() succeeds, and ends the transaction, exactly when all votes are read-only, or all are good and the
      replies to COMMIT do not let it down. */
  lemma CommitSucceedsIff(tx: Tx, w: World)
    requires CanCommit(tx.status)
    ensures CommitTx(tx, w).outcome == Done
       <==> AllReadOnlyVotes(tx, w) || (VotedReady(tx, w) && !CommitFails(tx.registered, w.commits))
    ensures CommitTx(tx, w).outcome == Done ==> CommitTx(tx, w).tx == Tx(NoTransaction, [], {})
  {
    VotesMean(tx, w.votes);
    ReadyIff(tx, w);
    if VotedReady(tx, w) {
      var _ := ReadyAttempt(tx, w);
    }
  }

  /** The code that a commit undone by a bad vote reports: the bad voter's, or that of a plain rollback if its
      vote was lost. */
  lemma CommitReportsVote(tx: Tx, w: World, b: nat)
    requires CanCommit(tx.status) && FirstBadVote(tx, w, b) && CommitTx(tx, w).outcome.RolledBackWith?
    ensures CommitTx(tx, w).outcome.code
         == (match w.votes(tx.registered[b]) case Answered(c) => c case Lost => 0x64)
    ensures CommitTx(tx, w).tx == Tx(NoTransaction, [], {})
  {
    VotesMean(tx, w.votes);
    assert PreparePhase(tx, w.votes).asked == b + 1;
  }

  /** The code that one undone by its second phase reports: what the replies amount to, or that of a plain rollback
      if one was lost. */
  lemma CommitReportsReplies(tx: Tx, w: World)
    requires CanCommit(tx.status) && VotedReady(tx, w) && CommitTx(tx, w).outcome.RolledBackWith?
    ensures var lost := exists j :: 0 <= j < |tx.registered| && w.commits(tx.registered[j]) == Lost;
      if lost then CommitTx(tx, w).outcome.code == 0x64
      else Raised(CommitTx(tx, w).outcome.code) == CommitVerdict(CommitFlags(Codes(tx.registered, w.commits)))
  {
    ReadyIff(tx, w);
    VotesMean(tx, w.votes);
    AskedWithin(tx.registered, w.commits, 0, []);
    if forall j :: 0 <= j < |tx.registered| ==> w.commits(tx.registered[j]).Answered? {
      AskedAll(tx.registered, w.commits, 0);
      assert Codes(tx.registered, w.commits)[..0] == [];
    }
  }

  /** commit() and rollback() of anything but an active transaction send nothing and change nothing. */
  lemma OnlyActiveEnds(tx: Tx, w: World)
    requires tx.status != Active
    ensures CommitTx(tx, w) == Report(tx, [], IllegalState) && RollbackTx(tx, w) == Report(tx, [], IllegalState)
  {
  }

  /** The replies to ROLLBACK are in order: all arrived, none denies the rollback, and one confirms it unless
      nobody was asked. */
  ghost predicate Confirmed(cs: seq<Cache>, replies: Cache -> Reply) {
    && (forall j :: 0 <= j < |cs| ==> replies(cs[j]).Answered? && !DeniesRollback(replies(cs[j]).code))
    && (cs == [] || exists j :: 0 <= j < |cs| && replies(cs[j]).Answered? && ConfirmsRollback(replies(cs[j]).code))
  }

  lemma RollbackPhaseFineIff(cs: seq<Cache>, replies: Cache -> Reply)
    ensures RollbackPhase(cs, replies).1 == None <==> Confirmed(cs, replies)
  {
    AskedWithin(cs, replies, 0, []);
    if forall j :: 0 <= j < |cs| ==> replies(cs[j]).Answered? {
      var codes := Codes(cs, replies);
      AskedAll(cs, replies, 0);
      assert codes[..0] == [];
      RollbackVerdictMeans(codes);
      assert forall j :: 0 <= j < |cs| ==> codes[j] == replies(cs[j]).code && codes[j] in codes;
    }
  }

  /** rollback() asks the prepared caches and nobody else, in order. It succeeds, having asked all of them, and
      ends the transaction exactly when the replies are in order; otherwise it leaves the transaction alone. */
  lemma RollbackAsksPrepared(tx: Tx, w: World)
    requires tx.status == Active
    ensures var r := RollbackTx(tx, w);
      && (forall m :: m in r.trace ==> m.Rollback? && m.cache in tx.registered && m.cache in tx.prepared)
      && (r.outcome == Done <==> Confirmed(InOrder(tx.registered, tx.prepared), w.rollbacks))
      && (r.outcome == Done ==>
            && r.tx == Tx(NoTransaction, [], {})
            && forall c :: c in tx.registered && c in tx.prepared ==> Rollback(c) in r.trace)
      && (r.outcome != Done ==> r.tx == tx && r.outcome.RollbackFailed?)
  {
    var targets := InOrder(tx.registered, tx.prepared);
    var n := AbortSends(tx, [], XA_RBROLLBACK, w.rollbacks);
    RollbackPhaseFineIff(targets, w.rollbacks);
    InOrderMembers(tx.registered, tx.prepared);
    RollbacksOf([], targets[..n]);
    assert [] + Rollbacks(targets[..n]) == Rollbacks(targets[..n]);
    assert forall c :: c in targets[..n] ==> c in targets;
    if n == |targets| {
      assert targets[..n] == targets;
    }
  }

  // ------------------------------------------------------------------------------- the class itself

  /** The transaction a thread works in; a thread without one starts from a fresh record. */
  function Current(txs: map<Thread, Tx>, t: Thread): Tx {
    if t in txs then txs[t] else FRESH
  }

  class TransactionManager {
    var currentTransactions: map<Thread, Tx>
    ghost var trace: seq<Msg>

    constructor ()
      ensures currentTransactions == map[] && trace == []
    {
      currentTransactions := map[];
      trace := [];
    }

    method RemotePrepareCommit(tx: Tx, votes: Cache -> Reply) returns (prepared: set<Cache>, result: Votes)
      modifies this`trace
      ensures var p := PreparePhase(tx, votes);
        && prepared == p.prepared && result == p.result
        && p.asked <= |tx.registered| && trace == old(trace) + Prepares(tx.registered[..p.asked])
    {
      prepared := tx.prepared;
      var readOnly := true;
      var i := 0;
      while i < |tx.registered|
        invariant 0 <= i <= |tx.registered|
        invariant PrepareFrom(tx.registered, votes, i, prepared, readOnly) == PreparePhase(tx, votes)
        invariant trace == old(trace) + Prepares(tx.registered[..i])
      {
        var cache := tx.registered[i];
        assert Prepares(tx.registered[..i + 1]) == Prepares(tx.registered[..i]) + [Prepare(cache)];
        trace := trace + [Prepare(cache)];
        i := i + 1;
        match votes(cache)
        case Lost =>
          return prepared, Broken;
        case Answered(c) =>
          if c == XA_OK {
            readOnly := false;
            prepared := prepared + {cache};
          } else if c != XA_RDONLY {
            return prepared + {cache}, Refused(c);
          }
      }
      result := if readOnly then AllReadOnly else Ready;
    }

    method RemoteCommit(cs: seq<Cache>, replies: Cache -> Reply) returns (failure: Option<Failure>)
      modifies this`trace
      ensures var (n, f) := CommitPhase(cs, replies);
        failure == f && n <= |cs| && trace == old(trace) + Commits(cs[..n])
    {
      var flags := NO_FLAGS;
      ghost var codes: seq<Code> := [];
      AskedWithin(cs, replies, 0, []);
      var i := 0;
      while i < |cs|
        invariant 0 <= i <= |cs|
        invariant AskFrom(cs, replies, i, codes) == AskFrom(cs, replies, 0, [])
        invariant flags == CommitFlags(codes)
        invariant trace == old(trace) + Commits(cs[..i])
      {
        assert Commits(cs[..i + 1]) == Commits(cs[..i]) + [Commit(cs[i])];
        trace := trace + [Commit(cs[i])];
        match replies(cs[i])
        case Lost =>
          return Some(OtherFailure);
        case Answered(c) =>
          flags := NoteCommit(flags, c);
          assert (codes + [c])[..|codes|] == codes;
          codes := codes + [c];
        i := i + 1;
      }
      failure := AsFailure(CommitVerdict(flags));
    }

    method RemoteRollback(cs: seq<Cache>, replies: Cache -> Reply) returns (failure: Option<Failure>)
      modifies this`trace
      ensures var (n, f) := RollbackPhase(cs, replies);
        failure == f && n <= |cs| && trace == old(trace) + Rollbacks(cs[..n])
    {
      var flags := NO_FLAGS;
      ghost var codes: seq<Code> := [];
      AskedWithin(cs, replies, 0, []);
      var i := 0;
      while i < |cs|
        invariant 0 <= i <= |cs|
        invariant AskFrom(cs, replies, i, codes) == AskFrom(cs, replies, 0, [])
        invariant flags == RollbackFlags(codes)
        invariant trace == old(trace) + Rollbacks(cs[..i])
      {
        assert Rollbacks(cs[..i + 1]) == Rollbacks(cs[..i]) + [Rollback(cs[i])];
        trace := trace + [Rollback(cs[i])];
        match replies(cs[i])
        case Lost =>
          return Some(OtherFailure);
        case Answered(c) =>
          flags := NoteRollback(flags, c);
          assert (codes + [c])[..|codes|] == codes;
          codes := codes + [c];
        i := i + 1;
      }
      failure := AsFailure(RollbackVerdict(flags));
    }

    method Begin(t: Thread) returns (ok: bool)
      modifies this`currentTransactions
      ensures ok == CanBegin(Current(old(currentTransactions), t).status)
      ensures Current(currentTransactions, t)
           == if ok then Current(old(currentTransactions), t).(status := Active) else Current(old(currentTransactions), t)
      ensures forall u :: u != t ==> Current(currentTransactions, u) == Current(old(currentTransactions), u)
    {
      var tx := Current(currentTransactions, t);
      ok := CanBegin(tx.status);
      if ok {
        currentTransactions := currentTransactions[t := tx.(status := Active)];
      }
    }

    /** remoteRollback and, if it does not throw, the clean-up of the current transaction. */
    method AbortCurrent(t: Thread, tx: Tx, exCode: Code, replies: Cache -> Reply) returns (outcome: Outcome)
      modifies this
      ensures var r := Abort(tx, [], exCode, replies);
        && outcome == r.outcome && trace == old(trace) + r.trace
        && Current(currentTransactions, t) == r.tx
      ensures forall u :: u != t ==> Current(currentTransactions, u) == Current(old(currentTransactions), u)
    {
      currentTransactions := currentTransactions[t := tx];
      var targets := InOrder(tx.registered, tx.prepared);
      var failure := RemoteRollback(targets, replies);
      ghost var sent := Rollbacks(targets[..RollbackPhase(targets, replies).0]);
      assert [] + sent == sent;
      if failure.Some? {
        return RollbackFailed(failure.value);
      }
      currentTransactions := currentTransactions - {t};
      outcome := RolledBackWith(exCode);
    }

    /** Both phases, without clean-up: nothing when committed, else the code to report. */
    method TryCommit(tx: Tx, w: World) returns (prepared: set<Cache>, exCode: Option<Code>)
      modifies this`trace
      ensures var (sent, p, code) := Attempt(tx, w);
        prepared == p && exCode == code && trace == old(trace) + sent
    {
      var result;
      prepared, result := RemotePrepareCommit(tx, w.votes);
      match result
      case AllReadOnly => exCode := None;
      case Broken => exCode := Some(XA_RBROLLBACK);
      case Refused(c) => exCode := Some(c);
      case Ready =>
        var failure := RemoteCommit(tx.registered, w.commits);
        exCode := CodeOf(failure);
    }

    method CommitCurrent(t: Thread, w: World) returns (outcome: Outcome)
      modifies this
      ensures var r := CommitTx(Current(old(currentTransactions), t), w);
        && outcome == r.outcome && trace == old(trace) + r.trace
        && Current(currentTransactions, t) == r.tx
      ensures forall u :: u != t ==> Current(currentTransactions, u) == Current(old(currentTransactions), u)
    {
      var tx := Current(currentTransactions, t);
      if !CanCommit(tx.status) {
        return IllegalState;
      }
      var prepared, exCode := TryCommit(tx, w);
      if exCode.None? {
        currentTransactions := currentTransactions - {t};
        return Done;
      }
      outcome := AbortCurrent(t, tx.(prepared := prepared), exCode.value, w.rollbacks);
    }

    method RollbackCurrent(t: Thread, w: World) returns (outcome: Outcome)
      modifies this
      ensures var r := RollbackTx(Current(old(currentTransactions), t), w);
        && outcome == r.outcome && trace == old(trace) + r.trace
        && Current(currentTransactions, t) == r.tx
      ensures forall u :: u != t ==> Current(currentTransactions, u) == Current(old(currentTransactions), u)
    {
      var tx := Current(currentTransactions, t);
      if !CanRollback(tx.status) {
        return IllegalState;
      }
      outcome := AbortCurrent(t, tx, XA_RBROLLBACK, w.rollbacks);
      if outcome.RolledBackWith? {
        outcome := Done;
      }
    }
  }

  // ------------------------------------------------------------------------------------------- runs

  /** What a thread can do between other threads' calls. */
  datatype Step =
    | BeginTx(thread: Thread)
    | Register(thread: Thread, cache: Cache)
    | CommitStep(thread: Thread, world: World)
    | RollbackStep(thread: Thread, world: World)

  function InsertCache(c: Cache, cs: seq<Cache>): seq<Cache> {
    if cs == [] || c < cs[0] then [c] + cs
    else if c == cs[0] then cs
    else [cs[0]] + InsertCache(c, cs[1..])
  }

  function ReportOf(txs: map<Thread, Tx>, st: Step): Report {
    var tx := Current(txs, st.thread);
    match st
    case BeginTx(_) =>
      if CanBegin(tx.status) then Report(tx.(status := Active), [], Done) else Report(tx, [], IllegalState)
    case Register(_, c) =>
      if tx.status.NoTransaction? || !AcceptRead(tx.status) then Report(tx, [], IllegalState)
      else Report(tx.(registered := InsertCache(c, tx.registered)), [], Done)
    case CommitStep(_, w) => CommitTx(tx, w)
    case RollbackStep(_, w) => RollbackTx(tx, w)
  }

  function Next(txs: map<Thread, Tx>, st: Step): map<Thread, Tx> {
    txs[st.thread := ReportOf(txs, st).tx]
  }

  function Run(txs: map<Thread, Tx>, steps: seq<Step>): map<Thread, Tx>
    decreases steps
  {
    if steps == [] then txs else Run(Next(txs, steps[0]), steps[1..])
  }

  /** Between calls a transaction is absent or active, and only registered caches count as prepared. */
  ghost predicate AtRest(tx: Tx) {
    && (tx == FRESH || tx.status.Active?)
    && forall c :: c in tx.prepared ==> c in tx.registered
  }

  ghost predicate AllAtRest(txs: map<Thread, Tx>) {
    forall t :: AtRest(Current(txs, t))
  }

  lemma {:induction false} InsertKeepsMembers(c: Cache, cs: seq<Cache>)
    ensures forall x :: x in InsertCache(c, cs) <==> x == c || x in cs
  {
    if cs != [] {
      assert cs == [cs[0]] + cs[1..];
      InsertKeepsMembers(c, cs[1..]);
    }
  }

  ghost predicate InMapOrder(cs: seq<Cache>) {
    forall i, j :: 0 <= i < j < |cs| ==> cs[i] < cs[j]
  }

  /** Registering keeps the order of the map, each cache once. */
  lemma {:induction false} InsertKeepsOrder(c: Cache, cs: seq<Cache>)
    requires InMapOrder(cs)
    ensures InMapOrder(InsertCache(c, cs))
  {
    if cs != [] && c > cs[0] {
      var rest := InsertCache(c, cs[1..]);
      InsertKeepsOrder(c, cs[1..]);
      InsertKeepsMembers(c, cs[1..]);
      forall j | 0 <= j < |rest| ensures cs[0] < rest[j] {
        assert rest[j] in rest;
      }
      PrependKeepsOrder(cs[0], rest);
    }
  }

  lemma PrependKeepsOrder(c: Cache, rest: seq<Cache>)
    requires InMapOrder(rest) && forall j :: 0 <= j < |rest| ==> c < rest[j]
    ensures InMapOrder([c] + rest)
  {
  }

  lemma CommitLeaves(tx: Tx, w: World)
    requires AtRest(tx)
    ensures var r := CommitTx(tx, w);
      && AtRest(r.tx)
      && (!r.outcome.RollbackFailed? && tx.prepared == {} ==> r.tx.prepared == {})
  {
    VotesMean(tx, w.votes);
    var p := PreparePhase(tx, w.votes);
    if CanCommit(tx.status) {
      forall c | c in p.prepared ensures c in tx.registered {
        if c in tx.registered[..p.asked] {
          assert c in tx.registered;
        }
      }
    }
  }

  lemma StepLeaves(txs: map<Thread, Tx>, st: Step)
    requires AllAtRest(txs)
    ensures AllAtRest(Next(txs, st))
    ensures Current(txs, st.thread).prepared == {} && !ReportOf(txs, st).outcome.RollbackFailed? ==>
              Current(Next(txs, st), st.thread).prepared == {}
    ensures forall u :: u != st.thread ==> Current(Next(txs, st), u) == Current(txs, u)
  {
    var tx, r := Current(txs, st.thread), ReportOf(txs, st);
    assert AtRest(tx);
    assert AtRest(r.tx) && (tx.prepared == {} && !r.outcome.RollbackFailed? ==> r.tx.prepared == {}) by {
      match st
      case BeginTx(_) =>
      case Register(_, c) => InsertKeepsMembers(c, tx.registered);
      case CommitStep(_, w) => CommitLeaves(tx, w);
      case RollbackStep(_, w) =>
    }
    forall u ensures AtRest(Current(Next(txs, st), u)) {
      assert AtRest(Current(txs, u));
    }
  }

  /** Whether thread `t`'s current transaction has seen no failed rollback, after a step and given `clean`
      before it. */
  ghost predicate StillClean(txs: map<Thread, Tx>, st: Step, t: Thread, clean: bool) {
    if st.thread != t then clean
    else ReportOf(txs, st).tx == FRESH || (clean && !ReportOf(txs, st).outcome.RollbackFailed?)
  }

  ghost predicate CleanAfter(txs: map<Thread, Tx>, steps: seq<Step>, t: Thread, clean: bool)
    decreases steps
  {
    if steps == [] then clean
    else CleanAfter(Next(txs, steps[0]), steps[1..], t, StillClean(txs, steps[0], t, clean))
  }

  lemma {:induction false} RunLeaves(txs: map<Thread, Tx>, steps: seq<Step>, t: Thread, clean: bool)
    requires AllAtRest(txs) && (clean ==> Current(txs, t).prepared == {})
    ensures AllAtRest(Run(txs, steps))
    ensures CleanAfter(txs, steps, t, clean) ==> Current(Run(txs, steps), t).prepared == {}
    decreases steps
  {
    if steps != [] {
      StepLeaves(txs, steps[0]);
      RunLeaves(Next(txs, steps[0]), steps[1..], t, StillClean(txs, steps[0], t, clean));
    }
  }

  /** Two-phase commit at any point of any run of any threads: between calls every transaction is absent or
      active, so the branch for transactions marked for rollback is never taken; and unless a rollback of this
      very transaction has failed, a bad vote rolls back exactly the earlier XA_OK voters and the bad voter. */
  lemma CommitInAnyRun(steps: seq<Step>, t: Thread, w: World, b: nat)
    requires CleanAfter(map[], steps, t, true)
    requires var tx := Current(Run(map[], steps), t); CanCommit(tx.status) && FirstBadVote(tx, w, b)
    ensures forall u :: !NeedsRollback(Current(Run(map[], steps), u).status)
    ensures var tx := Current(Run(map[], steps), t);
      && (forall c :: Commit(c) !in CommitTx(tx, w).trace)
      && (forall c :: Rollback(c) in CommitTx(tx, w).trace ==> c in MustRollBack(tx, w, b))
      && (CommitTx(tx, w).outcome.RolledBackWith? ==>
            forall c :: c in MustRollBack(tx, w, b) ==> Rollback(c) in CommitTx(tx, w).trace)
  {
    RunLeaves(map[], steps, t, true);
    var txs := Run(map[], steps);
    forall u ensures !NeedsRollback(Current(txs, u).status) {
      assert AtRest(Current(txs, u));
    }
    BadVoteSends(Current(txs, t), w, b);
  }

  /** A failed rollback matters: the first commit's ROLLBACK to cache 1 is lost, so the transaction stays active
      with both caches prepared, and the second commit rolls back cache 1 although this time it voted read-only. */
  lemma LeftoverIsRolledBack(t: Thread, w1: World, w2: World)
    requires w1.votes(1) == Answered(XA_OK) && w1.votes(2) == Answered(XA_RBROLLBACK) && w1.rollbacks(1) == Lost
    requires w2.votes(1) == Answered(XA_RDONLY) && w2.votes(2) == Answered(XA_RBROLLBACK)
    requires w2.rollbacks(1) == Answered(XA_OK) && w2.rollbacks(2) == Answered(XA_OK)
    ensures var tx := Current(Run(map[], [BeginTx(t), Register(t, 1), Register(t, 2), CommitStep(t, w1)]), t);
      && tx == Tx(Active, [1, 2], {1, 2})
      && Rollback(1) in CommitTx(tx, w2).trace
      && CommitTx(tx, w2).outcome == RolledBackWith(XA_RBROLLBACK)
  {
    var tx := Tx(Active, [1, 2], {});
    RegisteredRun(t, w1);
    FirstCommitLeaves(tx, w1);
    SecondCommitSends(tx.(prepared := {1, 2}), w2);
  }

  lemma RegisteredRun(t: Thread, w1: World)
    ensures Run(map[], [BeginTx(t), Register(t, 1), Register(t, 2), CommitStep(t, w1)])
         == map[t := CommitTx(Tx(Active, [1, 2], {}), w1).tx]
  {
    var s1, s2 := map[t := Tx(Active, [], {})], map[t := Tx(Active, [1], {})];
    var s3 := map[t := Tx(Active, [1, 2], {})];
    var r3 := [CommitStep(t, w1)];
    var r2 := [Register(t, 2)] + r3;
    var r1 := [Register(t, 1)] + r2;
    var r0 := [BeginTx(t), Register(t, 1), Register(t, 2), CommitStep(t, w1)];
    assert r0[1..] == r1 && r1[1..] == r2 && r2[1..] == r3 && r3[1..] == [];
    assert Next(map[], BeginTx(t)) == s1;
    assert InsertCache(1, []) == [1] && InsertCache(2, []) == [2];
    assert [1][1..] == [] && InsertCache(2, [1]) == [1] + InsertCache(2, [1][1..]) == [1, 2];
    assert Next(s1, Register(t, 1)) == s2;
    assert Next(s2, Register(t, 2)) == s3;
    assert Run(map[], r0) == Run(s1, r1) == Run(s2, r2);
    assert Run(s2, r2) == Run(s3, r3) == Run(Next(s3, CommitStep(t, w1)), []);
  }

  lemma FirstCommitLeaves(tx: Tx, w: World)
    requires tx == Tx(Active, [1, 2], {})
    requires w.votes(1) == Answered(XA_OK) && w.votes(2) == Answered(XA_RBROLLBACK) && w.rollbacks(1) == Lost
    ensures CommitTx(tx, w).tx == Tx(Active, [1, 2], {1, 2})
  {
    assert PreparePhase(tx, w.votes) == PrepareFrom([1, 2], w.votes, 1, {1}, false);
    assert PreparePhase(tx, w.votes) == Phase1(2, {1, 2}, Refused(XA_RBROLLBACK));
    InBoth();
    assert AskFrom([1, 2], w.rollbacks, 0, []) == Asked(1, [], true);
  }

  lemma InBoth()
    ensures InOrder([1, 2], {1, 2}) == [1, 2]
  {
    assert InOrder([2], {1, 2}) == [2] + InOrder([], {1, 2});
  }

  lemma SecondCommitSends(tx: Tx, w: World)
    requires tx == Tx(Active, [1, 2], {1, 2})
    requires w.votes(1) == Answered(XA_RDONLY) && w.votes(2) == Answered(XA_RBROLLBACK)
    requires w.rollbacks(1) == Answered(XA_OK) && w.rollbacks(2) == Answered(XA_OK)
    ensures Rollback(1) in CommitTx(tx, w).trace && CommitTx(tx, w).outcome == RolledBackWith(XA_RBROLLBACK)
  {
    assert PreparePhase(tx, w.votes) == PrepareFrom([1, 2], w.votes, 1, {1, 2}, true);
    assert PreparePhase(tx, w.votes) == Phase1(2, {1, 2}, Refused(XA_RBROLLBACK));
    InBoth();
    assert AskFrom([1, 2], w.rollbacks, 0, []) == AskFrom([1, 2], w.rollbacks, 1, [XA_OK]);
    assert AskFrom([1, 2], w.rollbacks, 1, [XA_OK]) == Asked(2, [XA_OK, XA_OK], false);
    FlagsOfTwo();
    assert CommitTx(tx, w).outcome == RolledBackWith(XA_RBROLLBACK);
    BadVoteSends(tx, w, 1);
  }

  lemma FlagsOfTwo()
    ensures RollbackVerdict(RollbackFlags([XA_OK, XA_OK])) == Fine
  {
    assert [XA_OK, XA_OK][..1] == [XA_OK] && [XA_OK][..0] == [];
    assert RollbackFlags([XA_OK]) == NoteRollback(NO_FLAGS, XA_OK);
  }
}
