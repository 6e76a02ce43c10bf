/**
 How remoteCommit and remoteRollback turn the reply codes of all caches into one result. The codes are
 those of the X/Open XA specification (CAE C193), chapter 4, as unsigned 32-bit numbers.
 */
module XaReplies {
  import opened Wrappers

  type Code = nat

  const XA_OK: Code := 0x00
  const XA_RDONLY: Code := 0x03
  const XA_HEURMIX: Code := 0x05
  const XA_HEURRB: Code := 0x06
  const XA_HEURCOM: Code := 0x07
  const XA_HEURHAZ: Code := 0x08
  const XA_RBROLLBACK: Code := 0x64
  const XAER_NOTA: Code := 0xFFFFFFFC

  datatype Flags = Flags(hasCommit: bool, hasRollback: bool, alreadyForgot: bool, unknown: Option<Code>)

  const NO_FLAGS := Flags(false, false, false, None)

  datatype Verdict = Fine | Raised(code: Code)

  function NoteCommit(f: Flags, c: Code): Flags {
    if c == XA_OK || c == XA_RDONLY || c == XA_HEURCOM then f.(hasCommit := true)
    else if c == XAER_NOTA then f.(alreadyForgot := true)
    else if c == XA_HEURMIX || c == XA_HEURHAZ then f.(hasCommit := true, hasRollback := true)
    else if c == XA_HEURRB then f.(hasRollback := true)
    else f.(unknown := Some(c))
  }

  function NoteRollback(f: Flags, c: Code): Flags {
    if c == XA_OK || c == XA_RDONLY || c == XA_HEURRB then f.(hasRollback := true)
    else if c == XAER_NOTA then f.(alreadyForgot := true)
    else if c == XA_HEURMIX || c == XA_HEURHAZ then f.(hasCommit := true, hasRollback := true)
    else if c == XA_HEURCOM then f.(hasCommit := true)
    else f.(unknown := Some(c))
  }

  function CommitFlags(codes: seq<Code>): Flags {
    if codes == [] then NO_FLAGS else NoteCommit(CommitFlags(codes[..|codes| - 1]), codes[|codes| - 1])
  }

  function RollbackFlags(codes: seq<Code>): Flags {
    if codes == [] then NO_FLAGS else NoteRollback(RollbackFlags(codes[..|codes| - 1]), codes[|codes| - 1])
  }

  /** Neither commits nor rollbacks were reported. */
  function Undecided(f: Flags): Verdict {
    if f.alreadyForgot then Raised(XAER_NOTA)
    else if f.unknown.Some? then Raised(f.unknown.value)
    else Fine
  }

  function CommitVerdict(f: Flags): Verdict {
    if !f.hasCommit && !f.hasRollback then Undecided(f)
    else if f.hasCommit && f.hasRollback then Raised(XA_HEURMIX)
    else if f.hasRollback then Raised(XA_HEURRB)
    else Fine
  }

  function RollbackVerdict(f: Flags): Verdict {
    if !f.hasCommit && !f.hasRollback then Undecided(f)
    else if f.hasCommit && f.hasRollback then Raised(XA_HEURMIX)
    else if f.hasCommit then Raised(XA_HEURCOM)
    else Fine
  }

  // ------------------------------------------------------------------------------ order of replies

  predicate SaysCommitted(c: Code) {
    c in {XA_OK, XA_RDONLY, XA_HEURCOM, XA_HEURMIX, XA_HEURHAZ}
  }

  predicate SaysRolledBack(c: Code) {
    c in {XA_HEURRB, XA_HEURMIX, XA_HEURHAZ}
  }

  predicate IsUnknown(c: Code) {
    !SaysCommitted(c) && !SaysRolledBack(c) && c != XAER_NOTA
  }

  /** Each flag says that some reply was of its kind; the unknown code kept is one of those received. */
  lemma {:induction false} FlagsMean(codes: seq<Code>)
    ensures var f := CommitFlags(codes);
      && (f.hasCommit <==> exists c :: c in codes && SaysCommitted(c))
      && (f.hasRollback <==> exists c :: c in codes && SaysRolledBack(c))
      && (f.alreadyForgot <==> XAER_NOTA in codes)
      && (f.unknown.Some? <==> exists c :: c in codes && IsUnknown(c))
      && (f.unknown.Some? ==> f.unknown.value in codes && IsUnknown(f.unknown.value))
  {
    if codes != [] {
      var front, last := codes[..|codes| - 1], codes[|codes| - 1];
      FlagsMean(front);
      assert codes == front + [last];
      assert forall c :: c in codes <==> c in front || c == last;
      assert last in codes;
    }
  }

  ghost predicate SomeCommitted(codes: seq<Code>) {
    exists c :: c in codes && SaysCommitted(c)
  }

  ghost predicate SomeRolledBack(codes: seq<Code>) {
    exists c :: c in codes && SaysRolledBack(c)
  }

  /** What remoteCommit makes of the replies: a mix, a rollback, a forgotten transaction, an unknown answer, or
      success. */
  lemma CommitVerdictMeans(codes: seq<Code>)
    ensures var v := CommitVerdict(CommitFlags(codes));
      && (v == Raised(XA_HEURMIX) <==> SomeCommitted(codes) && SomeRolledBack(codes))
      && (v == Raised(XA_HEURRB) <==> !SomeCommitted(codes) && SomeRolledBack(codes))
      && (v == Raised(XAER_NOTA) <==> !SomeCommitted(codes) && !SomeRolledBack(codes) && XAER_NOTA in codes)
      && (v == Fine <==> !SomeRolledBack(codes) && (SomeCommitted(codes) || codes == []))
      && (v.Raised? && IsUnknown(v.code) ==> v.code in codes)
  {
    FlagsMean(codes);
    if codes != [] {
      var c := codes[0];
      assert c in codes && (SaysCommitted(c) || SaysRolledBack(c) || c == XAER_NOTA || IsUnknown(c));
    }
  }

  /** What a reply to ROLLBACK says. */
  predicate ConfirmsRollback(c: Code) {
    c in {XA_OK, XA_RDONLY, XA_HEURRB, XA_HEURMIX, XA_HEURHAZ}
  }

  predicate DeniesRollback(c: Code) {
    c in {XA_HEURCOM, XA_HEURMIX, XA_HEURHAZ}
  }

  /** What remoteRollback makes of the replies. */
  lemma RollbackVerdictMeans(codes: seq<Code>)
    ensures var v := RollbackVerdict(RollbackFlags(codes));
      var confirmed, denied := (exists c :: c in codes && ConfirmsRollback(c)), (exists c :: c in codes && DeniesRollback(c));
      && (v == Raised(XA_HEURMIX) <==> confirmed && denied)
      && (v == Raised(XA_HEURCOM) <==> !confirmed && denied)
      && (v == Raised(XAER_NOTA) <==> !confirmed && !denied && XAER_NOTA in codes)
      && (v == Fine <==> !denied && (confirmed || codes == []))
  {
    var swapped := SwapAll(codes);
    RollbackIsDual(swapped);
    assert SwapAll(swapped) == codes;
    CommitVerdictMeans(swapped);
    SwappedSays(codes);
  }

  lemma SwappedMembers(codes: seq<Code>, c: Code)
    ensures c in SwapAll(codes) <==> Swap(c) in codes
  {
    var swapped := SwapAll(codes);
    if Swap(c) in codes {
      var i :| 0 <= i < |codes| && codes[i] == Swap(c);
      assert swapped[i] == c;
    }
  }

  lemma SwappedSays(codes: seq<Code>)
    ensures SomeCommitted(SwapAll(codes)) <==> exists c :: c in codes && ConfirmsRollback(c)
    ensures SomeRolledBack(SwapAll(codes)) <==> exists c :: c in codes && DeniesRollback(c)
    ensures XAER_NOTA in SwapAll(codes) <==> XAER_NOTA in codes
  {
    forall c ensures (c in SwapAll(codes) <==> Swap(c) in codes) && (Swap(c) in SwapAll(codes) <==> c in codes)
                  && (SaysCommitted(c) <==> ConfirmsRollback(Swap(c)))
                  && (SaysRolledBack(c) <==> DeniesRollback(Swap(c))) && Swap(Swap(c)) == c {
      SwappedMembers(codes, c);
      SwappedMembers(codes, Swap(c));
    }
    assert Swap(XAER_NOTA) == XAER_NOTA;
  }

  /** Equal up to which of several unknown codes is reported. */
  ghost predicate SameVerdict(a: Verdict, b: Verdict) {
    a == b || (a.Raised? && b.Raised? && IsUnknown(a.code) && IsUnknown(b.code))
  }

  /** The outcome of a commit does not depend on the order in which the caches are asked. */
  lemma OrderDoesNotMatter(codes: seq<Code>, reordered: seq<Code>)
    requires multiset(codes) == multiset(reordered)
    ensures SameVerdict(CommitVerdict(CommitFlags(codes)), CommitVerdict(CommitFlags(reordered)))
  {
    FlagsMean(codes);
    FlagsMean(reordered);
    assert forall c :: c in codes <==> c in multiset(codes);
    assert forall c :: c in reordered <==> c in multiset(reordered);
  }

  // ----------------------------------------------------------------------------------------- duality

  function Swap(c: Code): Code {
    if c == XA_HEURCOM then XA_HEURRB else if c == XA_HEURRB then XA_HEURCOM else c
  }

  function SwapAll(codes: seq<Code>): seq<Code> {
    seq(|codes|, i requires 0 <= i < |codes| => Swap(codes[i]))
  }

  function SwapVerdict(v: Verdict): Verdict {
    if v.Raised? then Raised(Swap(v.code)) else v
  }

  lemma {:induction false} FlagsDual(codes: seq<Code>)
    ensures var f := CommitFlags(codes);
      RollbackFlags(SwapAll(codes)) == Flags(f.hasRollback, f.hasCommit, f.alreadyForgot, f.unknown)
  {
    if codes != [] {
      var front := codes[..|codes| - 1];
      FlagsDual(front);
      assert SwapAll(codes)[..|codes| - 1] == SwapAll(front);
    }
  }

  /** Rollback is the exact dual of commit under swapping the two one-sided heuristic codes. */
  lemma RollbackIsDual(codes: seq<Code>)
    ensures RollbackVerdict(RollbackFlags(SwapAll(codes))) == SwapVerdict(CommitVerdict(CommitFlags(codes)))
  {
    FlagsDual(codes);
    FlagsMean(codes);
  }

  /** So rollback is insensitive to order as well. */
  lemma RollbackOrderDoesNotMatter(codes: seq<Code>, reordered: seq<Code>)
    requires multiset(codes) == multiset(reordered)
    ensures SameVerdict(RollbackVerdict(RollbackFlags(codes)), RollbackVerdict(RollbackFlags(reordered)))
  {
    SwapKeepsMultisets(codes, reordered);
    OrderDoesNotMatter(SwapAll(codes), SwapAll(reordered));
    RollbackIsDual(SwapAll(codes));
    RollbackIsDual(SwapAll(reordered));
    assert SwapAll(SwapAll(codes)) == codes && SwapAll(SwapAll(reordered)) == reordered;
  }

  lemma {:induction false} SwapCounts(codes: seq<Code>, c: Code)
    ensures multiset(SwapAll(codes))[c] == multiset(codes)[Swap(c)]
  {
    if codes == [] {
      assert SwapAll(codes) == [];
    } else {
      var front, last := codes[..|codes| - 1], codes[|codes| - 1];
      SwapCounts(front, c);
      assert codes == front + [last];
      assert SwapAll(codes) == SwapAll(front) + [Swap(last)];
    }
  }

  lemma SwapKeepsMultisets(codes: seq<Code>, reordered: seq<Code>)
    requires multiset(codes) == multiset(reordered)
    ensures multiset(SwapAll(codes)) == multiset(SwapAll(reordered))
  {
    forall c: Code ensures multiset(SwapAll(codes))[c] == multiset(SwapAll(reordered))[c] {
      SwapCounts(codes, c);
      SwapCounts(reordered, c);
    }
  }
}
