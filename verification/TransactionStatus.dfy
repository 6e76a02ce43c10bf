/** The life cycle of a transaction and the predicates that guard its operations. */
module TransactionStatus {
  datatype Status =
    | Active
    | MarkedRollback
    | Prepared
    | Committed
    | RolledBack
    | Unknown
    | NoTransaction
    | Preparing
    | Committing
    | RollingBack

  predicate CanBegin(s: Status) { s.NoTransaction? || s.Committed? }

  predicate CanCommit(s: Status) { s.Active? }

  predicate CanRollback(s: Status) { s.Active? }

  predicate NeedsRollback(s: Status) { s.MarkedRollback? }

  predicate AcceptRW(s: Status) { s.Active? || s.MarkedRollback? }

  predicate AcceptRead(s: Status) { !s.Committed? && !s.RolledBack? }

  /** An active transaction takes every call but begin; one marked for rollback still reads and writes but can
      neither commit nor roll back; a finished one takes no reads or writes; and begin needs none at work. */
  lemma LifeCycle()
    ensures AcceptRead(Active) && AcceptRW(Active) && CanCommit(Active) && CanRollback(Active) && !CanBegin(Active)
    ensures AcceptRead(MarkedRollback) && AcceptRW(MarkedRollback) && NeedsRollback(MarkedRollback)
    ensures !CanCommit(MarkedRollback) && !CanRollback(MarkedRollback)
    ensures forall s :: s == Committed || s == RolledBack ==> !AcceptRead(s) && !AcceptRW(s) && !CanCommit(s)
    ensures forall s :: AcceptRW(s) ==> AcceptRead(s) && !CanBegin(s)
    ensures forall s :: CanBegin(s) <==> s == NoTransaction || s == Committed
  {
  }
}
