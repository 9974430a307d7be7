/** When the status of a run that is over changes once more, and when it does not. */
module ProtocolOverwrites {
  import opened Wrappers
  import opened RunDomain
  import opened Tables
  import opened Protocol
  import opened ProtocolInvariants
  import opened ProtocolSafety

  /** A cancel, a report or a failing dispatch stores the row it has read earlier. */
  ghost predicate Stores(s: State, m: Move, r: RunId) {
    && m.Step? && m.outcome.Done? && m.t in s.threads
    && CallOf(s.threads[m.t]).Update? && CallOf(s.threads[m.t]).row.id == r
  }

  /** It stores another status than the run has. */
  ghost predicate Overwrites(s: State, m: Move, r: RunId) {
    Stores(s, m, r) && r in s.db.runs && CallOf(s.threads[m.t]).row.status != s.db.runs[r].status
  }

  /** The run has ended since the row was read. */
  ghost predicate StoresLate(s: State, m: Move, r: RunId) {
    Stores(s, m, r) && Finished(s.db, r)
  }

  lemma CallOnFinished(db: Db, call: Call, r: RunId)
    requires CallOk(db, call) && Finished(db, r)
    ensures r in Apply(db, call).runs
    ensures Finished(Apply(db, call), r)
    ensures Apply(db, call).runs[r].status == if call.Update? && call.row.id == r then call.row.status
            else db.runs[r].status
  {
  }

  /** The status of a run that is over changes exactly when some thread stores another one. */
  lemma StatusChangesExactly(s: State, m: Move, r: RunId)
    requires Inv(s) && Finished(s.db, r)
    ensures Finished(Next(s, m).db, r)
    ensures Next(s, m).db.runs[r].status != s.db.runs[r].status <==> Overwrites(s, m, r)
  {
    if m.Step? && m.t in s.threads {
      StepRelies(s, m.t);
      ThreadCallOk(s.db, s.threads[m.t]);
      CallOnFinished(s.db, CallOf(s.threads[m.t]), r);
      hide Inv, CallOf, After, Apply, CallOk, ThreadOk, RowsOk;
    } else {
      hide Inv;
    }
  }

  ghost predicate NeverOverwritten(s: State, moves: seq<Move>, r: RunId)
    decreases |moves|
  {
    moves != [] ==> !Overwrites(s, moves[0], r) && NeverOverwritten(Next(s, moves[0]), moves[1..], r)
  }

  /** The run has this status now and after each of the moves. */
  ghost predicate KeepsStatus(s: State, moves: seq<Move>, r: RunId, status: Status)
    decreases |moves|
  {
    HasStatus(s.db, r, status) && (moves != [] ==> KeepsStatus(Next(s, moves[0]), moves[1..], r, status))
  }

  /** A status is the last one exactly when no thread stores another later. */
  lemma {:induction false} StatusStaysExactly(s: State, moves: seq<Move>, r: RunId)
    requires Inv(s) && Finished(s.db, r)
    ensures KeepsStatus(s, moves, r, s.db.runs[r].status) <==> NeverOverwritten(s, moves, r)
    decreases |moves|
  {
    hide Inv, Overwrites, Next;
    if moves != [] {
      NextKeepsInv(s, moves[0]);
      StatusChangesExactly(s, moves[0], r);
      if !Overwrites(s, moves[0], r) {
        StatusStaysExactly(Next(s, moves[0]), moves[1..], r);
      }
    }
  }

  ghost predicate NoneStoresLate(s: State, moves: seq<Move>, r: RunId)
    decreases |moves|
  {
    moves != [] ==> !StoresLate(s, moves[0], r) && NoneStoresLate(Next(s, moves[0]), moves[1..], r)
  }

  lemma {:induction false} LateStoresOnly(s: State, moves: seq<Move>, r: RunId)
    requires Inv(s) && Finished(s.db, r) && NoneStoresLate(s, moves, r)
    ensures NeverOverwritten(s, moves, r)
    decreases |moves|
  {
    if moves != [] {
      hide Inv, Next;
      NextKeepsInv(s, moves[0]);
      StatusChangesExactly(s, moves[0], r);
      LateStoresOnly(Next(s, moves[0]), moves[1..], r);
    }
  }

  /**
   Were storing guarded by the stored status, a terminal status would be final: after any
   schedule, as long as no thread stores a row of a run that has ended since it was read,
   the run keeps the status it ended with.
   */
  lemma FinalUnlessStoredLate(moves: seq<Move>, more: seq<Move>, r: RunId)
    requires Finished(Exec(INITIAL, moves).db, r) && NoneStoresLate(Exec(INITIAL, moves), more, r)
    ensures KeepsStatus(Exec(INITIAL, moves), more, r, Exec(INITIAL, moves).db.runs[r].status)
  {
    ReachableInv(moves);
    LateStoresOnly(Exec(INITIAL, moves), more, r);
    StatusStaysExactly(Exec(INITIAL, moves), more, r);
  }
}
