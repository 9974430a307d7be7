/**
 What the protocol guarantees over whole runs: every theorem below is about
 Exec(INITIAL, moves) for an arbitrary schedule, with any number of triggers, cancels,
 reports, sweeps and relays interleaved call by call, calls failing and threads crashing.
 */
module ProtocolSafety {
  import opened Wrappers
  import opened RunDomain
  import opened Tables
  import opened Protocol
  import opened ProtocolInvariants

  // ---- dispatch ----

  /** The dispatchers that have claimed a run and may still hand it to a worker. */
  ghost function Dispatchers(s: State, r: RunId): set<ThreadId> {
    set t | t in s.threads && Window(s.threads[t]) == Some(r)
  }

  lemma CountedOnce(xs: seq<RunId>, r: RunId)
    requires forall i, j :: 0 <= i < j < |xs| ==> xs[i] != xs[j]
    ensures multiset(xs)[r] == if r in xs then 1 else 0
  {
    if xs != [] {
      var front := xs[..|xs| - 1];
      assert xs == front + [xs[|xs| - 1]];
      CountedOnce(front, r);
    }
  }

  lemma AtMostOne(s: State, r: RunId)
    requires DispatchOk(s)
    ensures |Dispatchers(s, r)| <= 1
  {
    var ts := Dispatchers(s, r);
    if ts != {} {
      var t :| t in ts;
      assert ts == {t};
    }
  }

  /**
   At-most-once assignment: assignments plus dispatchers that may still assign never exceed
   one, and a queued run has neither.
   */
  lemma AtMostOnceAssignment(moves: seq<Move>, r: RunId)
    ensures var s := Exec(INITIAL, moves);
            && multiset(s.db.jobs)[r] + |Dispatchers(s, r)| <= 1
            && (HasStatus(s.db, r, Queued) ==> multiset(s.db.jobs)[r] == 0 && Dispatchers(s, r) == {})
  {
    var s := Exec(INITIAL, moves);
    ReachableInv(moves);
    CountedOnce(s.db.jobs, r);
    AtMostOne(s, r);
    if r in s.db.jobs {
      assert Dispatchers(s, r) == {};
    }
  }

  /** A report of an assigned run is dropped as an invalid transition only when the run is over. */
  lemma DroppedReportsAreLate(moves: seq<Move>, t: ThreadId)
    requires t in Exec(INITIAL, moves).threads && Exec(INITIAL, moves).threads[t].ReportRead?
    requires var th := Exec(INITIAL, moves).threads[t];
             !th.verdict.SaysSomethingElse? && th.run in Exec(INITIAL, moves).db.jobs
    ensures var s := Exec(INITIAL, moves);
            After(s.db, s.threads[t], Done).None? <==> Finished(s.db, s.threads[t].run)
  {
    ReachableInv(moves);
  }

  // ---- the workspace lock ----

  ghost predicate Live(db: Db, w: WorkspaceId, r: RunId) {
    RunAt(db, r, w) && !db.runs[r].status.IsTerminal()
  }

  /**
   Mutual exclusion in the table: a run that is not over holds its workspace's lock, so no
   workspace ever has two, however late the unlocks of its earlier runs arrive.
   */
  lemma MutualExclusion(moves: seq<Move>, w: WorkspaceId, r: RunId, r': RunId)
    ensures var db := Exec(INITIAL, moves).db;
            && (Live(db, w, r) ==> w in db.locks && db.locks[w] == r)
            && (Live(db, w, r) && Live(db, w, r') ==> r == r')
  {
    ReachableInv(moves);
  }

  // ---- the log and the table ----

  ghost predicate Announces(db: Db, e: EventId, r: RunId, status: Status) {
    e < |db.outbox| && db.outbox[e].body.TerminalStatus() == Some(status) && db.outbox[e].body.run == r
  }

  lemma LastTerminalIsLast(outbox: seq<Event>, r: RunId) returns (e: EventId)
    requires LastTerminal(outbox, r).Some?
    ensures e < |outbox| && outbox[e].body.TerminalStatus() == LastTerminal(outbox, r) && outbox[e].body.run == r
    ensures forall i | e < i < |outbox| && outbox[i].body.TerminalStatus().Some? :: outbox[i].body.run != r
  {
    var last := |outbox| - 1;
    if outbox[last].body.TerminalStatus().Some? && outbox[last].body.run == r {
      e := last;
    } else {
      e := LastTerminalIsLast(outbox[..last], r);
    }
  }

  lemma NoTerminalNoAnnouncement(outbox: seq<Event>, r: RunId)
    requires LastTerminal(outbox, r).None?
    ensures forall i | 0 <= i < |outbox| && outbox[i].body.TerminalStatus().Some? :: outbox[i].body.run != r
  {
    if outbox != [] {
      NoTerminalNoAnnouncement(outbox[..|outbox| - 1], r);
    }
  }

  /** Event e announces the status, and no later event announces another for that run. */
  ghost predicate LastWord(db: Db, e: EventId, r: RunId, status: Status) {
    && Announces(db, e, r, status)
    && forall i | e < i < |db.outbox| && db.outbox[i].body.TerminalStatus().Some? :: db.outbox[i].body.run != r
  }

  /**
   The log and the table agree: a stored run has a terminal status exactly when the log holds
   a terminal event for it whose status is that one and which no later terminal event of the
   run follows.
   */
  lemma LogTellsStatus(moves: seq<Move>, r: RunId, status: Status)
    requires r in Exec(INITIAL, moves).db.runs && status.IsTerminal()
    ensures var db := Exec(INITIAL, moves).db;
            HasStatus(db, r, status) <==> exists e: EventId :: LastWord(db, e, r, status)
  {
    var db := Exec(INITIAL, moves).db;
    ReachableInv(moves);
    assert RowAgrees(db.outbox, r, db.runs[r]);
    if LastTerminal(db.outbox, r).Some? {
      var e := LastTerminalIsLast(db.outbox, r);
      assert LastWord(db, e, r, db.runs[r].status);
      forall e': EventId | LastWord(db, e', r, status)
        ensures e' == e
      {
        assert e' <= e && e <= e';
      }
    } else {
      NoTerminalNoAnnouncement(db.outbox, r);
    }
  }

  /** Once over, a run stays over: no later move makes it queued or applying again. */
  lemma OverIsForever(moves: seq<Move>, more: seq<Move>, r: RunId)
    requires Finished(Exec(INITIAL, moves).db, r)
    ensures Finished(Exec(Exec(INITIAL, moves), more).db, r)
  {
    ReachableInv(moves);
    ExecKeepsInv(Exec(INITIAL, moves), more);
  }

  /** Only the six statuses this code writes are ever stored, with a finishing time exactly when over. */
  lemma StoredRows(moves: seq<Move>, r: RunId)
    requires r in Exec(INITIAL, moves).db.runs
    ensures var row := Exec(INITIAL, moves).db.runs[r];
            && row.status in {Queued, Applying, Applied, Failed, Errored, Canceled}
            && (row.finishedAt.Some? <==> row.status in {Applied, Failed, Errored, Canceled})
            && (row.status == Applying ==>
                  row.startedAt.Some? && LastClaim(Exec(INITIAL, moves).db.outbox, r) == row.startedAt)
  {
    ReachableInv(moves);
    assert RowAgrees(Exec(INITIAL, moves).db.outbox, r, Exec(INITIAL, moves).db.runs[r]);
  }

  // ---- the audit trail ----

  lemma RecordedOnce(audit: seq<EventId>, e: EventId)
    requires forall i, j :: 0 <= i < j < |audit| ==> audit[i] != audit[j]
    ensures multiset(audit)[e] == if e in audit then 1 else 0
  {
    CountedOnce(audit, e);
  }

  /**
   Exactly-once audit effect: no event has two entries, every published event has one, and
   a run that was ever claimed has the entry of its RunQueued event.
   */
  lemma ExactlyOnceAudit(moves: seq<Move>, e: EventId)
    ensures var db := Exec(INITIAL, moves).db;
            && multiset(db.audit)[e] <= 1
            && (e in db.published ==> multiset(db.audit)[e] == 1)
            && (forall i |
                  0 <= i < |db.outbox| && db.outbox[i].body.RunApplying?
                  && QueuedAt(db.outbox, e, db.outbox[i].body.run) ::
                  multiset(db.audit)[e] == 1)
  {
    ReachableInv(moves);
    RecordedOnce(Exec(INITIAL, moves).db.audit, e);
  }

  // ---- owed unlocks ----

  /** The unlock a thread still has to make: of a lock taken for a run not yet created, or of a run that is over. */
  ghost function Debt(th: Thread): Option<(WorkspaceId, RunId)> {
    match th
    case TriggerCreate(r, w) => Some((w, r))
    case TriggerUndo(r, w) => Some((w, r))
    case CancelUnlock(r, w) => Some((w, r))
    case ReportUnlock(r, w) => Some((w, r))
    case SweepUnlock(c, _) => Some((c.workspace, c.run))
    case RelayFailUnlock(job, _) => Some((job.workspace, job.run))
    case _ => None
  }

  ghost predicate Owes(s: State, t: ThreadId, w: WorkspaceId, r: RunId) {
    t in s.threads && Debt(s.threads[t]) == Some((w, r))
  }

  ghost predicate LockAccounted(s: State, w: WorkspaceId) {
    w in s.db.locks ==> Live(s.db, w, s.db.locks[w]) || exists t :: Owes(s, t, w, s.db.locks[w])
  }

  /** Every lock is held for a live run, or some thread still has to release it. */
  ghost predicate Owed(s: State) {
    forall w :: w in s.db.locks ==> LockAccounted(s, w)
  }

  /** Losing this thread now would leave a lock nobody releases. */
  ghost predicate OnlyDebtor(s: State, t: ThreadId) {
    && t in s.threads
    && Debt(s.threads[t]).Some?
    && var (w, r) := Debt(s.threads[t]).value;
       && w in s.db.locks && s.db.locks[w] == r
       && forall u :: u != t ==> !Owes(s, u, w, r)
  }

  /**
   The moves that leak a lock: the only thread owing an unlock crashes, or its unlock call
   fails, or a worker's report that ends a live run names another workspace.
   */
  ghost predicate Leaks(s: State, m: Move) {
    match m
    case Crash(t) => OnlyDebtor(s, t)
    case Step(t, o) =>
      || (OnlyDebtor(s, t) && CallOf(s.threads[t]).Unlock? && !o.Done?)
      || (t in s.threads && s.threads[t].ReportWrite? && o.Done?
          && Live(s.db, s.threads[t].row.workspace, s.threads[t].row.id)
          && s.threads[t].workspace != s.threads[t].row.workspace)
    case _ => false
  }

  lemma LiveHasNoDebtor(s: State, t: ThreadId, w: WorkspaceId, r: RunId)
    requires Inv(s) && Live(s.db, w, r)
    ensures !Owes(s, t, w, r)
  {
    assert t in s.threads ==> ThreadOk(s.db, s.threads[t]);
  }

  /** A live run is ended by a call that stores it or errors it. */
  lemma EndingCall(db: Db, call: Call, w: WorkspaceId, r: RunId)
    requires Live(db, w, r) && !Live(Apply(db, call), w, r)
    ensures (call.Update? && call.row.id == r) || (call == MarkErrored(r) && HasStatus(db, r, Applying)) || call.Create?
  {
  }

  /** The call that ends a run leaves its thread owing the unlock, if it knows the workspace. */
  lemma EnderOwes(db: Db, th: Thread, o: Outcome, w: WorkspaceId, r: RunId)
    requires RowsOk(db) && ThreadOk(db, th) && Live(db, w, r) && !Live(Commit(db, CallOf(th), o), w, r)
    ensures After(db, th, o).Some?
    ensures Debt(After(db, th, o).value) == Some((if th.ReportWrite? then th.workspace else w, r))
    ensures th.ReportWrite? ==> o.Done? && th.row.id == r && th.row.workspace == w
  {
    assert o.Done?;
    EndingCall(db, CallOf(th), w, r);
    hide DeliveriesOk, DeliveryOk, StaleApplying, IsBatch, Apply, RowsOk;
    if th.TriggerCreate? {
      CreatesOther(db, th, w, r);
    }
  }

  lemma CreatesOther(db: Db, th: Thread, w: WorkspaceId, r: RunId)
    requires th.TriggerCreate? && ThreadOk(db, th) && Live(db, w, r)
    ensures Live(Apply(db, CallOf(th)), w, r)
  {
  }

  /** A debt is paid, passed on, or dropped by a failing unlock. */
  lemma DebtorGoesOn(db: Db, th: Thread, o: Outcome, w: WorkspaceId, r: RunId)
    requires ThreadOk(db, th) && Debt(th) == Some((w, r))
    ensures var db' := Commit(db, CallOf(th), o);
            || Live(db', w, r)
            || (After(db, th, o).Some? && Debt(After(db, th, o).value) == Some((w, r)))
            || (CallOf(th) == Unlock(w, r) && (o.Done? ==> w !in db'.locks || db'.locks[w] != r))
  {
  }

  lemma LocksOnlyByTrigger(db: Db, th: Thread, o: Outcome, w: WorkspaceId)
    requires w in Commit(db, CallOf(th), o).locks
    ensures var r := Commit(db, CallOf(th), o).locks[w];
            || (w in db.locks && db.locks[w] == r)
            || (After(db, th, o) == Some(TriggerCreate(r, w)))
  {
  }

  lemma StepAccounts(s: State, t: ThreadId, o: Outcome, w: WorkspaceId)
    requires Inv(s) && Owed(s) && t in s.threads && !Leaks(s, Step(t, o))
    requires w in Next(s, Step(t, o)).db.locks
    ensures LockAccounted(Next(s, Step(t, o)), w)
  {
    hide Inv, DbOk;
    var s' := Next(s, Step(t, o));
    var th, r := s.threads[t], s'.db.locks[w];
    InvOfDb(s);
    assert RowsOk(s.db) && ThreadOk(s.db, th) by { StepRelies(s, t); }
    LocksOnlyByTrigger(s.db, th, o, w);
    if After(s.db, th, o) == Some(TriggerCreate(r, w)) {
      assert Owes(s', t, w, r);
    } else if Live(s.db, w, r) {
      if !Live(s'.db, w, r) {
        EnderOwes(s.db, th, o, w, r);
        assert Owes(s', t, w, r);
      }
    } else {
      assert LockAccounted(s, w);
      var u :| Owes(s, u, w, r);
      if u == t {
        DebtorGoesOn(s.db, th, o, w, r);
        if !Live(s'.db, w, r) && !Owes(s', t, w, r) {
          var v :| v != t && Owes(s, v, w, r);
          assert Owes(s', v, w, r);
        }
      } else {
        assert Owes(s', u, w, r);
      }
    }
  }

  lemma StepRelies(s: State, t: ThreadId)
    requires Inv(s) && t in s.threads
    ensures RowsOk(s.db) && ThreadOk(s.db, s.threads[t])
  {
  }

  lemma OtherMoveAccounts(s: State, m: Move, w: WorkspaceId)
    requires Owed(s) && !m.Step? && !Leaks(s, m) && w in s.db.locks
    ensures LockAccounted(Next(s, m), w)
  {
    var s', r := Next(s, m), s.db.locks[w];
    assert LockAccounted(s, w);
    if !Live(s.db, w, r) {
      var u :| Owes(s, u, w, r);
      if m == Crash(u) {
        var v :| v != u && Owes(s, v, w, r);
        assert Owes(s', v, w, r);
      } else {
        assert Owes(s', u, w, r);
      }
    }
  }

  lemma LeakLeaks(s: State, m: Move)
    requires Inv(s) && Leaks(s, m)
    ensures !Owed(Next(s, m))
  {
    hide Inv, DbOk;
    InvOfLocks(s);
    var s', th := Next(s, m), s.threads[m.t];
    StepRelies(s, m.t);
    if m.Step? && th.ReportWrite? {
      var w, r := th.row.workspace, th.row.id;
      forall u
        ensures !Owes(s', u, w, r)
      {
        LiveHasNoDebtor(s, u, w, r);
      }
      assert !LockAccounted(s', w);
    } else {
      var (w, r) := Debt(th).value;
      forall u
        ensures !Owes(s', u, w, r)
      {
        assert u != m.t ==> !Owes(s, u, w, r);
      }
      assert !LockAccounted(s', w);
    }
  }

  /** A move breaks the accounting of locks exactly when it is one of the leaks. */
  lemma OwedExactlyUnlessLeaked(s: State, m: Move)
    requires Inv(s) && Owed(s)
    ensures Owed(Next(s, m)) <==> !Leaks(s, m)
  {
    if Leaks(s, m) {
      LeakLeaks(s, m);
    } else {
      forall w | w in Next(s, m).db.locks
        ensures LockAccounted(Next(s, m), w)
      {
        if m.Step? && m.t in s.threads {
          StepAccounts(s, m.t, m.outcome, w);
        } else if !m.Step? {
          OtherMoveAccounts(s, m, w);
        } else {
          assert LockAccounted(s, w);
        }
      }
    }
  }

  ghost predicate LeakFree(s: State, moves: seq<Move>)
    decreases |moves|
  {
    moves != [] ==> !Leaks(s, moves[0]) && LeakFree(Next(s, moves[0]), moves[1..])
  }

  lemma {:induction false} ExecKeepsOwed(s: State, moves: seq<Move>)
    requires Inv(s) && Owed(s) && LeakFree(s, moves)
    ensures Owed(Exec(s, moves))
    decreases |moves|
  {
    if moves != [] {
      OwedExactlyUnlessLeaked(s, moves[0]);
      NextKeepsInv(s, moves[0]);
      ExecKeepsOwed(Next(s, moves[0]), moves[1..]);
    }
  }

  /** No thread is in the middle of a request, a sweep or an event: the pollers wait for their tick. */
  ghost predicate Quiet(s: State) {
    forall t :: t in s.threads ==> s.threads[t].RelayFetch? || s.threads[t].SweepFind?
  }

  lemma QuietLocks(s: State, w: WorkspaceId, r: RunId)
    requires LocksOk(s.db) && Owed(s) && Quiet(s)
    ensures (w in s.db.locks && s.db.locks[w] == r) <==> Live(s.db, w, r)
  {
    if w in s.db.locks {
      assert LockAccounted(s, w);
    }
  }

  /**
   Owed unlocks: without a leak, a locked workspace has a live run or a thread that still has
   to unlock it; when no thread is in flight, the workspace is locked by a run exactly when
   that run is live in it, so it is locked exactly when it has a live run.
   */
  lemma OwedUnlocks(moves: seq<Move>, w: WorkspaceId)
    requires LeakFree(INITIAL, moves)
    ensures var s := Exec(INITIAL, moves);
            && LockAccounted(s, w)
            && (Quiet(s) ==> forall r :: (w in s.db.locks && s.db.locks[w] == r) <==> Live(s.db, w, r))
            && (Quiet(s) ==> (w in s.db.locks <==> exists r: RunId :: Live(s.db, w, r)))
  {
    hide Inv, DbOk, Live, LeakFree, Exec;
    var s := Exec(INITIAL, moves);
    ExecKeepsInv(INITIAL, moves);
    ExecKeepsOwed(INITIAL, moves);
    assert LockAccounted(s, w);
    InvOfLocks(s);
    if Quiet(s) {
      forall r: RunId
        ensures (w in s.db.locks && s.db.locks[w] == r) <==> Live(s.db, w, r)
      {
        QuietLocks(s, w, r);
      }
    }
  }

  lemma InvOfLocks(s: State)
    requires Inv(s)
    ensures LocksOk(s.db)
  {
  }
}
