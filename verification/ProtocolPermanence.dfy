/** What never mends by itself: a lost run and a leaked lock. */
module ProtocolPermanence {
  import opened Wrappers
  import opened RunDomain
  import opened Tables
  import opened Protocol
  import opened ProtocolInvariants
  import opened ProtocolSafety
  import opened ProtocolDelivery

  // ---- a lost run ----

  ghost predicate Announced(body: Body, r: RunId) {
    body.RunQueued? && body.run == r
  }

  ghost predicate InBatch(ds: seq<Delivery>, r: RunId) {
    exists i | 0 <= i < |ds| :: Announced(ds[i].body, r)
  }

  /** A relay that still has the run's RunQueued event before it, or is dispatching the run. */
  ghost predicate Holds(th: Thread, r: RunId) {
    match th
    case RelayRecord(d, rest) => Announced(d.body, r) || InBatch(rest, r)
    case RelayClaim(job, rest) => job.run == r || InBatch(rest, r)
    case RelayLoad(job, rest) => job.run == r || InBatch(rest, r)
    case RelayResolve(job, _, rest) => job.run == r || InBatch(rest, r)
    case RelayDispatch(job, rest) => job.run == r || InBatch(rest, r)
    case RelayRevert(job, rest) => job.run == r || InBatch(rest, r)
    case RelayFailWrite(_, _, rest) => InBatch(rest, r)
    case RelayFailUnlock(_, rest) => InBatch(rest, r)
    case RelayPublish(_, rest) => InBatch(rest, r)
    case _ => false
  }

  ghost predicate PublishedRun(db: Db, r: RunId) {
    exists e :: QueuedAt(db.outbox, e, r) && e in db.published
  }

  /** Not applying and never assigned, its event published, and no relay has it in hand. */
  ghost predicate Forgotten(s: State, r: RunId) {
    && r in s.db.runs && r !in s.db.jobs && !HasStatus(s.db, r, Applying)
    && PublishedRun(s.db, r)
    && forall t | t in s.threads :: !Holds(s.threads[t], r)
  }

  lemma ContinueHolds(ds: seq<Delivery>, r: RunId)
    ensures Holds(Continue(ds), r) <==> InBatch(ds, r)
  {
    if ds != [] {
      assert InBatch(ds, r) <==> Announced(ds[0].body, r) || InBatch(ds[1..], r) by {
        assert InBatch(ds[1..], r) ==> InBatch(ds, r) by {
          if InBatch(ds[1..], r) {
            var i :| 0 <= i < |ds[1..]| && Announced(ds[1..][i].body, r);
            assert Announced(ds[i + 1].body, r);
          }
        }
        if InBatch(ds, r) && !Announced(ds[0].body, r) {
          var i :| 0 <= i < |ds| && Announced(ds[i].body, r);
          assert Announced(ds[1..][i - 1].body, r);
        }
      }
    }
  }

  /** A published event is not fetched again, and it was the run's only one. */
  lemma FetchedOthers(db: Db, batch: seq<EventId>, r: RunId)
    requires QueuedOnce(db) && PublishedRun(db, r) && IsBatch(db, batch)
    ensures !Holds(Continue(Deliveries(db, batch)), r)
  {
    hide QueuedOnce;
    if InBatch(Deliveries(db, batch), r) {
      var i :| 0 <= i < |batch| && Announced(Deliveries(db, batch)[i].body, r);
      var e :| QueuedAt(db.outbox, e, r) && e in db.published;
      assert QueuedAt(db.outbox, batch[i], r);
      OneQueued(db, e, batch[i], r);
    }
    ContinueHolds(Deliveries(db, batch), r);
  }

  lemma OneQueued(db: Db, e: EventId, e': EventId, r: RunId)
    requires QueuedOnce(db) && QueuedAt(db.outbox, e, r) && QueuedAt(db.outbox, e', r)
    ensures e == e'
  {
  }

  lemma NotHeldAfter(db: Db, th: Thread, o: Outcome, r: RunId)
    requires QueuedOnce(db) && PublishedRun(db, r) && !Holds(th, r) && After(db, th, o).Some?
    ensures !Holds(After(db, th, o).value, r)
  {
    hide QueuedOnce, IsBatch, PublishedRun, InBatch, StaleApplying, Canceling, Judging;
    match th {
      case RelayFetch =>
        if o.Fetched? && IsBatch(db, o.batch) {
          FetchedOthers(db, o.batch, r);
        }
      case RelayRecord(_, rest) => ContinueHolds(rest, r);
      case RelayClaim(_, rest) => ContinueHolds(rest, r);
      case RelayLoad(_, rest) => ContinueHolds(rest, r);
      case RelayResolve(_, _, rest) => ContinueHolds(rest, r);
      case RelayDispatch(_, rest) => ContinueHolds(rest, r);
      case RelayRevert(_, rest) => ContinueHolds(rest, r);
      case RelayFailWrite(_, _, rest) => ContinueHolds(rest, r);
      case RelayFailUnlock(_, rest) => ContinueHolds(rest, r);
      case RelayPublish(_, rest) => ContinueHolds(rest, r);
      case _ =>
    }
  }

  /** What a call by a thread that does not hold the run can do to it. */
  lemma CallLeavesRun(db: Db, th: Thread, r: RunId)
    requires CallOk(db, CallOf(th)) && !Holds(th, r) && r in db.runs && r !in db.jobs && !HasStatus(db, r, Applying)
    ensures var db' := Apply(db, CallOf(th));
            r in db'.runs && r !in db'.jobs && !HasStatus(db', r, Applying)
    ensures PublishedRun(db, r) ==> PublishedRun(Apply(db, CallOf(th)), r)
  {
    hide InBatch;
    if PublishedRun(db, r) {
      var e :| QueuedAt(db.outbox, e, r) && e in db.published;
      assert QueuedAt(Apply(db, CallOf(th)).outbox, e, r);
    }
  }

  lemma StepFinds(s: State, t: ThreadId)
    requires Inv(s) && t in s.threads
    ensures QueuedOnce(s.db) && CallOk(s.db, CallOf(s.threads[t]))
  {
    ThreadCallOk(s.db, s.threads[t]);
  }

  lemma StepKeepsForgotten(s: State, t: ThreadId, o: Outcome, r: RunId)
    requires Inv(s) && Forgotten(s, r) && t in s.threads
    ensures Forgotten(Next(s, Step(t, o)), r)
  {
    hide Inv, QueuedOnce, CallOf, After, Apply, Holds, PublishedRun, CallOk;
    StepFinds(s, t);
    CallLeavesRun(s.db, s.threads[t], r);
    if After(s.db, s.threads[t], o).Some? {
      NotHeldAfter(s.db, s.threads[t], o, r);
    }
  }

  lemma ForgottenStays(s: State, m: Move, r: RunId)
    requires Inv(s) && Forgotten(s, r)
    ensures Forgotten(Next(s, m), r)
  {
    if m.Step? && m.t in s.threads {
      StepKeepsForgotten(s, m.t, m.outcome, r);
    } else {
      hide Inv;
      var e :| QueuedAt(s.db.outbox, e, r) && e in s.db.published;
      assert QueuedAt(Next(s, m).db.outbox, e, r);
    }
  }

  lemma {:induction false} ForgottenFrom(s: State, moves: seq<Move>, r: RunId)
    requires Inv(s) && Forgotten(s, r)
    ensures Forgotten(Exec(s, moves), r)
    decreases |moves|
  {
    if moves != [] {
      hide Inv, Forgotten, Next;
      NextKeepsInv(s, moves[0]);
      ForgottenStays(s, moves[0], r);
      ForgottenFrom(Next(s, moves[0]), moves[1..], r);
    }
  }

  /** Lost is lost: whatever happens later, a forgotten run is never applying again and never assigned. */
  lemma LostIsForever(moves: seq<Move>, more: seq<Move>, r: RunId)
    requires Forgotten(Exec(INITIAL, moves), r)
    ensures var db := Exec(Exec(INITIAL, moves), more).db;
            r in db.runs && r !in db.jobs && !HasStatus(db, r, Applying)
  {
    ReachableInv(moves);
    ForgottenFrom(Exec(INITIAL, moves), more, r);
  }

  // ---- a leaked lock ----

  /** A thread that may come to release the lock the run holds on the workspace. */
  ghost predicate MayUnlock(th: Thread, w: WorkspaceId, r: RunId) {
    || Debt(th) == Some((w, r))
    || Creates(th) == Some(r)
    || match th
       case CancelWrite(row) => row.workspace == w && row.id == r
       case ReportWrite(row, workspace) => workspace == w && row.id == r
       case RelayResolve(job, row, _) => job.workspace == w && row.id == r && row.status == Applying
       case RelayFailWrite(job, row, _) => job.workspace == w && row.id == r
       case _ => false
  }

  /** Locked by a run that is over or was never stored, and no thread in flight will release it. */
  ghost predicate Leaked(s: State, w: WorkspaceId, r: RunId) {
    && w in s.db.locks && s.db.locks[w] == r
    && (r in s.db.runs ==> Finished(s.db, r))
    && forall t | t in s.threads :: !MayUnlock(s.threads[t], w, r)
  }

  lemma NoUnlockAfter(db: Db, th: Thread, o: Outcome, w: WorkspaceId, r: RunId)
    requires RowsOk(db) && ThreadOk(db, th) && !MayUnlock(th, w, r)
    requires w in db.locks && db.locks[w] == r && (r in db.runs ==> Finished(db, r))
    ensures After(db, th, o).Some? ==> !MayUnlock(After(db, th, o).value, w, r)
  {
    hide DeliveriesOk, DeliveryOk, IsBatch, StaleApplying;
  }

  lemma CallLeavesLock(db: Db, th: Thread, w: WorkspaceId, r: RunId)
    requires CallOk(db, CallOf(th)) && !MayUnlock(th, w, r)
    requires w in db.locks && db.locks[w] == r && (r in db.runs ==> Finished(db, r))
    ensures var db' := Apply(db, CallOf(th));
            w in db'.locks && db'.locks[w] == r && (r in db'.runs ==> Finished(db', r))
  {
  }

  lemma LeakedStays(s: State, m: Move, w: WorkspaceId, r: RunId)
    requires Inv(s) && Leaked(s, w, r)
    ensures Leaked(Next(s, m), w, r)
  {
    if m.Step? && m.t in s.threads {
      var th := s.threads[m.t];
      StepRelies(s, m.t);
      ThreadCallOk(s.db, th);
      CallLeavesLock(s.db, th, w, r);
      NoUnlockAfter(s.db, th, m.outcome, w, r);
      hide Inv, CallOf, After, Apply, MayUnlock, CallOk, ThreadOk, RowsOk;
    } else {
      assert r < s.nextRun;
      hide Inv;
    }
  }

  lemma {:induction false} LeakedFrom(s: State, moves: seq<Move>, w: WorkspaceId, r: RunId)
    requires Inv(s) && Leaked(s, w, r)
    ensures Leaked(Exec(s, moves), w, r) && Inv(Exec(s, moves))
    decreases |moves|
  {
    if moves != [] {
      hide Inv, Leaked, Next;
      NextKeepsInv(s, moves[0]);
      LeakedStays(s, moves[0], w, r);
      LeakedFrom(Next(s, moves[0]), moves[1..], w, r);
    }
  }

  /**
   A leak is for good: whatever happens later, the lock stays with that run and no run is ever live
   in the workspace.
   */
  lemma LeakIsForever(moves: seq<Move>, more: seq<Move>, w: WorkspaceId, r: RunId)
    requires Leaked(Exec(INITIAL, moves), w, r)
    ensures var db := Exec(Exec(INITIAL, moves), more).db;
            w in db.locks && db.locks[w] == r && forall r' :: !Live(db, w, r')
  {
    ReachableInv(moves);
    LeakedFrom(Exec(INITIAL, moves), more, w, r);
    InvOfLocks(Exec(Exec(INITIAL, moves), more));
  }
}
