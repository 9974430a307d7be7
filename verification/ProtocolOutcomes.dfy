/**
 What the services leave behind, written out in rows, events, locks and assignments: each of
 them played from its first call to its last with nothing in between, for every way its
 calls can end, and the failure of a dispatch in every reachable state.
 */
module ProtocolOutcomes {
  import opened Wrappers
  import opened RunDomain
  import opened Tables
  import opened Protocol
  import opened ProtocolInvariants
  import opened Repositories
  import opened Services

  /** The script of a service nobody interferes with, whose calls end one after the other in these ways. */
  function Ending(outcomes: seq<Outcome>): seq<Slot> {
    if outcomes == [] then [] else [Slot(db => db, outcomes[0])] + Ending(outcomes[1..])
  }

  function Afterwards(db: Db, th: Thread, outcomes: seq<Outcome>): Db {
    Play(db, Some(th), Ending(outcomes)).0
  }

  function First(outcomes: seq<Outcome>): Outcome {
    if outcomes == [] then Done else outcomes[0]
  }

  function Rest(outcomes: seq<Outcome>): seq<Outcome> {
    if outcomes == [] then [] else outcomes[1..]
  }

  lemma AfterwardsCall(db: Db, th: Thread, outcomes: seq<Outcome>)
    requires !th.RelayFetch? && !th.SweepFind?
    ensures var o := First(outcomes);
            var db' := Commit(db, CallOf(th), o);
            Afterwards(db, th, outcomes) ==
            if After(db, th, o).None? || After(db, th, o).value.RelayFetch? || After(db, th, o).value.SweepFind? then
              db'
            else Afterwards(db', After(db, th, o).value, Rest(outcomes))
  {
    hide CallOf, After, Commit;
    PlayCall(db, th, Ending(outcomes));
  }

  /** Whoever holds the lock of a workspace for this run no longer does; other locks stay. */
  function Freed(locks: map<WorkspaceId, RunId>, w: WorkspaceId, r: RunId): (freed: map<WorkspaceId, RunId>)
    ensures forall v :: v in freed <==> v in locks && !(v == w && locks[v] == r)
    ensures forall v :: v in freed ==> freed[v] == locks[v]
  {
    if w in locks && locks[w] == r then locks - {w} else locks
  }

  // ---- requests ----

  lemma TriggerOutcome(db: Db, r: RunId, w: WorkspaceId)
    ensures Afterwards(db, TriggerLock(r, w), []) ==
            if w in db.locks then db
            else db.(runs := db.runs[r := RunRow(r, w, Queued, None, None, None)],
                     locks := db.locks[w := r],
                     outbox := db.outbox + [Event(RunQueued(r, w), db.clock)])
    ensures Afterwards(db, TriggerLock(r, w), [Done, Fault]) == db
  {
    AfterwardsCall(db, TriggerLock(r, w), []);
    AfterwardsCall(db, TriggerLock(r, w), [Done, Fault]);
    AfterwardsCall(Locking(db, w, r), TriggerCreate(r, w), []);
    AfterwardsCall(Locking(db, w, r), TriggerCreate(r, w), [Fault]);
    AfterwardsCall(Locking(db, w, r), TriggerUndo(r, w), []);
    hide Afterwards;
    assert w !in db.locks ==> db.locks[w := r] - {w} == db.locks;
    assert [Done, Fault][1..] == [Fault];
  }

  /** A cancel of a live run of that workspace stores it canceled and frees the workspace; any other changes nothing. */
  lemma CancelOutcome(db: Db, r: RunId, w: WorkspaceId)
    requires r in db.runs ==> db.runs[r].id == r
    ensures var live := r in db.runs && db.runs[r].workspace == w &&
                            db.runs[r].status !in {Applied, Failed, Errored, Canceled};
            var unlocked := Afterwards(db, CancelRead(r, w), []);
            var locked := Afterwards(db, CancelRead(r, w), [Done, Done, Fault]);
            && (!live ==> unlocked == db && locked == db)
            && (live ==>
                  && locked == db.(runs := db.runs[r := db.runs[r].(status := Canceled, finishedAt := Some(db.clock))],
                                   outbox := db.outbox + [Event(RunCanceled(r, w), db.clock)])
                  && unlocked == locked.(locks := Freed(db.locks, w, r)))
    ensures Afterwards(db, CancelRead(r, w), [Done, Fault]) == db
  {
    AfterwardsCall(db, CancelRead(r, w), []);
    AfterwardsCall(db, CancelRead(r, w), [Done, Fault]);
    AfterwardsCall(db, CancelRead(r, w), [Done, Done, Fault]);
    if r in db.runs && db.runs[r].workspace == w && db.runs[r].status !in {Applied, Failed, Errored, Canceled} {
      CanceledOutcome(db, db.runs[r].(status := Canceled, finishedAt := Some(db.clock)));
    }
    hide Afterwards;
    assert [Done, Fault][1..] == [Fault] && [Done, Done, Fault][1..] == [Done, Fault];
  }

  lemma CanceledOutcome(db: Db, row: RunRow)
    requires row.id in db.runs && db.runs[row.id].workspace == row.workspace && row.status == Canceled
    ensures var locked := db.(runs := db.runs[row.id := row],
                              outbox := db.outbox + [Event(RunCanceled(row.id, row.workspace), db.clock)]);
            && Afterwards(db, CancelWrite(row), []) == locked.(locks := Freed(db.locks, row.workspace, row.id))
            && Afterwards(db, CancelWrite(row), [Done, Fault]) == locked
    ensures Afterwards(db, CancelWrite(row), [Fault]) == db
  {
    var locked := Updating(db, row);
    AfterwardsCall(db, CancelWrite(row), []);
    AfterwardsCall(db, CancelWrite(row), [Fault]);
    AfterwardsCall(db, CancelWrite(row), [Done, Fault]);
    AfterwardsCall(locked, CancelUnlock(row.id, row.workspace), []);
    AfterwardsCall(locked, CancelUnlock(row.id, row.workspace), [Fault]);
    AfterwardsCall(Unlocking(locked, row.workspace, row.id), CancelNotify(row.id), []);
    hide Afterwards;
    assert [Done, Fault][1..] == [Fault];
  }

  // ---- deliveries ----

  /** An entry of the audit log is written once. */
  function Recorded(audit: seq<EventId>, e: EventId): (recorded: seq<EventId>)
    ensures forall i :: 0 <= i < |audit| ==> |recorded| >= |audit| && recorded[i] == audit[i]
    ensures |recorded| == |audit| + if e in audit then 0 else 1
    ensures e in recorded
  {
    if e in audit then audit else audit + [e]
  }

  lemma RecordStep(db: Db, d: Delivery, os: seq<Outcome>)
    requires First(os).Done?
    ensures var recorded := db.(audit := Recorded(db.audit, d.id));
            Afterwards(db, RelayRecord(d, []), os) ==
            if d.body.RunQueued? then
              Afterwards(recorded, RelayClaim(Job(d.id, d.body.run, d.body.workspace), []), Rest(os))
            else Afterwards(recorded, RelayPublish(d.id, []), Rest(os))
  {
    AfterwardsCall(db, RelayRecord(d, []), os);
    hide Afterwards;
  }

  lemma ClaimStep(db: Db, job: Job, os: seq<Outcome>)
    requires First(os).Done?
    ensures Afterwards(db, RelayClaim(job, []), os) ==
            if HasStatus(db, job.run, Queued) then
              var row := db.runs[job.run].(status := Applying, startedAt := Some(db.clock));
              Afterwards(db.(runs := db.runs[job.run := row],
                             outbox := db.outbox + [Event(RunApplying(job.run, job.workspace), db.clock)]),
                         RelayLoad(job, []), Rest(os))
            else Afterwards(db, RelayPublish(job.event, []), Rest(os))
  {
    AfterwardsCall(db, RelayClaim(job, []), os);
    hide Afterwards;
  }

  lemma LoadStep(db: Db, job: Job, os: seq<Outcome>)
    requires First(os).Done? && job.run in db.runs
    ensures Afterwards(db, RelayLoad(job, []), os) ==
            Afterwards(db, RelayResolve(job, db.runs[job.run], []), Rest(os))
  {
    AfterwardsCall(db, RelayLoad(job, []), os);
    hide Afterwards;
  }

  lemma ResolveStep(db: Db, job: Job, row: RunRow, os: seq<Outcome>)
    requires row.status == Applying
    ensures Afterwards(db, RelayResolve(job, row, []), os) ==
            match First(os)
            case Done => Afterwards(db, RelayDispatch(job, []), Rest(os))
            case Missing =>
              Afterwards(db, RelayFailWrite(job, row.(status := Failed, finishedAt := Some(db.clock)), []), Rest(os))
            case _ => db
  {
    AfterwardsCall(db, RelayResolve(job, row, []), os);
    hide Afterwards;
  }

  lemma DispatchStep(db: Db, job: Job, os: seq<Outcome>)
    ensures Afterwards(db, RelayDispatch(job, []), os) ==
            match First(os)
            case Done => Afterwards(db.(jobs := db.jobs + [job.run]), RelayPublish(job.event, []), Rest(os))
            case NoWorker => Afterwards(db, RelayRevert(job, []), Rest(os))
            case _ => db
  {
    AfterwardsCall(db, RelayDispatch(job, []), os);
    hide Afterwards;
  }

  lemma PublishStep(db: Db, e: EventId, os: seq<Outcome>)
    requires First(os).Done?
    ensures Afterwards(db, RelayPublish(e, []), os) == db.(published := db.published + {e})
  {
    AfterwardsCall(db, RelayPublish(e, []), os);
    hide Afterwards;
  }

  lemma RevertStep(db: Db, job: Job, os: seq<Outcome>)
    requires First(os).Done? && HasStatus(db, job.run, Applying)
    ensures Afterwards(db, RelayRevert(job, []), os) ==
            db.(runs := db.runs[job.run := db.runs[job.run].(status := Queued, startedAt := None)])
  {
    AfterwardsCall(db, RelayRevert(job, []), os);
    hide Afterwards;
  }

  lemma FailUnlockStep(db: Db, job: Job, os: seq<Outcome>)
    requires First(os).Done?
    ensures Afterwards(db, RelayFailUnlock(job, []), os) ==
            Afterwards(db.(locks := Freed(db.locks, job.workspace, job.run)), RelayPublish(job.event, []), Rest(os))
  {
    AfterwardsCall(db, RelayFailUnlock(job, []), os);
    hide Afterwards;
  }

  lemma FailStep(db: Db, job: Job, row: RunRow, os: seq<Outcome>)
    requires row.id == job.run && row.status == Failed && RunAt(db, row.id, row.workspace)
    ensures Afterwards(db, RelayFailWrite(job, row, []), os) ==
            if First(os).Done? then
              Afterwards(db.(runs := db.runs[row.id := row],
                             outbox := db.outbox + [Event(RunFailed(row.id, row.workspace), db.clock)]),
                         RelayFailUnlock(job, []), Rest(os))
            else db
  {
    AfterwardsCall(db, RelayFailWrite(job, row, []), os);
    hide Afterwards;
  }

  /** An event that is not a RunQueued event, or whose run is no longer queued, is recorded and published. */
  lemma OtherDeliveryOutcome(db: Db, d: Delivery)
    requires d.body.RunQueued? ==> !HasStatus(db, d.body.run, Queued)
    ensures Afterwards(db, RelayRecord(d, []), []) ==
            db.(audit := Recorded(db.audit, d.id), published := db.published + {d.id})
  {
    hide Afterwards;
    var recorded, run := db.(audit := Recorded(db.audit, d.id)), if d.body.RunQueued? then d.body.run else 0;
    var job := Job(d.id, run, if d.body.RunQueued? then d.body.workspace else 0);
    RecordStep(db, d, []);
    ClaimStep(recorded, job, []);
    PublishStep(recorded, d.id, []);
  }

  /**
   The delivery of a RunQueued event for a queued run, by how its configuration resolves and how the call after
   that ends: with a worker the run is assigned, without one it is queued again as it was, with nothing to resolve
   it has failed and frees its workspace; otherwise it is left applying and the event unpublished.
   */
  lemma DeliveryOutcome(db: Db, d: Delivery, resolve: Outcome, last: Outcome)
    requires d.body.RunQueued? && HasStatus(db, d.body.run, Queued)
    requires db.runs[d.body.run].id == d.body.run && db.runs[d.body.run].workspace == d.body.workspace
    ensures var r, w := d.body.run, d.body.workspace;
            var row := db.runs[r].(status := Applying, startedAt := Some(db.clock));
            var claimed := db.(audit := Recorded(db.audit, d.id), runs := db.runs[r := row],
                               outbox := db.outbox + [Event(RunApplying(r, w), db.clock)]);
            Afterwards(db, RelayRecord(d, []), [Done, Done, Done, resolve, last]) ==
            if resolve.Done? && last.Done? then
              claimed.(jobs := db.jobs + [r], published := db.published + {d.id})
            else if resolve.Done? && last.NoWorker? then
              claimed.(runs := db.runs[r := row.(status := Queued, startedAt := None)])
            else if resolve.Missing? && last.Done? then
              claimed.(runs := db.runs[r := row.(status := Failed, finishedAt := Some(db.clock))],
                       outbox := claimed.outbox + [Event(RunFailed(r, w), db.clock)],
                       locks := Freed(db.locks, w, r), published := db.published + {d.id})
            else claimed
  {
    hide Afterwards;
    var r, w := d.body.run, d.body.workspace;
    var row, job := db.runs[r].(status := Applying, startedAt := Some(db.clock)), Job(d.id, r, w);
    var recorded := db.(audit := Recorded(db.audit, d.id));
    var claimed := recorded.(runs := db.runs[r := row], outbox := db.outbox + [Event(RunApplying(r, w), db.clock)]);
    var os := [Done, Done, Done, resolve, last];
    assert os[1..] == [Done, Done, resolve, last] && os[1..][1..] == [Done, resolve, last];
    assert os[1..][1..][1..] == [resolve, last] && [resolve, last][1..] == [last] && [last][1..] == [];
    RecordStep(db, d, os);
    ClaimStep(recorded, job, os[1..]);
    LoadStep(claimed, job, os[1..][1..]);
    ResolveStep(claimed, job, row, [resolve, last]);
    var failed := row.(status := Failed, finishedAt := Some(db.clock));
    DispatchStep(claimed, job, [last]);
    RevertStep(claimed, job, []);
    PublishStep(claimed.(jobs := db.jobs + [r]), d.id, []);
    FailStep(claimed, job, failed, [last]);
    var stored := claimed.(runs := claimed.runs[r := failed],
                           outbox := claimed.outbox + [Event(RunFailed(r, w), db.clock)]);
    FailUnlockStep(stored, job, []);
    PublishStep(stored.(locks := Freed(db.locks, w, r)), d.id, []);
    assert claimed.runs[r := failed] == db.runs[r := failed];
  }

  // ---- in every reachable state ----

  lemma FailingSteps(s: State, t: ThreadId, job: Job, row: RunRow, rest: seq<Delivery>)
    requires t in s.threads && s.threads[t] == RelayResolve(job, row, rest)
    requires ThreadOk(s.db, s.threads[t]) && row.status == Applying
    ensures var failed := row.(status := Failed, finishedAt := Some(s.db.clock));
            var db' := s.db.(runs := s.db.runs[job.run := failed],
                             outbox := s.db.outbox + [Event(RunFailed(job.run, job.workspace), s.db.clock)]);
            && Next(s, Step(t, Missing)) == s.(threads := s.threads[t := RelayFailWrite(job, failed, rest)])
            && Next(Next(s, Step(t, Missing)), Step(t, Done)) ==
               State(db', s.threads[t := RelayFailUnlock(job, rest)], s.nextRun)
  {
    hide IsBatch, StaleApplying, DeliveriesOk;
    var failed := row.(status := Failed, finishedAt := Some(s.db.clock));
    assert job.(run := row.id) == job;
    assert s.threads[t := RelayFailWrite(job, failed, rest)][t := RelayFailUnlock(job, rest)] ==
           s.threads[t := RelayFailUnlock(job, rest)];
  }

  lemma FreeingSteps(s: State, t: ThreadId, job: Job, rest: seq<Delivery>)
    requires t in s.threads && s.threads[t] == RelayFailUnlock(job, rest)
    ensures var s' := Next(Next(s, Step(t, Done)), Step(t, Done));
            s'.db == s.db.(locks := Freed(s.db.locks, job.workspace, job.run),
                           published := s.db.published + {job.event})
  {
    hide IsBatch, StaleApplying, Continue;
  }

  lemma ResolverKnows(s: State, t: ThreadId, job: Job, row: RunRow, rest: seq<Delivery>)
    requires Inv(s) && t in s.threads && s.threads[t] == RelayResolve(job, row, rest)
    ensures ThreadOk(s.db, s.threads[t]) && job.run !in s.db.jobs
    ensures HasStatus(s.db, job.run, Applying) ==>
              job.workspace in s.db.locks && s.db.locks[job.workspace] == job.run
  {
    hide DbOk, FreshOk;
    assert Window(s.threads[t]) == Some(job.run) && ThreadOk(s.db, s.threads[t]);
  }

  lemma ExecFour(s: State, m: Move, n: Move)
    ensures Exec(s, [m, n, n, n]) == Next(Next(Next(Next(s, m), n), n), n)
  {
    hide Next;
    var first, second := Next(s, m), Next(Next(s, m), n);
    assert [m, n, n, n][1..] == [n, n, n] && [n, n, n][1..] == [n, n] && [n, n][1..] == [n];
    assert Exec(s, [m, n, n, n]) == Exec(first, [n, n, n]) == Exec(second, [n, n]) == Exec(Next(second, n), [n]);
  }

  /**
   In any reachable state, whatever the schedule before it: a dispatcher that finds nothing to apply an applying
   run with, and whose next three calls succeed, leaves the run failed with that announced as the last event, its
   workspace free, the run never assigned and its RunQueued event published.
   */
  lemma MissingFailsRun(moves: seq<Move>, t: ThreadId, job: Job, row: RunRow, rest: seq<Delivery>)
    requires var s := Exec(INITIAL, moves);
             && t in s.threads && s.threads[t] == RelayResolve(job, row, rest) && row.status == Applying
             && HasStatus(s.db, job.run, Applying)
    ensures var s := Exec(INITIAL, moves);
            var s' := Exec(s, [Step(t, Missing), Step(t, Done), Step(t, Done), Step(t, Done)]);
            && s'.db.runs == s.db.runs[job.run := row.(status := Failed, finishedAt := Some(s.db.clock))]
            && s'.db.outbox == s.db.outbox + [Event(RunFailed(job.run, job.workspace), s.db.clock)]
            && job.workspace in s.db.locks && s'.db.locks == s.db.locks - {job.workspace}
            && s'.db.jobs == s.db.jobs && job.run !in s'.db.jobs
            && s'.db.published == s.db.published + {job.event}
            && s'.db.audit == s.db.audit
  {
    hide Inv, Next, ThreadOk, HasStatus, Freed;
    var s := Exec(INITIAL, moves);
    ReachableInv(moves);
    ResolverKnows(s, t, job, row, rest);
    FailingSteps(s, t, job, row, rest);
    var s'' := Next(Next(s, Step(t, Missing)), Step(t, Done));
    FreeingSteps(s'', t, job, rest);
    ExecFour(s, Step(t, Missing), Step(t, Done));
    assert Freed(s.db.locks, job.workspace, job.run) == s.db.locks - {job.workspace};
  }
}
