/**
 What every reachable state of the protocol satisfies, stated piece by piece: the tables
 (DbOk), what each thread may rely on (ThreadOk), how threads relate to each other, and the
 proofs that each piece survives every move.
 */
module ProtocolInvariants {
  import opened Wrappers
  import opened RunDomain
  import opened Tables
  import opened Protocol

  // ---- tables ----

  ghost predicate RowOk(r: RunId, row: RunRow) {
    && row.id == r
    && (row.status in {Queued, Applying} || row.status.IsTerminal())
    && (row.finishedAt.Some? <==> row.status.IsTerminal())
  }

  ghost predicate RowsOk(db: Db) {
    forall r :: r in db.runs ==> RowOk(r, db.runs[r])
  }

  ghost predicate RunAt(db: Db, r: RunId, w: WorkspaceId) {
    r in db.runs && db.runs[r].workspace == w
  }

  ghost predicate BodyOk(db: Db, body: Body) {
    match body
    case RunErrored(r) => r in db.runs
    case Foreign => true
    case _ => RunAt(db, body.run, body.workspace)
  }

  /** Every event names a stored run, and the log is in time order. */
  ghost predicate LogOk(db: Db) {
    && (forall i :: 0 <= i < |db.outbox| ==> BodyOk(db, db.outbox[i].body) && db.outbox[i].occurredAt <= db.clock)
    && (forall i, j :: 0 <= i < j < |db.outbox| ==> db.outbox[i].occurredAt <= db.outbox[j].occurredAt)
  }

  ghost predicate QueuedAt(outbox: seq<Event>, e: EventId, r: RunId) {
    e < |outbox| && outbox[e].body.RunQueued? && outbox[e].body.run == r
  }

  /** Every stored run has exactly one RunQueued event. */
  ghost predicate QueuedOnce(db: Db) {
    && (forall r :: r in db.runs ==> exists e :: QueuedAt(db.outbox, e, r))
    && (forall r, e, e' :: QueuedAt(db.outbox, e, r) && QueuedAt(db.outbox, e', r) ==> e == e')
  }

  /** The status the last terminal event of a run announces. */
  ghost function LastTerminal(outbox: seq<Event>, r: RunId): Option<Status> {
    if outbox == [] then None
    else
      var body := outbox[|outbox| - 1].body;
      if body.TerminalStatus().Some? && body.run == r then body.TerminalStatus()
      else LastTerminal(outbox[..|outbox| - 1], r)
  }

  /** When the run was last claimed, by the log. */
  ghost function LastClaim(outbox: seq<Event>, r: RunId): Option<Time> {
    if outbox == [] then None
    else
      var last := outbox[|outbox| - 1];
      if last.body.RunApplying? && last.body.run == r then Some(last.occurredAt)
      else LastClaim(outbox[..|outbox| - 1], r)
  }

  ghost predicate RowAgrees(outbox: seq<Event>, r: RunId, row: RunRow) {
    && LastTerminal(outbox, r) == (if row.status.IsTerminal() then Some(row.status) else None)
    && (row.status == Applying ==> row.startedAt.Some? && LastClaim(outbox, r) == row.startedAt)
  }

  ghost predicate LogAgrees(db: Db) {
    forall r :: r in db.runs ==> RowAgrees(db.outbox, r, db.runs[r])
  }

  /** One audit entry per event, none published unrecorded, no claim before the RunQueued entry. */
  ghost predicate AuditOk(db: Db) {
    && (forall i, j :: 0 <= i < j < |db.audit| ==> db.audit[i] != db.audit[j])
    && (forall e :: e in db.audit ==> e < |db.outbox|)
    && (forall e :: e in db.published ==> e in db.audit)
    && (forall i, e |
          0 <= i < |db.outbox| && db.outbox[i].body.RunApplying? && QueuedAt(db.outbox, e, db.outbox[i].body.run) ::
          e in db.audit)
  }

  ghost predicate DbOk(db: Db) {
    RowsOk(db) && LogOk(db) && QueuedOnce(db) && LogAgrees(db) && AuditOk(db)
  }

  // ---- threads ----

  /** A row a thread is about to store: terminal, and of a run the table has. */
  ghost predicate WriteOk(db: Db, row: RunRow) {
    && RunAt(db, row.id, row.workspace)
    && row.status in {Applied, Failed, Canceled}
    && row.finishedAt.Some?
  }

  ghost predicate Finished(db: Db, r: RunId) {
    r in db.runs && db.runs[r].status.IsTerminal()
  }

  ghost predicate CandidatesOk(db: Db, cs: seq<Candidate>) {
    forall i :: 0 <= i < |cs| ==> RunAt(db, cs[i].run, cs[i].workspace)
  }

  ghost predicate DeliveryOk(db: Db, d: Delivery) {
    d.id < |db.outbox| && db.outbox[d.id].body == d.body
  }

  ghost predicate DeliveriesOk(db: Db, ds: seq<Delivery>) {
    forall i :: 0 <= i < |ds| ==> DeliveryOk(db, ds[i])
  }

  ghost predicate JobOk(db: Db, job: Job) {
    && DeliveryOk(db, Delivery(job.event, RunQueued(job.run, job.workspace)))
    && RunAt(db, job.run, job.workspace)
    && job.event in db.audit
  }

  /** What a thread may rely on whatever the others do. */
  ghost predicate ThreadOk(db: Db, th: Thread) {
    match th
    case TriggerLock(r, _) => r !in db.runs
    case TriggerCreate(r, w) => r !in db.runs && w in db.locks && db.locks[w] == r
    case TriggerUndo(r, _) => r !in db.runs
    case CancelRead(_, _) => true
    case CancelWrite(row) => WriteOk(db, row)
    case CancelUnlock(r, w) => Finished(db, r) && RunAt(db, r, w)
    case CancelNotify(_) => true
    case ReportRead(_, _, _, _) => true
    case ReportWrite(row, _) => WriteOk(db, row)
    case ReportUnlock(r, _) => Finished(db, r)
    case SweepFind(_) => true
    case SweepMark(cs) => CandidatesOk(db, cs)
    case SweepUnlock(c, rest) => Finished(db, c.run) && RunAt(db, c.run, c.workspace) && CandidatesOk(db, rest)
    case RelayFetch => true
    case RelayRecord(d, rest) => DeliveryOk(db, d) && DeliveriesOk(db, rest)
    case RelayClaim(job, rest) => JobOk(db, job) && DeliveriesOk(db, rest)
    case RelayLoad(job, rest) => JobOk(db, job) && DeliveriesOk(db, rest)
    case RelayResolve(job, row, rest) =>
      JobOk(db, job) && DeliveriesOk(db, rest) && row.id == job.run && row.workspace == job.workspace
    case RelayDispatch(job, rest) => JobOk(db, job) && DeliveriesOk(db, rest)
    case RelayRevert(job, rest) => JobOk(db, job) && DeliveriesOk(db, rest)
    case RelayFailWrite(job, row, rest) =>
      JobOk(db, job) && DeliveriesOk(db, rest) && WriteOk(db, row) && row.id == job.run
    case RelayFailUnlock(job, rest) => JobOk(db, job) && DeliveriesOk(db, rest) && Finished(db, job.run)
    case RelayPublish(e, rest) => e in db.audit && DeliveriesOk(db, rest)
  }

  /** The run a trigger thread is creating. */
  ghost function Creates(th: Thread): Option<RunId> {
    match th
    case TriggerLock(r, _) => Some(r)
    case TriggerCreate(r, _) => Some(r)
    case TriggerUndo(r, _) => Some(r)
    case _ => None
  }

  /** Run ids are fresh: each trigger has its own, and none is in use before its row exists. */
  ghost predicate FreshOk(s: State) {
    && (forall r :: r in s.db.runs ==> r < s.nextRun)
    && (forall w :: w in s.db.locks ==> s.db.locks[w] < s.nextRun)
    && (forall t :: t in s.threads && Creates(s.threads[t]).Some? ==> Creates(s.threads[t]).value < s.nextRun)
    && (forall t, t' | t in s.threads && t' in s.threads && t != t' ::
          Creates(s.threads[t]).Some? ==> Creates(s.threads[t]) != Creates(s.threads[t']))
  }

  ghost predicate ThreadsOk(s: State) {
    forall t :: t in s.threads ==> ThreadOk(s.db, s.threads[t])
  }

  /** A run that is not over holds the lock of its workspace. */
  ghost predicate LocksOk(db: Db) {
    forall r :: r in db.runs && !db.runs[r].status.IsTerminal() ==>
      db.runs[r].workspace in db.locks && db.locks[db.runs[r].workspace] == r
  }

  /** The run a dispatcher has claimed and neither dispatched nor reverted nor given up. */
  ghost function Window(th: Thread): Option<RunId> {
    match th
    case RelayLoad(job, _) => Some(job.run)
    case RelayResolve(job, _, _) => Some(job.run)
    case RelayDispatch(job, _) => Some(job.run)
    case RelayRevert(job, _) => Some(job.run)
    case _ => None
  }

  ghost predicate DispatchOk(s: State) {
    && (forall t, t' | t in s.threads && t' in s.threads && t != t' ::
          Window(s.threads[t]).Some? ==> Window(s.threads[t]) != Window(s.threads[t']))
    && (forall t :: t in s.threads && Window(s.threads[t]).Some? ==>
          var r := Window(s.threads[t]).value;
          r in s.db.runs && s.db.runs[r].status != Queued && r !in s.db.jobs)
    && (forall r :: r in s.db.jobs ==> r in s.db.runs && s.db.runs[r].status != Queued)
    && (forall i, j :: 0 <= i < j < |s.db.jobs| ==> s.db.jobs[i] != s.db.jobs[j])
  }

  ghost predicate Inv(s: State) {
    DbOk(s.db) && ThreadsOk(s) && FreshOk(s) && LocksOk(s.db) && DispatchOk(s)
  }

  // ---- one call on the tables ----

  /** What a call relies on; ThreadOk provides it. */
  ghost predicate CallOk(db: Db, call: Call) {
    match call
    case Unlock(_, r) => r in db.runs ==> db.runs[r].status.IsTerminal()
    case Create(row) =>
      row == NewRun(row.id, row.workspace) && row.id !in db.runs
      && row.workspace in db.locks && db.locks[row.workspace] == row.id
    case Update(row) => WriteOk(db, row)
    case StartApplying(r, w) =>
      RunAt(db, r, w) && exists e :: QueuedAt(db.outbox, e, r) && e in db.audit
    case Record(e) => e < |db.outbox|
    case Publish(e) => e in db.audit
    case _ => true
  }

  lemma ThreadCallOk(db: Db, th: Thread)
    requires ThreadOk(db, th)
    ensures CallOk(db, CallOf(th))
  {
    if th.RelayClaim? {
      assert QueuedAt(db.outbox, th.job.event, th.job.run);
    }
  }

  /** What never goes away: runs and where they belong, the end of a run, events, entries, assignments. */
  ghost predicate Grows(db: Db, db': Db) {
    && (forall r :: r in db.runs ==> RunAt(db', r, db.runs[r].workspace))
    && (forall r :: Finished(db, r) ==> Finished(db', r))
    && db.outbox <= db'.outbox
    && (forall e :: e in db.audit ==> e in db'.audit)
    && db.published <= db'.published
    && db.jobs <= db'.jobs
  }

  lemma ApplyGrows(db: Db, call: Call)
    requires RowsOk(db) && CallOk(db, call)
    ensures Grows(db, Apply(db, call))
  {
  }

  lemma ApplyKeepsRows(db: Db, call: Call)
    requires RowsOk(db) && CallOk(db, call)
    ensures RowsOk(Apply(db, call))
  {
  }

  lemma ApplyKeepsLog(db: Db, call: Call)
    requires RowsOk(db) && LogOk(db) && CallOk(db, call)
    ensures LogOk(Apply(db, call))
  {
    ApplyGrows(db, call);
  }

  lemma ApplyKeepsQueuedOnce(db: Db, call: Call)
    requires RowsOk(db) && LogOk(db) && QueuedOnce(db) && CallOk(db, call)
    ensures QueuedOnce(Apply(db, call))
  {
    var db' := Apply(db, call);
    forall e, r
      ensures QueuedAt(db'.outbox, e, r) <==>
        QueuedAt(db.outbox, e, r) || (e == |db.outbox| && r in db'.runs && r !in db.runs)
    {
    }
    forall r | r in db'.runs
      ensures exists e :: QueuedAt(db'.outbox, e, r)
    {
      if r in db.runs {
        var e :| QueuedAt(db.outbox, e, r);
        assert QueuedAt(db'.outbox, e, r);
      } else {
        assert QueuedAt(db'.outbox, |db.outbox|, r);
      }
    }
  }

  /** How the two readings of the log take one more event. */
  lemma ReadAppended(outbox: seq<Event>, last: Event, r: RunId)
    ensures LastTerminal(outbox + [last], r) ==
            if last.body.TerminalStatus().Some? && last.body.run == r then last.body.TerminalStatus()
            else LastTerminal(outbox, r)
    ensures LastClaim(outbox + [last], r) ==
            if last.body.RunApplying? && last.body.run == r then Some(last.occurredAt)
            else LastClaim(outbox, r)
  {
    assert (outbox + [last])[..|outbox|] == outbox;
  }

  /** A run no event names has no terminal event and no claim. */
  lemma UnnamedUnread(db: Db, outbox: seq<Event>, r: RunId)
    requires forall i :: 0 <= i < |outbox| ==> BodyOk(db, outbox[i].body)
    requires r !in db.runs
    ensures LastTerminal(outbox, r).None? && LastClaim(outbox, r).None?
  {
  }

  /** One more event and the row it goes with. */
  lemma AppendedAgrees(outbox: seq<Event>, last: Event, r: RunId, row: RunRow)
    requires last.body.TerminalStatus().Some? && last.body.run == r ==> Some(row.status) == last.body.TerminalStatus()
    requires last.body.RunApplying? && last.body.run == r ==>
               row.status == Applying && row.startedAt == Some(last.occurredAt)
    requires last.body.Foreign? || last.body.run != r || last.body.RunQueued? ==> RowAgrees(outbox, r, row)
    requires last.body.RunApplying? ==> LastTerminal(outbox, r).None? || last.body.run != r
    ensures RowAgrees(outbox + [last], r, row)
  {
    ReadAppended(outbox, last, r);
  }

  lemma ApplyKeepsRowAgrees(db: Db, call: Call, r: RunId)
    requires RowsOk(db) && LogOk(db) && LogAgrees(db) && CallOk(db, call) && r in Apply(db, call).runs
    ensures RowAgrees(Apply(db, call).outbox, r, Apply(db, call).runs[r])
  {
    var db' := Apply(db, call);
    if r !in db.runs {
      UnnamedUnread(db, db.outbox, r);
    }
    if |db'.outbox| > |db.outbox| {
      hide LogOk;
      AppendedAgrees(db.outbox, db'.outbox[|db.outbox|], r, db'.runs[r]);
    }
  }

  lemma ApplyKeepsLogAgrees(db: Db, call: Call)
    requires RowsOk(db) && LogOk(db) && LogAgrees(db) && CallOk(db, call)
    ensures LogAgrees(Apply(db, call))
  {
    forall r | r in Apply(db, call).runs
      ensures RowAgrees(Apply(db, call).outbox, r, Apply(db, call).runs[r])
    {
      ApplyKeepsRowAgrees(db, call, r);
    }
  }

  lemma ApplyKeepsAudit(db: Db, call: Call)
    requires RowsOk(db) && LogOk(db) && QueuedOnce(db) && AuditOk(db) && CallOk(db, call)
    ensures AuditOk(Apply(db, call))
  {
    var db' := Apply(db, call);
    forall i, e | 0 <= i < |db'.outbox| && db'.outbox[i].body.RunApplying? &&
        QueuedAt(db'.outbox, e, db'.outbox[i].body.run)
      ensures e in db'.audit
    {
      assert i < |db.outbox| ==> BodyOk(db, db.outbox[i].body);
      assert QueuedAt(db.outbox, e, db'.outbox[i].body.run);
    }
  }

  lemma CommitKeepsDb(db: Db, call: Call, o: Outcome)
    requires DbOk(db) && CallOk(db, call)
    ensures DbOk(Commit(db, call, o)) && Grows(db, Commit(db, call, o))
  {
    ApplyGrows(db, call);
    ApplyKeepsRows(db, call);
    ApplyKeepsLog(db, call);
    ApplyKeepsQueuedOnce(db, call);
    ApplyKeepsLogAgrees(db, call);
    ApplyKeepsAudit(db, call);
  }

  /** A lock is dropped only when its run is over, and taken only when free. */
  lemma ApplyKeepsLocks(db: Db, call: Call)
    requires RowsOk(db) && CallOk(db, call) && LocksOk(db)
    ensures LocksOk(Apply(db, call))
  {
  }

  // ---- one call and the threads ----

  /** Trigger threads rely on absence, which growth does not keep; every other kind of thread is safe. */
  lemma ThreadOkStable(db: Db, db': Db, th: Thread)
    requires Grows(db, db') && ThreadOk(db, th) && Creates(th).None?
    ensures ThreadOk(db', th)
  {
  }

  /** The run a call inserts or locks for. */
  ghost function CreatesBy(call: Call): Option<RunId> {
    match call
    case Lock(_, r) => Some(r)
    case Create(row) => Some(row.id)
    case _ => None
  }

  /** Another call does not disturb a trigger: only its own creates its row, takes or drops its lock. */
  lemma TriggerStable(db: Db, call: Call, other: Thread)
    requires CallOk(db, call) && ThreadOk(db, other) && Creates(other).Some?
    requires CreatesBy(call) != Creates(other)
    requires call.Unlock? ==> call.run != Creates(other).value
    ensures ThreadOk(Apply(db, call), other)
  {
  }

  lemma StaleApplyingNames(outbox: seq<Event>, cutoff: Time, c: Candidate)
    requires c in StaleApplying(outbox, cutoff)
    ensures exists i ::
              0 <= i < |outbox| && outbox[i].body == RunApplying(c.run, c.workspace) && outbox[i].occurredAt < cutoff
  {
    var last := outbox[|outbox| - 1];
    if c in StaleApplying(outbox[..|outbox| - 1], cutoff) {
      StaleApplyingNames(outbox[..|outbox| - 1], cutoff, c);
    } else {
      assert last.body == RunApplying(c.run, c.workspace);
    }
  }

  lemma FoundOk(db: Db, cutoff: Time)
    requires LogOk(db)
    ensures CandidatesOk(db, StaleApplying(db.outbox, cutoff))
  {
    forall c | c in StaleApplying(db.outbox, cutoff)
      ensures RunAt(db, c.run, c.workspace)
    {
      StaleApplyingNames(db.outbox, cutoff, c);
    }
  }

  ghost predicate OfSweep(th: Thread) {
    th.SweepFind? || th.SweepMark? || th.SweepUnlock?
  }

  lemma SweepThreadOk(db: Db, th: Thread, o: Outcome)
    requires RowsOk(db) && LogOk(db) && ThreadOk(db, th) && After(db, th, o).Some? && OfSweep(th)
    ensures ThreadOk(Commit(db, CallOf(th), o), After(db, th, o).value)
  {
    if th.SweepFind? {
      FoundOk(db, th.cutoff);
    }
    hide LogOk, StaleApplying, DeliveriesOk, JobOk, IsBatch, AfterHandler;
  }

  lemma TriggerThreadOk(db: Db, th: Thread, o: Outcome)
    requires ThreadOk(db, th) && After(db, th, o).Some? && Creates(th).Some?
    ensures ThreadOk(Commit(db, CallOf(th), o), After(db, th, o).value)
  {
    hide DeliveriesOk, JobOk, CandidatesOk, IsBatch, AfterHandler, StaleApplying;
  }

  lemma RequestThreadOk(db: Db, th: Thread, o: Outcome)
    requires RowsOk(db) && ThreadOk(db, th) && After(db, th, o).Some?
    requires !OfRelay(th) && !OfSweep(th) && Creates(th).None?
    ensures ThreadOk(Commit(db, CallOf(th), o), After(db, th, o).value)
  {
    hide DeliveriesOk, JobOk, CandidatesOk, IsBatch, AfterHandler, StaleApplying;
  }

  /** A thread of a request or of the sweep may rely on what its call has established. */
  lemma OwnThreadOk(db: Db, th: Thread, o: Outcome)
    requires RowsOk(db) && LogOk(db) && ThreadOk(db, th) && After(db, th, o).Some?
    requires !OfRelay(th)
    ensures ThreadOk(Commit(db, CallOf(th), o), After(db, th, o).value)
  {
    hide *;
    if OfSweep(th) {
      SweepThreadOk(db, th, o);
    } else if Creates(th).Some? {
      TriggerThreadOk(db, th, o);
    } else {
      RequestThreadOk(db, th, o);
    }
  }

  ghost predicate OfRelay(th: Thread) {
    || th.RelayFetch? || th.RelayRecord? || th.RelayClaim? || th.RelayLoad? || th.RelayResolve?
    || th.RelayDispatch? || th.RelayRevert? || th.RelayFailWrite? || th.RelayFailUnlock? || th.RelayPublish?
  }

  /** What is still in the batch stays good as the tables grow. */
  lemma ContinueOk(db: Db, ds: seq<Delivery>)
    requires DeliveriesOk(db, ds)
    ensures ThreadOk(db, Continue(ds))
  {
  }

  lemma HandlerThreadOk(db: Db, th: Thread, o: Outcome, db': Db)
    requires OfRelay(th) && !th.RelayFetch? && ThreadOk(db', th)
    requires th.RelayRecord? && o.Done? ==> th.event.id in db'.audit && BodyOk(db', th.event.body)
    requires th.RelayLoad? ==> RowsOk(db) && RunAt(db, th.job.run, th.job.workspace)
    requires th.RelayFailWrite? && o.Done? ==> Finished(db', th.row.id)
    ensures After(db, th, o).Some? && ThreadOk(db', After(db, th, o).value)
  {
    ContinueOk(db', th.rest);
  }

  lemma RelayThreadOk(db: Db, th: Thread, o: Outcome, db': Db)
    requires RowsOk(db) && LogOk(db) && ThreadOk(db, th) && OfRelay(th) && Grows(db, db')
    requires th.RelayRecord? && o.Done? ==> th.event.id in db'.audit
    requires th.RelayFailWrite? && o.Done? ==> Finished(db', th.row.id)
    ensures After(db, th, o).Some? && ThreadOk(db', After(db, th, o).value)
  {
    ThreadOkStable(db, db', th);
    if th.RelayFetch? {
      if o.Fetched? && IsBatch(db, o.batch) {
        ContinueOk(db', Deliveries(db, o.batch));
      }
    } else {
      HandlerThreadOk(db, th, o, db');
    }
  }

  lemma OtherThreadOk(s: State, t: ThreadId, u: ThreadId, db': Db)
    requires ThreadsOk(s) && FreshOk(s) && t in s.threads && u in s.threads && t != u
    requires db' == s.db || db' == Apply(s.db, CallOf(s.threads[t]))
    requires Grows(s.db, db')
    ensures ThreadOk(db', s.threads[u])
  {
    if Creates(s.threads[u]).None? {
      ThreadOkStable(s.db, db', s.threads[u]);
    } else if db' != s.db {
      ThreadCallOk(s.db, s.threads[t]);
      CreatesKept(s.db, s.threads[t], Done);
      UnlocksOther(s.db, s.threads[t], s.threads[u]);
      TriggerStable(s.db, CallOf(s.threads[t]), s.threads[u]);
    }
  }

  lemma UnlocksOther(db: Db, th: Thread, other: Thread)
    requires ThreadOk(db, th) && ThreadOk(db, other) && Creates(other).Some? && Creates(th) != Creates(other)
    ensures CallOf(th).Unlock? ==> CallOf(th).run != Creates(other).value
  {
  }

  /** What a relay's call has established. */
  lemma RelayCallDone(db: Db, th: Thread, db': Db)
    requires ThreadOk(db, th) && db' == Apply(db, CallOf(th))
    ensures th.RelayRecord? ==> th.event.id in db'.audit
    ensures th.RelayFailWrite? ==> Finished(db', th.row.id)
  {
    hide DeliveriesOk, JobOk;
  }

  lemma OwnStepOk(db: Db, th: Thread, o: Outcome, db': Db)
    requires DbOk(db) && ThreadOk(db, th) && After(db, th, o).Some?
    requires db' == Commit(db, CallOf(th), o) && Grows(db, db')
    ensures ThreadOk(db', After(db, th, o).value)
  {
    hide After, ThreadOk, Grows, LogOk, QueuedOnce, LogAgrees, AuditOk, Finished, CallOf, Apply;
    if OfRelay(th) {
      if o.Done? {
        RelayCallDone(db, th, db');
      }
      RelayThreadOk(db, th, o, db');
    } else {
      OwnThreadOk(db, th, o);
    }
  }

  lemma StepKeepsThreads(s: State, t: ThreadId, o: Outcome, db': Db)
    requires DbOk(s.db) && ThreadsOk(s) && FreshOk(s) && t in s.threads
    requires db' == Commit(s.db, CallOf(s.threads[t]), o) && LogOk(db') && Grows(s.db, db')
    ensures ThreadsOk(Placing(s, t, db', After(s.db, s.threads[t], o)))
  {
    hide DbOk, FreshOk, LogOk, Grows, ThreadOk, CallOf, After, Apply;
    if After(s.db, s.threads[t], o).Some? {
      OwnStepOk(s.db, s.threads[t], o, db');
    }
    forall u | u in s.threads && u != t
      ensures ThreadOk(db', s.threads[u])
    {
      OtherThreadOk(s, t, u, db');
    }
  }

  /** A thread that goes on creating a run goes on creating the same run; only such a thread adds one. */
  lemma CreatesKept(db: Db, th: Thread, o: Outcome)
    ensures After(db, th, o).Some? ==> Creates(After(db, th, o).value) in {None, Creates(th)}
    ensures CreatesBy(CallOf(th)) in {None, Creates(th)}
  {
  }

  lemma CallCreates(db: Db, call: Call)
    requires CallOk(db, call)
    ensures forall r | r in Apply(db, call).runs :: r in db.runs || CreatesBy(call) == Some(r)
    ensures forall w | w in Apply(db, call).locks ::
              || (w in db.locks && Apply(db, call).locks[w] == db.locks[w])
              || CreatesBy(call) == Some(Apply(db, call).locks[w])
  {
  }

  lemma StepKeepsFresh(s: State, t: ThreadId, o: Outcome, db': Db, th': Option<Thread>)
    requires FreshOk(s) && ThreadsOk(s) && t in s.threads
    requires db' == Commit(s.db, CallOf(s.threads[t]), o) && th' == After(s.db, s.threads[t], o)
    ensures FreshOk(Placing(s, t, db', th'))
  {
    ThreadCallOk(s.db, s.threads[t]);
    CallCreates(s.db, CallOf(s.threads[t]));
    CreatesKept(s.db, s.threads[t], o);
  }

  ghost function WindowAfter(th: Option<Thread>): Option<RunId> {
    if th.Some? then Window(th.value) else None
  }

  /** All a call can do to the claims, the assignments and the queue. */
  ghost predicate DispatchEffect(db: Db, th: Thread, db': Db, th': Option<Thread>) {
    // the claim: out of the queue, into the window
    && (WindowAfter(th') in {None, Window(th)} || HasStatus(db, WindowAfter(th').value, Queued))
    && (WindowAfter(th').Some? ==> !HasStatus(db', WindowAfter(th').value, Queued))
    // the assignment: out of the window
    && (db'.jobs == db.jobs || (Window(th).Some? && WindowAfter(th').None? && db'.jobs == db.jobs + [Window(th).value]))
    // the queue: only new runs and reverted ones enter it
    && (forall r :: HasStatus(db', r, Queued) ==>
          || HasStatus(db, r, Queued)
          || r !in db.runs
          || (Window(th) == Some(r) && WindowAfter(th').None? && db'.jobs == db.jobs))
    && (forall r :: r in db.runs ==> r in db'.runs)
  }

  lemma QueueEffect(db: Db, call: Call)
    requires CallOk(db, call)
    ensures Apply(db, call).jobs == db.jobs || (call.Assign? && Apply(db, call).jobs == db.jobs + [call.run])
    ensures forall r :: HasStatus(Apply(db, call), r, Queued) ==>
              HasStatus(db, r, Queued) || r !in db.runs || call == RevertToQueued(r)
    ensures call.StartApplying? ==> !HasStatus(Apply(db, call), call.run, Queued)
  {
  }

  /** How a thread comes into and out of the window between claim and dispatch. */
  lemma WindowEffect(db: Db, th: Thread, o: Outcome)
    ensures WindowAfter(After(db, th, o)) in {None, Window(th)} ||
            (o.Done? && CallOf(th).StartApplying? && WindowAfter(After(db, th, o)) == Some(CallOf(th).run)
             && HasStatus(db, CallOf(th).run, Queued))
    ensures CallOf(th).Assign? && o.Done? ==> Window(th) == Some(CallOf(th).run) && WindowAfter(After(db, th, o)).None?
    ensures CallOf(th).RevertToQueued? && o.Done? ==>
              Window(th) == Some(CallOf(th).run) && WindowAfter(After(db, th, o)).None?
  {
  }

  lemma StepDispatchEffect(db: Db, th: Thread, o: Outcome, db': Db, th': Option<Thread>)
    requires CallOk(db, CallOf(th)) &&
             (Window(th).Some? ==> Window(th).value in db.runs && !HasStatus(db, Window(th).value, Queued))
    requires db' == Commit(db, CallOf(th), o) && Grows(db, db') && th' == After(db, th, o)
    ensures DispatchEffect(db, th, db', th')
  {
    QueueEffect(db, CallOf(th));
    WindowEffect(db, th, o);
  }

  lemma EffectKeepsDispatch(s: State, t: ThreadId, db': Db, th': Option<Thread>)
    requires t in s.threads && DispatchOk(s) && DispatchEffect(s.db, s.threads[t], db', th')
    ensures DispatchOk(Placing(s, t, db', th'))
  {
  }

  // ---- every move ----

  lemma StepKeepsInv(s: State, t: ThreadId, o: Outcome)
    requires Inv(s) && t in s.threads
    ensures Inv(Next(s, Step(t, o))) && Grows(s.db, Next(s, Step(t, o)).db)
  {
    hide QueuedOnce, LogAgrees, AuditOk, FreshOk, LocksOk, Grows, CallOf, After;
    var th := s.threads[t];
    var db', th' := Commit(s.db, CallOf(th), o), After(s.db, th, o);
    ThreadCallOk(s.db, th);
    CommitKeepsDb(s.db, CallOf(th), o);
    ApplyKeepsLocks(s.db, CallOf(th));
    StepKeepsThreads(s, t, o, db');
    StepKeepsFresh(s, t, o, db', th');
    StepDispatchEffect(s.db, th, o, db', th');
    EffectKeepsDispatch(s, t, db', th');
  }

  /** A foreign event in the log concerns no run. */
  lemma ForeignKeepsDb(db: Db)
    requires DbOk(db)
    ensures DbOk(Writing(db, Foreign)) && Grows(db, Writing(db, Foreign))
  {
    var db' := Writing(db, Foreign);
    forall e, r
      ensures QueuedAt(db'.outbox, e, r) <==> QueuedAt(db.outbox, e, r)
    {
    }
    forall r | r in db.runs
      ensures exists e :: QueuedAt(db'.outbox, e, r)
      ensures RowAgrees(db'.outbox, r, db.runs[r])
    {
      var e :| QueuedAt(db.outbox, e, r);
      assert QueuedAt(db'.outbox, e, r);
      AppendedAgrees(db.outbox, Event(Foreign, db.clock), r, db.runs[r]);
    }
  }

  /** Changes of the tables that touch no run, lock or assignment. */
  lemma QuietDbKeepsInv(s: State, db': Db)
    requires Inv(s) && DbOk(db') && Grows(s.db, db')
    requires db'.runs == s.db.runs && db'.locks == s.db.locks && db'.jobs == s.db.jobs
    ensures Inv(s.(db := db'))
  {
    forall t | t in s.threads
      ensures ThreadOk(db', s.threads[t])
    {
      if Creates(s.threads[t]).None? {
        ThreadOkStable(s.db, db', s.threads[t]);
      }
    }
  }

  lemma InvOfDb(s: State)
    requires Inv(s)
    ensures DbOk(s.db)
  {
  }

  lemma GrowsSelf(db: Db)
    ensures Grows(db, db)
  {
  }

  lemma StartKeepsInv(s: State, t: ThreadId, th: Thread)
    requires Inv(s) && Creates(th).None? && Window(th).None? && ThreadOk(s.db, th)
    ensures Inv(Starting(s, t, th)) && Grows(s.db, Starting(s, t, th).db)
  {
    hide DbOk, Grows, LocksOk;
    GrowsSelf(s.db);
  }

  lemma CrashKeepsInv(s: State, t: ThreadId)
    requires Inv(s)
    ensures Inv(Next(s, Crash(t))) && Grows(s.db, Next(s, Crash(t)).db)
  {
    hide DbOk, Grows, LocksOk;
    GrowsSelf(s.db);
  }

  lemma WriteForeignKeepsInv(s: State)
    requires Inv(s)
    ensures Inv(Next(s, WriteForeign)) && Grows(s.db, Next(s, WriteForeign).db)
  {
    hide Inv, DbOk, Grows;
    InvOfDb(s);
    ForeignKeepsDb(s.db);
    QuietDbKeepsInv(s, Writing(s.db, Foreign));
  }

  lemma TickKeepsInv(s: State)
    requires Inv(s)
    ensures Inv(Next(s, Tick)) && Grows(s.db, Next(s, Tick).db)
  {
    hide Inv, DbOk, Grows;
    InvOfDb(s);
    ClockKeepsDb(s.db);
    QuietDbKeepsInv(s, s.db.(clock := s.db.clock + 1));
  }

  /** A trigger starts with a run id nothing has used. */
  lemma TriggerStarts(s: State, t: ThreadId, w: WorkspaceId)
    requires Inv(s)
    ensures Inv(Next(s, StartTrigger(t, w))) && Grows(s.db, Next(s, StartTrigger(t, w)).db)
  {
    if t !in s.threads {
      assert s.nextRun !in s.db.runs;
      assert ThreadOk(s.db, TriggerLock(s.nextRun, w));
    }
  }

  lemma ClockKeepsDb(db: Db)
    requires DbOk(db)
    ensures DbOk(db.(clock := db.clock + 1)) && Grows(db, db.(clock := db.clock + 1))
  {
  }

  lemma NextKeepsInv(s: State, m: Move)
    requires Inv(s)
    ensures Inv(Next(s, m)) && Grows(s.db, Next(s, m).db)
  {
    hide Inv, Grows;
    GrowsSelf(s.db);
    match m
    case Step(t, o) =>
      if t in s.threads {
        StepKeepsInv(s, t, o);
      }
    case StartTrigger(t, w) => TriggerStarts(s, t, w);
    case StartCancel(t, r, w) => StartKeepsInv(s, t, CancelRead(r, w));
    case StartReport(t, r, w, verdict, output) => StartKeepsInv(s, t, ReportRead(r, w, verdict, output));
    case StartSweep(t, cutoff) => StartKeepsInv(s, t, SweepFind(cutoff));
    case StartRelay(t) => StartKeepsInv(s, t, RelayFetch);
    case Crash(t) => CrashKeepsInv(s, t);
    case WriteForeign => WriteForeignKeepsInv(s);
    case Tick => TickKeepsInv(s);
  }

  lemma {:induction false} ExecKeepsInv(s: State, moves: seq<Move>)
    requires Inv(s)
    ensures Inv(Exec(s, moves)) && Grows(s.db, Exec(s, moves).db)
    decreases |moves|
  {
    if moves != [] {
      NextKeepsInv(s, moves[0]);
      ExecKeepsInv(Next(s, moves[0]), moves[1..]);
      GrowsOn(s.db, Next(s, moves[0]).db, Exec(s, moves).db);
    }
  }

  lemma GrowsOn(db: Db, db': Db, db'': Db)
    requires Grows(db, db') && Grows(db', db'')
    ensures Grows(db, db'')
  {
  }

  /** The combined invariant holds in every reachable state. */
  lemma ReachableInv(moves: seq<Move>)
    ensures Inv(Exec(INITIAL, moves))
  {
    ExecKeepsInv(INITIAL, moves);
  }
}
