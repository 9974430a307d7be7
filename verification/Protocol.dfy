/**
 The execution protocol as a step machine. A thread is the program point its service has
 reached together with what it has read so far; CallOf and After are one call of one thread; Next lets any
 thread move, start or crash. A schedule is a sequence of moves, so a statement about
 Exec(INITIAL, moves) for every moves is a statement about every interleaving.
 */
module Protocol {
  import opened Wrappers
  import opened RunDomain
  import opened Tables

  type ThreadId = nat

  /** An event as a relay read it. */
  datatype Delivery = Delivery(id: EventId, body: Body)

  /** A RunQueued event being dispatched. */
  datatype Job = Job(event: EventId, run: RunId, workspace: WorkspaceId)

  datatype Thread =
    // TriggerRunService.Execute
    | TriggerLock(run: RunId, workspace: WorkspaceId)
    | TriggerCreate(run: RunId, workspace: WorkspaceId)
    | TriggerUndo(run: RunId, workspace: WorkspaceId)
    // CancelRunService.Execute
    | CancelRead(run: RunId, workspace: WorkspaceId)
    | CancelWrite(row: RunRow)
    | CancelUnlock(run: RunId, workspace: WorkspaceId)
    | CancelNotify(run: RunId)
    // WorkerReportService.HandleReport
    | ReportRead(run: RunId, workspace: WorkspaceId, verdict: Verdict, output: Option<string>)
    | ReportWrite(row: RunRow, workspace: WorkspaceId)
    | ReportUnlock(run: RunId, workspace: WorkspaceId)
    // StaleRunReaperService.reapOnce
    | SweepFind(cutoff: Time)
    | SweepMark(candidates: seq<Candidate>)
    | SweepUnlock(candidate: Candidate, candidates: seq<Candidate>)
    // Relay.relayBatch around RecordEntryService.HandleEvent and RunDispatchService.HandleEvent
    | RelayFetch
    | RelayRecord(event: Delivery, rest: seq<Delivery>)
    | RelayClaim(job: Job, rest: seq<Delivery>)
    | RelayLoad(job: Job, rest: seq<Delivery>)
    | RelayResolve(job: Job, row: RunRow, rest: seq<Delivery>)
    | RelayDispatch(job: Job, rest: seq<Delivery>)
    | RelayRevert(job: Job, rest: seq<Delivery>)
    | RelayFailWrite(job: Job, row: RunRow, rest: seq<Delivery>)
    | RelayFailUnlock(job: Job, rest: seq<Delivery>)
    | RelayPublish(id: EventId, rest: seq<Delivery>)

  /**
   How a call ends. Fault is an error return, which committed nothing; Missing is a
   configuration or credential that does not resolve; NoWorker is a refused dispatch;
   Fetched is the batch an outbox query returned.
   */
  datatype Outcome = Done | Fault | Missing | NoWorker | Fetched(batch: seq<EventId>)

  const BATCH_LIMIT := 100

  /** What `WHERE published_at IS NULL ORDER BY occurred_at LIMIT 100` may return; ties are free. */
  predicate IsBatch(db: Db, batch: seq<EventId>) {
    && |batch| <= BATCH_LIMIT
    && (forall i :: 0 <= i < |batch| ==> batch[i] < |db.outbox| && batch[i] !in db.published)
    && (forall i, j :: 0 <= i < j < |batch| ==>
          batch[i] != batch[j] && db.outbox[batch[i]].occurredAt <= db.outbox[batch[j]].occurredAt)
    && (forall e :: 0 <= e < |db.outbox| && e !in db.published && e !in batch ==>
          |batch| == BATCH_LIMIT && db.outbox[batch[BATCH_LIMIT - 1]].occurredAt <= db.outbox[e].occurredAt)
  }

  function Deliveries(db: Db, batch: seq<EventId>): (ds: seq<Delivery>)
    requires forall i :: 0 <= i < |batch| ==> batch[i] < |db.outbox|
    ensures |ds| == |batch|
    ensures forall i :: 0 <= i < |ds| ==> ds[i] == Delivery(batch[i], db.outbox[batch[i]].body)
  {
    seq(|batch|, i requires 0 <= i < |batch| => Delivery(batch[i], db.outbox[batch[i]].body))
  }

  /** The relay turns to the next event of its batch, or waits for the next tick. */
  function Continue(rest: seq<Delivery>): Thread {
    if rest == [] then RelayFetch else RelayRecord(rest[0], rest[1..])
  }

  function Sweep(candidates: seq<Candidate>): Option<Thread> {
    if candidates == [] then None else Some(SweepMark(candidates))
  }

  /** The call a thread makes next. */
  function CallOf(th: Thread): Call {
    match th
    case TriggerLock(r, w) => Lock(w, r)
    case TriggerCreate(r, w) => Create(NewRun(r, w))
    case TriggerUndo(r, w) => Unlock(w, r)
    case CancelWrite(row) => Update(row)
    case CancelUnlock(r, w) => Unlock(w, r)
    case ReportWrite(row, _) => Update(row)
    case ReportUnlock(r, w) => Unlock(w, r)
    case SweepMark(cs) => if cs == [] then Read else MarkErrored(cs[0].run)
    case SweepUnlock(c, _) => Unlock(c.workspace, c.run)
    case RelayRecord(e, _) => Record(e.id)
    case RelayClaim(job, _) => StartApplying(job.run, job.workspace)
    case RelayDispatch(job, _) => Assign(job.run)
    case RelayRevert(job, _) => RevertToQueued(job.run)
    case RelayFailWrite(_, row, _) => Update(row)
    case RelayFailUnlock(job, _) => Unlock(job.workspace, job.run)
    case RelayPublish(e, _) => Publish(e)
    case _ => Read
  }

  /** Where the thread stands once its call has ended that way; None when it is over. */
  function After(db: Db, th: Thread, o: Outcome): Option<Thread> {
    match th
    case TriggerLock(r, w) => if o.Done? && w !in db.locks then Some(TriggerCreate(r, w)) else None
    case TriggerCreate(r, w) => if o.Done? then None else Some(TriggerUndo(r, w))
    case TriggerUndo(_, _) => None

    case CancelRead(r, w) =>
      if o.Done? && r in db.runs && db.runs[r].workspace == w && Canceling(db.runs[r], db.clock).Success? then
        Some(CancelWrite(Canceling(db.runs[r], db.clock).value))
      else None
    case CancelWrite(row) => if o.Done? then Some(CancelUnlock(row.id, row.workspace)) else None
    case CancelUnlock(r, _) => if o.Done? then Some(CancelNotify(r)) else None
    case CancelNotify(_) => None

    case ReportRead(r, w, verdict, output) =>
      if o.Done? && r in db.runs && Judging(db.runs[r], verdict, output, db.clock).Success? then
        Some(ReportWrite(Judging(db.runs[r], verdict, output, db.clock).value, w))
      else None
    case ReportWrite(row, w) => if o.Done? then Some(ReportUnlock(row.id, w)) else None
    case ReportUnlock(_, _) => None

    case SweepFind(cutoff) => if o.Done? then Sweep(StaleApplying(db.outbox, cutoff)) else None
    case SweepMark(cs) =>
      if cs == [] then None
      else if o.Done? && HasStatus(db, cs[0].run, Applying) then Some(SweepUnlock(cs[0], cs[1..]))
      else Sweep(cs[1..])
    case SweepUnlock(_, rest) => Sweep(rest)

    case RelayFetch =>
      Some(if o.Fetched? && IsBatch(db, o.batch) then Continue(Deliveries(db, o.batch)) else RelayFetch)
    case RelayPublish(_, rest) => Some(if o.Done? then Continue(rest) else RelayFetch)
    case _ => Some(AfterHandler(db, th, o))
  }

  /** The same for the steps of the combined outbox handler; an error moves the relay to its next event. */
  function AfterHandler(db: Db, th: Thread, o: Outcome): Thread {
    match th
    case RelayRecord(e, rest) =>
      if !o.Done? then Continue(rest)
      else if e.body.RunQueued? then RelayClaim(Job(e.id, e.body.run, e.body.workspace), rest)
      else RelayPublish(e.id, rest)
    case RelayClaim(job, rest) =>
      if !o.Done? then Continue(rest)
      else if HasStatus(db, job.run, Queued) then RelayLoad(job, rest)
      else RelayPublish(job.event, rest)
    case RelayLoad(job, rest) =>
      if o.Done? && job.run in db.runs then RelayResolve(job, db.runs[job.run], rest) else Continue(rest)
    case RelayResolve(job, row, rest) =>
      if o.Done? then RelayDispatch(job, rest)
      else if o.Missing? && MarkingFailed(row, db.clock).Success? then
        RelayFailWrite(job, MarkingFailed(row, db.clock).value, rest)
      else Continue(rest)
    case RelayDispatch(job, rest) =>
      if o.Done? then RelayPublish(job.event, rest)
      else if o.NoWorker? then RelayRevert(job, rest)
      else Continue(rest)
    case RelayRevert(_, rest) => Continue(rest)
    case RelayFailWrite(job, row, rest) =>
      if o.Done? then RelayFailUnlock(job.(run := row.id), rest) else Continue(rest)
    case RelayFailUnlock(job, rest) => if o.Done? then RelayPublish(job.event, rest) else Continue(rest)
    case _ => th
  }

  /** A call that ends in an error, or is refused, has committed nothing. */
  function Commit(db: Db, call: Call, o: Outcome): Db {
    if o.Done? then Apply(db, call) else db
  }

  datatype State = State(db: Db, threads: map<ThreadId, Thread>, nextRun: RunId)

  const INITIAL := State(EMPTY_DB, map[], 0)

  datatype Move =
    | StartTrigger(t: ThreadId, workspace: WorkspaceId)
    | StartCancel(t: ThreadId, run: RunId, workspace: WorkspaceId)
    | StartReport(t: ThreadId, run: RunId, workspace: WorkspaceId, verdict: Verdict, output: Option<string>)
    | StartSweep(t: ThreadId, cutoff: Time)
    | StartRelay(t: ThreadId)
    | Step(t: ThreadId, outcome: Outcome)
    | Crash(t: ThreadId)
    | WriteForeign
    | Tick

  function Starting(s: State, t: ThreadId, th: Thread): State {
    if t in s.threads then s else s.(threads := s.threads[t := th])
  }

  function Placing(s: State, t: ThreadId, db: Db, th: Option<Thread>): State {
    State(db, if th.Some? then s.threads[t := th.value] else s.threads - {t}, s.nextRun)
  }

  /** One move of the whole system; a move that is not possible changes nothing. */
  function Next(s: State, m: Move): State {
    match m
    case StartTrigger(t, w) =>
      if t in s.threads then s
      else s.(threads := s.threads[t := TriggerLock(s.nextRun, w)], nextRun := s.nextRun + 1)
    case StartCancel(t, r, w) => Starting(s, t, CancelRead(r, w))
    case StartReport(t, r, w, verdict, output) => Starting(s, t, ReportRead(r, w, verdict, output))
    case StartSweep(t, cutoff) => Starting(s, t, SweepFind(cutoff))
    case StartRelay(t) => Starting(s, t, RelayFetch)
    case Step(t, o) =>
      if t !in s.threads then s
      else
        var th := s.threads[t];
        Placing(s, t, Commit(s.db, CallOf(th), o), After(s.db, th, o))
    case Crash(t) => s.(threads := s.threads - {t})
    case WriteForeign => s.(db := Writing(s.db, Foreign))
    case Tick => s.(db := s.db.(clock := s.db.clock + 1))
  }

  function Exec(s: State, moves: seq<Move>): State
    decreases |moves|
  {
    if moves == [] then s else Exec(Next(s, moves[0]), moves[1..])
  }
}
