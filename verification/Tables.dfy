/**
 The shared tables of the execution protocol and the atomic effect each repository,
 locker and outbox call has on them. Every function below is one committed transaction.
 */
module Tables {
  import opened Wrappers
  import opened RunDomain

  // An outbox event is named by its position in the log.
  type EventId = nat

  /** The event types; RunErrored is the one run event whose payload names no workspace. */
  datatype Body =
    | RunQueued(run: RunId, workspace: WorkspaceId)
    | RunApplying(run: RunId, workspace: WorkspaceId)
    | RunApplied(run: RunId, workspace: WorkspaceId)
    | RunFailed(run: RunId, workspace: WorkspaceId)
    | RunCanceled(run: RunId, workspace: WorkspaceId)
    | RunErrored(run: RunId)
    | Foreign
  {
    function TerminalStatus(): Option<Status> {
      match this
      case RunApplied(_, _) => Some(Applied)
      case RunFailed(_, _) => Some(Failed)
      case RunCanceled(_, _) => Some(Canceled)
      case RunErrored(_) => Some(Errored)
      case _ => None
    }
  }

  datatype Event = Event(body: Body, occurredAt: Time)

  datatype Candidate = Candidate(run: RunId, workspace: WorkspaceId)

  /**
   runs, locks, outbox, published and audit are tables; jobs is the sequence of
   JobAssignments the workers' channels have received; clock is the database clock.
   */
  datatype Db = Db(
    runs: map<RunId, RunRow>,
    locks: map<WorkspaceId, RunId>,
    outbox: seq<Event>,
    published: set<EventId>,
    audit: seq<EventId>,
    jobs: seq<RunId>,
    clock: Time)

  const EMPTY_DB := Db(map[], map[], [], {}, [], [], 0)

  // ---- outbox ----

  function Writing(db: Db, body: Body): Db {
    db.(outbox := db.outbox + [Event(body, db.clock)])
  }

  function Publishing(db: Db, e: EventId): Db {
    db.(published := db.published + {e})
  }

  // ---- runs ----

  function Creating(db: Db, row: RunRow): Db {
    Writing(db.(runs := db.runs[row.id := row]), RunQueued(row.id, row.workspace))
  }

  /** The unguarded UPDATE, and the event its new status calls for. */
  function Updating(db: Db, row: RunRow): Db {
    var stored :=
      if row.id in db.runs then
        db.(runs := db.runs[row.id := row.(workspace := db.runs[row.id].workspace)])
      else db;
    match row.status
    case Canceled => Writing(stored, RunCanceled(row.id, row.workspace))
    case Applied => Writing(stored, RunApplied(row.id, row.workspace))
    case Failed => Writing(stored, RunFailed(row.id, row.workspace))
    case _ => stored
  }

  predicate HasStatus(db: Db, r: RunId, status: Status) {
    r in db.runs && db.runs[r].status == status
  }

  /** The claim: it takes effect on a queued run only. */
  function Claiming(db: Db, r: RunId, w: WorkspaceId): Db {
    if HasStatus(db, r, Queued) then
      var row := db.runs[r].(status := Applying, startedAt := Some(db.clock));
      Writing(db.(runs := db.runs[r := row]), RunApplying(r, w))
    else db
  }

  function Reverting(db: Db, r: RunId): Db {
    if HasStatus(db, r, Applying) then
      db.(runs := db.runs[r := db.runs[r].(status := Queued, startedAt := None)])
    else db
  }

  function MarkingErrored(db: Db, r: RunId): Db {
    if HasStatus(db, r, Applying) then
      var row := db.runs[r].(status := Errored, finishedAt := Some(db.clock));
      Writing(db.(runs := db.runs[r := row]), RunErrored(r))
    else db
  }

  /** The runs named by the RunApplying events older than the cutoff, in log order. */
  function StaleApplying(outbox: seq<Event>, cutoff: Time): seq<Candidate> {
    if outbox == [] then []
    else
      var last := outbox[|outbox| - 1];
      StaleApplying(outbox[..|outbox| - 1], cutoff) +
      if last.body.RunApplying? && last.occurredAt < cutoff then
        [Candidate(last.body.run, last.body.workspace)]
      else []
  }

  // ---- workspace lock ----

  function Locking(db: Db, w: WorkspaceId, r: RunId): Db {
    if w in db.locks then db else db.(locks := db.locks[w := r])
  }

  function Unlocking(db: Db, w: WorkspaceId, r: RunId): Db {
    if w in db.locks && db.locks[w] == r then db.(locks := db.locks - {w}) else db
  }

  // ---- audit and workers ----

  /** Insert on conflict do nothing: one audit entry per source event. */
  function Recording(db: Db, e: EventId): Db {
    if e in db.audit then db else db.(audit := db.audit + [e])
  }

  function Assigning(db: Db, r: RunId): Db {
    db.(jobs := db.jobs + [r])
  }

  // ---- the calls ----

  /** The calls that may change a table; Read stands for every call that does not. */
  datatype Call =
    | Read
    | Lock(workspace: WorkspaceId, run: RunId)
    | Unlock(workspace: WorkspaceId, run: RunId)
    | Create(row: RunRow)
    | Update(row: RunRow)
    | StartApplying(run: RunId, workspace: WorkspaceId)
    | RevertToQueued(run: RunId)
    | MarkErrored(run: RunId)
    | Record(event: EventId)
    | Publish(event: EventId)
    | Assign(run: RunId)

  function Apply(db: Db, call: Call): Db {
    match call
    case Read => db
    case Lock(w, r) => Locking(db, w, r)
    case Unlock(w, r) => Unlocking(db, w, r)
    case Create(row) => Creating(db, row)
    case Update(row) => Updating(db, row)
    case StartApplying(r, w) => Claiming(db, r, w)
    case RevertToQueued(r) => Reverting(db, r)
    case MarkErrored(r) => MarkingErrored(db, r)
    case Record(e) => Recording(db, e)
    case Publish(e) => Publishing(db, e)
    case Assign(r) => Assigning(db, r)
  }
}
