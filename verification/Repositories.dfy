/**
 The repository, locker, outbox and dispatcher calls as they are written, each updating the
 shared tables in place. Before every call the other threads may do anything to the tables,
 and any call may fail: the script says what.
 */
module Repositories {
  import opened Wrappers
  import opened RunDomain
  import opened Tables
  import opened Protocol

  /** What the others do to the tables before the next call, and how that call ends. */
  datatype Slot = Slot(others: Db -> Db, outcome: Outcome)

  function Head(script: seq<Slot>): Slot {
    if script == [] then Slot(db => db, Done) else script[0]
  }

  function Tail(script: seq<Slot>): seq<Slot> {
    if script == [] then [] else script[1..]
  }

  /** The tables the next call finds. */
  function Found(db: Db, script: seq<Slot>): Db {
    Head(script).others(db)
  }

  /** How a call on the tables ended, given what it found. */
  function Answer<T>(db: Db, script: seq<Slot>, value: T): Result<T, RunError> {
    if Head(script).outcome.Done? then Success(value) else Failure(StorageError)
  }

  class ControlPlane {
    var db: Db
    var script: seq<Slot>

    constructor (db: Db, script: seq<Slot>)
      ensures this.db == db && this.script == script
    {
      this.db, this.script := db, script;
    }

    /** The others have their turn; then the call ends as the script says. */
    method Turn() returns (o: Outcome)
      modifies this
      ensures db == Found(old(db), old(script)) && script == Tail(old(script)) && o == Head(old(script)).outcome
    {
      var slot := Head(script);
      db, script := slot.others(db), Tail(script);
      o := slot.outcome;
    }

    // ---- run repository ----

    method WriteEvent(body: Body)
      modifies this`db
      ensures db == Writing(old(db), body)
    {
      db := db.(outbox := db.outbox + [Event(body, db.clock)]);
    }

    method Create(run: Run) returns (result: Result<(), RunError>)
      modifies this
      ensures db == Commit(Found(old(db), old(script)), Call.Create(old(run.Row())), Head(old(script)).outcome)
      ensures script == Tail(old(script)) && result == Answer(old(db), old(script), ())
    {
      var o := Turn();
      if !o.Done? {
        return Failure(StorageError);
      }
      db := db.(runs := db.runs[run.id := run.Row()]);
      WriteEvent(RunQueued(run.id, run.workspace));
      result := Success(());
    }

    method GetByID(id: RunId) returns (result: Result<Run, RunError>)
      modifies this
      ensures db == Found(old(db), old(script)) && script == Tail(old(script))
      ensures result.Success? <==> Head(old(script)).outcome.Done? && id in db.runs
      ensures result.Success? ==> fresh(result.value) && result.value.Row() == db.runs[id]
      ensures result.Failure? ==> result.error == if Head(old(script)).outcome.Done? then RunNotFound else StorageError
    {
      var o := Turn();
      if !o.Done? {
        return Failure(StorageError);
      }
      if id !in db.runs {
        return Failure(RunNotFound);
      }
      var run := new Run(db.runs[id]);
      result := Success(run);
    }

    method Update(run: Run) returns (result: Result<(), RunError>)
      modifies this
      ensures db == Commit(Found(old(db), old(script)), Call.Update(old(run.Row())), Head(old(script)).outcome)
      ensures script == Tail(old(script)) && result == Answer(old(db), old(script), ())
    {
      var o := Turn();
      if !o.Done? {
        return Failure(StorageError);
      }
      if run.id in db.runs {
        db := db.(runs := db.runs[run.id := run.Row().(workspace := db.runs[run.id].workspace)]);
      }
      match run.status {
        case Canceled => WriteEvent(RunCanceled(run.id, run.workspace));
        case Applied => WriteEvent(RunApplied(run.id, run.workspace));
        case Failed => WriteEvent(RunFailed(run.id, run.workspace));
        case _ =>
      }
      result := Success(());
    }

    method TryStartApplying(id: RunId, workspace: WorkspaceId) returns (result: Result<bool, RunError>)
      modifies this
      ensures db == Commit(Found(old(db), old(script)), StartApplying(id, workspace), Head(old(script)).outcome)
      ensures script == Tail(old(script))
      ensures result == Answer(old(db), old(script), HasStatus(Found(old(db), old(script)), id, Queued))
    {
      var o := Turn();
      if !o.Done? {
        return Failure(StorageError);
      }
      if id !in db.runs || db.runs[id].status != Queued {
        return Success(false);
      }
      db := db.(runs := db.runs[id := db.runs[id].(status := Applying, startedAt := Some(db.clock))]);
      WriteEvent(RunApplying(id, workspace));
      result := Success(true);
    }

    method RevertToQueued(id: RunId) returns (result: Result<(), RunError>)
      modifies this
      ensures db == Commit(Found(old(db), old(script)), Call.RevertToQueued(id), Head(old(script)).outcome)
      ensures script == Tail(old(script)) && result == Answer(old(db), old(script), ())
    {
      var o := Turn();
      if !o.Done? {
        return Failure(StorageError);
      }
      if id in db.runs && db.runs[id].status == Applying {
        db := db.(runs := db.runs[id := db.runs[id].(status := Queued, startedAt := None)]);
      }
      result := Success(());
    }

    /** Scans the log for RunApplying events older than the cutoff. */
    method FindStaleApplyingRuns(olderThan: Time) returns (result: Result<seq<Candidate>, RunError>)
      modifies this
      ensures db == Found(old(db), old(script)) && script == Tail(old(script))
      ensures result == Answer(old(db), old(script), StaleApplying(db.outbox, olderThan))
    {
      var o := Turn();
      if !o.Done? {
        return Failure(StorageError);
      }
      var candidates := [];
      for i := 0 to |db.outbox|
        invariant candidates == StaleApplying(db.outbox[..i], olderThan)
      {
        assert db.outbox[..i + 1][..i] == db.outbox[..i];
        var e := db.outbox[i];
        if e.body.RunApplying? && e.occurredAt < olderThan {
          candidates := candidates + [Candidate(e.body.run, e.body.workspace)];
        }
      }
      assert db.outbox[..|db.outbox|] == db.outbox;
      result := Success(candidates);
    }

    method MarkErroredIfStillApplying(id: RunId) returns (result: Result<bool, RunError>)
      modifies this
      ensures db == Commit(Found(old(db), old(script)), MarkErrored(id), Head(old(script)).outcome)
      ensures script == Tail(old(script))
      ensures result == Answer(old(db), old(script), HasStatus(Found(old(db), old(script)), id, Applying))
    {
      var o := Turn();
      if !o.Done? {
        return Failure(StorageError);
      }
      if id !in db.runs || db.runs[id].status != Applying {
        return Success(false);
      }
      db := db.(runs := db.runs[id := db.runs[id].(status := Errored, finishedAt := Some(db.clock))]);
      WriteEvent(RunErrored(id));
      result := Success(true);
    }

    // ---- workspace locker ----

    method TryLock(workspace: WorkspaceId, id: RunId) returns (result: Result<bool, RunError>)
      modifies this
      ensures db == Commit(Found(old(db), old(script)), Lock(workspace, id), Head(old(script)).outcome)
      ensures script == Tail(old(script))
      ensures result == Answer(old(db), old(script), workspace !in Found(old(db), old(script)).locks)
    {
      var o := Turn();
      if !o.Done? {
        return Failure(StorageError);
      }
      if workspace in db.locks {
        return Success(false);
      }
      db := db.(locks := db.locks[workspace := id]);
      result := Success(true);
    }

    method Unlock(workspace: WorkspaceId, id: RunId) returns (result: Result<(), RunError>)
      modifies this
      ensures db == Commit(Found(old(db), old(script)), Call.Unlock(workspace, id), Head(old(script)).outcome)
      ensures script == Tail(old(script)) && result == Answer(old(db), old(script), ())
    {
      var o := Turn();
      if !o.Done? {
        return Failure(StorageError);
      }
      if workspace in db.locks && db.locks[workspace] == id {
        db := db.(locks := db.locks - {workspace});
      }
      result := Success(());
    }

    // ---- outbox, audit, and what dispatching needs ----

    /** Inserts the audit entry of an event unless the event already has one. */
    method RecordEntry(event: EventId) returns (result: Result<(), RunError>)
      modifies this
      ensures db == Commit(Found(old(db), old(script)), Record(event), Head(old(script)).outcome)
      ensures script == Tail(old(script)) && result == Answer(old(db), old(script), ())
    {
      var o := Turn();
      if !o.Done? {
        return Failure(StorageError);
      }
      if event !in db.audit {
        db := db.(audit := db.audit + [event]);
      }
      result := Success(());
    }

    method MarkPublished(event: EventId) returns (result: Result<(), RunError>)
      modifies this
      ensures db == Commit(Found(old(db), old(script)), Publish(event), Head(old(script)).outcome)
      ensures script == Tail(old(script)) && result == Answer(old(db), old(script), ())
    {
      var o := Turn();
      if !o.Done? {
        return Failure(StorageError);
      }
      db := db.(published := db.published + {event});
      result := Success(());
    }

    /** The events a batch query returned, read row by row. */
    method FetchUnpublished() returns (result: Result<seq<Delivery>, RunError>)
      modifies this
      ensures db == Found(old(db), old(script)) && script == Tail(old(script))
      ensures var o := Head(old(script)).outcome;
              if o.Fetched? && IsBatch(db, o.batch) then result == Success(Deliveries(db, o.batch))
              else result == Failure(StorageError)
      ensures result.Success? ==> |result.value| <= 100
    {
      var o := Turn();
      if !o.Fetched? {
        return Failure(StorageError);
      }
      if !IsBatch(db, o.batch) {
        return Failure(StorageError);
      }
      var events := [];
      for i := 0 to |o.batch|
        invariant events == Deliveries(db, o.batch)[..i]
      {
        events := events + [Delivery(o.batch[i], db.outbox[o.batch[i]].body)];
      }
      assert events == Deliveries(db, o.batch);
      result := Success(events);
    }

    /** Engine, configuration and credential of a workspace: all found, something missing, or an error. */
    method ResolveInputs() returns (result: Result<bool, RunError>)
      modifies this
      ensures db == Found(old(db), old(script)) && script == Tail(old(script))
      ensures var o := Head(old(script)).outcome;
              result == if o.Done? then Success(true) else if o.Missing? then Success(false) else Failure(StorageError)
    {
      var o := Turn();
      result := if o.Done? then Success(true) else if o.Missing? then Success(false) else Failure(StorageError);
    }

    /** Hands the run to a worker's channel, unless none has room. */
    method Dispatch(id: RunId) returns (result: Result<bool, RunError>)
      modifies this
      ensures db == Commit(Found(old(db), old(script)), Assign(id), Head(old(script)).outcome)
      ensures script == Tail(old(script))
      ensures var o := Head(old(script)).outcome;
              result == if o.Done? then Success(true) else if o.NoWorker? then Success(false) else Failure(StorageError)
    {
      var o := Turn();
      if o.Done? {
        db := db.(jobs := db.jobs + [id]);
      }
      result := if o.Done? then Success(true) else if o.NoWorker? then Success(false) else Failure(StorageError);
    }
  }
}
