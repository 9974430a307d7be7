/**
 The run state machine of the execution context: the closed set of statuses, the
 three transitions the code performs on a loaded run, and the row a run is stored as.
 */
module RunDomain {
  import opened Wrappers

  // Identifiers are UUIDs in the program; only their identity matters.
  type RunId = nat
  type WorkspaceId = nat

  // Seconds, microseconds, ...: only the order of instants matters.
  type Time = int

  datatype Status =
    | Queued
    | Planning
    | Planned
    | PolicyCheck
    | AwaitingApproval
    | Applying
    | Applied
    | Failed
    | Errored
    | Canceled
  {
    predicate IsTerminal() {
      match this
      case Applied => true
      case Failed => true
      case Errored => true
      case Canceled => true
      case _ => false
    }
  }

  /** A row of the runs table, without the columns no execution step reads or writes. */
  datatype RunRow = RunRow(
    id: RunId,
    workspace: WorkspaceId,
    status: Status,
    applyOutput: Option<string>,
    startedAt: Option<Time>,
    finishedAt: Option<Time>)

  datatype RunError =
    | WorkspaceNotFound
    | Forbidden
    | OrganizationArchived
    | RunNotFound
    | RunAlreadyTerminal
    | InvalidTransition
    | WorkspaceLocked
    | NoWorkerAvailable
    | ValidationError
    | StorageError

  function NewRun(id: RunId, workspace: WorkspaceId): RunRow {
    RunRow(id, workspace, Queued, None, None, None)
  }

  function Canceling(row: RunRow, now: Time): Result<RunRow, RunError> {
    if row.status.IsTerminal() then Failure(RunAlreadyTerminal)
    else Success(row.(status := Canceled, finishedAt := Some(now)))
  }

  function MarkingApplied(row: RunRow, now: Time): Result<RunRow, RunError> {
    if row.status != Applying then Failure(InvalidTransition)
    else Success(row.(status := Applied, finishedAt := Some(now)))
  }

  function MarkingFailed(row: RunRow, now: Time): Result<RunRow, RunError> {
    if row.status != Applying then Failure(InvalidTransition)
    else Success(row.(status := Failed, finishedAt := Some(now)))
  }

  /** The status word a worker puts in its report. */
  datatype Verdict = SaysApplied | SaysFailed | SaysErrored | SaysSomethingElse

  /** What a report makes of the run it finds: the row to store, or why nothing is stored. */
  function Judging(row: RunRow, verdict: Verdict, output: Option<string>, now: Time): Result<RunRow, RunError> {
    var marked :=
      match verdict
      case SaysApplied => MarkingApplied(row, now)
      case SaysFailed => MarkingFailed(row, now)
      case SaysErrored => MarkingFailed(row, now)
      case SaysSomethingElse => Failure(ValidationError);
    if marked.Success? && output.Some? then Success(marked.value.(applyOutput := output)) else marked
  }

  /** A loaded run: the in-memory record the services mutate before they store it. */
  class Run {
    const id: RunId
    const workspace: WorkspaceId
    var status: Status
    var applyOutput: Option<string>
    var startedAt: Option<Time>
    var finishedAt: Option<Time>

    constructor (row: RunRow)
      ensures Row() == row
    {
      id, workspace, status := row.id, row.workspace, row.status;
      applyOutput, startedAt, finishedAt := row.applyOutput, row.startedAt, row.finishedAt;
    }

    function Row(): RunRow
      reads this
    {
      RunRow(id, workspace, status, applyOutput, startedAt, finishedAt)
    }

    method Cancel(now: Time) returns (result: Result<(), RunError>)
      modifies this
      ensures result.Success? <==> old(status) !in {Applied, Failed, Errored, Canceled}
      ensures result.Success? ==>
                && status == Canceled && finishedAt == Some(now)
                && applyOutput == old(applyOutput) && startedAt == old(startedAt)
      ensures result.Success? <==> Canceling(old(Row()), now).Success?
      ensures result.Success? ==> Row() == Canceling(old(Row()), now).value
      ensures result.Failure? ==> Row() == old(Row()) && result.error == RunAlreadyTerminal
    {
      if status.IsTerminal() {
        return Failure(RunAlreadyTerminal);
      }
      status := Canceled;
      finishedAt := Some(now);
      result := Success(());
    }

    method MarkApplied(now: Time) returns (result: Result<(), RunError>)
      modifies this
      ensures result.Success? <==> old(status) == Applying
      ensures result.Success? ==>
                && status == Applied && finishedAt == Some(now)
                && applyOutput == old(applyOutput) && startedAt == old(startedAt)
      ensures result.Success? <==> MarkingApplied(old(Row()), now).Success?
      ensures result.Success? ==> Row() == MarkingApplied(old(Row()), now).value
      ensures result.Failure? ==> Row() == old(Row()) && result.error == InvalidTransition
    {
      if status != Applying {
        return Failure(InvalidTransition);
      }
      status := Applied;
      finishedAt := Some(now);
      result := Success(());
    }

    method MarkFailed(now: Time) returns (result: Result<(), RunError>)
      modifies this
      ensures result.Success? <==> old(status) == Applying
      ensures result.Success? ==>
                && status == Failed && finishedAt == Some(now)
                && applyOutput == old(applyOutput) && startedAt == old(startedAt)
      ensures result.Success? <==> MarkingFailed(old(Row()), now).Success?
      ensures result.Success? ==> Row() == MarkingFailed(old(Row()), now).value
      ensures result.Failure? ==> Row() == old(Row()) && result.error == InvalidTransition
    {
      if status != Applying {
        return Failure(InvalidTransition);
      }
      status := Failed;
      finishedAt := Some(now);
      result := Success(());
    }
  }
}
