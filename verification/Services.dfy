/**
 The services as they are written, call after call, each proved to do exactly what its thread
 of the protocol does, whatever the others do between its calls and however its calls end.
 */
module Services {
  import opened Wrappers
  import opened RunDomain
  import opened Tables
  import opened Protocol
  import opened Repositories

  /** How many calls a thread can still make before it is over or the relay waits for its tick. */
  function Rank(th: Thread): nat {
    match th
    case TriggerLock(_, _) => 3
    case TriggerCreate(_, _) => 2
    case TriggerUndo(_, _) => 1
    case CancelRead(_, _) => 4
    case CancelWrite(_) => 3
    case CancelUnlock(_, _) => 2
    case CancelNotify(_) => 1
    case ReportRead(_, _, _, _) => 3
    case ReportWrite(_, _) => 2
    case ReportUnlock(_, _) => 1
    case SweepFind(_) => 0
    case SweepMark(cs) => 2 * |cs| + 1
    case SweepUnlock(_, rest) => 2 * |rest| + 2
    case RelayFetch => 0
    case RelayRecord(_, rest) => 9 * |rest| + 9
    case RelayClaim(_, rest) => 9 * |rest| + 8
    case RelayLoad(_, rest) => 9 * |rest| + 7
    case RelayResolve(_, _, rest) => 9 * |rest| + 6
    case RelayDispatch(_, rest) => 9 * |rest| + 5
    case RelayRevert(_, rest) => 9 * |rest| + 4
    case RelayFailWrite(_, _, rest) => 9 * |rest| + 5
    case RelayFailUnlock(_, rest) => 9 * |rest| + 4
    case RelayPublish(_, rest) => 9 * |rest| + 3
  }

  /** A thread played to its end; the two pollers are played from their first result. */
  function Play(db: Db, th: Option<Thread>, script: seq<Slot>): (Db, seq<Slot>)
    decreases if th.Some? then 1 + Rank(th.value) else 0
  {
    if th.None? || th.value.RelayFetch? || th.value.SweepFind? then (db, script)
    else
      var seen, o := Found(db, script), Head(script).outcome;
      RankDrops(seen, th.value, o);
      Play(Commit(seen, CallOf(th.value), o), After(seen, th.value, o), Tail(script))
  }

  lemma RankDrops(db: Db, th: Thread, o: Outcome)
    requires !th.RelayFetch? && !th.SweepFind?
    ensures After(db, th, o).Some? ==> Rank(After(db, th, o).value) < Rank(th)
  {
  }

  lemma PlayCall(db: Db, th: Thread, script: seq<Slot>)
    requires !th.RelayFetch? && !th.SweepFind?
    ensures var seen, o := Found(db, script), Head(script).outcome;
            Play(db, Some(th), script) == Play(Commit(seen, CallOf(th), o), After(seen, th, o), Tail(script))
  {
  }

  /** The script lets the nth call from here succeed. */
  predicate Ok(script: seq<Slot>, n: nat) {
    n < |script| ==> script[n].outcome.Done?
  }

  // ---- TriggerRunService ----

  /** Execute, with the answers of the existence, permission and archive checks as arguments. */
  method TriggerRun(plane: ControlPlane, workspace: WorkspaceId, freshId: RunId, workspaceExists: bool,
      allowed: bool, archived: bool)
      returns (result: Result<Run, RunError>)
    modifies plane
    ensures !workspaceExists ==> result == Failure(WorkspaceNotFound)
    ensures workspaceExists && !allowed ==> result == Failure(Forbidden)
    ensures workspaceExists && allowed && archived ==> result == Failure(OrganizationArchived)
    ensures !workspaceExists || !allowed || archived ==> plane.db == old(plane.db) && plane.script == old(plane.script)
    ensures workspaceExists && allowed && !archived ==>
              (plane.db, plane.script) == Play(old(plane.db), Some(TriggerLock(freshId, workspace)), old(plane.script))
    ensures result.Success? ==> result.value.Row() == NewRun(freshId, workspace) && HasStatus(plane.db, freshId, Queued)
    ensures workspaceExists && allowed && !archived ==>
              var script, free := old(plane.script), workspace !in Found(old(plane.db), old(plane.script)).locks;
              && (result == Failure(WorkspaceLocked) <==> Ok(script, 0) && !free)
              && (result.Success? <==> Ok(script, 0) && free && Ok(script, 1))
  {
    hide Play;
    if !workspaceExists {
      return Failure(WorkspaceNotFound);
    }
    if !allowed {
      return Failure(Forbidden);
    }
    if archived {
      return Failure(OrganizationArchived);
    }
    var run := new Run(NewRun(freshId, workspace));

    PlayCall(plane.db, TriggerLock(freshId, workspace), plane.script);
    var locked := plane.TryLock(workspace, run.id);
    PlayOver(plane.db, plane.script);
    if locked.Failure? {
      return Failure(locked.error);
    }
    if !locked.value {
      return Failure(WorkspaceLocked);
    }

    PlayCall(plane.db, TriggerCreate(freshId, workspace), plane.script);
    var created := plane.Create(run);
    PlayOver(plane.db, plane.script);
    if created.Failure? {
      PlayCall(plane.db, TriggerUndo(freshId, workspace), plane.script);
      var _ := plane.Unlock(workspace, run.id);
      PlayOver(plane.db, plane.script);
      return Failure(created.error);
    }
    result := Success(run);
  }

  lemma PlayOver(db: Db, script: seq<Slot>)
    ensures Play(db, None, script) == (db, script)
    ensures Play(db, Some(RelayFetch), script) == (db, script)
  {
  }

  // ---- CancelRunService ----

  method CancelRun(plane: ControlPlane, workspace: WorkspaceId, id: RunId, allowed: bool)
      returns (result: Result<Run, RunError>)
    modifies plane
    ensures !allowed ==> result == Failure(Forbidden) && plane.db == old(plane.db) && plane.script == old(plane.script)
    ensures allowed ==>
              (plane.db, plane.script) ==
              Play(old(plane.db), Some(CancelRead(id, workspace)), old(plane.script))
    ensures result.Success? ==> result.value.Row().status == Canceled
    ensures allowed ==>
              var script, runs := old(plane.script), Found(old(plane.db), old(plane.script)).runs;
              var known := Ok(script, 0) && id in runs && runs[id].workspace == workspace;
              && (result == Failure(RunAlreadyTerminal) <==> known && runs[id].status.IsTerminal())
              && (result.Success? <==> known && !runs[id].status.IsTerminal() && Ok(script, 1) && Ok(script, 2))
  {
    hide Play;
    if !allowed {
      return Failure(Forbidden);
    }
    PlayCall(plane.db, CancelRead(id, workspace), plane.script);
    var loaded := plane.GetByID(id);
    PlayOver(plane.db, plane.script);
    if loaded.Failure? {
      return Failure(loaded.error);
    }
    var run := loaded.value;
    if run.workspace != workspace {
      return Failure(RunNotFound);
    }
    var canceled := run.Cancel(plane.db.clock);
    if canceled.Failure? {
      return Failure(canceled.error);
    }

    PlayCall(plane.db, CancelWrite(run.Row()), plane.script);
    var updated := plane.Update(run);
    PlayOver(plane.db, plane.script);
    if updated.Failure? {
      return Failure(updated.error);
    }
    PlayCall(plane.db, CancelUnlock(run.id, workspace), plane.script);
    var unlocked := plane.Unlock(workspace, run.id);
    PlayOver(plane.db, plane.script);
    if unlocked.Failure? {
      return Failure(unlocked.error);
    }
    // the best-effort command to the worker touches no table, and its result is ignored
    PlayCall(plane.db, CancelNotify(run.id), plane.script);
    var _ := plane.Turn();
    PlayOver(plane.db, plane.script);
    result := Success(run);
  }

  // ---- WorkerReportService ----

  function VerdictOf(status: string): Verdict {
    if status == "applied" then SaysApplied
    else if status == "failed" then SaysFailed
    else if status == "errored" then SaysErrored
    else SaysSomethingElse
  }

  /** What the run keeps of a worker's output: nothing to keep leaves the stored output alone. */
  function OutputOf(logLine: string, errorMessage: string): Option<string> {
    if errorMessage == "" || errorMessage == logLine then
      if logLine == "" then None else Some(logLine)
    else if logLine == "" then Some(errorMessage)
    else Some(logLine + ("\n\nerror: " + errorMessage))
  }

  method CombineOutput(logLine: string, errorMessage: string) returns (output: string)
    ensures OutputOf(logLine, errorMessage) == if output == "" then None else Some(output)
    ensures output ==
            if errorMessage == "" || errorMessage == logLine then logLine
            else if logLine == "" then errorMessage
            else logLine + ("\n\nerror: " + errorMessage)
  {
    output := logLine;
    if errorMessage != "" && errorMessage != logLine {
      if output != "" {
        output := output + ("\n\nerror: " + errorMessage);
      } else {
        output := errorMessage;
      }
    }
  }

  /** The registry's record of which worker has which run, as far as the services see it: what they drop from it. */
  class RunTracker {
    var forgotten: seq<RunId>

    constructor ()
      ensures forgotten == []
    {
      forgotten := [];
    }

    method Forget(id: RunId)
      modifies this
      ensures forgotten == old(forgotten) + [id]
    {
      forgotten := forgotten + [id];
    }
  }

  lemma PlayReport(db: Db, id: RunId, workspace: WorkspaceId, verdict: Verdict, output: Option<string>,
      script: seq<Slot>)
    ensures var seen, o := Found(db, script), Head(script).outcome;
            Play(db, Some(ReportRead(id, workspace, verdict, output)), script) ==
            if o.Done? && id in seen.runs && Judging(seen.runs[id], verdict, output, seen.clock).Success? then
              Play(seen, Some(ReportWrite(Judging(seen.runs[id], verdict, output, seen.clock).value, workspace)),
                  Tail(script))
            else (seen, Tail(script))
  {
    PlayCall(db, ReportRead(id, workspace, verdict, output), script);
  }

  lemma PlayReported(db: Db, row: RunRow, workspace: WorkspaceId, script: seq<Slot>)
    ensures var seen, o := Found(db, script), Head(script).outcome;
            Play(db, Some(ReportWrite(row, workspace)), script) ==
            if o.Done? then Play(Commit(seen, Call.Update(row), o), Some(ReportUnlock(row.id, workspace)), Tail(script))
            else (seen, Tail(script))
  {
    PlayCall(db, ReportWrite(row, workspace), script);
  }

  lemma PlayReportUnlock(db: Db, id: RunId, workspace: WorkspaceId, script: seq<Slot>)
    ensures var seen, o := Found(db, script), Head(script).outcome;
            Play(db, Some(ReportUnlock(id, workspace)), script) ==
                (Commit(seen, Call.Unlock(workspace, id), o), Tail(script))
  {
    PlayCall(db, ReportUnlock(id, workspace), script);
  }

  lemma Undisturbed(db: Db)
    ensures Found(db, []) == db && Head([]).outcome == Done && Tail([]) == []
  {
  }

  /** The stores of an ended run and of its workspace's lock. */
  lemma EndingStored(db: Db, row: RunRow, workspace: WorkspaceId)
    requires row.id in db.runs && db.runs[row.id].workspace == row.workspace && row.status in {Applied, Failed}
    ensures var body :=
              if row.status == Applied then RunApplied(row.id, row.workspace) else RunFailed(row.id, row.workspace);
            Apply(Apply(db, Call.Update(row)), Call.Unlock(workspace, row.id)) ==
            db.(runs := db.runs[row.id := row], outbox := db.outbox + [Event(body, db.clock)],
                locks := if workspace in db.locks && db.locks[workspace] == row.id then db.locks - {workspace}
                         else db.locks)
  {
  }

  /**
   A report nobody interferes with: "applied" ends an applying run applied, "failed" and "errored" end it failed,
   with that event, its output kept and its workspace free; any other word, or any other run, changes nothing.
   */
  lemma ReportOutcome(db: Db, id: RunId, workspace: WorkspaceId, reportedStatus: string, logLine: string,
      errorMessage: string)
    requires id in db.runs ==> db.runs[id].id == id
    ensures var db' := Play(db, Some(ReportRead(id, workspace, VerdictOf(reportedStatus),
                                                OutputOf(logLine, errorMessage))), []).0;
            if id !in db.runs || db.runs[id].status != Applying then db' == db
            else
              var row := db.runs[id];
              var output :=
                if logLine == "" && errorMessage == "" then row.applyOutput
                else if errorMessage == "" || errorMessage == logLine then Some(logLine)
                else if logLine == "" then Some(errorMessage)
                else Some(logLine + ("\n\nerror: " + errorMessage));
              var ended := row.(finishedAt := Some(db.clock), applyOutput := output);
              var locks :=
                if workspace in db.locks && db.locks[workspace] == id then db.locks - {workspace} else db.locks;
              db' ==
              if reportedStatus == "applied" then
                db.(runs := db.runs[id := ended.(status := Applied)], locks := locks,
                    outbox := db.outbox + [Event(RunApplied(id, row.workspace), db.clock)])
              else if reportedStatus in {"failed", "errored"} then
                db.(runs := db.runs[id := ended.(status := Failed)], locks := locks,
                    outbox := db.outbox + [Event(RunFailed(id, row.workspace), db.clock)])
              else db
  {
    hide Play, Apply, Found;
    Undisturbed(db);
    var verdict, output := VerdictOf(reportedStatus), OutputOf(logLine, errorMessage);
    PlayReport(db, id, workspace, verdict, output, []);
    if id in db.runs && Judging(db.runs[id], verdict, output, db.clock).Success? {
      var judged := Judging(db.runs[id], verdict, output, db.clock).value;
      PlayReported(db, judged, workspace, []);
      PlayReportUnlock(Apply(db, Call.Update(judged)), id, workspace, []);
      Undisturbed(Apply(db, Call.Update(judged)));
      EndingStored(db, judged, workspace);
    }
  }

  /** The status a report leaves on the run it finds, when it finds it applying and nobody interferes. */
  ghost predicate Ends(db: Db, id: RunId, reportedStatus: string, db': Db) {
    HasStatus(db, id, Applying) && db.runs[id].id == id ==>
      && (reportedStatus == "applied" ==> HasStatus(db', id, Applied))
      && (reportedStatus in {"failed", "errored"} ==> HasStatus(db', id, Failed))
      && (reportedStatus !in {"applied", "failed", "errored"} ==> db' == db)
  }

  lemma ReportEnds(db: Db, id: RunId, workspace: WorkspaceId, reportedStatus: string, logLine: string,
      errorMessage: string)
    ensures Ends(db, id, reportedStatus, Play(db, Some(ReportRead(id, workspace, VerdictOf(reportedStatus),
                                                                  OutputOf(logLine, errorMessage))), []).0)
  {
    hide Play, OutputOf;
    if HasStatus(db, id, Applying) && db.runs[id].id == id {
      ReportOutcome(db, id, workspace, reportedStatus, logLine, errorMessage);
    }
  }

  method HandleReport(plane: ControlPlane, tracker: RunTracker, id: RunId, workspace: WorkspaceId,
                      reportedStatus: string, logLine: string, errorMessage: string)
      returns (result: Result<(), RunError>)
    modifies plane, tracker
    ensures var th := ReportRead(id, workspace, VerdictOf(reportedStatus), OutputOf(logLine, errorMessage));
            (plane.db, plane.script) == Play(old(plane.db), Some(th), old(plane.script))
    ensures var script, runs := old(plane.script), Found(old(plane.db), old(plane.script)).runs;
            var known, verdict := Ok(script, 0) && id in runs, VerdictOf(reportedStatus);
            && (result == Failure(ValidationError) <==> known && verdict.SaysSomethingElse?)
            && (result.Success? <==>
                  known && !verdict.SaysSomethingElse? &&
                      (runs[id].status == Applying ==> Ok(script, 1) && Ok(script, 2)))
            && tracker.forgotten == old(tracker.forgotten) +
                 if known && !verdict.SaysSomethingElse? && runs[id].status == Applying && Ok(script, 1)
                     then [runs[id].id] else []
    ensures old(plane.script) == [] ==> Ends(old(plane.db), id, reportedStatus, plane.db)
    ensures Ok(old(plane.script), 0) && id in Found(old(plane.db), old(plane.script)).runs ==>
              (result == Failure(ValidationError) <==> reportedStatus !in {"applied", "failed", "errored"})
  {
    hide Play, OutputOf, Apply, Found, Ends;
    ReportEnds(plane.db, id, workspace, reportedStatus, logLine, errorMessage);
    PlayReport(plane.db, id, workspace, VerdictOf(reportedStatus), OutputOf(logLine, errorMessage), plane.script);
    var loaded := plane.GetByID(id);
    if loaded.Failure? {
      return Failure(loaded.error);
    }
    var run := loaded.value;

    var output := CombineOutput(logLine, errorMessage);
    var marked: Result<(), RunError>;
    if reportedStatus == "applied" {
      marked := run.MarkApplied(plane.db.clock);
    } else if reportedStatus == "failed" || reportedStatus == "errored" {
      marked := run.MarkFailed(plane.db.clock);
    } else {
      return Failure(ValidationError);
    }
    if marked.Failure? {
      return Success(());
    }
    if output != "" {
      run.applyOutput := Some(output);
    }

    PlayReported(plane.db, run.Row(), workspace, plane.script);
    var updated := plane.Update(run);
    if updated.Failure? {
      return Failure(updated.error);
    }
    tracker.Forget(run.id);
    PlayReportUnlock(plane.db, run.id, workspace, plane.script);
    result := plane.Unlock(workspace, run.id);
  }

  // ---- StaleRunReaperService ----

  /** The candidates a sweep errors and unlocks: those it forgets. */
  function Reaped(db: Db, cs: seq<Candidate>, script: seq<Slot>): seq<RunId>
    decreases |cs|, 0
  {
    if cs == [] then []
    else
      var seen, o := Found(db, script), Head(script).outcome;
      if o.Done? && HasStatus(seen, cs[0].run, Applying) then
        ReapedFree(Commit(seen, MarkErrored(cs[0].run), o), cs[0], cs[1..], Tail(script))
      else Reaped(seen, cs[1..], Tail(script))
  }

  /** The same from the unlock of a candidate on. */
  function ReapedFree(db: Db, c: Candidate, rest: seq<Candidate>, script: seq<Slot>): seq<RunId>
    decreases |rest|, 1
  {
    (if Head(script).outcome.Done? then [c.run] else []) +
    Reaped(Commit(Found(db, script), Call.Unlock(c.workspace, c.run), Head(script).outcome), rest, Tail(script))
  }

  lemma PlayMark(db: Db, cs: seq<Candidate>, script: seq<Slot>)
    requires cs != []
    ensures var seen, o := Found(db, script), Head(script).outcome;
            Play(db, Sweep(cs), script) ==
            if o.Done? && HasStatus(seen, cs[0].run, Applying) then
              Play(Commit(seen, MarkErrored(cs[0].run), o), Some(SweepUnlock(cs[0], cs[1..])), Tail(script))
            else Play(Commit(seen, MarkErrored(cs[0].run), o), Sweep(cs[1..]), Tail(script))
    ensures var seen, o := Found(db, script), Head(script).outcome;
            !(o.Done? && HasStatus(seen, cs[0].run, Applying)) ==> Commit(seen, MarkErrored(cs[0].run), o) == seen
  {
    PlayCall(db, SweepMark(cs), script);
  }

  lemma PlayFree(db: Db, c: Candidate, rest: seq<Candidate>, script: seq<Slot>)
    ensures Play(db, Some(SweepUnlock(c, rest)), script) ==
            Play(Commit(Found(db, script), Call.Unlock(c.workspace, c.run), Head(script).outcome), Sweep(rest),
                Tail(script))
  {
    PlayCall(db, SweepUnlock(c, rest), script);
  }

  lemma ReapedMark(db: Db, cs: seq<Candidate>, script: seq<Slot>)
    requires cs != []
    ensures var seen, o := Found(db, script), Head(script).outcome;
            Reaped(db, cs, script) ==
            if o.Done? && HasStatus(seen, cs[0].run, Applying) then
              ReapedFree(Commit(seen, MarkErrored(cs[0].run), o), cs[0], cs[1..], Tail(script))
            else Reaped(seen, cs[1..], Tail(script))
  {
    hide ReapedFree, Commit, Found, Head, Tail, HasStatus;
  }

  lemma ReapedUnlock(forgotten: seq<RunId>, db: Db, c: Candidate, rest: seq<Candidate>, script: seq<Slot>)
    ensures var freed := Commit(Found(db, script), Call.Unlock(c.workspace, c.run), Head(script).outcome);
            forgotten + ReapedFree(db, c, rest, script) ==
            if Head(script).outcome.Done? then (forgotten + [c.run]) + Reaped(freed, rest, Tail(script))
            else forgotten + Reaped(freed, rest, Tail(script))
  {
    hide Reaped, Commit, Found, Head, Tail;
  }

  method ReapOnce(plane: ControlPlane, tracker: RunTracker, cutoff: Time) returns (result: Result<(), RunError>)
    modifies plane, tracker
    ensures var found, o := Found(old(plane.db), old(plane.script)), Head(old(plane.script)).outcome;
            && (plane.db, plane.script) == Play(found, After(found, SweepFind(cutoff), o), Tail(old(plane.script)))
            && (result.Success? <==> o.Done?)
            && tracker.forgotten == old(tracker.forgotten) +
                 if o.Done? then Reaped(found, StaleApplying(found.outbox, cutoff), Tail(old(plane.script))) else []
  {
    hide Play, Reaped;
    var candidates := plane.FindStaleApplyingRuns(cutoff);
    PlayOver(plane.db, plane.script);
    if candidates.Failure? {
      return Failure(candidates.error);
    }
    SweepAll(plane, tracker, candidates.value);
    result := Success(());
  }

  method SweepAll(plane: ControlPlane, tracker: RunTracker, cs: seq<Candidate>)
    modifies plane, tracker
    ensures (plane.db, plane.script) == Play(old(plane.db), Sweep(cs), old(plane.script))
    ensures tracker.forgotten == old(tracker.forgotten) + Reaped(old(plane.db), cs, old(plane.script))
  {
    for i := 0 to |cs|
      invariant Play(old(plane.db), Sweep(cs), old(plane.script)) == Play(plane.db, Sweep(cs[i..]), plane.script)
      invariant old(tracker.forgotten) + Reaped(old(plane.db), cs, old(plane.script)) ==
                tracker.forgotten + Reaped(plane.db, cs[i..], plane.script)
    {
      hide Play, Reaped, ReapedFree, Found, Commit, HasStatus, Sweep, Head, Tail;
      var c := cs[i];
      assert cs[i..][0] == c && cs[i..][1..] == cs[i + 1..];
      PlayMark(plane.db, cs[i..], plane.script);
      ReapedMark(plane.db, cs[i..], plane.script);
      var reaped := plane.MarkErroredIfStillApplying(c.run);
      if reaped.Failure? {
        continue;
      }
      if !reaped.value {
        continue;
      }
      PlayFree(plane.db, c, cs[i + 1..], plane.script);
      ReapedUnlock(tracker.forgotten, plane.db, c, cs[i + 1..], plane.script);
      var unlocked := plane.Unlock(c.workspace, c.run);
      if unlocked.Failure? {
        continue;
      }
      tracker.Forget(c.run);
    }
    assert cs[|cs|..] == [];
    PlayOver(plane.db, plane.script);
  }

  // ---- RunDispatchService and the relay ----

  /** Play, and whether no event that was handled failed to be marked published. */
  function Whole(db: Db, th: Option<Thread>, script: seq<Slot>): (Db, seq<Slot>, bool)
    decreases if th.Some? then 1 + Rank(th.value) else 0
  {
    if th.None? || th.value.RelayFetch? || th.value.SweepFind? then (db, script, true)
    else
      var seen, o := Found(db, script), Head(script).outcome;
      if th.value.RelayPublish? && !o.Done? then (seen, Tail(script), false)
      else
        RankDrops(seen, th.value, o);
        Whole(Commit(seen, CallOf(th.value), o), After(seen, th.value, o), Tail(script))
  }

  lemma {:induction false} WholePlays(db: Db, th: Option<Thread>, script: seq<Slot>)
    ensures Play(db, th, script) == (Whole(db, th, script).0, Whole(db, th, script).1)
    decreases if th.Some? then 1 + Rank(th.value) else 0
  {
    if th.Some? && !th.value.RelayFetch? && !th.value.SweepFind? {
      var seen, o := Found(db, script), Head(script).outcome;
      RankDrops(seen, th.value, o);
      hide CallOf, Apply, AfterHandler, Rank, IsBatch;
      WholePlays(Commit(seen, CallOf(th.value), o), After(seen, th.value, o), Tail(script));
    }
  }

  lemma WholeCall(db: Db, th: Thread, script: seq<Slot>)
    requires !th.RelayFetch? && !th.SweepFind? && !th.RelayPublish?
    ensures var seen, o := Found(db, script), Head(script).outcome;
            Whole(db, Some(th), script) == Whole(Commit(seen, CallOf(th), o), After(seen, th, o), Tail(script))
  {
  }

  lemma WholePublish(db: Db, e: EventId, rest: seq<Delivery>, script: seq<Slot>)
    ensures var seen, o := Found(db, script), Head(script).outcome;
            Whole(db, Some(RelayPublish(e, rest)), script) ==
            if o.Done? then Whole(Commit(seen, Publish(e), o), Some(Continue(rest)), Tail(script))
            else (Commit(seen, Publish(e), o), Tail(script), false)
  {
  }

  lemma WholeOver(db: Db, script: seq<Slot>)
    ensures Whole(db, Some(RelayFetch), script) == (db, script, true)
  {
  }

  method Fail(plane: ControlPlane, job: Job, run: Run, ghost rest: seq<Delivery>) returns (result: Result<(), RunError>)
    modifies plane, run
    ensures var marked := MarkingFailed(old(run.Row()), old(plane.db.clock));
            Whole(old(plane.db),
                  Some(if marked.Success? then RelayFailWrite(job, marked.value, rest) else Continue(rest)),
                 old(plane.script)) ==
            Whole(plane.db, Some(if result.Success? then RelayPublish(job.event, rest) else Continue(rest)),
                plane.script)
    ensures run.status == if old(run.status) == Applying then Failed else old(run.status)
    ensures result.Success? <==> old(run.status) == Applying && Ok(old(plane.script), 0) && Ok(old(plane.script), 1)
  {
    hide Whole;
    var marked := run.MarkFailed(plane.db.clock);
    if marked.Failure? {
      return Failure(marked.error);
    }
    WholeCall(plane.db, RelayFailWrite(job, run.Row(), rest), plane.script);
    var updated := plane.Update(run);
    if updated.Failure? {
      return Failure(updated.error);
    }
    WholeCall(plane.db, RelayFailUnlock(job.(run := run.id), rest), plane.script);
    result := plane.Unlock(job.workspace, run.id);
  }

  lemma WholeClaim(db: Db, job: Job, rest: seq<Delivery>, script: seq<Slot>)
    ensures var seen, o := Found(db, script), Head(script).outcome;
            Whole(db, Some(RelayClaim(job, rest)), script) ==
            Whole(Commit(seen, StartApplying(job.run, job.workspace), o),
                 Some(if !o.Done? then Continue(rest)
                      else if HasStatus(seen, job.run, Queued) then RelayLoad(job, rest)
                      else RelayPublish(job.event, rest)),
                 Tail(script))
  {
    WholeCall(db, RelayClaim(job, rest), script);
  }

  lemma WholeLoad(db: Db, job: Job, rest: seq<Delivery>, script: seq<Slot>)
    ensures var seen, o := Found(db, script), Head(script).outcome;
            Whole(db, Some(RelayLoad(job, rest)), script) ==
            Whole(seen,
                 Some(if o.Done? && job.run in seen.runs then RelayResolve(job, seen.runs[job.run], rest)
                     else Continue(rest)),
                 Tail(script))
  {
    WholeCall(db, RelayLoad(job, rest), script);
  }

  lemma WholeResolve(db: Db, job: Job, row: RunRow, rest: seq<Delivery>, script: seq<Slot>)
    ensures var seen, o := Found(db, script), Head(script).outcome;
            Whole(db, Some(RelayResolve(job, row, rest)), script) ==
            Whole(seen,
                 Some(if o.Done? then RelayDispatch(job, rest)
                      else if o.Missing? && MarkingFailed(row, seen.clock).Success? then
                        RelayFailWrite(job, MarkingFailed(row, seen.clock).value, rest)
                      else Continue(rest)),
                 Tail(script))
  {
    WholeCall(db, RelayResolve(job, row, rest), script);
  }

  lemma WholeDispatch(db: Db, job: Job, rest: seq<Delivery>, script: seq<Slot>)
    ensures var seen, o := Found(db, script), Head(script).outcome;
            Whole(db, Some(RelayDispatch(job, rest)), script) ==
            Whole(Commit(seen, Assign(job.run), o),
                 Some(if o.Done? then RelayPublish(job.event, rest) else if o.NoWorker? then RelayRevert(job, rest)
                     else Continue(rest)),
                 Tail(script))
  {
    WholeCall(db, RelayDispatch(job, rest), script);
  }

  lemma WholeRevert(db: Db, job: Job, rest: seq<Delivery>, script: seq<Slot>)
    ensures var seen, o := Found(db, script), Head(script).outcome;
            Whole(db, Some(RelayRevert(job, rest)), script) ==
            Whole(Commit(seen, Call.RevertToQueued(job.run), o), Some(Continue(rest)), Tail(script))
  {
    WholeCall(db, RelayRevert(job, rest), script);
  }

  /** RunDispatchService.HandleEvent for a RunQueued event; an error leaves the event to be delivered again. */
  method HandleEvent(plane: ControlPlane, job: Job, ghost rest: seq<Delivery>) returns (result: Result<(), RunError>)
    modifies plane
    ensures Whole(old(plane.db), Some(RelayClaim(job, rest)), old(plane.script)) ==
            Whole(plane.db, Some(if result.Success? then RelayPublish(job.event, rest) else Continue(rest)),
                plane.script)
  {
    hide Whole, Commit, Found, HasStatus, Continue, MarkingFailed, Tail, Head;
    WholeClaim(plane.db, job, rest, plane.script);
    var started := plane.TryStartApplying(job.run, job.workspace);
    if started.Failure? {
      return Failure(started.error);
    }
    if !started.value {
      return Success(());
    }

    WholeLoad(plane.db, job, rest, plane.script);
    var loaded := plane.GetByID(job.run);
    if loaded.Failure? {
      return Failure(loaded.error);
    }
    var run := loaded.value;
    WholeResolve(plane.db, job, run.Row(), rest, plane.script);
    var resolved := plane.ResolveInputs();
    if resolved.Failure? {
      return Failure(resolved.error);
    }
    if !resolved.value {
      result := Fail(plane, job, run, rest);
      return;
    }

    WholeDispatch(plane.db, job, rest, plane.script);
    var dispatched := plane.Dispatch(job.run);
    if dispatched.Failure? {
      return Failure(dispatched.error);
    }
    if dispatched.value {
      return Success(());
    }
    WholeRevert(plane.db, job, rest, plane.script);
    var reverted := plane.RevertToQueued(job.run);
    if reverted.Failure? {
      return Failure(reverted.error);
    }
    result := Failure(NoWorkerAvailable);
  }

  /** The combined handler: the audit entry first, then the dispatch. */
  method Handle(plane: ControlPlane, e: Delivery, ghost rest: seq<Delivery>) returns (result: Result<(), RunError>)
    modifies plane
    ensures Whole(old(plane.db), Some(RelayRecord(e, rest)), old(plane.script)) ==
            Whole(plane.db, Some(if result.Success? then RelayPublish(e.id, rest) else Continue(rest)), plane.script)
  {
    hide Whole;
    WholeCall(plane.db, RelayRecord(e, rest), plane.script);
    var recorded := plane.RecordEntry(e.id);
    if recorded.Failure? {
      return Failure(recorded.error);
    }
    if !e.body.RunQueued? {
      return Success(());
    }
    result := HandleEvent(plane, Job(e.id, e.body.run, e.body.workspace), rest);
  }

  /** Fails exactly when the batch cannot be fetched or a handled event cannot be marked. */
  method RelayBatch(plane: ControlPlane) returns (result: Result<(), RunError>)
    modifies plane
    ensures var found, o := Found(old(plane.db), old(plane.script)), Head(old(plane.script)).outcome;
            var script := Tail(old(plane.script));
            && (plane.db, plane.script) == Play(found, After(found, RelayFetch, o), script)
            && (result.Success? <==>
                  o.Fetched? && IsBatch(found, o.batch) && Whole(found, After(found, RelayFetch, o), script).2)
  {
    hide Play, Whole;
    var fetched := plane.FetchUnpublished();
    PlayOver(plane.db, plane.script);
    if fetched.Failure? {
      return Failure(fetched.error);
    }
    var events := fetched.value;
    WholePlays(plane.db, Some(Continue(events)), plane.script);
    result := RelayAll(plane, events);
  }

  method RelayAll(plane: ControlPlane, events: seq<Delivery>) returns (result: Result<(), RunError>)
    modifies plane
    ensures (plane.db, plane.script, result.Success?) == Whole(old(plane.db), Some(Continue(events)), old(plane.script))
  {
    for i := 0 to |events|
      invariant Whole(old(plane.db), Some(Continue(events)), old(plane.script)) ==
                Whole(plane.db, Some(Continue(events[i..])), plane.script)
    {
      hide Whole, Found, Commit, Head, Tail;
      assert events[i..][0] == events[i] && events[i..][1..] == events[i + 1..];
      var handled := Handle(plane, events[i], events[i + 1..]);
      if handled.Failure? {
        continue;
      }
      WholePublish(plane.db, events[i].id, events[i + 1..], plane.script);
      var published := plane.MarkPublished(events[i].id);
      if published.Failure? {
        return Failure(published.error);
      }
    }
    assert events[|events|..] == [];
    WholeOver(plane.db, plane.script);
    result := Success(());
  }
}
