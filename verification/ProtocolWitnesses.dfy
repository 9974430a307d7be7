/**
 Runs of the protocol that show which stronger promises it does not make. Each lemma returns
 a schedule and says what the state it reaches looks like.
 */
module ProtocolWitnesses {
  import opened Wrappers
  import opened RunDomain
  import opened Tables
  import opened Protocol
  import opened ProtocolInvariants
  import opened ProtocolSafety
  import opened ProtocolDelivery
  import opened ProtocolPermanence

  /** Exec takes its moves from the front; a schedule under construction grows at the back. */
  lemma {:induction false} ExecAppend(s: State, moves: seq<Move>, m: Move)
    ensures Exec(s, moves + [m]) == Next(Exec(s, moves), m)
    decreases |moves|
  {
    if moves == [] {
      assert (moves + [m])[1..] == [];
    } else {
      assert (moves + [m])[1..] == moves[1..] + [m];
      ExecAppend(Next(s, moves[0]), moves[1..], m);
    }
  }

  lemma Go(moves: seq<Move>, s: State, m: Move) returns (moves': seq<Move>, s': State)
    requires Exec(INITIAL, moves) == s
    ensures Exec(INITIAL, moves') == s' && s' == Next(s, m)
  {
    ExecAppend(INITIAL, moves, m);
    moves', s' := moves + [m], Next(s, m);
  }

  lemma Fetch(moves: seq<Move>, s: State, t: ThreadId, batch: seq<EventId>, ds: seq<Delivery>)
      returns (moves': seq<Move>, s': State)
    requires Exec(INITIAL, moves) == s && t in s.threads && s.threads[t] == RelayFetch && IsBatch(s.db, batch)
    requires |ds| == |batch| && forall i :: 0 <= i < |ds| ==> ds[i] == Delivery(batch[i], s.db.outbox[batch[i]].body)
    ensures Exec(INITIAL, moves') == s' && s' == s.(threads := s.threads[t := Continue(ds)])
  {
    moves', s' := Go(moves, s, Step(t, Fetched(batch)));
    assert Deliveries(s.db, batch) == ds;
  }

  /** The next run is queued in workspace 0 and holds its lock. */
  lemma Trigger(moves: seq<Move>, s: State) returns (moves': seq<Move>, s': State)
    requires Exec(INITIAL, moves) == s && 0 !in s.threads && 0 !in s.db.locks
    ensures Exec(INITIAL, moves') == s'
    ensures s' == State(Creating(s.db.(locks := s.db.locks[0 := s.nextRun]), NewRun(s.nextRun, 0)), s.threads,
            s.nextRun + 1)
  {
    hide IsBatch, Deliveries, StaleApplying, Judging, Canceling;
    var ms, st := Go(moves, s, StartTrigger(0, 0));
    ms, st := Go(ms, st, Step(0, Done));
    moves', s' := Go(ms, st, Step(0, Done));
    assert s'.threads == s.threads;
  }

  /** A relay whose next event is the RunQueued event of a queued run, up to the dispatch. */
  lemma Claim(moves: seq<Move>, s: State, t: ThreadId, job: Job, rest: seq<Delivery>)
      returns (moves': seq<Move>, s': State)
    requires Exec(INITIAL, moves) == s && t in s.threads && HasStatus(s.db, job.run, Queued)
    requires s.threads[t] == RelayRecord(Delivery(job.event, RunQueued(job.run, job.workspace)), rest)
    ensures Exec(INITIAL, moves') == s'
    ensures s' == State(Claiming(Recording(s.db, job.event), job.run, job.workspace),
                        s.threads[t := RelayDispatch(job, rest)], s.nextRun)
  {
    hide IsBatch, Deliveries, StaleApplying, Judging, Canceling;
    var ms, st := Go(moves, s, Step(t, Done));
    assert st.threads[t] == RelayClaim(job, rest);
    ms, st := Go(ms, st, Step(t, Done));
    assert st.threads[t] == RelayLoad(job, rest);
    ms, st := Go(ms, st, Step(t, Done));
    assert st.threads[t].RelayResolve?;
    moves', s' := Go(ms, st, Step(t, Done));
    assert s'.threads == s.threads[t := RelayDispatch(job, rest)];
  }

  /** Events that are no RunQueued event pass through a relay. */
  lemma Pass(moves: seq<Move>, s: State, t: ThreadId, d: Delivery, rest: seq<Delivery>)
      returns (moves': seq<Move>, s': State)
    requires Exec(INITIAL, moves) == s && t in s.threads && s.threads[t] == RelayRecord(d, rest) && !d.body.RunQueued?
    ensures Exec(INITIAL, moves') == s'
    ensures s' == State(Publishing(Recording(s.db, d.id), d.id), s.threads[t := Continue(rest)], s.nextRun)
  {
    hide IsBatch, Deliveries, StaleApplying, Judging, Canceling;
    var ms, st := Go(moves, s, Step(t, Done));
    assert st.threads[t] == RelayPublish(d.id, rest);
    moves', s' := Go(ms, st, Step(t, Done));
    assert s'.threads == s.threads[t := Continue(rest)];
  }

  /** A cancel reads the run and means to store it canceled. */
  lemma BeginCancel(moves: seq<Move>, s: State, t: ThreadId, r: RunId, w: WorkspaceId)
      returns (moves': seq<Move>, s': State)
    requires Exec(INITIAL, moves) == s && t !in s.threads && Live(s.db, w, r)
    ensures Exec(INITIAL, moves') == s'
    ensures s' == s.(threads := s.threads[t := CancelWrite(Canceling(s.db.runs[r], s.db.clock).value)])
  {
    hide IsBatch, Deliveries, StaleApplying, Judging;
    var ms, st := Go(moves, s, StartCancel(t, r, w));
    moves', s' := Go(ms, st, Step(t, Done));
    assert s'.threads == s.threads[t := CancelWrite(Canceling(s.db.runs[r], s.db.clock).value)];
  }

  /** The cancel goes through to its end. */
  lemma EndCancel(moves: seq<Move>, s: State, t: ThreadId, row: RunRow) returns (moves': seq<Move>, s': State)
    requires Exec(INITIAL, moves) == s && t in s.threads && s.threads[t] == CancelWrite(row)
    ensures Exec(INITIAL, moves') == s'
    ensures s' == State(Unlocking(Updating(s.db, row), row.workspace, row.id), s.threads - {t}, s.nextRun)
  {
    hide IsBatch, Deliveries, StaleApplying, Judging, Canceling, Updating, Unlocking;
    var ms, st := Go(moves, s, Step(t, Done));
    assert st.threads[t] == CancelUnlock(row.id, row.workspace);
    ms, st := Go(ms, st, Step(t, Done));
    assert st.threads[t] == CancelNotify(row.id);
    moves', s' := Go(ms, st, Step(t, Done));
    assert s'.threads == s.threads - {t};
  }

  /** No worker takes the job: the dispatcher puts the run back and turns to its next event. */
  lemma PutBack(moves: seq<Move>, s: State, t: ThreadId, job: Job, rest: seq<Delivery>)
      returns (moves': seq<Move>, s': State)
    requires Exec(INITIAL, moves) == s && t in s.threads && s.threads[t] == RelayDispatch(job, rest)
    ensures Exec(INITIAL, moves') == s'
    ensures s' == State(Reverting(s.db, job.run), s.threads[t := Continue(rest)], s.nextRun)
  {
    hide IsBatch, Deliveries, StaleApplying, Judging, Canceling, Reverting;
    var ms, st := Go(moves, s, Step(t, NoWorker));
    assert st.threads[t] == RelayRevert(job, rest);
    moves', s' := Go(ms, st, Step(t, Done));
    assert s'.threads == s.threads[t := Continue(rest)];
  }

  lemma Dispatch(moves: seq<Move>, s: State, t: ThreadId, job: Job, rest: seq<Delivery>)
      returns (moves': seq<Move>, s': State)
    requires Exec(INITIAL, moves) == s && t in s.threads && s.threads[t] == RelayDispatch(job, rest)
    ensures Exec(INITIAL, moves') == s'
    ensures s' == State(Assigning(s.db, job.run), s.threads[t := RelayPublish(job.event, rest)], s.nextRun)
  {
    hide IsBatch, Deliveries, StaleApplying, Judging, Canceling;
    moves', s' := Go(moves, s, Step(t, Done));
  }

  lemma Publish(moves: seq<Move>, s: State, t: ThreadId, e: EventId, rest: seq<Delivery>)
      returns (moves': seq<Move>, s': State)
    requires Exec(INITIAL, moves) == s && t in s.threads && s.threads[t] == RelayPublish(e, rest)
    ensures Exec(INITIAL, moves') == s'
    ensures s' == State(Publishing(s.db, e), s.threads[t := Continue(rest)], s.nextRun)
  {
    hide IsBatch, Deliveries, StaleApplying, Judging, Canceling;
    moves', s' := Go(moves, s, Step(t, Done));
  }

  /** A relay finds the run of its RunQueued event taken: it goes straight to publishing the event. */
  lemma Refused(moves: seq<Move>, s: State, t: ThreadId, job: Job, rest: seq<Delivery>)
      returns (moves': seq<Move>, s': State)
    requires Exec(INITIAL, moves) == s && t in s.threads && !HasStatus(s.db, job.run, Queued)
    requires s.threads[t] == RelayRecord(Delivery(job.event, RunQueued(job.run, job.workspace)), rest)
    ensures Exec(INITIAL, moves') == s'
    ensures s' == State(Recording(s.db, job.event), s.threads[t := RelayPublish(job.event, rest)], s.nextRun)
  {
    hide IsBatch, Deliveries, StaleApplying, Judging, Canceling;
    var ms, st := Go(moves, s, Step(t, Done));
    assert st.threads[t] == RelayClaim(job, rest);
    moves', s' := Go(ms, st, Step(t, Done));
    assert s'.threads == s.threads[t := RelayPublish(job.event, rest)];
  }

  const AFTER_TRIGGER: State :=
    State(
      Db(map[0 := NewRun(0, 0)], map[0 := 0], [Event(RunQueued(0, 0), 0)], {}, [], [], 0),
      map[], 1)

  lemma TriggerZero() returns (moves: seq<Move>)
    ensures Exec(INITIAL, moves) == AFTER_TRIGGER
  {
    var s;
    moves, s := Trigger([], INITIAL);
    assert s.threads == map[];
  }

  const JOB_ZERO := Job(0, 0, 0)

  lemma OneEvent(db: Db)
    requires |db.outbox| == 1 && db.published == {}
    ensures IsBatch(db, [0])
  {
  }

  lemma ContinueIs(ds: seq<Delivery>)
    requires ds != []
    ensures Continue(ds) == RelayRecord(ds[0], ds[1..])
  {
  }

  /** A relay has fetched event 0. */
  lemma FetchZero(moves: seq<Move>, s: State, t: ThreadId) returns (moves': seq<Move>, s': State)
    requires Exec(INITIAL, moves) == s && s.db == AFTER_TRIGGER.db && t !in s.threads
    ensures Exec(INITIAL, moves') == s'
    ensures s' == s.(threads := s.threads[t := RelayRecord(Delivery(0, RunQueued(0, 0)), [])])
  {
    var ms, st := Go(moves, s, StartRelay(t));
    OneEvent(st.db);
    hide *;
    var ds := [Delivery(0, RunQueued(0, 0))];
    assert ds[1..] == [];
    assert Continue(ds) == RelayRecord(ds[0], ds[1..]) by { ContinueIs(ds); }
    moves', s' := Fetch(ms, st, t, [0], ds);
    assert s'.threads == s.threads[t := RelayRecord(Delivery(0, RunQueued(0, 0)), [])];
  }

  /** Run 0 once claimed at time 0, with its RunQueued event recorded. */
  const CLAIMED_DB: Db :=
    Db(map[0 := RunRow(0, 0, Applying, None, Some(0), None)], map[0 := 0],
       [Event(RunQueued(0, 0), 0), Event(RunApplying(0, 0), 0)], {}, [0], [], 0)

  lemma ClaimZero(moves: seq<Move>, s: State, t: ThreadId) returns (moves': seq<Move>, s': State)
    requires Exec(INITIAL, moves) == s && s.db == AFTER_TRIGGER.db && t !in s.threads
    ensures Exec(INITIAL, moves') == s'
    ensures s' == State(CLAIMED_DB, s.threads[t := RelayDispatch(JOB_ZERO, [])], s.nextRun)
  {
    hide Exec, Next;
    var ms, st := FetchZero(moves, s, t);
    moves', s' := Claim(ms, st, t, JOB_ZERO, []);
    assert s'.threads == s.threads[t := RelayDispatch(JOB_ZERO, [])];
  }

  /**
   Two relays can lose a run: B sees it claimed and means to publish its event, A finds no
   worker and puts it back, B publishes. The run is queued and forgotten.
   */
  lemma TwoRelaysLoseARun() returns (moves: seq<Move>)
    ensures HasStatus(Exec(INITIAL, moves).db, 0, Queued) && Forgotten(Exec(INITIAL, moves), 0)
  {
    hide Exec, Next, IsBatch;
    var ms := TriggerZero();
    var s;
    ms, s := FetchZero(ms, AFTER_TRIGGER, 2);
    ms, s := ClaimZero(ms, s, 1);
    ms, s := Refused(ms, s, 2, JOB_ZERO, []);
    ms, s := PutBack(ms, s, 1, JOB_ZERO, []);
    moves, s := Publish(ms, s, 2, 0, []);
    assert QueuedAt(s.db.outbox, 0, 0) && 0 in s.db.published;
    assert s.threads == map[1 := RelayFetch, 2 := RelayFetch];
  }

  /** The run is assigned and its relay is about to publish. */
  lemma AssignZero() returns (moves: seq<Move>, s: State)
    ensures Exec(INITIAL, moves) == s
    ensures s == State(Assigning(CLAIMED_DB, 0), map[1 := RelayPublish(0, [])], 1)
  {
    hide IsBatch, Deliveries, StaleApplying, Judging, Canceling;
    var ms := TriggerZero();
    ms, s := ClaimZero(ms, AFTER_TRIGGER, 1);
    moves, s := Go(ms, s, Step(1, Done));
    assert s.threads == map[1 := RelayPublish(0, [])];
  }

  /**
   A terminal status may change into another: a cancel that has read the run as applying
   overwrites the worker's report that came in between.
   */
  lemma TerminalStatusCanChange() returns (moves: seq<Move>, last: Move)
    ensures HasStatus(Exec(INITIAL, moves).db, 0, Applied)
    ensures HasStatus(Next(Exec(INITIAL, moves), last).db, 0, Canceled)
  {
    hide Exec, IsBatch, Deliveries, StaleApplying;
    var ms, s := AssignZero();
    ms, s := BeginCancel(ms, s, 2, 0, 0);
    moves, s := ReportApplied(ms, s, 3, 0, 0);
    last := Step(2, Done);
  }

  /** A report that the run has been applied is read and stored. */
  lemma ReportApplied(moves: seq<Move>, s: State, t: ThreadId, r: RunId, w: WorkspaceId)
      returns (moves': seq<Move>, s': State)
    requires Exec(INITIAL, moves) == s && t !in s.threads && HasStatus(s.db, r, Applying) && s.db.runs[r].id == r
    ensures Exec(INITIAL, moves') == s'
    ensures s' == State(Updating(s.db, MarkingApplied(s.db.runs[r], s.db.clock).value),
                        s.threads[t := ReportUnlock(r, w)], s.nextRun)
  {
    hide IsBatch, Deliveries, StaleApplying, Updating;
    var ms, st := Go(moves, s, StartReport(t, r, w, SaysApplied, None));
    ms, st := Go(ms, st, Step(t, Done));
    assert st.threads[t] == ReportWrite(MarkingApplied(s.db.runs[r], s.db.clock).value, w);
    moves', s' := Go(ms, st, Step(t, Done));
    assert s'.threads == s.threads[t := ReportUnlock(r, w)];
  }

  /** Run 0 canceled after its assignment, and the workspace free again. */
  const CANCELED_DB: Db :=
    Db(map[0 := RunRow(0, 0, Canceled, None, Some(0), Some(0))], map[],
       [Event(RunQueued(0, 0), 0), Event(RunApplying(0, 0), 0), Event(RunCanceled(0, 0), 0)], {0}, [0], [0], 0)

  lemma CancelZero() returns (moves: seq<Move>, s: State)
    ensures Exec(INITIAL, moves) == s && s == State(CANCELED_DB, map[1 := RelayFetch], 1)
  {
    hide Exec, Next, IsBatch;
    var ms;
    ms, s := AssignZero();
    ms, s := Publish(ms, s, 1, 0, []);
    ms, s := BeginCancel(ms, s, 2, 0, 0);
    moves, s := EndCancel(ms, s, 2, RunRow(0, 0, Canceled, None, Some(0), Some(0)));
    assert s.threads == map[1 := RelayFetch];
    assert s.db.locks == map[];
    assert s.db == CANCELED_DB;
  }

  const RETRIGGERED_OUTBOX: seq<Event> :=
    [Event(RunQueued(0, 0), 0), Event(RunApplying(0, 0), 0), Event(RunCanceled(0, 0), 0), Event(RunQueued(1, 0), 0)]

  const BACKLOG: seq<Delivery> :=
    [Delivery(1, RunApplying(0, 0)), Delivery(2, RunCanceled(0, 0)), Delivery(3, RunQueued(1, 0))]

  /** Run 1 is queued in the workspace run 0 has left, and the relay has fetched the backlog. */
  lemma RetriggerZero() returns (moves: seq<Move>, s: State)
    ensures Exec(INITIAL, moves) == s && s.nextRun == 2
    ensures s.db == CANCELED_DB.(
                      runs := CANCELED_DB.runs[1 := NewRun(1, 0)], locks := map[0 := 1], outbox := RETRIGGERED_OUTBOX)
    ensures s.threads == map[1 := RelayRecord(BACKLOG[0], BACKLOG[1..])]
  {
    hide Exec, Next, IsBatch;
    var ms;
    ms, s := CancelZero();
    ms, s := Trigger(ms, s);
    assert s.db.outbox == RETRIGGERED_OUTBOX;
    LaterBatch(s.db);
    moves, s := Fetch(ms, s, 1, [1, 2, 3], BACKLOG);
    assert s.threads == map[1 := RelayRecord(BACKLOG[0], BACKLOG[1..])];
  }

  /** The events before the RunQueued event of run 1 have passed. */
  lemma PassBacklog() returns (moves: seq<Move>, s: State)
    ensures Exec(INITIAL, moves) == s
    ensures s.db.jobs == [0] && s.db.runs == CANCELED_DB.runs[1 := NewRun(1, 0)]
    ensures 1 in s.threads && s.threads[1] == RelayRecord(Delivery(3, RunQueued(1, 0)), [])
  {
    hide Exec, Next;
    var ms;
    ms, s := RetriggerZero();
    ms, s := Pass(ms, s, 1, BACKLOG[0], BACKLOG[1..]);
    assert BACKLOG[1..] == [BACKLOG[1], BACKLOG[2]] && BACKLOG[1..][1..] == [BACKLOG[2]];
    moves, s := Pass(ms, s, 1, BACKLOG[1], [BACKLOG[2]]);
    assert [BACKLOG[2]][1..] == [];
  }

  /**
   Two workers may be busy in one workspace: canceling frees the lock before the worker has
   stopped, so the next run is assigned while no report of the first has arrived.
   */
  lemma TwoWorkersOneWorkspace() returns (moves: seq<Move>)
    ensures var db := Exec(INITIAL, moves).db;
            db.jobs == [0, 1] && RunAt(db, 0, 0) && HasStatus(db, 0, Canceled) && Live(db, 0, 1)
  {
    hide Exec, Next;
    var ms, s := PassBacklog();
    ms, s := Claim(ms, s, 1, Job(3, 1, 0), []);
    moves, s := Dispatch(ms, s, 1, Job(3, 1, 0), []);
  }

  lemma LaterBatch(db: Db)
    requires |db.outbox| == 4 && db.published == {0}
    requires forall i :: 0 <= i < 4 ==> db.outbox[i].occurredAt == 0
    ensures IsBatch(db, [1, 2, 3])
  {
    forall e: nat | e < |db.outbox| && e !in db.published
      ensures e in [1, 2, 3]
    {
      assert e == 1 || e == 2 || e == 3;
    }
  }

  const TWICE_CLAIMED: seq<Event> :=
    [Event(RunQueued(0, 0), 0), Event(RunApplying(0, 0), 0), Event(RunApplying(0, 0), 1)]

  /** Run 0 once put back for want of a worker, one tick later. */
  const PUT_BACK_DB: Db :=
    Db(map[0 := NewRun(0, 0)], map[0 := 0], [Event(RunQueued(0, 0), 0), Event(RunApplying(0, 0), 0)], {}, [0], [], 1)

  lemma PutBackZero() returns (moves: seq<Move>, s: State)
    ensures Exec(INITIAL, moves) == s && s == State(PUT_BACK_DB, map[1 := RelayFetch], 1)
  {
    hide Exec, IsBatch;
    var ms := TriggerZero();
    ms, s := ClaimZero(ms, AFTER_TRIGGER, 1);
    ms, s := PutBack(ms, s, 1, JOB_ZERO, []);
    moves, s := Go(ms, s, Tick);
    assert s.threads == map[1 := RelayFetch];
  }

  /** Run 0 has been claimed, put back, and claimed again one tick later. */
  lemma ReclaimZero() returns (moves: seq<Move>, s: State)
    ensures Exec(INITIAL, moves) == s && 2 !in s.threads && s.db.clock == 1
    ensures s.db.runs == map[0 := RunRow(0, 0, Applying, None, Some(1), None)]
    ensures s.db.outbox == TWICE_CLAIMED
  {
    hide Exec, IsBatch, Next;
    var ms;
    ms, s := PutBackZero();
    FirstTwo(s.db);
    var ds := [Delivery(0, RunQueued(0, 0)), Delivery(1, RunApplying(0, 0))];
    ms, s := Fetch(ms, s, 1, [0, 1], ds);
    assert ds[1..] == [ds[1]];
    moves, s := Claim(ms, s, 1, JOB_ZERO, [ds[1]]);
  }

  lemma FirstTwo(db: Db)
    requires |db.outbox| == 2 && db.published == {}
    requires forall i :: 0 <= i < 2 ==> db.outbox[i].occurredAt == 0
    ensures IsBatch(db, [0, 1])
  {
    forall e: nat | e < |db.outbox| && e !in db.published
      ensures e in [0, 1]
    {
      assert e == 0 || e == 1;
    }
  }

  lemma StaleTwice()
    ensures StaleApplying(TWICE_CLAIMED, 1) == [Candidate(0, 0)]
  {
    var outbox := TWICE_CLAIMED;
    assert outbox[..2][..1][..0] == [];
    assert outbox[..2][..1] == [Event(RunQueued(0, 0), 0)];
    assert StaleApplying(outbox[..2][..1], 1) == [];
    assert StaleApplying(outbox[..2], 1) == [Candidate(0, 0)];
  }

  lemma ApplyingRow(db: Db, r: RunId)
    requires r in db.runs && db.runs[r].status == Applying
    ensures HasStatus(db, r, Applying)
  {
  }

  lemma SweepStarts(s: State, t: ThreadId, cutoff: Time)
    requires t !in s.threads
    ensures var s1 := Next(s, StartSweep(t, cutoff));
            s1.db == s.db && t in s1.threads && s1.threads[t] == SweepFind(cutoff)
  {
  }

  /** The first two steps of a sweep error its first candidate, if it is applying. */
  lemma SweepErrors(s: State, t: ThreadId, cutoff: Time, r: RunId)
    requires t in s.threads && s.threads[t] == SweepFind(cutoff) && HasStatus(s.db, r, Applying)
    requires StaleApplying(s.db.outbox, cutoff) != [] && StaleApplying(s.db.outbox, cutoff)[0].run == r
    ensures HasStatus(Next(Next(s, Step(t, Done)), Step(t, Done)).db, r, Errored)
  {
    hide StaleApplying, IsBatch, Deliveries, Judging, Canceling, AfterHandler;
    var s1 := Next(s, Step(t, Done));
    assert s1.db == s.db && s1.threads[t] == SweepMark(StaleApplying(s.db.outbox, cutoff));
  }

  /**
   The reaper may error a run whose current attempt is young: the RunApplying event of an
   attempt that was put back still makes it a candidate.
   */
  lemma ReaperTakesYoungAttempt() returns (moves: seq<Move>, cutoff: Time)
    ensures var s := Exec(INITIAL, moves);
            && 2 in s.threads && s.threads[2] == SweepFind(cutoff)
            && HasStatus(s.db, 0, Applying) && s.db.runs[0].startedAt.Some? && s.db.runs[0].startedAt.value >= cutoff
            && HasStatus(Next(Next(s, Step(2, Done)), Step(2, Done)).db, 0, Errored)
  {
    hide *;
    var ms, ms0 := ReclaimZero();
    cutoff := 1;
    var s;
    moves, s := Go(ms, ms0, StartSweep(2, cutoff));
    assert HasStatus(ms0.db, 0, Applying) by { ApplyingRow(ms0.db, 0); }
    SweepStarts(ms0, 2, cutoff);
    StaleTwice();
    SweepErrors(s, 2, cutoff, 0);
  }

  /** A failed unlock leaks the lock: the run is over, nobody is in flight, the workspace is locked. */
  lemma FailedUnlockLeaks() returns (moves: seq<Move>)
    ensures Exec(INITIAL, moves).threads == map[] && Leaked(Exec(INITIAL, moves), 0, 0)
  {
    hide IsBatch, Deliveries, StaleApplying, Judging;
    var ms := TriggerZero();
    var s;
    ms, s := BeginCancel(ms, AFTER_TRIGGER, 2, 0, 0);
    ms, s := Go(ms, s, Step(2, Done));
    moves, s := Go(ms, s, Step(2, Fault));
    assert s.threads == map[];
  }
}
