/** How many workers can be busy in one workspace, and what makes it more than one. */
module ProtocolWorkers {
  import opened Wrappers
  import opened RunDomain
  import opened Tables
  import opened Protocol
  import opened ProtocolInvariants
  import opened ProtocolSafety

  /** The log holds an end of the run that its worker reported. */
  ghost predicate Reported(outbox: seq<Event>, r: RunId) {
    exists e: EventId | e < |outbox| :: (outbox[e].body.RunApplied? || outbox[e].body.RunFailed?) &&
        outbox[e].body.run == r
  }

  /** A worker has been given the run and has not reported its end. */
  ghost predicate Busy(db: Db, r: RunId) {
    r in db.jobs && !Reported(db.outbox, r)
  }

  /** The run is over, and its worker has not been heard of. */
  ghost predicate Adrift(db: Db, r: RunId) {
    Busy(db, r) && Finished(db, r)
  }

  /**
   The moves that set a worker adrift: a cancel of an assigned run is stored, the reaper errors
   one, or a run that has ended between its claim and its dispatch is assigned all the same.
   */
  ghost predicate SetsAdrift(s: State, m: Move, r: RunId) {
    && m.Step? && m.outcome.Done? && m.t in s.threads
    && match CallOf(s.threads[m.t])
       case Update(row) => row.id == r && row.status == Canceled && r in s.db.jobs && !Finished(s.db, r)
       case MarkErrored(run) => run == r && r in s.db.jobs && HasStatus(s.db, r, Applying)
       case Assign(run) => run == r && Finished(s.db, r) && !Reported(s.db.outbox, r)
       case _ => false
  }

  lemma {:induction false} ReportedIsTerminal(outbox: seq<Event>, r: RunId)
    requires Reported(outbox, r)
    ensures LastTerminal(outbox, r).Some?
  {
    var last := |outbox| - 1;
    var body := outbox[last].body;
    if !(body.TerminalStatus().Some? && body.run == r) {
      var e: EventId :| e < |outbox| && (outbox[e].body.RunApplied? || outbox[e].body.RunFailed?) &&
          outbox[e].body.run == r;
      assert outbox[..last][e] == outbox[e];
      ReportedIsTerminal(outbox[..last], r);
    }
  }

  lemma ReportedIsOver(db: Db, r: RunId)
    requires LogAgrees(db) && r in db.runs && Reported(db.outbox, r)
    ensures Finished(db, r)
  {
    ReportedIsTerminal(db.outbox, r);
    assert RowAgrees(db.outbox, r, db.runs[r]);
  }

  lemma ReportedAppended(outbox: seq<Event>, last: Event, r: RunId)
    ensures Reported(outbox + [last], r) <==>
            Reported(outbox, r) || ((last.body.RunApplied? || last.body.RunFailed?) && last.body.run == r)
  {
    if Reported(outbox, r) {
      var e: EventId :| e < |outbox| && (outbox[e].body.RunApplied? || outbox[e].body.RunFailed?) &&
          outbox[e].body.run == r;
      assert (outbox + [last])[e] == outbox[e];
    }
    assert (outbox + [last])[|outbox|] == last;
  }

  /** The effect of one call on what makes a run adrift. */
  lemma CallReports(db: Db, call: Call, r: RunId)
    requires CallOk(db, call)
    ensures Reported(Apply(db, call).outbox, r) <==>
            Reported(db.outbox, r) || (call.Update? && call.row.id == r && call.row.status in {Applied, Failed})
    ensures r in Apply(db, call).jobs <==> r in db.jobs || call == Assign(r)
    ensures r in db.runs ==>
              (Finished(Apply(db, call), r) <==>
               || Finished(db, r)
               || (call.Update? && call.row.id == r)
               || (call == MarkErrored(r) && HasStatus(db, r, Applying)))
    ensures r !in db.runs ==> !Finished(Apply(db, call), r)
  {
    hide Reported;
    var db' := Apply(db, call);
    if |db'.outbox| > |db.outbox| {
      ReportedAppended(db.outbox, db'.outbox[|db.outbox|], r);
      assert db'.outbox == db.outbox + [db'.outbox[|db.outbox|]];
    } else {
      assert db'.outbox == db.outbox;
    }
  }

  lemma AdriftRelies(s: State, t: ThreadId, r: RunId)
    requires Inv(s) && t in s.threads
    ensures CallOk(s.db, CallOf(s.threads[t]))
    ensures Reported(s.db.outbox, r) && r in s.db.runs ==> Finished(s.db, r)
    ensures r in s.db.jobs ==> r in s.db.runs
    ensures CallOf(s.threads[t]) == Assign(r) ==> r in s.db.runs && r !in s.db.jobs
  {
    hide Reported;
    ThreadCallOk(s.db, s.threads[t]);
    if Reported(s.db.outbox, r) && r in s.db.runs {
      ReportedIsOver(s.db, r);
    }
    if CallOf(s.threads[t]) == Assign(r) {
      assert Window(s.threads[t]) == Some(r);
    }
  }

  /** A move sets a worker adrift exactly when it is one of those three. */
  lemma SetAdriftExactly(s: State, m: Move, r: RunId)
    requires Inv(s) && !Adrift(s.db, r)
    ensures Adrift(Next(s, m).db, r) <==> SetsAdrift(s, m, r)
  {
    if m.Step? && m.t in s.threads {
      AdriftRelies(s, m.t, r);
      CallReports(s.db, CallOf(s.threads[m.t]), r);
      hide Inv, Reported, CallOf, Apply;
    } else {
      ReportedAppended(s.db.outbox, Event(Foreign, s.db.clock), r);
      hide Inv, Reported;
    }
  }

  /**
   Of two runs of one workspace that were assigned, at least one is over; of two whose workers are
   busy, one is adrift.
   */
  lemma OneOfTwoIsOver(moves: seq<Move>, w: WorkspaceId, r: RunId, r': RunId)
    requires var db := Exec(INITIAL, moves).db; r != r' && RunAt(db, r, w) && RunAt(db, r', w)
    ensures var db := Exec(INITIAL, moves).db;
            && (r in db.jobs && r' in db.jobs ==> Finished(db, r) || Finished(db, r'))
            && (Busy(db, r) && Busy(db, r') ==> Adrift(db, r) || Adrift(db, r'))
  {
    hide Reported;
    MutualExclusion(moves, w, r, r');
  }

  ghost predicate NoneAdrift(db: Db) {
    forall r :: !Adrift(db, r)
  }

  ghost predicate AlwaysNoneAdrift(s: State, moves: seq<Move>)
    decreases |moves|
  {
    NoneAdrift(s.db) && (moves != [] ==> AlwaysNoneAdrift(Next(s, moves[0]), moves[1..]))
  }

  ghost predicate NeverSetsAdrift(s: State, moves: seq<Move>)
    decreases |moves|
  {
    moves != [] ==> (forall r :: !SetsAdrift(s, moves[0], r)) && NeverSetsAdrift(Next(s, moves[0]), moves[1..])
  }

  lemma {:induction false} NoneAdriftExactly(s: State, moves: seq<Move>)
    requires Inv(s) && NoneAdrift(s.db)
    ensures AlwaysNoneAdrift(s, moves) <==> NeverSetsAdrift(s, moves)
    decreases |moves|
  {
    if moves != [] {
      hide Inv, Adrift, SetsAdrift, Next;
      NextKeepsInv(s, moves[0]);
      forall r
        ensures Adrift(Next(s, moves[0]).db, r) <==> SetsAdrift(s, moves[0], r)
      {
        SetAdriftExactly(s, moves[0], r);
      }
      if NoneAdrift(Next(s, moves[0]).db) {
        NoneAdriftExactly(Next(s, moves[0]), moves[1..]);
      }
    }
  }

  lemma {:induction false} LastNoneAdrift(s: State, moves: seq<Move>)
    requires AlwaysNoneAdrift(s, moves)
    ensures NoneAdrift(Exec(s, moves).db)
    decreases |moves|
  {
    if moves != [] {
      LastNoneAdrift(Next(s, moves[0]), moves[1..]);
    }
  }

  /** At most one worker is busy in a workspace, in every schedule in which none is set adrift. */
  lemma OneWorkerPerWorkspace(moves: seq<Move>, w: WorkspaceId, r: RunId, r': RunId)
    requires NeverSetsAdrift(INITIAL, moves)
    requires var db := Exec(INITIAL, moves).db; RunAt(db, r, w) && RunAt(db, r', w) && Busy(db, r) && Busy(db, r')
    ensures r == r'
  {
    hide Busy, Finished, NeverSetsAdrift, Exec;
    assert NoneAdrift(INITIAL.db) by { NobodyBusyFirst(); }
    assert Inv(INITIAL) by { FirstState(); }
    NoneAdriftExactly(INITIAL, moves);
    LastNoneAdrift(INITIAL, moves);
    if r != r' {
      OneOfTwoIsOver(moves, w, r, r');
    }
  }

  lemma NobodyBusyFirst()
    ensures NoneAdrift(INITIAL.db)
  {
  }

  lemma FirstState()
    ensures Inv(INITIAL)
  {
    ReachableInv([]);
  }
}
