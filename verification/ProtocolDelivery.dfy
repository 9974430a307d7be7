/**
 Whether a queued run is ever forgotten: which moves lose one, and that a lone relay makes
 none of them.
 */
module ProtocolDelivery {
  import opened Wrappers
  import opened RunDomain
  import opened Tables
  import opened Protocol
  import opened ProtocolInvariants
  import opened ProtocolSafety

  /** The RunQueued event of every queued run is still to be delivered. */
  ghost predicate Deliverable(db: Db) {
    forall r, e :: HasStatus(db, r, Queued) && QueuedAt(db.outbox, e, r) ==> e !in db.published
  }

  /**
   The moves that lose a queued run: putting a run back whose event another relay has
   published meanwhile, or publishing the event of a run another relay has put back meanwhile.
   */
  ghost predicate Loses(s: State, m: Move) {
    && m.Step? && m.outcome.Done? && m.t in s.threads
    && var th := s.threads[m.t];
       || (th.RelayRevert? && HasStatus(s.db, th.job.run, Applying) && th.job.event in s.db.published)
       || (th.RelayPublish? && th.id < |s.db.outbox| && s.db.outbox[th.id].body.RunQueued?
           && HasStatus(s.db, s.db.outbox[th.id].body.run, Queued))
  }

  /** A call leaves the RunQueued events as they are, except that a new run gets its own. */
  lemma QueuedAtKept(db: Db, call: Call, e: EventId, r: RunId)
    requires CallOk(db, call) && QueuedAt(Apply(db, call).outbox, e, r)
    ensures QueuedAt(db.outbox, e, r) || (e == |db.outbox| && call.Create? && call.row.id == r)
  {
  }

  lemma StepDelivers(s: State, t: ThreadId, o: Outcome, r: RunId, e: EventId)
    requires Inv(s) && Deliverable(s.db) && t in s.threads && !Loses(s, Step(t, o))
    requires var db := Next(s, Step(t, o)).db; HasStatus(db, r, Queued) && QueuedAt(db.outbox, e, r)
    ensures e !in Next(s, Step(t, o)).db.published
  {
    hide Inv, LogOk, LogAgrees, RowsOk;
    var th, call := s.threads[t], CallOf(s.threads[t]);
    StepRelies(s, t);
    ThreadCallOk(s.db, th);
    PublishedExist(s);
    if o.Done? {
      QueuedAtKept(s.db, call, e, r);
      QueueEffect(s.db, call);
      if QueuedAt(s.db.outbox, e, r) && !HasStatus(s.db, r, Queued) {
        QueuedRunExists(s, e, r);
        assert call == RevertToQueued(r) && th.RelayRevert?;
        UniqueQueued(s, e, th.job.event, r);
      }
    }
  }

  lemma PublishedExist(s: State)
    requires Inv(s)
    ensures forall e :: e in s.db.published ==> e < |s.db.outbox|
  {
  }

  lemma QueuedRunExists(s: State, e: EventId, r: RunId)
    requires Inv(s) && QueuedAt(s.db.outbox, e, r)
    ensures r in s.db.runs
  {
    assert BodyOk(s.db, s.db.outbox[e].body);
  }

  lemma UniqueQueued(s: State, e: EventId, e': EventId, r: RunId)
    requires Inv(s) && QueuedAt(s.db.outbox, e, r) && QueuedAt(s.db.outbox, e', r)
    ensures e == e'
  {
  }

  lemma LoserLoses(s: State, m: Move)
    requires Inv(s) && Loses(s, m)
    ensures !Deliverable(Next(s, m).db)
  {
    hide Inv, DbOk;
    var th, db' := s.threads[m.t], Next(s, m).db;
    StepRelies(s, m.t);
    if th.RelayRevert? {
      assert QueuedAt(db'.outbox, th.job.event, th.job.run) && HasStatus(db', th.job.run, Queued);
    } else {
      assert QueuedAt(db'.outbox, th.id, s.db.outbox[th.id].body.run);
    }
  }

  /** A move loses a queued run exactly when it is one of those two. */
  lemma LostExactlyWhen(s: State, m: Move)
    requires Inv(s) && Deliverable(s.db)
    ensures Deliverable(Next(s, m).db) <==> !Loses(s, m)
  {
    hide Inv;
    if Loses(s, m) {
      LoserLoses(s, m);
    } else {
      var db' := Next(s, m).db;
      forall r, e | HasStatus(db', r, Queued) && QueuedAt(db'.outbox, e, r)
        ensures e !in db'.published
      {
        if m.Step? && m.t in s.threads {
          StepDelivers(s, m.t, m.outcome, r, e);
        } else {
          PublishedExist(s);
          assert QueuedAt(s.db.outbox, e, r);
        }
      }
    }
  }

  // ---- one relay ----

  ghost predicate OneRelay(s: State) {
    forall t, t' :: t in s.threads && t' in s.threads && OfRelay(s.threads[t]) && OfRelay(s.threads[t']) ==> t == t'
  }

  /** At no time do two relays run; a crashed one may be replaced. */
  ghost predicate AlwaysOneRelay(s: State, moves: seq<Move>)
    decreases |moves|
  {
    OneRelay(s) && (moves != [] ==> AlwaysOneRelay(Next(s, moves[0]), moves[1..]))
  }

  /** The event the relay is handling. */
  ghost function Handling(th: Thread): Option<EventId> {
    match th
    case RelayLoad(job, _) => Some(job.event)
    case RelayResolve(job, _, _) => Some(job.event)
    case RelayDispatch(job, _) => Some(job.event)
    case RelayRevert(job, _) => Some(job.event)
    case _ => None
  }

  /** A lone relay has not published what it is dispatching, and publishes no queued run's event. */
  ghost predicate RelayCareful(db: Db, th: Thread) {
    && (Handling(th).Some? ==> Handling(th).value !in db.published)
    && (th.RelayPublish? && th.id < |db.outbox| && db.outbox[th.id].body.RunQueued? ==>
          !HasStatus(db, db.outbox[th.id].body.run, Queued))
  }

  ghost predicate Careful(s: State) {
    forall t :: t in s.threads ==> RelayCareful(s.db, s.threads[t])
  }

  lemma CarefulNeverLoses(s: State, m: Move)
    requires Careful(s)
    ensures !Loses(s, m)
  {
    if m.Step? && m.t in s.threads {
      assert RelayCareful(s.db, s.threads[m.t]);
    }
  }

  /** Calls of anyone but a relay publish nothing and queue only new runs. */
  lemma OthersLeaveRelay(db: Db, call: Call, th: Thread)
    requires CallOk(db, call) && !call.Publish? && !call.RevertToQueued? && LogOk(db)
    requires RelayCareful(db, th) && (th.RelayPublish? ==> th.id < |db.outbox|)
    ensures RelayCareful(Apply(db, call), th)
  {
    if th.RelayPublish? && db.outbox[th.id].body.RunQueued? {
      assert BodyOk(db, db.outbox[th.id].body);
      QueueEffect(db, call);
    }
  }

  /** What a relay's thread may rely on when it makes its step. */
  lemma RelayRelies(s: State, t: ThreadId)
    requires Inv(s) && t in s.threads
    ensures ThreadOk(s.db, s.threads[t]) && CallOk(s.db, CallOf(s.threads[t])) && LogOk(s.db)
    ensures Window(s.threads[t]).Some? ==> !HasStatus(s.db, Window(s.threads[t]).value, Queued)
    ensures s.threads[t].RelayPublish? ==> s.threads[t].id < |s.db.outbox|
  {
    ThreadCallOk(s.db, s.threads[t]);
  }

  lemma HandlingUnpublished(s: State, t: ThreadId, o: Outcome)
    requires Inv(s) && Deliverable(s.db) && Careful(s) && t in s.threads && After(s.db, s.threads[t], o).Some?
    ensures var after := Handling(After(s.db, s.threads[t], o).value);
            after.Some? ==> after.value !in Next(s, Step(t, o)).db.published
  {
    hide Inv, LogOk, IsBatch, StaleApplying, DeliveriesOk, CallOk, HasStatus;
    var th := s.threads[t];
    RelayRelies(s, t);
    assert RelayCareful(s.db, th);
    if th.RelayClaim? {
      assert QueuedAt(s.db.outbox, th.job.event, th.job.run);
    }
  }

  lemma PublishCareful(s: State, t: ThreadId, o: Outcome)
    requires Inv(s) && t in s.threads && After(s.db, s.threads[t], o).Some?
    ensures var th, db := After(s.db, s.threads[t], o).value, Next(s, Step(t, o)).db;
            th.RelayPublish? && th.id < |db.outbox| && db.outbox[th.id].body.RunQueued? ==>
              !HasStatus(db, db.outbox[th.id].body.run, Queued)
  {
    hide Inv, LogOk, IsBatch, StaleApplying, DeliveriesOk, CallOk, Canceling, Judging;
    RelayRelies(s, t);
  }

  lemma OwnStepCareful(s: State, t: ThreadId, o: Outcome)
    requires Inv(s) && Deliverable(s.db) && Careful(s) && t in s.threads && After(s.db, s.threads[t], o).Some?
    ensures RelayCareful(Next(s, Step(t, o)).db, After(s.db, s.threads[t], o).value)
  {
    hide Inv, Deliverable, Careful, Next, After, HasStatus, Handling;
    HandlingUnpublished(s, t, o);
    PublishCareful(s, t, o);
  }

  lemma StepKeepsCareful(s: State, t: ThreadId, o: Outcome)
    requires Inv(s) && Deliverable(s.db) && Careful(s) && OneRelay(s) && t in s.threads
    ensures Careful(Next(s, Step(t, o)))
  {
    hide Inv, LogOk, Deliverable, RelayCareful, After;
    var s', th := Next(s, Step(t, o)), s.threads[t];
    RelayRelies(s, t);
    if After(s.db, th, o).Some? {
      OwnStepCareful(s, t, o);
    }
    forall u | u in s.threads && u != t
      ensures RelayCareful(s'.db, s.threads[u])
    {
      if OfRelay(th) {
        OnlyRelaysCare(s'.db, s.threads[u]);
      } else {
        RelayRelies(s, u);
        OthersLeaveRelay(s.db, CallOf(th), s.threads[u]);
      }
    }
  }

  lemma OnlyRelaysCare(db: Db, th: Thread)
    requires !OfRelay(th)
    ensures RelayCareful(db, th)
  {
  }

  lemma NextKeepsCareful(s: State, m: Move)
    requires Inv(s) && Deliverable(s.db) && Careful(s) && OneRelay(s)
    ensures Careful(Next(s, m))
  {
    if m.Step? && m.t in s.threads {
      StepKeepsCareful(s, m.t, m.outcome);
    } else {
      hide Inv, Deliverable, OneRelay;
      forall t | t in Next(s, m).threads && t in s.threads
        ensures RelayCareful(Next(s, m).db, s.threads[t])
      {
        RelayRelies(s, t);
        assert RelayCareful(s.db, s.threads[t]);
      }
    }
  }

  lemma {:induction false} OneRelayRun(s: State, moves: seq<Move>)
    requires Inv(s) && Deliverable(s.db) && Careful(s) && AlwaysOneRelay(s, moves)
    ensures Deliverable(Exec(s, moves).db)
    decreases |moves|
  {
    if moves != [] {
      var s' := Next(s, moves[0]);
      CarefulNeverLoses(s, moves[0]);
      LostExactlyWhen(s, moves[0]);
      NextKeepsInv(s, moves[0]);
      NextKeepsCareful(s, moves[0]);
      OneRelayRun(s', moves[1..]);
    }
  }

  /**
   No lost dispatch: with one relay at a time, through crashes, redeliveries, reverts and
   failing calls, a queued run's RunQueued event stays in the log unpublished.
   */
  lemma OneRelayLosesNothing(moves: seq<Move>, r: RunId, e: EventId)
    requires AlwaysOneRelay(INITIAL, moves)
    requires HasStatus(Exec(INITIAL, moves).db, r, Queued)
    ensures QueuedAt(Exec(INITIAL, moves).db.outbox, e, r) ==> e !in Exec(INITIAL, moves).db.published
    ensures exists e': EventId :: QueuedAt(Exec(INITIAL, moves).db.outbox, e', r)
  {
    OneRelayRun(INITIAL, moves);
    ReachableInv(moves);
  }
}
