/**
 What one batch of a relay achieves when nothing interferes and no call fails, and which
 events a batch must or cannot contain.
 */
module Relaying {
  import opened Wrappers
  import opened RunDomain
  import opened Tables
  import opened Protocol
  import opened ProtocolInvariants
  import opened ProtocolSafety
  import opened ProtocolDelivery
  import opened Repositories
  import opened Services
  import opened Sweeping

  // ---- one batch ----

  predicate StillQueued(db: Db, d: Delivery) {
    d.body.RunQueued? && HasStatus(db, d.body.run, Queued)
  }

  /** The relay deals with one event. */
  function HandledAlone(db: Db, d: Delivery): Db {
    var recorded := Recording(db, d.id);
    var dispatched :=
      if StillQueued(db, d) then Assigning(Claiming(recorded, d.body.run, d.body.workspace), d.body.run) else recorded;
    Publishing(dispatched, d.id)
  }

  lemma AloneRecords(db: Db, d: Delivery, rest: seq<Delivery>)
    ensures Alone(db, Some(RelayRecord(d, rest))) ==
            Alone(Recording(db, d.id),
                  Some(if d.body.RunQueued? then RelayClaim(Job(d.id, d.body.run, d.body.workspace), rest)
                       else RelayPublish(d.id, rest)))
  {
    hide Alone, Continue;
    AloneCall(db, RelayRecord(d, rest));
  }

  lemma AloneClaims(db: Db, job: Job, rest: seq<Delivery>)
    ensures Alone(db, Some(RelayClaim(job, rest))) ==
            Alone(Claiming(db, job.run, job.workspace),
                  Some(if HasStatus(db, job.run, Queued) then RelayLoad(job, rest) else RelayPublish(job.event, rest)))
  {
    hide Alone, Continue;
    AloneCall(db, RelayClaim(job, rest));
  }

  lemma AlonePublishes(db: Db, e: EventId, rest: seq<Delivery>)
    ensures Alone(db, Some(RelayPublish(e, rest))) == Alone(Publishing(db, e), Some(Continue(rest)))
  {
    hide Alone, Continue;
    AloneCall(db, RelayPublish(e, rest));
  }

  lemma AloneLoads(db: Db, job: Job, rest: seq<Delivery>)
    requires job.run in db.runs
    ensures Alone(db, Some(RelayLoad(job, rest))) == Alone(db, Some(RelayDispatch(job, rest)))
  {
    hide Alone, Continue;
    AloneCall(db, RelayLoad(job, rest));
    AloneCall(db, RelayResolve(job, db.runs[job.run], rest));
  }

  lemma AloneDispatches(db: Db, job: Job, rest: seq<Delivery>)
    ensures Alone(db, Some(RelayDispatch(job, rest))) ==
            Alone(Assigning(db, job.run), Some(RelayPublish(job.event, rest)))
  {
    hide Alone, Continue;
    AloneCall(db, RelayDispatch(job, rest));
  }

  lemma AloneHandles(db: Db, d: Delivery, rest: seq<Delivery>)
    ensures Alone(db, Some(RelayRecord(d, rest))) == Alone(HandledAlone(db, d), Some(Continue(rest)))
  {
    hide Alone, Continue, Publishing;
    var recorded := Recording(db, d.id);
    AloneRecords(db, d, rest);
    if d.body.RunQueued? {
      var job := Job(d.id, d.body.run, d.body.workspace);
      AloneClaims(recorded, job, rest);
      if StillQueued(db, d) {
        var claimed := Claiming(recorded, job.run, job.workspace);
        AloneLoads(claimed, job, rest);
        AloneDispatches(claimed, job, rest);
      }
    }
    AlonePublishes(if StillQueued(db, d) then Assigning(Claiming(recorded, d.body.run, d.body.workspace), d.body.run)
                   else recorded, d.id, rest);
  }

  predicate DistinctRuns(ds: seq<Delivery>) {
    forall i, j | 0 <= i < j < |ds| && ds[i].body.RunQueued? && ds[j].body.RunQueued? ::
        ds[i].body.run != ds[j].body.run
  }

  /** The runs of the batch that are still queued, in its order. */
  function ToAssign(db: Db, ds: seq<Delivery>): seq<RunId> {
    if ds == [] then []
    else (if StillQueued(db, ds[0]) then [ds[0].body.run] else []) + ToAssign(db, ds[1..])
  }

  ghost predicate InIds(ds: seq<Delivery>, e: EventId) {
    exists i | 0 <= i < |ds| :: ds[i].id == e
  }

  /** Exactly the events of the batch are recorded and published as well. */
  ghost predicate Marked(db: Db, ds: seq<Delivery>, db': Db) {
    && (forall e :: e in db'.published <==> e in db.published || InIds(ds, e))
    && (forall e :: e in db'.audit <==> e in db.audit || InIds(ds, e))
  }

  /** Exactly the still queued runs of the batch are assigned and applying as well. */
  ghost predicate Dispatched(db: Db, ds: seq<Delivery>, db': Db) {
    && db'.locks == db.locks && db'.clock == db.clock
    && db'.jobs == db.jobs + ToAssign(db, ds)
    && db'.runs.Keys == db.runs.Keys
    && (forall r | r in db.runs ::
          db'.runs[r] == if r in ToAssign(db, ds) then db.runs[r].(status := Applying, startedAt := Some(db.clock))
                         else db.runs[r])
  }

  ghost predicate Relayed(db: Db, ds: seq<Delivery>, db': Db) {
    Marked(db, ds, db') && Dispatched(db, ds, db')
  }

  lemma NothingRelayed(db: Db)
    ensures Relayed(db, [], db)
  {
  }

  /** Dealing with one event leaves the later runs of the batch as they are. */
  lemma LaterStillQueued(db: Db, d: Delivery, rest: seq<Delivery>)
    requires forall j | 0 <= j < |rest| && d.body.RunQueued? && rest[j].body.RunQueued? ::
             d.body.run != rest[j].body.run
    ensures ToAssign(HandledAlone(db, d), rest) == ToAssign(db, rest)
    ensures d.body.RunQueued? ==> d.body.run !in ToAssign(db, rest)
  {
    if rest != [] {
      LaterStillQueued(db, d, rest[1..]);
    }
  }

  lemma InIdsSplit(ds: seq<Delivery>, e: EventId)
    requires ds != []
    ensures InIds(ds, e) <==> ds[0].id == e || InIds(ds[1..], e)
  {
    if InIds(ds[1..], e) {
      var i :| 0 <= i < |ds[1..]| && ds[1..][i].id == e;
      assert ds[i + 1].id == e;
    }
    if InIds(ds, e) && ds[0].id != e {
      var i :| 0 <= i < |ds| && ds[i].id == e;
      assert ds[1..][i - 1].id == e;
    }
  }

  lemma OneMoreMarked(db: Db, ds: seq<Delivery>, db': Db)
    requires ds != [] && Marked(HandledAlone(db, ds[0]), ds[1..], db')
    ensures Marked(db, ds, db')
  {
    var db1 := HandledAlone(db, ds[0]);
    assert db1.published == db.published + {ds[0].id};
    assert forall e :: e in db1.audit <==> e in db.audit || e == ds[0].id;
    hide HandledAlone;
    forall e
      ensures InIds(ds, e) <==> ds[0].id == e || InIds(ds[1..], e)
    {
      InIdsSplit(ds, e);
    }
    hide InIds;
  }

  lemma HandledRuns(db: Db, d: Delivery)
    ensures var db1 := HandledAlone(db, d);
            && db1.locks == db.locks && db1.clock == db.clock && db1.runs.Keys == db.runs.Keys
            && db1.jobs == db.jobs + (if StillQueued(db, d) then [d.body.run] else [])
            && forall r | r in db.runs ::
                 db1.runs[r] == if StillQueued(db, d) && r == d.body.run
                                then db.runs[r].(status := Applying, startedAt := Some(db.clock)) else db.runs[r]
  {
  }

  lemma OneMoreDispatched(db: Db, ds: seq<Delivery>, db': Db)
    requires ds != [] && DistinctRuns(ds) && Dispatched(HandledAlone(db, ds[0]), ds[1..], db')
    ensures Dispatched(db, ds, db')
  {
    LaterStillQueued(db, ds[0], ds[1..]);
    HandledRuns(db, ds[0]);
    var rest := ToAssign(db, ds[1..]);
    var first: seq<RunId> := if StillQueued(db, ds[0]) then [ds[0].body.run] else [];
    assert ToAssign(db, ds) == first + rest;
    hide HandledAlone, DistinctRuns, ToAssign;
    assert db.jobs + (first + rest) == (db.jobs + first) + rest;
  }

  lemma OneMoreRelayed(db: Db, ds: seq<Delivery>, db': Db)
    requires ds != [] && DistinctRuns(ds) && Relayed(HandledAlone(db, ds[0]), ds[1..], db')
    ensures Relayed(db, ds, db')
  {
    hide Marked, Dispatched, HandledAlone;
    OneMoreMarked(db, ds, db');
    OneMoreDispatched(db, ds, db');
  }

  lemma {:induction false} BatchRelays(db: Db, ds: seq<Delivery>)
    requires DistinctRuns(ds)
    ensures Relayed(db, ds, Alone(db, Some(Continue(ds))))
    decreases |ds|
  {
    if ds == [] {
      NothingRelayed(db);
    } else {
      hide Relayed, Alone, HandledAlone;
      AloneHandles(db, ds[0], ds[1..]);
      BatchRelays(HandledAlone(db, ds[0]), ds[1..]);
      OneMoreRelayed(db, ds, Alone(db, Some(Continue(ds))));
    }
  }

  lemma BatchHasDistinctRuns(db: Db, batch: seq<EventId>)
    requires QueuedOnce(db) && IsBatch(db, batch)
    ensures DistinctRuns(Deliveries(db, batch))
  {
    var ds := Deliveries(db, batch);
    forall i, j | 0 <= i < j < |ds| && ds[i].body.RunQueued? && ds[j].body.RunQueued?
      ensures ds[i].body.run != ds[j].body.run
    {
      assert QueuedAt(db.outbox, batch[i], ds[i].body.run) && QueuedAt(db.outbox, batch[j], ds[j].body.run);
    }
  }

  lemma ToAssignAreQueued(db: Db, ds: seq<Delivery>, r: RunId)
    ensures r in ToAssign(db, ds) <==> exists i | 0 <= i < |ds| :: StillQueued(db, ds[i]) && ds[i].body.run == r
  {
    if ds != [] {
      ToAssignAreQueued(db, ds[1..], r);
      if exists i | 0 <= i < |ds[1..]| :: StillQueued(db, ds[1..][i]) && ds[1..][i].body.run == r {
        var i :| 0 <= i < |ds[1..]| && StillQueued(db, ds[1..][i]) && ds[1..][i].body.run == r;
        assert ds[i + 1] == ds[1..][i];
      }
      if exists i | 0 <= i < |ds| :: StillQueued(db, ds[i]) && ds[i].body.run == r {
        var i :| 0 <= i < |ds| && StillQueued(db, ds[i]) && ds[i].body.run == r;
        assert i > 0 ==> ds[1..][i - 1] == ds[i];
      }
    }
  }

  lemma ToAssignOnce(db: Db, ds: seq<Delivery>, r: RunId)
    requires DistinctRuns(ds)
    ensures multiset(ToAssign(db, ds))[r] <= 1
  {
    if ds != [] {
      ToAssignOnce(db, ds[1..], r);
      if StillQueued(db, ds[0]) {
        LaterStillQueued(db, ds[0], ds[1..]);
      }
    }
  }

  ghost predicate QueuedIn(db: Db, ds: seq<Delivery>, r: RunId) {
    exists i | 0 <= i < |ds| :: StillQueued(db, ds[i]) && ds[i].body.run == r
  }

  lemma AssignedOnce(db: Db, ds: seq<Delivery>, r: RunId)
    requires DistinctRuns(ds) && (HasStatus(db, r, Queued) ==> r !in db.jobs)
    ensures multiset(db.jobs + ToAssign(db, ds))[r] == if QueuedIn(db, ds, r) then 1 else multiset(db.jobs)[r]
  {
    ToAssignAreQueued(db, ds, r);
    ToAssignOnce(db, ds, r);
    hide DistinctRuns, ToAssign;
    assert r in ToAssign(db, ds) <==> multiset(ToAssign(db, ds))[r] > 0;
    assert multiset(db.jobs + ToAssign(db, ds)) == multiset(db.jobs) + multiset(ToAssign(db, ds));
    assert r in db.jobs <==> multiset(db.jobs)[r] > 0;
  }

  lemma QueuedNotAssigned(s: State, r: RunId)
    requires Inv(s) && HasStatus(s.db, r, Queued)
    ensures r !in s.db.jobs
  {
  }

  lemma StateFacts(s: State)
    requires Inv(s)
    ensures QueuedOnce(s.db) && forall r :: HasStatus(s.db, r, Queued) ==> r !in s.db.jobs
  {
    hide Inv;
    forall r | HasStatus(s.db, r, Queued)
      ensures r !in s.db.jobs
    {
      QueuedNotAssigned(s, r);
    }
    QueuedOnceOf(s);
  }

  lemma QueuedOnceOf(s: State)
    requires Inv(s)
    ensures QueuedOnce(s.db)
  {
  }

  lemma FetchContinues(db: Db, batch: seq<EventId>)
    requires IsBatch(db, batch)
    ensures forall i | 0 <= i < |batch| :: batch[i] < |db.outbox|
    ensures After(db, RelayFetch, Fetched(batch)) == Some(Continue(Deliveries(db, batch)))
  {
  }

  /** What a batch fetched in a reachable state may rely on. */
  lemma BatchFacts(moves: seq<Move>, batch: seq<EventId>)
    requires IsBatch(Exec(INITIAL, moves).db, batch)
    ensures var db := Exec(INITIAL, moves).db;
            && (forall i | 0 <= i < |batch| :: batch[i] < |db.outbox|)
            && DistinctRuns(Deliveries(db, batch))
            && After(db, RelayFetch, Fetched(batch)) == Some(Continue(Deliveries(db, batch)))
            && forall r :: HasStatus(db, r, Queued) ==> r !in db.jobs
  {
    hide *;
    ReachableInv(moves);
    StateFacts(Exec(INITIAL, moves));
    FetchContinues(Exec(INITIAL, moves).db, batch);
    BatchHasDistinctRuns(Exec(INITIAL, moves).db, batch);
  }

  lemma BatchCounts(db: Db, ds: seq<Delivery>)
    requires DistinctRuns(ds) && forall r :: HasStatus(db, r, Queued) ==> r !in db.jobs
    ensures var db' := Alone(db, Some(Continue(ds)));
            && Relayed(db, ds, db')
            && forall r :: multiset(db'.jobs)[r] == if QueuedIn(db, ds, r) then 1 else multiset(db.jobs)[r]
  {
    hide Alone, Continue, DistinctRuns, QueuedIn, ToAssign, Marked, HasStatus;
    BatchRelays(db, ds);
    forall r
      ensures multiset(db.jobs + ToAssign(db, ds))[r] == if QueuedIn(db, ds, r) then 1 else multiset(db.jobs)[r]
    {
      AssignedOnce(db, ds, r);
    }
  }

  /**
   One uninterrupted batch in any reachable state, with its calls succeeding: every fetched
   event is recorded and published, every fetched run that was still queued is applying and
   has been assigned exactly once ever, and no other run is assigned.
   */
  lemma BatchAssignsQueuedOnce(moves: seq<Move>, batch: seq<EventId>)
    requires IsBatch(Exec(INITIAL, moves).db, batch)
    ensures var db := Exec(INITIAL, moves).db;
            var ds := Deliveries(db, batch);
            var db' := Alone(db, After(db, RelayFetch, Fetched(batch)));
            && Relayed(db, ds, db')
            && forall r :: multiset(db'.jobs)[r] == if QueuedIn(db, ds, r) then 1 else multiset(db.jobs)[r]
  {
    hide *;
    BatchFacts(moves, batch);
    BatchCounts(Exec(INITIAL, moves).db, Deliveries(Exec(INITIAL, moves).db, batch));
  }

  // ---- which events are fetched ----

  /** The other unpublished events that are as old or older. */
  function NoYounger(db: Db, e: EventId): set<EventId>
    requires e < |db.outbox|
  {
    set x: EventId | x < |db.outbox| && x !in db.published && x != e &&
        db.outbox[x].occurredAt <= db.outbox[e].occurredAt
  }

  function Older(db: Db, e: EventId): set<EventId>
    requires e < |db.outbox|
  {
    set x: EventId | x < |db.outbox| && x !in db.published && db.outbox[x].occurredAt < db.outbox[e].occurredAt
  }

  function SetOf(xs: seq<EventId>): set<EventId> {
    set x | x in xs
  }

  lemma {:induction false} SizeOfDistinct(xs: seq<EventId>)
    requires forall i, j | 0 <= i < j < |xs| :: xs[i] != xs[j]
    ensures |SetOf(xs)| == |xs|
  {
    if xs != [] {
      var front := xs[..|xs| - 1];
      SizeOfDistinct(front);
      assert SetOf(xs) == SetOf(front) + {xs[|xs| - 1]};
    }
  }

  lemma SubsetSize(a: set<EventId>, b: set<EventId>)
    requires a <= b
    ensures |a| <= |b|
  {
    if a != {} {
      var x :| x in a;
      SubsetSize(a - {x}, b - {x});
    }
  }

  /** With fewer than a hundred as old or older before it, an unpublished event is in every batch. */
  lemma SurelyFetched(db: Db, batch: seq<EventId>, e: EventId)
    requires IsBatch(db, batch) && e < |db.outbox| && e !in db.published && |NoYounger(db, e)| < BATCH_LIMIT
    ensures e in batch
  {
    if e !in batch {
      SizeOfDistinct(batch);
      forall x | x in batch
        ensures x in NoYounger(db, e)
      {
        var i :| 0 <= i < |batch| && batch[i] == x;
        assert db.outbox[x].occurredAt <= db.outbox[batch[BATCH_LIMIT - 1]].occurredAt;
      }
      SubsetSize(SetOf(batch), NoYounger(db, e));
    }
  }

  /** With a hundred older ones before it, it is in none, however long they stay. */
  lemma NeverFetched(db: Db, batch: seq<EventId>, e: EventId)
    requires IsBatch(db, batch) && e < |db.outbox| && |Older(db, e)| >= BATCH_LIMIT
    ensures e !in batch
  {
    if e in batch {
      SizeOfDistinct(batch);
      forall x | x in Older(db, e)
        ensures x in batch
      {
        OlderFetchedFirst(db, batch, e, x);
      }
      SubsetSize(Older(db, e) + {e}, SetOf(batch));
    }
  }

  lemma OlderFetchedFirst(db: Db, batch: seq<EventId>, e: EventId, x: EventId)
    requires IsBatch(db, batch) && e < |db.outbox| && e in batch && x in Older(db, e)
    ensures x in batch
  {
    var i :| 0 <= i < |batch| && batch[i] == e;
    assert |batch| == BATCH_LIMIT ==> db.outbox[e].occurredAt <= db.outbox[batch[BATCH_LIMIT - 1]].occurredAt;
  }

  // ---- delivery ----

  lemma FetchedIsQueued(db: Db, batch: seq<EventId>, e: EventId, r: RunId)
    requires IsBatch(db, batch) && e in batch && QueuedAt(db.outbox, e, r) && HasStatus(db, r, Queued)
    ensures QueuedIn(db, Deliveries(db, batch), r)
  {
    var i :| 0 <= i < |batch| && batch[i] == e;
    assert StillQueued(db, Deliveries(db, batch)[i]);
  }

  /**
   Delivery: as long as never two relays run at once, a queued run has a RunQueued event, and if
   fewer than a hundred unpublished events are as old or older, the next uninterrupted batch,
   whichever it is, assigns the run: exactly once in all.
   */
  lemma QueuedRunIsDelivered(moves: seq<Move>, r: RunId, batch: seq<EventId>) returns (e: EventId)
    requires AlwaysOneRelay(INITIAL, moves) && HasStatus(Exec(INITIAL, moves).db, r, Queued)
    requires IsBatch(Exec(INITIAL, moves).db, batch)
    ensures QueuedAt(Exec(INITIAL, moves).db.outbox, e, r)
    ensures |NoYounger(Exec(INITIAL, moves).db, e)| < BATCH_LIMIT ==>
              var db := Exec(INITIAL, moves).db;
              multiset(Alone(db, After(db, RelayFetch, Fetched(batch))).jobs)[r] == 1
  {
    var db := Exec(INITIAL, moves).db;
    hide Exec, IsBatch, Alone, After, AlwaysOneRelay, NoYounger, QueuedIn, HasStatus;
    OneRelayHasEvent(moves, r);
    e :| QueuedAt(db.outbox, e, r);
    OneRelayLosesNothing(moves, r, e);
    BatchAssignsQueuedOnce(moves, batch);
    if |NoYounger(db, e)| < BATCH_LIMIT {
      SurelyFetched(db, batch, e);
      FetchedIsQueued(db, batch, e, r);
    }
  }

  lemma OneRelayHasEvent(moves: seq<Move>, r: RunId)
    requires AlwaysOneRelay(INITIAL, moves) && HasStatus(Exec(INITIAL, moves).db, r, Queued)
    ensures exists e: EventId :: QueuedAt(Exec(INITIAL, moves).db.outbox, e, r)
  {
    OneRelayLosesNothing(moves, r, 0);
  }
}
