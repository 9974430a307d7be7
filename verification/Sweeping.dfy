/**
 What one sweep of the stale-run reaper achieves when nothing interferes and no call fails:
 Play with an empty script, which ReapOnce is proved to carry out.
 */
module Sweeping {
  import opened Wrappers
  import opened RunDomain
  import opened Tables
  import opened Protocol
  import opened ProtocolInvariants
  import opened Repositories
  import opened Services

  /** Some attempt at the run began before the cutoff. */
  ghost predicate BeganBefore(outbox: seq<Event>, r: RunId, cutoff: Time) {
    exists i :: 0 <= i < |outbox| && outbox[i].body.RunApplying? && outbox[i].body.run == r &&
        outbox[i].occurredAt < cutoff
  }

  ghost predicate Stale(db: Db, r: RunId, cutoff: Time) {
    HasStatus(db, r, Applying) && BeganBefore(db.outbox, r, cutoff)
  }

  ghost predicate Named(cs: seq<Candidate>, r: RunId) {
    exists i :: 0 <= i < |cs| && cs[i].run == r
  }

  /** The tables after the sweep: exactly the named applying runs errored, exactly their workspaces freed. */
  ghost predicate Swept(db: Db, cs: seq<Candidate>, db': Db) {
    && db'.runs.Keys == db.runs.Keys
    && (forall r :: r in db.runs ==>
          db'.runs[r] == if HasStatus(db, r, Applying) && Named(cs, r)
                         then db.runs[r].(status := Errored, finishedAt := Some(db.clock)) else db.runs[r])
    && (forall w :: w in db'.locks <==>
          w in db.locks && !(HasStatus(db, db.locks[w], Applying) && Named(cs, db.locks[w]) &&
              db.runs[db.locks[w]].workspace == w))
    && (forall w :: w in db'.locks ==> db'.locks[w] == db.locks[w])
  }

  function Alone(db: Db, th: Option<Thread>): Db {
    Play(db, th, []).0
  }

  lemma AloneCall(db: Db, th: Thread)
    requires !th.RelayFetch? && !th.SweepFind?
    ensures Alone(db, Some(th)) == Alone(Apply(db, CallOf(th)), After(db, th, Done))
  {
    PlayCall(db, th, []);
  }

  lemma AloneOver(db: Db)
    ensures Alone(db, None) == db
  {
  }

  ghost predicate SweepReady(db: Db, cs: seq<Candidate>) {
    RowsOk(db) && LocksOk(db) && CandidatesOk(db, cs)
  }

  /** The reaper deals with one candidate. */
  function Dealt(db: Db, c: Candidate): Db {
    if HasStatus(db, c.run, Applying) then Unlocking(MarkingErrored(db, c.run), c.workspace, c.run) else db
  }

  lemma DealtSweeps(db: Db, c: Candidate)
    requires SweepReady(db, [c])
    ensures Swept(db, [c], Dealt(db, c)) && Dealt(db, c).clock == db.clock
    ensures RowsOk(Dealt(db, c)) && LocksOk(Dealt(db, c))
  {
    assert CandidatesOk(db, [c]) ==> RunAt(db, [c][0].run, [c][0].workspace);
    assert forall r :: Named([c], r) <==> r == c.run by {
      assert [c][0].run == c.run;
    }
  }

  lemma AloneDeals(db: Db, cs: seq<Candidate>)
    requires cs != []
    ensures Alone(db, Sweep(cs)) == Alone(Dealt(db, cs[0]), Sweep(cs[1..]))
  {
    hide Alone;
    AloneCall(db, SweepMark(cs));
    if HasStatus(db, cs[0].run, Applying) {
      AloneCall(MarkingErrored(db, cs[0].run), SweepUnlock(cs[0], cs[1..]));
    }
  }

  lemma SweptOn(db: Db, cs: seq<Candidate>, db1: Db, db2: Db)
    requires cs != [] && Swept(db, [cs[0]], db1) && db1.clock == db.clock && Swept(db1, cs[1..], db2)
    ensures Swept(db, cs, db2)
  {
    forall r
      ensures Named(cs, r) <==> Named([cs[0]], r) || Named(cs[1..], r)
    {
      if Named(cs[1..], r) {
        var i :| 0 <= i < |cs[1..]| && cs[1..][i].run == r;
        assert cs[i + 1].run == r;
      }
      if Named([cs[0]], r) {
        assert cs[0].run == r;
      }
      if Named(cs, r) {
        var i :| 0 <= i < |cs| && cs[i].run == r;
        if i == 0 {
          assert [cs[0]][0].run == r;
        } else {
          assert cs[1..][i - 1].run == r;
        }
      }
    }
  }

  lemma {:induction false} SweepSweeps(db: Db, cs: seq<Candidate>)
    requires SweepReady(db, cs)
    ensures Swept(db, cs, Alone(db, Sweep(cs)))
    decreases |cs|
  {
    if cs == [] {
      AloneOver(db);
    } else {
      hide Swept, RowsOk, LocksOk, Alone;
      var db1 := Dealt(db, cs[0]);
      DealtSweeps(db, cs[0]);
      AloneDeals(db, cs);
      assert CandidatesOk(db1, cs[1..]);
      SweepSweeps(db1, cs[1..]);
      SweptOn(db, cs, db1, Alone(db1, Sweep(cs[1..])));
    }
  }

  lemma NamedStale(outbox: seq<Event>, cutoff: Time, r: RunId)
    ensures Named(StaleApplying(outbox, cutoff), r) <==> BeganBefore(outbox, r, cutoff)
  {
    var cs := StaleApplying(outbox, cutoff);
    if Named(cs, r) {
      var i :| 0 <= i < |cs| && cs[i].run == r;
      StaleApplyingNames(outbox, cutoff, cs[i]);
    }
    if BeganBefore(outbox, r, cutoff) {
      var i :| 0 <= i < |outbox| && outbox[i].body.RunApplying? && outbox[i].body.run == r &&
          outbox[i].occurredAt < cutoff;
      StaleIsNamed(outbox, cutoff, i);
      var c := Candidate(r, outbox[i].body.workspace);
      var j :| 0 <= j < |cs| && cs[j] == c;
    }
  }

  lemma StaleIsNamed(outbox: seq<Event>, cutoff: Time, i: nat)
    requires i < |outbox| && outbox[i].body.RunApplying? && outbox[i].occurredAt < cutoff
    ensures Candidate(outbox[i].body.run, outbox[i].body.workspace) in StaleApplying(outbox, cutoff)
  {
    if i < |outbox| - 1 {
      StaleIsNamed(outbox[..|outbox| - 1], cutoff, i);
    }
  }

  /**
   A sweep errors exactly the applying runs some attempt at which began before the cutoff, and
   frees exactly their workspaces; every other row and lock stays as it is.
   */
  lemma SweepErrorsExactlyStale(db: Db, cutoff: Time)
    requires DbOk(db) && LocksOk(db)
    ensures var db' := Alone(db, After(db, SweepFind(cutoff), Done));
            && db'.runs.Keys == db.runs.Keys
            && (forall r :: r in db.runs ==>
                  db'.runs[r] == if Stale(db, r, cutoff)
                                 then db.runs[r].(status := Errored, finishedAt := Some(db.clock)) else db.runs[r])
            && (forall w :: w in db'.locks <==>
                  w in db.locks && !(Stale(db, db.locks[w], cutoff) && db.runs[db.locks[w]].workspace == w))
            && (forall w :: w in db'.locks ==> db'.locks[w] == db.locks[w])
            && (forall r :: Stale(db, r, cutoff) ==> db.runs[r].workspace !in db'.locks)
  {
    var cs := StaleApplying(db.outbox, cutoff);
    forall c | c in cs
      ensures RunAt(db, c.run, c.workspace)
    {
      StaleApplyingNames(db.outbox, cutoff, c);
    }
    SweepSweeps(db, cs);
    forall r
      ensures Named(cs, r) <==> BeganBefore(db.outbox, r, cutoff)
    {
      NamedStale(db.outbox, cutoff, r);
    }
  }

  lemma ReapedDeals(db: Db, cs: seq<Candidate>)
    requires cs != []
    ensures Reaped(db, cs, []) ==
            (if HasStatus(db, cs[0].run, Applying) then [cs[0].run] else []) + Reaped(Dealt(db, cs[0]), cs[1..], [])
  {
    hide Reaped, HasStatus;
    ReapedMark(db, cs, []);
    ReapedUnlock([], MarkingErrored(db, cs[0].run), cs[0], cs[1..], []);
  }

  lemma NamedFirst(cs: seq<Candidate>, r: RunId)
    requires cs != []
    ensures Named(cs, r) <==> cs[0].run == r || Named(cs[1..], r)
  {
    if Named(cs[1..], r) {
      var i :| 0 <= i < |cs[1..]| && cs[1..][i].run == r;
      assert cs[i + 1].run == r;
    }
    if i :| 0 <= i < |cs| && cs[i].run == r && i > 0 {
      assert cs[1..][i - 1].run == r;
    }
  }

  lemma DealtStatus(db: Db, c: Candidate, r: RunId)
    ensures HasStatus(Dealt(db, c), r, Applying) <==> HasStatus(db, r, Applying) && r != c.run
  {
  }

  /** The runs a sweep takes out of the routing are exactly the applying ones it was given, each of them once. */
  lemma {:induction false} SweepForgetsExactly(db: Db, cs: seq<Candidate>, r: RunId)
    ensures multiset(Reaped(db, cs, []))[r] == if HasStatus(db, r, Applying) && Named(cs, r) then 1 else 0
    decreases |cs|
  {
    if cs != [] {
      hide Reaped, Named, Dealt, HasStatus;
      NamedFirst(cs, r);
      ReapedDeals(db, cs);
      DealtStatus(db, cs[0], r);
      SweepForgetsExactly(Dealt(db, cs[0]), cs[1..], r);
    }
  }

  lemma ClaimIsLogged(outbox: seq<Event>, r: RunId) returns (i: nat)
    requires LastClaim(outbox, r).Some?
    ensures i < |outbox| && outbox[i].body.RunApplying? && outbox[i].body.run == r
    ensures LastClaim(outbox, r) == Some(outbox[i].occurredAt)
  {
    var last := |outbox| - 1;
    if outbox[last].body.RunApplying? && outbox[last].body.run == r {
      i := last;
    } else {
      i := ClaimIsLogged(outbox[..last], r);
    }
  }

  ghost predicate ClaimedOnce(outbox: seq<Event>, r: RunId) {
    forall i, j | 0 <= i < |outbox| && 0 <= j < |outbox| && outbox[i].body.RunApplying? &&
        outbox[j].body.RunApplying? ::
      outbox[i].body.run == r && outbox[j].body.run == r ==> i == j
  }

  /**
   No run that has been applying since before the cutoff survives a sweep; and for a run that
   was claimed only once, being errored by it means exactly that.
   */
  lemma NoOldAttemptSurvives(moves: seq<Move>, cutoff: Time, r: RunId)
    requires HasStatus(Exec(INITIAL, moves).db, r, Applying)
    ensures var db := Exec(INITIAL, moves).db;
            && db.runs[r].startedAt.Some?
            && (db.runs[r].startedAt.value < cutoff ==> Stale(db, r, cutoff))
            && (ClaimedOnce(db.outbox, r) ==> (Stale(db, r, cutoff) <==> db.runs[r].startedAt.value < cutoff))
  {
    var db := Exec(INITIAL, moves).db;
    ReachableInv(moves);
    assert RowAgrees(db.outbox, r, db.runs[r]);
    var i := ClaimIsLogged(db.outbox, r);
    assert db.outbox[i].occurredAt == db.runs[r].startedAt.value;
  }
}
