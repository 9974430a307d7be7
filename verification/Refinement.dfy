/**
 The two views of a service meet: what a thread goes through in a schedule of the protocol is
 what its service's code does when the script replays the other threads of that schedule.
 */
module Refinement {
  import opened Wrappers
  import opened RunDomain
  import opened Tables
  import opened Protocol
  import opened Repositories
  import opened Services

  /** What happens up to and including the next call of one thread. */
  datatype Round = Round(others: seq<Move>, outcome: Outcome)

  function ThreadAt(s: State, t: ThreadId): Option<Thread> {
    if t in s.threads then Some(s.threads[t]) else None
  }

  predicate Concerns(m: Move, t: ThreadId) {
    !m.WriteForeign? && !m.Tick? && m.t == t
  }

  function Interleaved(t: ThreadId, rounds: seq<Round>): seq<Move> {
    if rounds == [] then []
    else rounds[0].others + [Step(t, rounds[0].outcome)] + Interleaved(t, rounds[1..])
  }

  /** The script that replays the others as they were in the schedule. */
  function ScriptOf(s: State, t: ThreadId, rounds: seq<Round>): seq<Slot>
    decreases |rounds|
  {
    if rounds == [] then []
    else
      var before := Exec(s, rounds[0].others);
      [Slot(_ => before.db, rounds[0].outcome)] +
      ScriptOf(Next(before, Step(t, rounds[0].outcome)), t, rounds[1..])
  }

  /** The rounds belong to thread t: the others leave it alone and it is in a service at each round. */
  ghost predicate Belong(s: State, t: ThreadId, rounds: seq<Round>)
    decreases |rounds|
  {
    rounds != [] ==>
      && t in s.threads && !s.threads[t].RelayFetch? && !s.threads[t].SweepFind?
      && (forall m | m in rounds[0].others :: !Concerns(m, t))
      && Belong(Next(Exec(s, rounds[0].others), Step(t, rounds[0].outcome)), t, rounds[1..])
  }

  lemma {:induction false} ExecSplit(s: State, xs: seq<Move>, ys: seq<Move>)
    ensures Exec(s, xs + ys) == Exec(Exec(s, xs), ys)
    decreases |xs|
  {
    if xs == [] {
      assert xs + ys == ys;
    } else {
      assert (xs + ys)[1..] == xs[1..] + ys;
      ExecSplit(Next(s, xs[0]), xs[1..], ys);
    }
  }

  lemma {:induction false} OthersLeave(s: State, t: ThreadId, moves: seq<Move>)
    requires forall m | m in moves :: !Concerns(m, t)
    ensures ThreadAt(Exec(s, moves), t) == ThreadAt(s, t)
    decreases |moves|
  {
    if moves != [] {
      assert moves[0] in moves && !Concerns(moves[0], t);
      assert ThreadAt(Next(s, moves[0]), t) == ThreadAt(s, t) by { hide CallOf, After, Commit; }
      OthersLeave(Next(s, moves[0]), t, moves[1..]);
    }
  }

  /** Playing the thread against that script arrives where the schedule arrives. */
  lemma {:induction false} SchedulesAreScripts(s: State, t: ThreadId, rounds: seq<Round>)
    requires Belong(s, t, rounds)
    ensures var s' := Exec(s, Interleaved(t, rounds));
            Play(s.db, ThreadAt(s, t), ScriptOf(s, t, rounds)) == Play(s'.db, ThreadAt(s', t), [])
    decreases |rounds|
  {
    if rounds != [] {
      hide Play, CallOf, After, Commit;
      var step := Step(t, rounds[0].outcome);
      var before := Exec(s, rounds[0].others);
      var after := Next(before, step);
      OthersLeave(s, t, rounds[0].others);
      ExecSplit(s, rounds[0].others, [step] + Interleaved(t, rounds[1..]));
      assert Interleaved(t, rounds) == rounds[0].others + ([step] + Interleaved(t, rounds[1..]));
      assert ([step] + Interleaved(t, rounds[1..]))[1..] == Interleaved(t, rounds[1..]);
      var script := ScriptOf(s, t, rounds);
      assert script[1..] == ScriptOf(after, t, rounds[1..]);
      PlayCall(s.db, s.threads[t], script);
      SchedulesAreScripts(after, t, rounds[1..]);
    }
  }
}
