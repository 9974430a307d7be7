/**
 The two machines together: the dispatches of all registries are the assignments of the
 execution protocol, and so each run is put into a channel at most once.
 */
module RegistryDispatch {
  import opened WorkerFabric
  import opened RegistryRuns
  import RunDomain
  import Tables
  import Protocol
  import ProtocolSafety

  predicate Assigns(x: Command, run: string) {
    x.Assignment? && x.job.run == run
  }

  /** The assignments of a run that wait in a queue, and in all channels. */
  function Waiting(queue: seq<Command>, run: string): nat {
    if queue == [] then 0 else Waiting(queue[..|queue| - 1], run) + if Assigns(queue[|queue| - 1], run) then 1 else 0
  }

  function Total(channels: seq<Channel>, run: string): nat {
    if channels == [] then 0 else Total(channels[..|channels| - 1], run) + Waiting(channels[|channels| - 1].queue, run)
  }

  lemma WaitingOneMore(queue: seq<Command>, x: Command, run: string)
    ensures Waiting(queue + [x], run) == Waiting(queue, run) + if Assigns(x, run) then 1 else 0
  {
    assert (queue + [x])[..|queue|] == queue;
  }

  lemma {:induction false} WaitingOneLess(queue: seq<Command>, run: string)
    requires queue != []
    ensures Waiting(queue[1..], run) == Waiting(queue, run) - if Assigns(queue[0], run) then 1 else 0
  {
    if |queue| > 1 {
      var front := queue[..|queue| - 1];
      WaitingOneLess(front, run);
      assert queue[1..][..|queue| - 2] == front[1..];
    }
  }

  lemma {:induction false} TotalOfUpdated(channels: seq<Channel>, k: nat, ch: Channel, run: string)
    requires k < |channels|
    ensures Total(channels[k := ch], run) ==
            Total(channels, run) - Waiting(channels[k].queue, run) + Waiting(ch.queue, run)
  {
    var last := |channels| - 1;
    if k < last {
      TotalOfUpdated(channels[..last], k, ch, run);
      assert channels[k := ch][..last] == channels[..last][k := ch];
    } else {
      assert channels[k := ch][..last] == channels[..last];
    }
  }

  lemma TotalOfPushed(c: World, channel: nat, x: Command, run: string)
    requires HasRoom(c, channel) || !Assigns(x, run)
    ensures Total(Pushed(c, channel, x).channels, run) == Total(c.channels, run) + if Assigns(x, run) then 1 else 0
  {
    if HasRoom(c, channel) {
      var ch := c.channels[channel];
      WaitingOneMore(ch.queue, x, run);
      TotalOfUpdated(c.channels, channel, ch.(queue := ch.queue + [x]), run);
    }
  }

  lemma TotalOfNewChannel(c: World, worker: string, run: string)
    ensures Total(WithChannel(c, worker).channels, run) == Total(c.channels, run)
  {
    assert WithChannel(c, worker).channels[..|c.channels|] == c.channels;
  }

  /** The run a move dispatches, if it does. */
  function Dispatched(s: State, m: Move): seq<string> {
    if m.Dispatch? && CanTake(DirectoryOf(s, m.replica), s.world, m.worker, m.job) then [m.job.run] else []
  }

  /** The assignment of the run a worker takes out of its channel. */
  predicate Takes(s: State, m: Move, run: string) {
    && m.Receive? && m.channel < |s.world.channels| && s.world.channels[m.channel].queue != []
    && Assigns(s.world.channels[m.channel].queue[0], run)
  }

  /** Only a dispatch puts an assignment into a channel, and only one; only a worker takes one out. */
  lemma MoveEnqueues(s: State, m: Move, run: string)
    ensures Total(Next(s, m).world.channels, run) ==
            Total(s.world.channels, run)
            + (if Dispatched(s, m) == [run] then 1 else 0) - (if Takes(s, m, run) then 1 else 0)
  {
    hide Total, Waiting;
    match m {
      case Register(_, worker, _, _) => TotalOfNewChannel(s.world, worker, run);
      case Dispatch(replica, job, worker) =>
        var d := DirectoryOf(s, replica);
        if CanTake(d, s.world, worker, job) {
          TotalOfPushed(s.world, d.workers[worker].jobs, Assignment(job), run);
        }
      case Work(k, ok) =>
        if k < |s.tasks| && s.tasks[k].SendCancel? {
          TotalOfPushed(s.world, s.tasks[k].channel, Cancel(s.tasks[k].run), run);
        }
      case Receive(channel) =>
        if channel < |s.world.channels| && s.world.channels[channel].queue != [] {
          var ch := s.world.channels[channel];
          WaitingOneLess(ch.queue, run);
          TotalOfUpdated(s.world.channels, channel, ch.(queue := ch.queue[1..]), run);
        }
      case _ =>
    }
  }

  function AllDispatched(moves: seq<Move>): seq<string> {
    if moves == [] then []
    else AllDispatched(moves[..|moves| - 1]) + Dispatched(Exec(moves[..|moves| - 1]), moves[|moves| - 1])
  }

  /** How many times an assignment of the run has entered a channel, whatever has been taken out since. */
  function EverEnqueued(moves: seq<Move>, run: string): nat {
    if moves == [] then 0
    else
      var front := moves[..|moves| - 1];
      var before, after := Total(Exec(front).world.channels, run), Total(Exec(moves).world.channels, run);
      EverEnqueued(front, run) + if after > before then after - before else 0
  }

  lemma CountAppended(xs: seq<string>, ys: seq<string>, x: string)
    ensures multiset(xs + ys)[x] == multiset(xs)[x] + multiset(ys)[x]
  {
  }

  /** What has entered the channels is what was dispatched, and no more is waiting in them. */
  lemma {:induction false} EnqueuedIsDispatched(moves: seq<Move>, run: string)
    ensures EverEnqueued(moves, run) == multiset(AllDispatched(moves))[run]
    ensures Total(Exec(moves).world.channels, run) <= EverEnqueued(moves, run)
  {
    if moves != [] {
      var front, last := moves[..|moves| - 1], moves[|moves| - 1];
      EnqueuedIsDispatched(front, run);
      MoveEnqueues(Exec(front), last, run);
      hide Next, Total;
      CountAppended(AllDispatched(front), Dispatched(Exec(front), last), run);
    }
  }

  function Named(jobs: seq<RunDomain.RunId>, name: RunDomain.RunId -> string): (r: seq<string>)
    ensures |r| == |jobs| && forall i | 0 <= i < |jobs| :: r[i] == name(jobs[i])
  {
    seq(|jobs|, i requires 0 <= i < |jobs| => name(jobs[i]))
  }

  ghost predicate Injective(name: RunDomain.RunId -> string) {
    forall r, r' :: name(r) == name(r') ==> r == r'
  }

  lemma {:induction false} NamedCount(jobs: seq<RunDomain.RunId>, name: RunDomain.RunId -> string, r: RunDomain.RunId)
    requires Injective(name)
    ensures multiset(Named(jobs, name))[name(r)] == multiset(jobs)[r]
  {
    if jobs != [] {
      var front := jobs[..|jobs| - 1];
      NamedCount(front, name, r);
      assert Named(jobs, name) == Named(front, name) + [name(jobs[|jobs| - 1])];
      assert jobs == front + [jobs[|jobs| - 1]];
    }
  }

  lemma PrefixCount(xs: seq<string>, ys: seq<string>, x: string)
    requires xs <= ys
    ensures multiset(xs)[x] <= multiset(ys)[x]
  {
    assert ys == xs + ys[|xs|..];
  }

  /**
   At-most-once at the channels: whatever the protocol does, and whatever all registries do with
   the assignments the protocol has made so far, in order, at most one assignment of a run ever
   enters any channel of any replica, and none while the run is queued.
   */
  lemma AtMostOneAssignmentEnqueued(moves: seq<Protocol.Move>, calls: seq<Move>, name: RunDomain.RunId -> string,
      r: RunDomain.RunId)
    requires Injective(name) && AllDispatched(calls) <= Named(Protocol.Exec(Protocol.INITIAL, moves).db.jobs, name)
    ensures EverEnqueued(calls, name(r)) <= 1
    ensures Tables.HasStatus(Protocol.Exec(Protocol.INITIAL, moves).db, r, RunDomain.Queued) ==>
            EverEnqueued(calls, name(r)) == 0
    ensures Total(Exec(calls).world.channels, name(r)) <= EverEnqueued(calls, name(r))
  {
    var jobs := Protocol.Exec(Protocol.INITIAL, moves).db.jobs;
    hide *;
    EnqueuedIsDispatched(calls, name(r));
    PrefixCount(AllDispatched(calls), Named(jobs, name), name(r));
    NamedCount(jobs, name, r);
    ProtocolSafety.AtMostOnceAssignment(moves, r);
  }
}
