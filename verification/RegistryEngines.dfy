/**
 Workers get only the work they registered for: over every interleaving of all registries, an assignment
 in a channel is for an engine of the registration the channel was made for.
 */
module RegistryEngines {
  import opened WorkerFabric
  import opened RegistryRuns

  datatype Registration = Registration(worker: string, engines: set<string>)

  /** The registrations that were accepted, in order: the nth of them made the nth channel. */
  function Registrations(moves: seq<Move>): seq<Registration> {
    if moves == [] then []
    else
      var last := moves[|moves| - 1];
      Registrations(moves[..|moves| - 1]) +
      if last.Register? && last.worker != "" then [Registration(last.worker, last.engines)] else []
  }

  predicate EntriesMatch(d: Directory, offers: seq<Registration>) {
    forall w | w in d.workers ::
      d.workers[w].jobs < |offers| && offers[d.workers[w].jobs] == Registration(w, d.workers[w].engines)
  }

  predicate QueueMatches(ch: Channel, offer: Registration) {
    && ch.worker == offer.worker
    && forall x | x in ch.queue && x.Assignment? :: x.job.engine in offer.engines
  }

  predicate ChannelsMatch(c: World, offers: seq<Registration>) {
    |c.channels| == |offers| && forall k | 0 <= k < |offers| :: QueueMatches(c.channels[k], offers[k])
  }

  predicate Matched(s: State, offers: seq<Registration>) {
    ChannelsMatch(s.world, offers) && forall i | i in s.replicas :: EntriesMatch(s.replicas[i], offers)
  }

  /** A send of a cancel, or of an assignment for an engine the channel was registered with, keeps the match. */
  lemma PushedMatches(c: World, channel: nat, x: Command, offers: seq<Registration>)
    requires ChannelsMatch(c, offers)
    requires x.Assignment? && channel < |offers| ==> x.job.engine in offers[channel].engines
    ensures ChannelsMatch(Pushed(c, channel, x), offers)
  {
  }

  lemma DispatchMatches(s: State, m: Move, offers: seq<Registration>)
    requires Matched(s, offers) && m.Dispatch?
    ensures Matched(Next(s, m), offers)
  {
    var d := DirectoryOf(s, m.replica);
    if CanTake(d, s.world, m.worker, m.job) {
      assert EntriesMatch(d, offers);
      PushedMatches(s.world, d.workers[m.worker].jobs, Assignment(m.job), offers);
    }
  }

  lemma RegisterMatches(s: State, m: Move, offers: seq<Registration>)
    requires Matched(s, offers) && m.Register? && m.worker != ""
    ensures Matched(Next(s, m), offers + [Registration(m.worker, m.engines)])
  {
    assert EntriesMatch(DirectoryOf(s, m.replica), offers);
  }

  lemma WorkMatches(s: State, m: Move, offers: seq<Registration>)
    requires Matched(s, offers) && m.Work?
    ensures Matched(Next(s, m), offers)
  {
    if m.k < |s.tasks| {
      match s.tasks[m.k] {
        case SendCancel(_, run, channel) => PushedMatches(s.world, channel, Cancel(run), offers);
        case Untrack(replica, _) => assert EntriesMatch(DirectoryOf(s, replica), offers);
        case _ =>
      }
    }
  }

  lemma OtherMoveMatches(s: State, m: Move, offers: seq<Registration>)
    requires Matched(s, offers) && !m.Dispatch? && !m.Work? && !(m.Register? && m.worker != "")
    ensures Matched(Next(s, m), offers)
  {
    if m.Deregister? || m.Forget? {
      assert EntriesMatch(DirectoryOf(s, m.replica), offers);
    }
  }

  lemma {:induction false} ReachableMatched(moves: seq<Move>)
    ensures Matched(Exec(moves), Registrations(moves))
  {
    if moves != [] {
      var front, last := moves[..|moves| - 1], moves[|moves| - 1];
      var s, offers := Exec(front), Registrations(front);
      ReachableMatched(front);
      hide Matched, Next;
      if last.Register? && last.worker != "" {
        RegisterMatches(s, last, offers);
      } else {
        assert offers + [] == offers;
        if last.Dispatch? {
          DispatchMatches(s, last, offers);
        } else if last.Work? {
          WorkMatches(s, last, offers);
        } else {
          OtherMoveMatches(s, last, offers);
        }
      }
    }
  }

  lemma {:induction false} RegistrationWasMade(moves: seq<Move>, n: nat)
    requires n < |Registrations(moves)|
    ensures exists j | 0 <= j < |moves| ::
              && moves[j].Register? && Registration(moves[j].worker, moves[j].engines) == Registrations(moves)[n]
              && |Registrations(moves[..j])| == n
  {
    var last := |moves| - 1;
    if n < |Registrations(moves[..last])| {
      RegistrationWasMade(moves[..last], n);
      var j :| 0 <= j < last && moves[..last][j].Register? &&
        Registration(moves[..last][j].worker, moves[..last][j].engines) == Registrations(moves[..last])[n] &&
        |Registrations(moves[..last][..j])| == n;
      assert moves[..last][..j] == moves[..j] && moves[..last][j] == moves[j];
    } else {
      assert moves[..last] == moves[..|moves| - 1];
    }
  }

  /**
   Whatever all replicas do and however their steps interleave: an assignment waiting in a channel is for an
   engine with which that channel's worker registered when the channel was made.
   */
  lemma AssignmentsMatchEngine(moves: seq<Move>, channel: nat, k: nat)
    requires channel < |Exec(moves).world.channels| && k < |Exec(moves).world.channels[channel].queue|
    requires Exec(moves).world.channels[channel].queue[k].Assignment?
    ensures var ch := Exec(moves).world.channels[channel];
            exists j | 0 <= j < |moves| ::
              && moves[j].Register? && moves[j].worker == ch.worker
              && ch.queue[k].job.engine in moves[j].engines
              && |Exec(moves[..j]).world.channels| == channel
  {
    ReachableMatched(moves);
    var ch := Exec(moves).world.channels[channel];
    assert QueueMatches(ch, Registrations(moves)[channel]) && ch.queue[k] in ch.queue;
    RegistrationWasMade(moves, channel);
    var j :| 0 <= j < |moves| && moves[j].Register? &&
      Registration(moves[j].worker, moves[j].engines) == Registrations(moves)[channel] &&
      |Registrations(moves[..j])| == channel;
    ReachableMatched(moves[..j]);
  }
}
