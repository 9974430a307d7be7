/** One replica's registry: the methods as they run when nothing interferes. */
module Registry {
  import opened Wrappers
  import opened WorkerFabric
  import Runs = RegistryRuns

  /** What the replicas share. */
  class Fabric {
    var world: World

    constructor ()
      ensures world == World([], map[], map[], [])
    {
      world := World([], map[], map[], []);
    }
  }

  /** Both cancel paths on the replica that has the worker. */
  datatype Cancelled = Cancelled(directory: Directory, world: World, delivered: bool, tracked: bool)

  function CancelledHere(d: Directory, c: World, run: string, dropFails: bool): Cancelled {
    match Route(d, run)
    case None => Cancelled(d, c, false, false)
    case Some(channel) =>
      var c1 := Pushed(c, channel, Cancel(run));
      Cancelled(Untracked(d, run), if dropFails then c1 else RunDropped(c1, run), HasRoom(c, channel), true)
  }

  /** What a registration writes to the shared keys. */
  function Announced(c: World, worker: string, replica: string, active: seq<string>, ownerFails: bool,
      failing: set<string>): World {
    RunsSet(if ownerFails then c else OwnerSet(c, worker, replica), active, worker, failing)
  }

  datatype Faults = Faults(readRun: bool, readOwner: bool, publish: bool, dropRun: bool)

  datatype CancelReply = CancelReply(delivered: bool, failed: bool)

  /** A cancel asked of any replica: here if it can, else forwarded to the replica the shared keys name. */
  function CancelAsked(d: Directory, c: World, replica: string, run: string, f: Faults)
    : (Directory, World, CancelReply)
  {
    var here := CancelledHere(d, c, run, f.dropRun);
    if here.tracked then (here.directory, here.world, CancelReply(here.delivered, false))
    else if f.readRun then (d, c, CancelReply(false, true))
    else if run !in c.runWorker then (d, c, CancelReply(false, false))
    else if f.readOwner then (d, c, CancelReply(false, true))
    else if c.runWorker[run] !in c.owner || c.owner[c.runWorker[run]] == replica then (d, c, CancelReply(false, false))
    else if f.publish then (d, c, CancelReply(false, true))
    else (d, Published(c, c.owner[c.runWorker[run]], run), CancelReply(true, false))
  }

  class Registry {
    const id: string
    const fabric: Fabric
    var workers: map<string, Entry>
    var runToWorker: map<string, string>

    constructor (id: string, fabric: Fabric)
      ensures this.id == id && this.fabric == fabric && View() == Directory(map[], map[])
    {
      this.id, this.fabric := id, fabric;
      workers, runToWorker := map[], map[];
    }

    ghost function View(): Directory
      reads this
    {
      Directory(workers, runToWorker)
    }

    ghost predicate Valid()
      reads this, fabric
    {
      WellFormed(View(), fabric.world)
    }

    /** Refuses an empty worker id; otherwise the worker gets a channel and its running jobs are routed to it. */
    method Register(worker: string, engines: set<string>, active: seq<string>, ownerFails: bool, failing: set<string>)
      returns (accepted: bool, channel: nat)
      requires Valid()
      modifies this, fabric
      ensures Valid() && accepted == (worker != "")
      ensures !accepted ==> View() == old(View()) && fabric.world == old(fabric.world)
      ensures accepted ==>
                && channel == |old(fabric.world).channels|
                && View() == Registered(old(View()), old(fabric.world), worker, engines, active)
                && fabric.world == Announced(WithChannel(old(fabric.world), worker), worker, id, active, ownerFails,
                    failing)
      // the same field by field
      ensures accepted ==>
                && workers == old(workers)[worker := Entry(engines, channel)]
                && fabric.world.channels == old(fabric.world).channels + [Channel(worker, [])]
                && (forall r | r in active :: r in runToWorker && runToWorker[r] == worker)
                && (forall r | r !in active :: r in runToWorker <==> r in old(runToWorker))
                && (forall r | r in runToWorker && r !in active :: runToWorker[r] == old(runToWorker)[r])
                && (!ownerFails ==> worker in fabric.world.owner && fabric.world.owner[worker] == id)
                && (forall r | r in active && r !in failing ::
                      r in fabric.world.runWorker && fabric.world.runWorker[r] == worker)
    {
      if worker == "" {
        return false, 0;
      }
      accepted, channel := true, |fabric.world.channels|;
      fabric.world := WithChannel(fabric.world, worker);
      workers := workers[worker := Entry(engines, channel)];
      TrackAll(worker, active);
      if !ownerFails {
        fabric.world := OwnerSet(fabric.world, worker, id);
      }
      PublishAll(worker, active, failing);
    }

    method TrackAll(worker: string, active: seq<string>)
      modifies `runToWorker
      ensures runToWorker == old(runToWorker) + RoutesTo(worker, active)
    {
      for i := 0 to |active|
        invariant runToWorker == old(runToWorker) + RoutesTo(worker, active[..i])
      {
        assert forall r :: r in active[..i + 1] <==> r in active[..i] || r == active[i];
        runToWorker := runToWorker[active[i] := worker];
      }
      assert active[..|active|] == active;
    }

    method PublishAll(worker: string, active: seq<string>, failing: set<string>)
      modifies fabric
      ensures fabric.world == RunsSet(old(fabric.world), active, worker, failing)
    {
      hide RunsSet;
      NoRunsSet(fabric.world, worker, failing);
      for i := 0 to |active|
        invariant fabric.world == RunsSet(old(fabric.world), active[..i], worker, failing)
      {
        OneMoreRunSet(old(fabric.world), active[..i], active[i], worker, failing);
        assert active[..i + 1] == active[..i] + [active[i]];
        if active[i] !in failing {
          fabric.world := RunSet(fabric.world, active[i], worker);
        }
      }
      assert active[..|active|] == active;
    }

    method Deregister(worker: string, dropFails: bool)
      requires Valid()
      modifies this, fabric
      ensures Valid() && View() == Deregistered(old(View()), worker)
      ensures fabric.world == if dropFails then old(fabric.world) else OwnerDropped(old(fabric.world), worker)
      ensures worker !in workers && (!dropFails ==> worker !in fabric.world.owner)
    {
      workers := workers - {worker};
      if !dropFails {
        fabric.world := OwnerDropped(fabric.world, worker);
      }
    }

    /**
     Tries the workers in any order. Either one of them, with the engine and with room, gets exactly this
     job, or none does and nothing changes, because every worker here with the engine has a full channel.
     */
    method Dispatch(job: Job, publishFails: bool) returns (dispatched: bool, ghost worker: string)
      requires Valid()
      modifies this, fabric
      ensures Valid()
      ensures dispatched ==>
                && CanTake(old(View()), old(fabric.world), worker, job)
                && View() == Tracked(old(View()), job.run, worker)
                && var c := Pushed(old(fabric.world), old(workers)[worker].jobs, Assignment(job));
                   fabric.world == if publishFails then c else RunSet(c, job.run, worker)
      ensures !dispatched ==> View() == old(View()) && fabric.world == old(fabric.world)
      ensures dispatched <==> exists w | w in old(workers) :: CanTake(old(View()), old(fabric.world), w, job)
      // the same field by field
      ensures dispatched ==>
                && worker in old(workers) && job.engine in old(workers)[worker].engines
                && workers == old(workers) && runToWorker == old(runToWorker)[job.run := worker]
                && var k, channels := old(workers)[worker].jobs, old(fabric.world).channels;
                   && k < |channels| && |channels[k].queue| < 16
                   && fabric.world.channels ==
                      channels[k := Channel(channels[k].worker, channels[k].queue + [Assignment(job)])]
      ensures !dispatched ==>
                forall w | w in old(workers) && job.engine in old(workers)[w].engines ::
                  old(workers)[w].jobs < |old(fabric.world).channels| &&
                      |old(fabric.world).channels[old(workers)[w].jobs].queue| >= 16
    {
      var matched := "";
      var left := workers.Keys;
      while left != {}
        invariant left <= workers.Keys && matched == ""
        invariant View() == old(View()) && fabric.world == old(fabric.world)
        invariant forall w | w in workers && w !in left :: !CanTake(View(), fabric.world, w, job)
      {
        var w :| w in left;
        left := left - {w};
        if job.engine !in workers[w].engines {
          continue;
        }
        if HasRoom(fabric.world, workers[w].jobs) {
          assert CanTake(old(View()), old(fabric.world), w, job);
          fabric.world := Pushed(fabric.world, workers[w].jobs, Assignment(job));
          runToWorker := runToWorker[job.run := w];
          matched := w;
          break;
        }
      }
      worker := matched;
      if matched == "" {
        return false, "";
      }
      if !publishFails {
        fabric.world := RunSet(fabric.world, job.run, matched);
      }
      dispatched := true;
    }

    method CancelLocal(run: string, dropFails: bool) returns (delivered: bool, tracked: bool)
      requires Valid()
      modifies this, fabric
      ensures Valid()
      ensures Cancelled(View(), fabric.world, delivered, tracked) ==
              CancelledHere(old(View()), old(fabric.world), run, dropFails)
      // the same field by field
      ensures tracked <==> run in old(runToWorker) && old(runToWorker)[run] in old(workers)
      ensures tracked ==>
                && workers == old(workers) && runToWorker == old(runToWorker) - {run}
                && (!dropFails ==> fabric.world.runWorker == old(fabric.world).runWorker - {run})
                && var k, channels := old(workers)[old(runToWorker)[run]].jobs, old(fabric.world).channels;
                   && k < |channels| && (delivered <==> |channels[k].queue| < 16)
                   && fabric.world.channels ==
                      if delivered then channels[k := Channel(channels[k].worker, channels[k].queue + [Cancel(run)])]
                      else channels
      ensures !tracked ==> !delivered && View() == old(View()) && fabric.world == old(fabric.world)
    {
      if run !in runToWorker || runToWorker[run] !in workers {
        return false, false;
      }
      var channel := workers[runToWorker[run]].jobs;
      delivered := HasRoom(fabric.world, channel);
      if delivered {
        fabric.world := Pushed(fabric.world, channel, Cancel(run));
      }
      runToWorker := runToWorker - {run};
      if !dropFails {
        fabric.world := RunDropped(fabric.world, run);
      }
      tracked := true;
    }

    method CancelJob(run: string, f: Faults) returns (reply: CancelReply)
      requires Valid()
      modifies this, fabric
      ensures Valid()
      ensures (View(), fabric.world, reply) == CancelAsked(old(View()), old(fabric.world), id, run, f)
      // the same field by field, for a run no worker of this replica has
      ensures !(run in old(runToWorker) && old(runToWorker)[run] in old(workers)) ==>
                var owner, runWorker := old(fabric.world).owner, old(fabric.world).runWorker;
                var elsewhere := run in runWorker && runWorker[run] in owner && owner[runWorker[run]] != id;
                && (reply.delivered <==> elsewhere && !f.readRun && !f.readOwner && !f.publish)
                && fabric.world ==
                   if reply.delivered then
                     old(fabric.world).(
                       published := old(fabric.world).published + [Message(owner[runWorker[run]], run)])
                   else old(fabric.world)
    {
      var delivered, tracked := CancelLocal(run, f.dropRun);
      if tracked {
        return CancelReply(delivered, false);
      }
      if f.readRun {
        return CancelReply(false, true);
      }
      if run !in fabric.world.runWorker {
        return CancelReply(false, false);
      }
      var worker := fabric.world.runWorker[run];
      if f.readOwner {
        return CancelReply(false, true);
      }
      if worker !in fabric.world.owner {
        return CancelReply(false, false);
      }
      var owner := fabric.world.owner[worker];
      if owner == id {
        return CancelReply(false, false);
      }
      if f.publish {
        return CancelReply(false, true);
      }
      fabric.world := Published(fabric.world, owner, run);
      return CancelReply(true, false);
    }

    /** The receiving half of a forwarded cancel. */
    method ReceiveCancel(k: nat, dropFails: bool)
      requires Valid() && k < |fabric.world.published| && fabric.world.published[k].to == id
      modifies this, fabric
      ensures Valid()
      ensures var c := WithoutMessage(old(fabric.world), k);
              var after := CancelledHere(old(View()), c, old(fabric.world).published[k].run, dropFails);
              View() == after.directory && fabric.world == after.world
    {
      var run := fabric.world.published[k].run;
      fabric.world := WithoutMessage(fabric.world, k);
      var _, _ := CancelLocal(run, dropFails);
    }

    method Forget(run: string, dropFails: bool)
      requires Valid()
      modifies this, fabric
      ensures Valid() && View() == Untracked(old(View()), run)
      ensures fabric.world == if dropFails then old(fabric.world) else RunDropped(old(fabric.world), run)
      ensures run !in runToWorker && (!dropFails ==> run !in fabric.world.runWorker)
    {
      runToWorker := runToWorker - {run};
      if !dropFails {
        fabric.world := RunDropped(fabric.world, run);
      }
    }
  }

  // ---- across replicas ----

  /** A forwarded cancel does to its owner and to everything shared what a cancel asked of the owner does. */
  lemma ForwardedIsLocal(a: Directory, aId: string, b: Directory, bId: string, c: World, run: string, f: Faults)
    requires Route(a, run).None? && Route(b, run).Some? && aId != bId
    requires run in c.runWorker && c.runWorker[run] in c.owner && c.owner[c.runWorker[run]] == bId
    requires !f.readRun && !f.readOwner && !f.publish
    ensures var (a1, c1, reply) := CancelAsked(a, c, aId, run, f);
            && a1 == a && reply == CancelReply(true, false)
            && |c1.published| == |c.published| + 1 && c1.published[|c.published|] == Message(bId, run)
            && var after := CancelledHere(b, WithoutMessage(c1, |c.published|), run, f.dropRun);
               (after.directory, after.world) == (CancelAsked(b, c, bId, run, f).0, CancelAsked(b, c, bId, run, f).1)
  {
    var c1 := Published(c, bId, run);
    assert WithoutMessage(c1, |c.published|) == c;
  }

  /**
   After a dispatch, a cancel asked of any replica ends in the channel that got the job, behind it, if there
   is room: here, or forwarded once the owner key names the replica that dispatched.
   */
  lemma CancelFollowsJob(
    a: Directory, aId: string, b: Directory, bId: string, c: World, worker: string, job: Job, f: Faults, same: bool)
    requires CanTake(b, c, worker, job) && worker in c.owner && c.owner[worker] == bId
    requires HasRoom(Pushed(c, b.workers[worker].jobs, Assignment(job)), b.workers[worker].jobs)
    requires same || (aId != bId && Route(a, job.run).None?)
    requires !f.readRun && !f.readOwner && !f.publish
    ensures var jobs := b.workers[worker].jobs;
            var b1 := Tracked(b, job.run, worker);
            var c1 := RunSet(Pushed(c, jobs, Assignment(job)), job.run, worker);
            var asked := if same then CancelAsked(b1, c1, bId, job.run, f) else CancelAsked(a, c1, aId, job.run, f);
            asked.2 == CancelReply(true, false) &&
            var c2 := if same then asked.1
                      else CancelledHere(b1, WithoutMessage(asked.1, |c.published|), job.run, f.dropRun).world;
            c2.channels[jobs].queue == c.channels[jobs].queue + [Assignment(job), Cancel(job.run)]
  {
    var b1 := Tracked(b, job.run, worker);
    var c1 := RunSet(Pushed(c, b.workers[worker].jobs, Assignment(job)), job.run, worker);
    assert Route(b1, job.run) == Some(b.workers[worker].jobs);
    if !same {
      ForwardedIsLocal(a, aId, b1, bId, c1, job.run, f);
    }
  }

  // ---- a whole call is one schedule of its steps ----

  /** Nothing in between: the machine's steps of a cancel of a run routed here, one after the other, are the cancel. */
  lemma LocalCancelIsAllItsSteps(s: Runs.State, replica: string, run: string, f: Faults)
    requires s.tasks == [] && Route(Runs.DirectoryOf(s, replica), run).Some?
    ensures var (d, c, _) := CancelAsked(Runs.DirectoryOf(s, replica), s.world, replica, run, f);
            var s1 := Runs.Next(s, Runs.CancelJob(replica, run));
            var s2 := Runs.Next(s1, Runs.Work(0, true));
            var s3 := Runs.Next(s2, Runs.Work(0, true));
            var s4 := Runs.Next(s3, Runs.Work(0, !f.dropRun));
            Runs.DirectoryOf(s4, replica) == d && s4.world == c && s4.tasks == []
  {
  }

  /** And so are those of a cancel that has to go by the shared keys. */
  lemma RemoteCancelIsAllItsSteps(s: Runs.State, replica: string, run: string, f: Faults)
    requires s.tasks == [] && Route(Runs.DirectoryOf(s, replica), run).None?
    ensures var (d, c, _) := CancelAsked(Runs.DirectoryOf(s, replica), s.world, replica, run, f);
            var s1 := Runs.Next(s, Runs.CancelJob(replica, run));
            var s2 := Runs.Next(s1, Runs.Work(0, !f.readRun));
            var s3 := Runs.Next(s2, Runs.Work(0, !f.readOwner));
            var s4 := Runs.Next(s3, Runs.Work(0, !f.publish));
            Runs.DirectoryOf(s4, replica) == d && s4.world == c && s4.tasks == []
  {
  }

  /** Likewise a dispatch, for the worker it happens to pick. */
  lemma DispatchIsAllItsSteps(s: Runs.State, replica: string, job: Job, worker: string, publishFails: bool)
    requires s.tasks == [] && CanTake(Runs.DirectoryOf(s, replica), s.world, worker, job)
    ensures var d := Runs.DirectoryOf(s, replica);
            var s1 := Runs.Next(s, Runs.Dispatch(replica, job, worker));
            var s2 := Runs.Next(s1, Runs.Work(0, !publishFails));
            var s3 := Runs.Next(s2, Runs.Work(0, true));
            var c := Pushed(s.world, d.workers[worker].jobs, Assignment(job));
            && Runs.DirectoryOf(s3, replica) == Tracked(d, job.run, worker) && s3.tasks == []
            && s3.world == if publishFails then c else RunSet(c, job.run, worker)
  {
  }
}
