/** Worker channels, the per-replica directory, and the routing keys replicas share: the atomic steps on them. */
module WorkerFabric {
  import opened Wrappers

  /** How many commands wait in a worker's channel at most. */
  const CAPACITY := 16

  datatype Job = Job(run: string, organization: string, workspace: string, engine: string, config: string,
      credential: string)

  datatype Command = Assignment(job: Job) | Cancel(run: string)

  /** A channel and the worker it was made for. */
  datatype Channel = Channel(worker: string, queue: seq<Command>)

  datatype Message = Message(to: string, run: string)

  /** What is outside a replica's own memory: channels, the two kinds of routing keys, cancels on their way. */
  datatype World = World(
    channels: seq<Channel>,
    runWorker: map<string, string>,
    owner: map<string, string>,
    published: seq<Message>)

  datatype Entry = Entry(engines: set<string>, jobs: nat)

  /** One replica's directory. */
  datatype Directory = Directory(workers: map<string, Entry>, runToWorker: map<string, string>)

  /** Registration refuses an empty id; a channel is used for the worker it was made for. */
  predicate WellFormed(d: Directory, c: World) {
    && "" !in d.workers
    && forall w | w in d.workers :: d.workers[w].jobs < |c.channels| && c.channels[d.workers[w].jobs].worker == w
  }

  predicate HasRoom(c: World, channel: nat) {
    channel < |c.channels| && |c.channels[channel].queue| < CAPACITY
  }

  /** A send that does not wait. */
  function Pushed(c: World, channel: nat, command: Command): World {
    if !HasRoom(c, channel) then c
    else
      var ch := c.channels[channel];
      c.(channels := c.channels[channel := ch.(queue := ch.queue + [command])])
  }

  // ---- registering ----

  function RoutesTo(worker: string, runs: seq<string>): map<string, string> {
    map r | r in runs :: worker
  }

  function Registered(d: Directory, c: World, worker: string, engines: set<string>, active: seq<string>): Directory {
    Directory(d.workers[worker := Entry(engines, |c.channels|)], d.runToWorker + RoutesTo(worker, active))
  }

  function WithChannel(c: World, worker: string): World {
    c.(channels := c.channels + [Channel(worker, [])])
  }

  function Deregistered(d: Directory, worker: string): Directory {
    d.(workers := d.workers - {worker})
  }

  // ---- dispatching ----

  predicate Supports(d: Directory, worker: string, engine: string) {
    worker in d.workers && engine in d.workers[worker].engines
  }

  predicate CanTake(d: Directory, c: World, worker: string, job: Job) {
    Supports(d, worker, job.engine) && HasRoom(c, d.workers[worker].jobs)
  }

  function Tracked(d: Directory, run: string, worker: string): Directory {
    d.(runToWorker := d.runToWorker[run := worker])
  }

  function Untracked(d: Directory, run: string): Directory {
    d.(runToWorker := d.runToWorker - {run})
  }

  // ---- cancelling ----

  /** The channel of the worker this replica has for the run, if it is connected here. */
  function Route(d: Directory, run: string): Option<nat> {
    if run in d.runToWorker && d.runToWorker[run] in d.workers then Some(d.workers[d.runToWorker[run]].jobs) else None
  }

  // ---- the shared keys ----

  function OwnerSet(c: World, worker: string, replica: string): World {
    c.(owner := c.owner[worker := replica])
  }

  function OwnerDropped(c: World, worker: string): World {
    c.(owner := c.owner - {worker})
  }

  function RunSet(c: World, run: string, worker: string): World {
    c.(runWorker := c.runWorker[run := worker])
  }

  /** The routes of several runs, but for those whose write fails. */
  function RunsSet(c: World, runs: seq<string>, worker: string, failing: set<string>): World {
    c.(runWorker := c.runWorker + map r | r in runs && r !in failing :: worker)
  }

  lemma NoRunsSet(c: World, worker: string, failing: set<string>)
    ensures RunsSet(c, [], worker, failing) == c
  {
    var none := map r | r in [] && r !in failing :: worker;
    assert c.runWorker + none == c.runWorker;
  }

  lemma OneMoreRunSet(c: World, runs: seq<string>, run: string, worker: string, failing: set<string>)
    ensures RunsSet(c, runs + [run], worker, failing) ==
            if run in failing then RunsSet(c, runs, worker, failing)
            else RunSet(RunsSet(c, runs, worker, failing), run, worker)
  {
    assert forall r :: r in runs + [run] <==> r in runs || r == run;
    var before := map r | r in runs && r !in failing :: worker;
    var after := map r | r in runs + [run] && r !in failing :: worker;
    assert after == if run in failing then before else before[run := worker];
    assert run !in failing ==> c.runWorker + after == (c.runWorker + before)[run := worker];
  }

  function RunDropped(c: World, run: string): World {
    c.(runWorker := c.runWorker - {run})
  }

  function Published(c: World, to: string, run: string): World {
    c.(published := c.published + [Message(to, run)])
  }

  function WithoutMessage(c: World, k: nat): World
    requires k < |c.published|
  {
    c.(published := c.published[..k] + c.published[k + 1..])
  }
}
