/** All replicas at once: registry calls taken apart at their locks and shared-key calls, and interleaved. */
module RegistryRuns {
  import opened Wrappers
  import opened WorkerFabric

  /** What is left to do of a registry call. */
  datatype Task =
    | ClaimWorker(replica: string, worker: string, runs: seq<string>)
    | PublishRoutes(worker: string, runs: seq<string>)
    | ReleaseWorker(worker: string)
    | SendCancel(replica: string, run: string, channel: nat)
    | Untrack(replica: string, run: string)
    | DropRoute(run: string)
    | ReadRoute(replica: string, run: string)
    | ReadOwner(replica: string, run: string, worker: string)
    | Forward(to: string, run: string)

  /** The worker was assigned the run or reported it active. */
  datatype Link = Link(run: string, worker: string)

  datatype State = State(replicas: map<string, Directory>, world: World, tasks: seq<Task>, links: set<Link>)

  datatype Move =
    | Register(replica: string, worker: string, engines: set<string>, active: seq<string>)
    | Deregister(replica: string, worker: string)
    | Dispatch(replica: string, job: Job, worker: string)
    | CancelJob(replica: string, run: string)
    | Forget(replica: string, run: string)
    | Work(k: nat, ok: bool)
    | Abandon(k: nat)
    | DeliverCancel(k: nat)
    | LoseCancel(k: nat)
    | ExpireOwner(worker: string)
    | Receive(channel: nat)
    | Restart(replica: string)

  const START := State(map[], World([], map[], map[], []), [], {})

  function DirectoryOf(s: State, replica: string): Directory {
    if replica in s.replicas then s.replicas[replica] else Directory(map[], map[])
  }

  function WithDirectory(s: State, replica: string, d: Directory): State {
    s.(replicas := s.replicas[replica := d])
  }

  function WithTask(s: State, t: Task): State {
    s.(tasks := s.tasks + [t])
  }

  /** The first half of a local cancel: the channel is looked up under the lock, the send comes later. */
  function LookUp(s: State, replica: string, run: string, otherwise: State): State {
    match Route(DirectoryOf(s, replica), run)
    case Some(channel) => WithTask(s, SendCancel(replica, run, channel))
    case None => otherwise
  }

  /** One task's next step, and what remains of it. */
  function Worked(s: State, t: Task, ok: bool): (State, Option<Task>) {
    match t
    case ClaimWorker(replica, worker, runs) =>
      (if ok then s.(world := OwnerSet(s.world, worker, replica)) else s, Some(PublishRoutes(worker, runs)))
    case PublishRoutes(worker, runs) =>
      if runs == [] then (s, None)
      else (if ok then s.(world := RunSet(s.world, runs[0], worker)) else s, Some(PublishRoutes(worker, runs[1..])))
    case ReleaseWorker(worker) =>
      (if ok then s.(world := OwnerDropped(s.world, worker)) else s, None)
    case SendCancel(replica, run, channel) =>
      (s.(world := Pushed(s.world, channel, Cancel(run))), Some(Untrack(replica, run)))
    case Untrack(replica, run) =>
      (WithDirectory(s, replica, Untracked(DirectoryOf(s, replica), run)), Some(DropRoute(run)))
    case DropRoute(run) =>
      (if ok then s.(world := RunDropped(s.world, run)) else s, None)
    case ReadRoute(replica, run) =>
      (s, if ok && run in s.world.runWorker then Some(ReadOwner(replica, run, s.world.runWorker[run])) else None)
    case ReadOwner(replica, run, worker) =>
      (s, if ok && worker in s.world.owner && s.world.owner[worker] != replica
          then Some(Forward(s.world.owner[worker], run)) else None)
    case Forward(to, run) =>
      (if ok then s.(world := Published(s.world, to, run)) else s, None)
  }

  function Replaced(tasks: seq<Task>, k: nat, t: Option<Task>): seq<Task>
    requires k < |tasks|
  {
    if t.Some? then tasks[k := t.value] else tasks[..k] + tasks[k + 1..]
  }

  function Taken(c: World, channel: nat): World {
    if channel < |c.channels| && c.channels[channel].queue != [] then
      var ch := c.channels[channel];
      c.(channels := c.channels[channel := ch.(queue := ch.queue[1..])])
    else c
  }

  function LinksOf(worker: string, runs: seq<string>): set<Link> {
    set r | r in runs :: Link(r, worker)
  }

  /** The links a move makes. */
  function NewLinks(s: State, m: Move): set<Link> {
    match m
    case Register(_, worker, _, active) => if worker == "" then {} else LinksOf(worker, active)
    case Dispatch(replica, job, worker) =>
      if CanTake(DirectoryOf(s, replica), s.world, worker, job) then {Link(job.run, worker)} else {}
    case _ => {}
  }

  function Next(s: State, m: Move): State {
    match m
    case Register(replica, worker, engines, active) =>
      if worker == "" then s
      else
        var d := Registered(DirectoryOf(s, replica), s.world, worker, engines, active);
        State(s.replicas[replica := d], WithChannel(s.world, worker),
              s.tasks + [ClaimWorker(replica, worker, active)], s.links + LinksOf(worker, active))
    case Deregister(replica, worker) =>
      WithTask(WithDirectory(s, replica, Deregistered(DirectoryOf(s, replica), worker)), ReleaseWorker(worker))
    case Dispatch(replica, job, worker) =>
      var d := DirectoryOf(s, replica);
      if !CanTake(d, s.world, worker, job) then s
      else
        State(s.replicas[replica := Tracked(d, job.run, worker)],
              Pushed(s.world, d.workers[worker].jobs, Assignment(job)),
              s.tasks + [PublishRoutes(worker, [job.run])], s.links + {Link(job.run, worker)})
    case CancelJob(replica, run) => LookUp(s, replica, run, WithTask(s, ReadRoute(replica, run)))
    case Forget(replica, run) =>
      WithTask(WithDirectory(s, replica, Untracked(DirectoryOf(s, replica), run)), DropRoute(run))
    case Work(k, ok) =>
      if k >= |s.tasks| then s
      else
        var (after, rest) := Worked(s, s.tasks[k], ok);
        after.(tasks := Replaced(s.tasks, k, rest))
    case Abandon(k) => if k >= |s.tasks| then s else s.(tasks := Replaced(s.tasks, k, None))
    case DeliverCancel(k) =>
      if k >= |s.world.published| then s
      else
        var s1 := s.(world := WithoutMessage(s.world, k));
        LookUp(s1, s.world.published[k].to, s.world.published[k].run, s1)
    case LoseCancel(k) => if k >= |s.world.published| then s else s.(world := WithoutMessage(s.world, k))
    case ExpireOwner(worker) => s.(world := OwnerDropped(s.world, worker))
    case Receive(channel) => s.(world := Taken(s.world, channel))
    case Restart(replica) => WithDirectory(s, replica, Directory(map[], map[]))
  }

  function Exec(moves: seq<Move>): State {
    if moves == [] then START else Next(Exec(moves[..|moves| - 1]), moves[|moves| - 1])
  }

  // ---- the invariant ----

  function RunOf(command: Command): string {
    match command case Assignment(job) => job.run case Cancel(run) => run
  }

  predicate RoutesOk(routes: map<string, string>, links: set<Link>) {
    forall r | r in routes :: Link(r, routes[r]) in links
  }

  predicate DirectoryOk(d: Directory, c: World, links: set<Link>) {
    WellFormed(d, c) && RoutesOk(d.runToWorker, links)
  }

  predicate ChannelOk(ch: Channel, links: set<Link>) {
    |ch.queue| <= CAPACITY && forall x | x in ch.queue :: Link(RunOf(x), ch.worker) in links
  }

  predicate TaskOk(t: Task, c: World, links: set<Link>) {
    match t
    case ClaimWorker(_, worker, runs) => LinksOf(worker, runs) <= links
    case PublishRoutes(worker, runs) => LinksOf(worker, runs) <= links
    case SendCancel(_, run, channel) => channel < |c.channels| && Link(run, c.channels[channel].worker) in links
    case ReadOwner(_, run, worker) => Link(run, worker) in links
    case _ => true
  }

  predicate DirectoriesOk(s: State) {
    forall i | i in s.replicas :: DirectoryOk(s.replicas[i], s.world, s.links)
  }

  predicate ChannelsOk(c: World, links: set<Link>) {
    forall k | 0 <= k < |c.channels| :: ChannelOk(c.channels[k], links)
  }

  predicate TasksOk(tasks: seq<Task>, c: World, links: set<Link>) {
    forall k | 0 <= k < |tasks| :: TaskOk(tasks[k], c, links)
  }

  predicate Inv(s: State) {
    DirectoriesOk(s) && ChannelsOk(s.world, s.links) && TasksOk(s.tasks, s.world, s.links) &&
        RoutesOk(s.world.runWorker, s.links)
  }

  // ---- steps keep it ----

  /** Channels stay, each with its worker; links stay. */
  predicate Extends(c: World, links: set<Link>, c1: World, links1: set<Link>) {
    && |c.channels| <= |c1.channels| && links <= links1
    && forall k | 0 <= k < |c.channels| :: c1.channels[k].worker == c.channels[k].worker
  }

  lemma DirectoryStays(d: Directory, c: World, links: set<Link>, c1: World, links1: set<Link>)
    requires DirectoryOk(d, c, links) && Extends(c, links, c1, links1)
    ensures DirectoryOk(d, c1, links1)
  {
  }

  lemma TaskStays(t: Task, c: World, links: set<Link>, c1: World, links1: set<Link>)
    requires TaskOk(t, c, links) && Extends(c, links, c1, links1)
    ensures TaskOk(t, c1, links1)
  {
  }

  lemma PushedOk(c: World, links: set<Link>, channel: nat, x: Command)
    requires ChannelsOk(c, links)
    requires channel < |c.channels| ==> Link(RunOf(x), c.channels[channel].worker) in links
    ensures ChannelsOk(Pushed(c, channel, x), links)
    ensures Extends(c, links, Pushed(c, channel, x), links)
  {
  }

  lemma TakenOk(c: World, links: set<Link>, channel: nat)
    requires ChannelsOk(c, links)
    ensures ChannelsOk(Taken(c, channel), links)
    ensures Extends(c, links, Taken(c, channel), links)
  {
  }

  /** Everything that was there stays right when the world and the links only grow. */
  lemma TheRestStays(s: State, c1: World, links1: set<Link>)
    requires Inv(s) && Extends(s.world, s.links, c1, links1)
    ensures forall i | i in s.replicas :: DirectoryOk(s.replicas[i], c1, links1)
    ensures TasksOk(s.tasks, c1, links1)
  {
    hide TaskOk, DirectoryOk, Extends;
    forall i | i in s.replicas
      ensures DirectoryOk(s.replicas[i], c1, links1)
    {
      DirectoryStays(s.replicas[i], s.world, s.links, c1, links1);
    }
    forall k | 0 <= k < |s.tasks|
      ensures TaskOk(s.tasks[k], c1, links1)
    {
      TaskStays(s.tasks[k], s.world, s.links, c1, links1);
    }
  }

  lemma RegisterKeepsInv(s: State, m: Move)
    requires Inv(s) && m.Register? && m.worker != ""
    ensures Inv(Next(s, m))
  {
    var c1 := WithChannel(s.world, m.worker);
    var links1 := s.links + LinksOf(m.worker, m.active);
    TheRestStays(s, c1, links1);
    var d := DirectoryOf(s, m.replica);
    assert DirectoryOk(d, c1, links1);
    assert DirectoryOk(Registered(d, s.world, m.worker, m.engines, m.active), c1, links1);
  }

  lemma DispatchKeepsInv(s: State, m: Move)
    requires Inv(s) && m.Dispatch? && CanTake(DirectoryOf(s, m.replica), s.world, m.worker, m.job)
    ensures Inv(Next(s, m))
  {
    var d := DirectoryOf(s, m.replica);
    var links1 := s.links + {Link(m.job.run, m.worker)};
    assert ChannelsOk(s.world, links1);
    PushedOk(s.world, links1, d.workers[m.worker].jobs, Assignment(m.job));
    var c1 := Pushed(s.world, d.workers[m.worker].jobs, Assignment(m.job));
    TheRestStays(s, c1, links1);
    hide ChannelOk, Pushed;
    assert DirectoryOk(d, c1, links1);
    assert DirectoryOk(Tracked(d, m.job.run, m.worker), c1, links1);
    assert TaskOk(PublishRoutes(m.worker, [m.job.run]), c1, links1);
  }

  lemma LookUpKeepsInv(s: State, replica: string, run: string, otherwise: State)
    requires Inv(s) && Inv(otherwise)
    ensures Inv(LookUp(s, replica, run, otherwise))
  {
    hide ChannelsOk;
    if replica in s.replicas {
      assert DirectoryOk(s.replicas[replica], s.world, s.links);
    }
  }

  lemma WorkedKeepsInv(s: State, t: Task, ok: bool)
    requires Inv(s) && TaskOk(t, s.world, s.links)
    ensures var (after, rest) := Worked(s, t, ok);
            && Inv(after) && after.tasks == s.tasks && after.links == s.links
            && (rest.Some? ==> TaskOk(rest.value, after.world, s.links))
  {
    match t {
      case SendCancel(replica, run, channel) =>
        PushedOk(s.world, s.links, channel, Cancel(run));
        TheRestStays(s, Pushed(s.world, channel, Cancel(run)), s.links);
      case ClaimWorker(replica, worker, runs) =>
        TheRestStays(s, OwnerSet(s.world, worker, replica), s.links);
      case PublishRoutes(worker, runs) =>
        if runs != [] {
          assert Link(runs[0], worker) in LinksOf(worker, runs);
          assert LinksOf(worker, runs[1..]) <= LinksOf(worker, runs);
          TheRestStays(s, RunSet(s.world, runs[0], worker), s.links);
        }
      case ReleaseWorker(worker) =>
        TheRestStays(s, OwnerDropped(s.world, worker), s.links);
      case Untrack(replica, run) =>
        assert DirectoryOk(DirectoryOf(s, replica), s.world, s.links);
      case DropRoute(run) =>
        TheRestStays(s, RunDropped(s.world, run), s.links);
      case Forward(to, run) =>
        TheRestStays(s, Published(s.world, to, run), s.links);
      case _ =>
    }
  }

  lemma TasksReplaced(tasks: seq<Task>, k: nat, t: Option<Task>, c: World, links: set<Link>)
    requires k < |tasks| && TasksOk(tasks, c, links) && (t.Some? ==> TaskOk(t.value, c, links))
    ensures TasksOk(Replaced(tasks, k, t), c, links)
  {
    hide TaskOk;
  }

  lemma NextKeepsInv(s: State, m: Move)
    requires Inv(s)
    ensures Inv(Next(s, m)) && Next(s, m).links == s.links + NewLinks(s, m)
  {
    match m {
      case Register(_, worker, _, _) =>
        if worker != "" { RegisterKeepsInv(s, m); }
      case Dispatch(replica, job, worker) =>
        if CanTake(DirectoryOf(s, replica), s.world, worker, job) { DispatchKeepsInv(s, m); }
      case Work(k, ok) =>
        if k < |s.tasks| {
          WorkedKeepsInv(s, s.tasks[k], ok);
          TasksReplaced(s.tasks, k, Worked(s, s.tasks[k], ok).1, Worked(s, s.tasks[k], ok).0.world, s.links);
        }
      case Abandon(k) =>
        if k < |s.tasks| { TasksReplaced(s.tasks, k, None, s.world, s.links); }
      case _ => OtherMovesKeepInv(s, m);
    }
  }

  lemma OtherMovesKeepInv(s: State, m: Move)
    requires Inv(s) && !m.Register? && !m.Dispatch? && !m.Work? && !m.Abandon?
    ensures Inv(Next(s, m)) && Next(s, m).links == s.links
  {
    match m {
      case CancelJob(replica, run) => LookUpKeepsInv(s, replica, run, WithTask(s, ReadRoute(replica, run)));
      case DeliverCancel(k) =>
        if k < |s.world.published| {
          var s1 := s.(world := WithoutMessage(s.world, k));
          TheRestStays(s, s1.world, s.links);
          LookUpKeepsInv(s1, s.world.published[k].to, s.world.published[k].run, s1);
        }
      case LoseCancel(k) =>
        if k < |s.world.published| { TheRestStays(s, WithoutMessage(s.world, k), s.links); }
      case ExpireOwner(worker) => TheRestStays(s, OwnerDropped(s.world, worker), s.links);
      case Receive(channel) =>
        TakenOk(s.world, s.links, channel);
        TheRestStays(s, Taken(s.world, channel), s.links);
      case _ =>
    }
  }

  lemma {:induction false} ReachableInv(moves: seq<Move>)
    ensures Inv(Exec(moves))
  {
    if moves != [] {
      ReachableInv(moves[..|moves| - 1]);
      NextKeepsInv(Exec(moves[..|moves| - 1]), moves[|moves| - 1]);
    }
  }

  /** Every link was made by an assignment to the worker or by the worker's own report. */
  lemma {:induction false} LinkHasACause(moves: seq<Move>, link: Link)
    requires link in Exec(moves).links
    ensures exists j | 0 <= j < |moves| :: link in NewLinks(Exec(moves[..j]), moves[j])
  {
    var last := |moves| - 1;
    var s := Exec(moves[..last]);
    ReachableInv(moves[..last]);
    NextKeepsInv(s, moves[last]);
    if link !in NewLinks(s, moves[last]) {
      LinkHasACause(moves[..last], link);
      var j :| 0 <= j < last && link in NewLinks(Exec(moves[..last][..j]), moves[..last][j]);
      assert moves[..last][..j] == moves[..j];
    }
  }

  /**
   In every interleaving, with shared-key calls failing, replicas restarting, and cancels delayed or lost:
   no channel ever holds more than its capacity, and every command for a run in a worker's channel, a cancel
   or an assignment, comes after that worker was assigned the run or reported it active.
   */
  lemma CommandsReachOnlyTheirWorker(moves: seq<Move>, channel: nat, k: nat)
    requires channel < |Exec(moves).world.channels| && k < |Exec(moves).world.channels[channel].queue|
    ensures |Exec(moves).world.channels[channel].queue| <= CAPACITY
    ensures var ch := Exec(moves).world.channels[channel];
            exists j | 0 <= j < |moves| :: Link(RunOf(ch.queue[k]), ch.worker) in NewLinks(Exec(moves[..j]), moves[j])
  {
    ReachableInv(moves);
    var s := Exec(moves);
    var ch := s.world.channels[channel];
    assert ChannelOk(ch, s.links) && ch.queue[k] in ch.queue;
    LinkHasACause(moves, Link(RunOf(ch.queue[k]), ch.worker));
  }

  // ---- a forwarded cancel, with anything in between ----

  /** The moves that take a replica's routing of a run away or change it. */
  predicate Disturbs(s: State, m: Move, replica: string, run: string) {
    var d := DirectoryOf(s, replica);
    match m
    case Register(i, worker, _, active) => i == replica &&
        (run in active || (run in d.runToWorker && d.runToWorker[run] == worker))
    case Deregister(i, worker) => i == replica && run in d.runToWorker && d.runToWorker[run] == worker
    case Dispatch(i, job, _) => i == replica && job.run == run
    case Forget(i, r) => i == replica && r == run
    case Work(k, _) => k < |s.tasks| && s.tasks[k] == Untrack(replica, run)
    case Restart(i) => i == replica
    case _ => false
  }

  predicate Undisturbed(before: seq<Move>, more: seq<Move>, replica: string, run: string) {
    forall j | 0 <= j < |more| :: !Disturbs(Exec(before + more[..j]), more[j], replica, run)
  }

  lemma RouteStays(s: State, m: Move, replica: string, run: string)
    requires Route(DirectoryOf(s, replica), run).Some? && !Disturbs(s, m, replica, run)
    ensures Route(DirectoryOf(Next(s, m), replica), run) == Route(DirectoryOf(s, replica), run)
  {
  }

  lemma {:induction false} RouteStaysOn(before: seq<Move>, more: seq<Move>, replica: string, run: string)
    requires Route(DirectoryOf(Exec(before), replica), run).Some? && Undisturbed(before, more, replica, run)
    ensures Route(DirectoryOf(Exec(before + more), replica), run) == Route(DirectoryOf(Exec(before), replica), run)
    decreases |more|
  {
    hide Next, Disturbs, Route, DirectoryOf;
    if more == [] {
      assert before + more == before;
    } else {
      var last := |more| - 1;
      assert forall j | 0 <= j < last :: more[..last][..j] == more[..j];
      RouteStaysOn(before, more[..last], replica, run);
      assert (before + more)[..|before + more| - 1] == before + more[..last];
      RouteStays(Exec(before + more[..last]), more[last], replica, run);
    }
  }

  /**
   A cancel published for a replica that routes the run to some channel ends there, whatever moves come
   between its publishing and its delivery, as long as none of them changes that routing: delivery
   looks up that channel, and the send puts the cancel last in its queue if there is room.
   */
  lemma ForwardedCancelReachesWorker(before: seq<Move>, more: seq<Move>, replica: string, run: string, k: nat, ok: bool)
    requires Route(DirectoryOf(Exec(before), replica), run).Some? && Undisturbed(before, more, replica, run)
    requires k < |Exec(before + more).world.published|
    requires Exec(before + more).world.published[k] == Message(replica, run)
    ensures var channel := Route(DirectoryOf(Exec(before), replica), run).value;
            var s := Exec(before + more);
            var delivered := Next(s, DeliverCancel(k));
            && delivered.tasks == s.tasks + [SendCancel(replica, run, channel)]
            && Next(delivered, Work(|s.tasks|, ok)).world == Pushed(WithoutMessage(s.world, k), channel, Cancel(run))
            && channel < |s.world.channels|
            && Link(run, s.world.channels[channel].worker) in s.links
  {
    RouteStaysOn(before, more, replica, run);
    ReachableInv(before + more);
    var s := Exec(before + more);
    assert DirectoryOk(DirectoryOf(s, replica), s.world, s.links);
  }
}
