/**
 Requests in flight at once: the middleware's read, handler and save of any number of requests,
 interleaved with each other and with sweeps.
 */
module IdempotencyRuns {
  import opened Wrappers
  import opened Idempotency

  /** A request that has not read the table yet, or has found nothing there and runs its handler. */
  datatype Phase = Arrived(request: Request) | Missed(request: Request)

  datatype Answer = Answer(request: Request, reply: Reply)

  /** The table, the requests in flight, what clients have been sent, and the time. */
  datatype State = State(rows: Rows, threads: map<nat, Phase>, answers: seq<Answer>, clock: int)

  datatype Move = Arrive(t: nat, request: Request) | Read(t: nat) | Finish(t: nat) | Reap(now: int) | Drop(t: nat)

  const START := State(map[], map[], [], 0)

  function Answered(s: State, t: nat, r: Request, reply: Reply): State {
    State(s.rows, s.threads - {t}, s.answers + [Answer(r, reply)], r.getAt)
  }

  /** A request reads the table; if there is nothing for it, its handler runs and answers. */
  function Reading(s: State, t: nat, r: Request): State {
    if r.key == "" then Answered(s, t, r, Plain(Sent(r.calls)))
    else if r.user.None? then Answered(s, t, r, Problem(401))
    else if r.getFails then Answered(s, t, r, Problem(500))
    else if Lookup(s.rows, r.getAt, KeyOf(r)).Some? then
      Answered(s, t, r, Replayed(Lookup(s.rows, r.getAt, KeyOf(r)).value))
    else
      var s1 := Answered(s, t, r, Plain(Sent(r.calls)));
      s1.(threads := s.threads[t := Missed(r)])
  }

  /** The request's response is one to store, and storing it works. */
  predicate Offers(r: Request) {
    Keyed(r) && IsSuccess(Recorded(r.calls).status) && !r.saveFails
  }

  function Finishing(s: State, t: nat, r: Request): State {
    State(if Offers(r) then Saved(s.rows, r.saveAt, KeyOf(r), Recorded(r.calls)) else s.rows,
          s.threads - {t}, s.answers, r.saveAt)
  }

  /** One move; time does not go back, and a move that is not possible changes nothing. */
  function Next(s: State, m: Move): State {
    match m
    case Arrive(t, r) => if t in s.threads then s else s.(threads := s.threads[t := Arrived(r)])
    case Read(t) =>
      if t in s.threads && s.threads[t].Arrived? && s.clock <= s.threads[t].request.getAt then
        Reading(s, t, s.threads[t].request)
      else s
    case Finish(t) =>
      if t in s.threads && s.threads[t].Missed? && s.clock <= s.threads[t].request.saveAt then
        Finishing(s, t, s.threads[t].request)
      else s
    case Reap(now) => if s.clock <= now then s.(rows := Swept(s.rows, now), clock := now) else s
    case Drop(t) => s.(threads := s.threads - {t})
  }

  function Exec(moves: seq<Move>): State {
    if moves == [] then START else Next(Exec(moves[..|moves| - 1]), moves[|moves| - 1])
  }

  /** Nothing in between: reading and finishing one request is serving it. */
  lemma AloneIsServed(s: State, t: nat, r: Request)
    requires t !in s.threads && s.clock <= r.getAt <= r.saveAt
    ensures var s1 := Next(Next(Next(s, Arrive(t, r)), Read(t)), Finish(t));
            && s1.rows == Serve(s.rows, r).rows
            && s1.answers == s.answers + [Answer(r, Serve(s.rows, r).reply)]
  {
    hide Sent, Recorded;
  }

  // ---- what an answer can be ----

  /** What the table says to a request that reads it now. */
  function ReplyTo(rows: Rows, r: Request): Reply {
    if r.key == "" then Plain(Sent(r.calls))
    else if r.user.None? then Problem(401)
    else if r.getFails then Problem(500)
    else if Lookup(rows, r.getAt, KeyOf(r)).Some? then Replayed(Lookup(rows, r.getAt, KeyOf(r)).value)
    else Plain(Sent(r.calls))
  }

  lemma NextAnswers(s: State, m: Move)
    ensures Next(s, m).answers == s.answers ||
            (m.Read? && m.t in s.threads && s.threads[m.t].Arrived? && s.clock <= s.threads[m.t].request.getAt &&
             Next(s, m).answers == s.answers + [Answer(s.threads[m.t].request,
                 ReplyTo(s.rows, s.threads[m.t].request))])
    ensures s.clock <= Next(s, m).clock
  {
    hide Sent, Recorded, Lookup;
  }

  /** Every answer was given by some read, out of the table as it was then. */
  lemma {:induction false} AnsweredByTable(moves: seq<Move>, i: nat) returns (n: nat)
    requires i < |Exec(moves).answers|
    ensures n < |moves| && |Exec(moves[..n]).answers| == i
    ensures var a := Exec(moves).answers[i];
            a.reply == ReplyTo(Exec(moves[..n]).rows, a.request) && Exec(moves[..n]).clock <= a.request.getAt
  {
    var last := |moves| - 1;
    var s := Exec(moves[..last]);
    NextAnswers(s, moves[last]);
    hide ReplyTo, Next;
    if i < |s.answers| {
      n := AnsweredByTable(moves[..last], i);
      assert moves[..last][..n] == moves[..n];
    } else {
      n := last;
    }
  }

  // ---- where a replay comes from ----

  /** The answer is of a request whose own response became this row. */
  predicate Stores(a: Answer, k: Key, row: Row) {
    && Offers(a.request) && KeyOf(a.request) == k
    && a.reply == Plain(Sent(a.request.calls)) && row == Row(a.request.saveAt, Recorded(a.request.calls))
  }

  ghost predicate StoredByOne(answers: seq<Answer>, k: Key, row: Row) {
    exists i | 0 <= i < |answers| :: Stores(answers[i], k, row)
  }

  ghost predicate Inv(s: State) {
    && (forall k | k in s.rows :: s.rows[k].createdAt <= s.clock && StoredByOne(s.answers, k, s.rows[k]))
    && (forall t | t in s.threads && s.threads[t].Missed? ::
          Keyed(s.threads[t].request) &&
              Answer(s.threads[t].request, Plain(Sent(s.threads[t].request.calls))) in s.answers)
  }

  lemma StoredStays(answers: seq<Answer>, a: Answer, k: Key, row: Row)
    requires StoredByOne(answers, k, row)
    ensures StoredByOne(answers + [a], k, row)
  {
    var i :| 0 <= i < |answers| && Stores(answers[i], k, row);
    assert (answers + [a])[i] == answers[i];
  }

  lemma FinishKeepsInv(s: State, t: nat)
    requires Inv(s) && t in s.threads && s.threads[t].Missed? && s.clock <= s.threads[t].request.saveAt
    ensures Inv(Finishing(s, t, s.threads[t].request))
  {
    hide Sent, Recorded;
    var r := s.threads[t].request;
    if Offers(r) && KeyOf(r) !in s.rows {
      var i :| 0 <= i < |s.answers| && s.answers[i] == Answer(r, Plain(Sent(r.calls)));
      assert Stores(s.answers[i], KeyOf(r), Row(r.saveAt, Recorded(r.calls)));
    }
  }

  lemma ReadKeepsInv(s: State, t: nat)
    requires Inv(s) && t in s.threads && s.threads[t].Arrived? && s.clock <= s.threads[t].request.getAt
    ensures Inv(Reading(s, t, s.threads[t].request))
  {
    var s1 := Reading(s, t, s.threads[t].request);
    var a := s1.answers[|s.answers|];
    hide Sent, Lookup, Stores, StoredByOne;
    assert s1.answers == s.answers + [a] && s1.rows == s.rows;
    forall k | k in s.rows
      ensures StoredByOne(s1.answers, k, s.rows[k])
    {
      StoredStays(s.answers, a, k, s.rows[k]);
    }
  }

  lemma NextKeepsInv(s: State, m: Move)
    requires Inv(s)
    ensures Inv(Next(s, m))
  {
    hide Reading, Finishing, StoredByOne;
    match m {
      case Read(t) =>
        if t in s.threads && s.threads[t].Arrived? && s.clock <= s.threads[t].request.getAt { ReadKeepsInv(s, t); }
      case Finish(t) =>
        if t in s.threads && s.threads[t].Missed? && s.clock <= s.threads[t].request.saveAt { FinishKeepsInv(s, t); }
      case _ =>
    }
  }

  lemma {:induction false} ReachableInv(moves: seq<Move>)
    ensures Inv(Exec(moves))
  {
    if moves != [] {
      ReachableInv(moves[..|moves| - 1]);
      NextKeepsInv(Exec(moves[..|moves| - 1]), moves[|moves| - 1]);
    }
  }

  lemma AnswersGrow(moves: seq<Move>, n: nat)
    requires n <= |moves|
    ensures Exec(moves[..n]).answers <= Exec(moves).answers
  {
    if n < |moves| {
      AnswersGrow(moves[..|moves| - 1], n);
      assert moves[..|moves| - 1][..n] == moves[..n];
      NextAnswers(Exec(moves[..|moves| - 1]), moves[|moves| - 1]);
      hide Next, ReplyTo;
    } else {
      assert moves[..n] == moves;
    }
  }

  /**
   A client is sent what its own handler wrote or, exactly as recorded, the response of an earlier answered
   request of the same organization, the same user and the same key, which succeeded and was stored before,
   less than the window ago.
   */
  lemma RepliesExplained(moves: seq<Move>, i: nat) returns (j: nat)
    requires i < |Exec(moves).answers| && Keyed(Exec(moves).answers[i].request)
    ensures var r := Exec(moves).answers[i].request;
            || Exec(moves).answers[i].reply == Plain(Sent(r.calls))
            || (j < i && var q := Exec(moves).answers[j].request;
                && q.organization == r.organization && q.user == r.user && q.key == r.key
                && 200 <= Recorded(q.calls).status <= 299 && !q.saveFails
                && Exec(moves).answers[j].reply == Plain(Sent(q.calls))
                && Exec(moves).answers[i].reply == Replayed(Recorded(q.calls))
                && q.saveAt <= r.getAt < q.saveAt + 86_400_000_000_000)
  {
    var n := AnsweredByTable(moves, i);
    var s := Exec(moves[..n]);
    ReachableInv(moves[..n]);
    AnswersGrow(moves, n);
    var a := Exec(moves).answers[i];
    var k := KeyOf(a.request);
    j := 0;
    if Lookup(s.rows, a.request.getAt, k).Some? {
      var source :| 0 <= source < |s.answers| && Stores(s.answers[source], k, s.rows[k]);
      j := source;
      assert s.answers[j] == Exec(moves).answers[j];
    }
    hide Exec, Sent, Recorded, Inv;
  }

  // ---- the first save wins ----

  lemma RowKept(s: State, m: Move, k: Key)
    requires k in s.rows && Next(s, m).clock < s.rows[k].createdAt + WINDOW
    ensures k in Next(s, m).rows && Next(s, m).rows[k] == s.rows[k]
  {
    hide Sent, Recorded, Lookup;
  }

  /** The answers given since are replays of this response to every request with the key. */
  ghost predicate ReplaysSince(answers: seq<Answer>, from: nat, k: Key, response: Response) {
    forall i | from <= i < |answers| :: Keyed(answers[i].request) && KeyOf(answers[i].request) == k ==>
      answers[i].reply == Replayed(response)
  }

  /**
   The first save wins: once a response is stored, then until its window is over no other save of the
   key changes it, and every request that reads the table gets exactly it, whatever else is in flight.
   */
  lemma {:induction false} FirstSaveWins(moves: seq<Move>, more: seq<Move>, k: Key)
    requires k in Exec(moves).rows && Exec(moves + more).clock < Exec(moves).rows[k].createdAt + WINDOW
    ensures k in Exec(moves + more).rows && Exec(moves + more).rows[k] == Exec(moves).rows[k]
    ensures ReplaysSince(Exec(moves + more).answers, |Exec(moves).answers|, k, Exec(moves).rows[k].response)
    decreases |more|
  {
    if more == [] {
      assert moves + more == moves;
    } else {
      var last := |more| - 1;
      assert (moves + more)[..|moves + more| - 1] == moves + more[..last];
      var s := Exec(moves + more[..last]);
      NextAnswers(s, more[last]);
      FirstSaveWins(moves, more[..last], k);
      RowKept(s, more[last], k);
      ReadClock(s, more[last]);
      hide Exec, Next, Sent, Recorded;
    }
  }

  lemma ReadClock(s: State, m: Move)
    ensures Next(s, m).answers != s.answers ==>
              m.Read? && m.t in s.threads && Next(s, m).clock == s.threads[m.t].request.getAt
  {
    hide Sent, Recorded, Lookup;
  }

  /** Two requests with one fresh key may both run; the one that saves first is the one stored. */
  lemma TwoInFlight(s: State, t: nat, u: nat, r: Request, q: Request)
    requires t != u && t in s.threads && u in s.threads && s.threads[t] == Missed(r) && s.threads[u] == Missed(q)
    requires Offers(r) && Offers(q) && KeyOf(r) == KeyOf(q) && KeyOf(r) !in s.rows
    requires s.clock <= r.saveAt <= q.saveAt
    ensures var rows := Next(Next(s, Finish(t)), Finish(u)).rows;
            KeyOf(r) in rows && rows[KeyOf(r)] == Row(r.saveAt, Recorded(r.calls))
  {
    hide Recorded, Offers;
  }
}
