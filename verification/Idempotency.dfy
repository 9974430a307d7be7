/** The idempotency key table, its reaper, and the middleware that replays responses from it. */
module Idempotency {
  import opened Wrappers

  /** Nanoseconds a stored response is replayed for. */
  const WINDOW: int := 24 * 3600 * 1_000_000_000

  datatype Key = Key(organization: string, user: string, key: string)
  datatype Response = Response(status: int, body: string)
  datatype Row = Row(createdAt: int, response: Response)
  type Rows = map<Key, Row>

  predicate Fresh(row: Row, now: int) {
    row.createdAt > now - WINDOW
  }

  function Lookup(rows: Rows, now: int, k: Key): Option<Response> {
    if k in rows && Fresh(rows[k], now) then Some(rows[k].response) else None
  }

  /** Insert; on conflict do nothing. */
  function Saved(rows: Rows, now: int, k: Key, response: Response): Rows {
    if k in rows then rows else rows[k := Row(now, response)]
  }

  function Swept(rows: Rows, now: int): Rows {
    map k | k in rows && Fresh(rows[k], now) :: rows[k]
  }

  class Store {
    var rows: Rows

    constructor ()
      ensures rows == map[]
    {
      rows := map[];
    }

    method Get(now: int, k: Key) returns (response: Option<Response>)
      ensures response == Lookup(rows, now, k)
    {
      var cutoff := now - WINDOW;
      if k in rows && rows[k].createdAt > cutoff {
        return Some(rows[k].response);
      }
      return None;
    }

    method Save(now: int, k: Key, response: Response)
      modifies `rows
      ensures rows == Saved(old(rows), now, k, response)
    {
      if k !in rows {
        rows := rows[k := Row(now, response)];
      }
    }

    method ReapOnce(now: int)
      modifies `rows
      ensures rows == Swept(old(rows), now)
    {
      var cutoff := now - WINDOW;
      rows := rows - set k | k in rows && rows[k].createdAt <= cutoff;
    }
  }

  // ---- what a handler writes ----

  datatype WriterCall = WriteHeader(status: int) | Write(bytes: string)

  /** What the client gets: the first status, 200 if the body comes first or nothing is written. */
  function Sent(calls: seq<WriterCall>): Response {
    Response(if calls != [] && calls[0].WriteHeader? then calls[0].status else 200, BodyOf(calls))
  }

  /** What is recorded: the last status, 200 if there was none. */
  function Recorded(calls: seq<WriterCall>): Response {
    Response(LastStatus(calls), BodyOf(calls))
  }

  function LastStatus(calls: seq<WriterCall>): int {
    if calls == [] then 200
    else if calls[|calls| - 1].WriteHeader? then calls[|calls| - 1].status
    else LastStatus(calls[..|calls| - 1])
  }

  function BodyOf(calls: seq<WriterCall>): string {
    if calls == [] then ""
    else BodyOf(calls[..|calls| - 1]) + if calls[|calls| - 1].Write? then calls[|calls| - 1].bytes else ""
  }

  /** The server's own writer: the first status stands. */
  class ResponseWriter {
    var status: Option<int>
    var body: string

    constructor ()
      ensures status == None && body == ""
    {
      status, body := None, "";
    }

    method WriteHeader(code: int)
      modifies `status
      ensures status == if old(status).None? then Some(code) else old(status)
    {
      if status.None? {
        status := Some(code);
      }
    }

    method Write(bytes: string)
      modifies this
      ensures status == (if old(status).None? then Some(200) else old(status)) && body == old(body) + bytes
    {
      if status.None? {
        status := Some(200);
      }
      body := body + bytes;
    }
  }

  /** Passes everything through and keeps a copy. */
  class Recorder {
    const writer: ResponseWriter
    var status: int
    var body: string

    constructor (writer: ResponseWriter)
      ensures this.writer == writer && status == 200 && body == ""
    {
      this.writer := writer;
      status, body := 200, "";
    }

    method WriteHeader(code: int)
      modifies this, writer
      ensures status == code && body == old(body)
      ensures writer.body == old(writer.body)
      ensures writer.status == if old(writer.status).None? then Some(code) else old(writer.status)
    {
      status := code;
      writer.WriteHeader(code);
    }

    method Write(bytes: string)
      modifies this, writer
      ensures status == old(status) && body == old(body) + bytes
      ensures writer.body == old(writer.body) + bytes
      ensures writer.status == if old(writer.status).None? then Some(200) else old(writer.status)
    {
      body := body + bytes;
      writer.Write(bytes);
    }
  }

  method RunHandler(calls: seq<WriterCall>) returns (sent: Response, recorded: Response)
    ensures sent == Sent(calls) && recorded == Recorded(calls)
    // the same written out: the body is all that was written, the client gets the first status, the table the last
    ensures sent.body == recorded.body
    ensures sent.status == if calls != [] && calls[0].WriteHeader? then calls[0].status else 200
    ensures forall i | 0 <= i < |calls| && calls[i].WriteHeader? && (forall j | i < j < |calls| :: calls[j].Write?) ::
              recorded.status == calls[i].status
    ensures (forall i | 0 <= i < |calls| :: calls[i].Write?) ==> recorded.status == 200
  {
    var writer := new ResponseWriter();
    var recorder := new Recorder(writer);
    for i := 0 to |calls|
      invariant Response(recorder.status, recorder.body) == Recorded(calls[..i])
      invariant writer.body == BodyOf(calls[..i])
      invariant writer.status == if i == 0 then None else Some(Sent(calls[..i]).status)
    {
      assert calls[..i + 1][..i] == calls[..i];
      match calls[i] {
        case WriteHeader(code) => recorder.WriteHeader(code);
        case Write(bytes) => recorder.Write(bytes);
      }
    }
    assert calls[..|calls|] == calls;
    LastStatusIs(calls);
    sent := Response(if writer.status.Some? then writer.status.value else 200, writer.body);
    recorded := Response(recorder.status, recorder.body);
  }

  // ---- the middleware ----

  /**
   A request as it happens to go: when the table is read and written, whether that fails, and what
   the handler writes.
   */
  datatype Request = Request(
    organization: string,
    user: Option<string>,
    key: string,
    getAt: int,
    saveAt: int,
    getFails: bool,
    saveFails: bool,
    calls: seq<WriterCall>)

  datatype Reply = Plain(response: Response) | Replayed(response: Response) | Problem(status: int)

  datatype Served = Served(rows: Rows, reply: Reply, ran: bool)

  predicate IsSuccess(status: int) {
    200 <= status < 300
  }

  function KeyOf(r: Request): Key
    requires r.user.Some?
  {
    Key(r.organization, r.user.value, r.key)
  }

  /** One request, start to end. */
  function Serve(rows: Rows, r: Request): Served {
    if r.key == "" then Served(rows, Plain(Sent(r.calls)), true)
    else if r.user.None? then Served(rows, Problem(401), false)
    else if r.getFails then Served(rows, Problem(500), false)
    else if Lookup(rows, r.getAt, KeyOf(r)).Some? then
      Served(rows, Replayed(Lookup(rows, r.getAt, KeyOf(r)).value), false)
    else
      var recorded := Recorded(r.calls);
      Served(
        if IsSuccess(recorded.status) && !r.saveFails then Saved(rows, r.saveAt, KeyOf(r), recorded) else rows,
        Plain(Sent(r.calls)),
        true)
  }

  method Middleware(store: Store, r: Request) returns (reply: Reply, ran: bool)
    modifies store`rows
    ensures Served(store.rows, reply, ran) == Serve(old(store.rows), r)
    // the same written out
    ensures r.key == "" ==> ran && reply == Plain(Sent(r.calls)) && store.rows == old(store.rows)
    ensures r.key != "" && r.user.None? ==> !ran && reply == Problem(401) && store.rows == old(store.rows)
    ensures r.key != "" && r.user.Some? && r.getFails ==>
              !ran && reply == Problem(500) && store.rows == old(store.rows)
    ensures r.key != "" && r.user.Some? && !r.getFails ==>
              var rows, k := old(store.rows), Key(r.organization, r.user.value, r.key);
              if k in rows && r.getAt < rows[k].createdAt + 86_400_000_000_000 then
                !ran && reply == Replayed(rows[k].response) && store.rows == rows
              else
                && ran && reply == Plain(Sent(r.calls))
                && store.rows ==
                   if 200 <= Recorded(r.calls).status <= 299 && !r.saveFails && k !in rows
                   then rows[k := Row(r.saveAt, Recorded(r.calls))] else rows
  {
    ran := false;
    if r.key == "" {
      var sent, _ := RunHandler(r.calls);
      return Plain(sent), true;
    }
    if r.user.None? {
      return Problem(401), false;
    }
    var k := KeyOf(r);
    if r.getFails {
      return Problem(500), false;
    }
    var stored := store.Get(r.getAt, k);
    if stored.Some? {
      return Replayed(stored.value), false;
    }
    var sent, recorded := RunHandler(r.calls);
    if 200 <= recorded.status < 300 && !r.saveFails {
      store.Save(r.saveAt, k, recorded);
    }
    return Plain(sent), true;
  }

  // ---- histories ----

  datatype Event = Sweep(now: int) | Handled(request: Request)

  function StartOf(e: Event): int {
    if e.Sweep? then e.now else e.request.getAt
  }

  function EndOf(e: Event): int {
    if e.Sweep? then e.now else e.request.saveAt
  }

  function Step(rows: Rows, e: Event): Rows {
    if e.Sweep? then Swept(rows, e.now) else Serve(rows, e.request).rows
  }

  function Run(rows: Rows, events: seq<Event>): Rows
  {
    if events == [] then rows else Step(Run(rows, events[..|events| - 1]), events[|events| - 1])
  }

  /** All of it happens up to this time. */
  predicate Before(events: seq<Event>, now: int) {
    forall e | e in events :: StartOf(e) <= now && EndOf(e) <= now
  }

  /** A row stays as it is at least until it expires. */
  lemma {:induction false} RowStays(rows: Rows, events: seq<Event>, now: int, k: Key)
    requires k in rows && Fresh(rows[k], now) && Before(events, now)
    ensures k in Run(rows, events) && Run(rows, events)[k] == rows[k]
  {
    if events != [] {
      var last := events[|events| - 1];
      assert last in events;
      RowStays(rows, events[..|events| - 1], now, k);
    }
  }

  /** The request is identified, carries a key, and the table can be read. */
  predicate Keyed(r: Request) {
    r.key != "" && r.user.Some? && !r.getFails
  }

  /** The handler runs, succeeds, and its response is offered to the table. */
  predicate Succeeds(rows: Rows, r: Request) {
    Keyed(r) && Lookup(rows, r.getAt, KeyOf(r)).None? && IsSuccess(Recorded(r.calls).status) && !r.saveFails
  }

  /**
   Once a successful response is stored, every request with the same key gets it back and does
   not run its handler until the window is over, whatever other requests and sweeps happen between.
   */
  lemma ReplayedWithinWindow(rows: Rows, first: Request, between: seq<Event>, retry: Request)
    requires Succeeds(rows, first) && KeyOf(first) !in rows
    requires Keyed(retry) && KeyOf(retry) == KeyOf(first)
    requires Before(between, retry.getAt) && retry.getAt < first.saveAt + WINDOW
    ensures var served := Serve(Run(Serve(rows, first).rows, between), retry);
            served.reply == Replayed(Recorded(first.calls)) && !served.ran
  {
    RowStays(Serve(rows, first).rows, between, retry.getAt, KeyOf(first));
  }

  /** An expired row that no sweep has removed yet keeps the response out, and then the retry runs the handler again. */
  lemma RetryReplayedExactly(rows: Rows, first: Request, retry: Request)
    requires Succeeds(rows, first) && first.getAt <= retry.getAt
    requires Keyed(retry) && KeyOf(retry) == KeyOf(first) && retry.getAt < first.saveAt + WINDOW
    ensures !Serve(Serve(rows, first).rows, retry).ran <==> KeyOf(first) !in rows
  {
    assert Lookup(rows, first.getAt, KeyOf(first)).None?;
  }

  /** The retry gets exactly what the first client got exactly when the handler's last status is the one that stood. */
  lemma ReplayIsVerbatim(calls: seq<WriterCall>)
    ensures Recorded(calls) == Sent(calls) <==>
            forall i | 0 <= i < |calls| && calls[i].WriteHeader? &&
                       (forall j | i < j < |calls| :: calls[j].Write?) ::
              calls[i].status == Sent(calls).status
  {
    LastStatusIs(calls);
  }

  lemma {:induction false} LastStatusIs(calls: seq<WriterCall>)
    ensures (forall i | 0 <= i < |calls| :: calls[i].Write?) ==> LastStatus(calls) == 200
    ensures !(forall i | 0 <= i < |calls| :: calls[i].Write?) ==>
              exists i | 0 <= i < |calls| && calls[i].WriteHeader? ::
                (forall j | i < j < |calls| :: calls[j].Write?) && LastStatus(calls) == calls[i].status
  {
    if calls != [] && calls[|calls| - 1].Write? {
      var before := calls[..|calls| - 1];
      LastStatusIs(before);
      if !(forall i | 0 <= i < |before| :: before[i].Write?) {
        var i :| 0 <= i < |before| && before[i].WriteHeader? &&
                 (forall j | i < j < |before| :: before[j].Write?) && LastStatus(before) == before[i].status;
        assert calls[i] == before[i];
        assert forall j | i < j < |before| :: calls[j] == before[j];
      }
    }
  }

  /** So is that of a handler that sets its status once, before its body, or never. */
  lemma OrderlyHandlerIsVerbatim(calls: seq<WriterCall>)
    requires forall i | 1 <= i < |calls| :: calls[i].Write?
    ensures Recorded(calls) == Sent(calls)
  {
    ReplayIsVerbatim(calls);
  }

  // ---- the ideal table ----

  /** What the table stands for: each key keeps its first response for the window, and is then free again. */
  function IdealSaved(rows: Rows, now: int, k: Key, response: Response): Rows {
    if Lookup(rows, now, k).Some? then rows else rows[k := Row(now, response)]
  }

  datatype TableStep = Save(now: int, k: Key, response: Response) | Reap(now: int)

  function Stored(rows: Rows, s: TableStep): Rows {
    match s case Save(now, k, response) => Saved(rows, now, k, response) case Reap(now) => Swept(rows, now)
  }

  /** The ideal table needs no sweeps. */
  function IdealStored(rows: Rows, s: TableStep): Rows {
    match s case Save(now, k, response) => IdealSaved(rows, now, k, response) case Reap(_) => rows
  }

  function Table(steps: seq<TableStep>): Rows {
    if steps == [] then map[] else Stored(Table(steps[..|steps| - 1]), steps[|steps| - 1])
  }

  function IdealTable(steps: seq<TableStep>): Rows {
    if steps == [] then map[] else IdealStored(IdealTable(steps[..|steps| - 1]), steps[|steps| - 1])
  }

  predicate InOrder(steps: seq<TableStep>) {
    forall i, j | 0 <= i < j < |steps| :: steps[i].now <= steps[j].now
  }

  /** No reader, from this time on, can tell the two apart. */
  ghost predicate SameFrom(rows: Rows, ideal: Rows, now: int) {
    forall t: int, k: Key | t >= now :: Lookup(rows, t, k) == Lookup(ideal, t, k)
  }

  /** A save that meets an expired row still in the table. */
  predicate Blocked(rows: Rows, s: TableStep) {
    s.Save? && s.k in rows && !Fresh(rows[s.k], s.now)
  }

  lemma StepKeepsSame(rows: Rows, ideal: Rows, from: int, s: TableStep)
    requires SameFrom(rows, ideal, from) && from <= s.now
    ensures SameFrom(Stored(rows, s), IdealStored(ideal, s), s.now) <==> !Blocked(rows, s)
  {
    if s.Save? {
      assert Lookup(rows, s.now, s.k) == Lookup(ideal, s.now, s.k);
    }
    if Blocked(rows, s) {
      assert Lookup(Stored(rows, s), s.now, s.k) != Lookup(IdealStored(ideal, s), s.now, s.k);
    } else {
      forall t: int, k: Key | t >= s.now
        ensures Lookup(Stored(rows, s), t, k) == Lookup(IdealStored(ideal, s), t, k)
      {
        assert Lookup(rows, t, k) == Lookup(ideal, t, k);
        assert Lookup(rows, s.now, k) == Lookup(ideal, s.now, k);
      }
    }
  }

  /** The table is the ideal one after every step exactly as long as no save is blocked by an expired row. */
  lemma {:induction false} TableIsIdealExactly(steps: seq<TableStep>, i: nat)
    requires InOrder(steps) && i < |steps|
    ensures (forall j | 0 <= j <= i :: SameFrom(Table(steps[..j + 1]), IdealTable(steps[..j + 1]), steps[j].now)) <==>
            (forall j | 0 <= j <= i :: !Blocked(Table(steps[..j]), steps[j]))
  {
    assert steps[..i + 1][..i] == steps[..i];
    if i == 0 {
      StepKeepsSame(map[], map[], steps[0].now, steps[0]);
      assert Table(steps[..0]) == map[];
    } else {
      TableIsIdealExactly(steps, i - 1);
      if SameFrom(Table(steps[..i]), IdealTable(steps[..i]), steps[i - 1].now) {
        StepKeepsSame(Table(steps[..i]), IdealTable(steps[..i]), steps[i - 1].now, steps[i]);
      } else {
        assert steps[..i - 1 + 1] == steps[..i];
      }
    }
  }

  /** A sweep is seen exactly by a reader whose clock is so far behind that the row was still good for it. */
  lemma SweepSeenExactly(rows: Rows, now: int, t: int, k: Key)
    ensures Lookup(Swept(rows, now), t, k) != Lookup(rows, t, k) <==>
            k in rows && t - WINDOW < rows[k].createdAt <= now - WINDOW
  {
  }
}
