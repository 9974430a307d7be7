/** Requests of other organizations, other users or with other keys never change what a request is answered. */
module IdempotencyKeys {
  import opened Wrappers
  import opened Idempotency

  /** The sweeps, and the requests of the same organization and user with the same key. */
  function Own(events: seq<Event>, r: Request): seq<Event> {
    if events == [] then []
    else
      var last := events[|events| - 1];
      Own(events[..|events| - 1], r) +
      if last.Sweep? || (last.request.organization == r.organization && last.request.user == r.user &&
          last.request.key == r.key) then [last] else []
  }

  /** The two tables say the same about that key. */
  predicate SameFor(k: Key, rows: Rows, rows': Rows) {
    (k in rows <==> k in rows') && (k in rows ==> rows[k] == rows'[k])
  }

  lemma StepKeepsSame(k: Key, rows: Rows, rows': Rows, e: Event)
    requires SameFor(k, rows, rows')
    ensures SameFor(k, Step(rows, e), Step(rows', e))
    ensures e.Handled? && (e.request.user.None? || KeyOf(e.request) != k) ==> SameFor(k, Step(rows, e), rows')
  {
    hide Sent, Recorded;
  }

  lemma {:induction false} OwnKeepSame(events: seq<Event>, r: Request)
    requires r.user.Some?
    ensures SameFor(KeyOf(r), Run(map[], events), Run(map[], Own(events, r)))
  {
    if events != [] {
      var front, last := events[..|events| - 1], events[|events| - 1];
      OwnKeepSame(front, r);
      StepKeepsSame(KeyOf(r), Run(map[], front), Run(map[], Own(front, r)), last);
      hide SameFor, Step;
      assert (Own(front, r) + [last])[..|Own(front, r)|] == Own(front, r);
      assert Own(front, r) + [] == Own(front, r);
    }
  }

  /**
   Whatever requests and sweeps came before, at whatever times: a request gets the answer it would have got had
   none of the requests of other organizations, of other users or with other keys been made.
   */
  lemma CallersAreIndependent(events: seq<Event>, r: Request)
    ensures var all, own := Serve(Run(map[], events), r), Serve(Run(map[], Own(events, r)), r);
            all.reply == own.reply && all.ran == own.ran
  {
    hide Sent, Recorded, Run;
    if r.user.Some? {
      OwnKeepSame(events, r);
    }
  }
}
