/**
 The fixed-window rate limiter: the map it updates in place, and what its answers amount to
 over whole histories of calls and collections in lock order.
 */
module RateLimit {

  datatype Window = Window(count: int, resetAt: int)

  type Windows = map<string, Window>

  predicate Expired(w: Window, now: int) {
    now > w.resetAt
  }

  /** The windows after a call for a key: a new window unless there is one that has not expired, counted once more. */
  function Counted(ws: Windows, key: string, now: int, interval: int): Windows {
    var w := if key in ws && !Expired(ws[key], now) then ws[key] else Window(0, now + interval);
    ws[key := Window(w.count + 1, w.resetAt)]
  }

  function Collected(ws: Windows, now: int): Windows {
    map k | k in ws && !Expired(ws[k], now) :: ws[k]
  }

  class Limiter {
    var windows: Windows
    const limit: int
    const interval: int

    constructor (limit: int, interval: int)
      ensures windows == map[] && this.limit == limit && this.interval == interval
    {
      windows := map[];
      this.limit, this.interval := limit, interval;
    }

    /** now is read before the lock is taken, later when the time left is worked out. */
    method Allow(key: string, now: int, later: int) returns (allowed: bool, retryAfter: int)
      modifies this
      ensures windows == Counted(old(windows), key, now, interval)
      ensures allowed <==> windows[key].count <= limit
      ensures retryAfter == if allowed then 0 else windows[key].resetAt - later
      ensures windows.Keys == old(windows).Keys + {key}
      ensures forall k | k in old(windows) && k != key :: windows[k] == old(windows)[k]
      ensures windows[key] ==
              if key in old(windows) && now <= old(windows)[key].resetAt
              then Window(old(windows)[key].count + 1, old(windows)[key].resetAt) else Window(1, now + interval)
    {
      if key !in windows || Expired(windows[key], now) {
        windows := windows[key := Window(0, now + interval)];
      }
      windows := windows[key := windows[key].(count := windows[key].count + 1)];
      if windows[key].count > limit {
        return false, windows[key].resetAt - later;
      }
      return true, 0;
    }

    method GC(now: int)
      modifies this
      ensures windows == Collected(old(windows), now)
      ensures forall k :: k in windows <==> k in old(windows) && now <= old(windows)[k].resetAt
      ensures forall k | k in windows :: windows[k] == old(windows)[k]
    {
      var toVisit := windows.Keys;
      while toVisit != {}
        invariant toVisit <= windows.Keys <= old(windows).Keys
        invariant forall k :: k in windows ==> windows[k] == old(windows)[k]
        invariant forall k :: k in old(windows) && k !in windows ==> Expired(old(windows)[k], now)
        invariant forall k :: k in windows && k !in toVisit ==> !Expired(windows[k], now)
        decreases |toVisit|
      {
        var key :| key in toVisit;
        if Expired(windows[key], now) {
          windows := windows - {key};
        }
        toVisit := toVisit - {key};
      }
    }
  }

  // ---- histories ----

  /** What happens under the lock, in its order. */
  datatype Op = Call(key: string, at: int) | Collect(at: int)

  predicate TimeOrdered(h: seq<Op>) {
    forall i, j :: 0 <= i < j < |h| ==> h[i].at <= h[j].at
  }

  function After(ws: Windows, op: Op, interval: int): Windows {
    match op
    case Call(key, at) => Counted(ws, key, at, interval)
    case Collect(at) => Collected(ws, at)
  }

  predicate Allows(ws: Windows, op: Op, limit: int, interval: int) {
    op.Call? && Counted(ws, op.key, op.at, interval)[op.key].count <= limit
  }

  /** The answers to the calls of a history. */
  function Answers(ws: Windows, h: seq<Op>, limit: int, interval: int): seq<bool>
    decreases |h|
  {
    if h == [] then []
    else
      (if h[0].Call? then [Allows(ws, h[0], limit, interval)] else []) +
      Answers(After(ws, h[0], interval), h[1..], limit, interval)
  }

  function CallsOnly(h: seq<Op>): (calls: seq<Op>)
    ensures forall op :: op in calls <==> op in h && op.Call?
  {
    if h == [] then [] else (if h[0].Call? then [h[0]] else []) + CallsOnly(h[1..])
  }

  // ---- collecting is invisible ----

  /** A limiter that has collected knows the same windows, apart from expired ones. */
  ghost predicate Agree(collected: Windows, kept: Windows, now: int) {
    && (forall k :: k in collected ==> k in kept && collected[k] == kept[k])
    && (forall k :: k in kept && k !in collected ==> Expired(kept[k], now))
  }

  lemma CallAgrees(collected: Windows, kept: Windows, op: Op, now: int, limit: int, interval: int)
    requires Agree(collected, kept, now) && now <= op.at && op.Call?
    ensures Agree(After(collected, op, interval), After(kept, op, interval), op.at)
    ensures Allows(collected, op, limit, interval) <==> Allows(kept, op, limit, interval)
  {
  }

  lemma CollectAgrees(collected: Windows, kept: Windows, op: Op, now: int, interval: int)
    requires Agree(collected, kept, now) && now <= op.at && op.Collect?
    ensures Agree(After(collected, op, interval), kept, op.at)
  {
  }

  lemma {:induction false} AnswersAgree(collected: Windows, kept: Windows, h: seq<Op>, now: int, limit: int,
      interval: int)
    requires Agree(collected, kept, now) && TimeOrdered(h) && (h != [] ==> now <= h[0].at)
    ensures Answers(collected, h, limit, interval) == Answers(kept, CallsOnly(h), limit, interval)
    decreases |h|
  {
    if h != [] {
      hide Agree, After, Allows;
      var op, collected' := h[0], After(collected, h[0], interval);
      if op.Call? {
        assert CallsOnly(h)[1..] == CallsOnly(h[1..]);
        CallAgrees(collected, kept, op, now, limit, interval);
        AnswersAgree(collected', After(kept, op, interval), h[1..], op.at, limit, interval);
      } else {
        assert CallsOnly(h) == CallsOnly(h[1..]);
        CollectAgrees(collected, kept, op, now, interval);
        AnswersAgree(collected', kept, h[1..], op.at, limit, interval);
      }
    }
  }

  /**
   Collecting is invisible: in time order, the answers are those of a limiter that never
   collects, wherever the collections fall.
   */
  lemma GcIsInvisible(h: seq<Op>, limit: int, interval: int)
    requires TimeOrdered(h)
    ensures Answers(map[], h, limit, interval) == Answers(map[], CallsOnly(h), limit, interval)
  {
    if h != [] {
      AnswersAgree(map[], map[], h, h[0].at, limit, interval);
    }
  }

  lemma AnswersOf(ws: Windows, h: seq<Op>, op: Op, rest: seq<Op>, limit: int, interval: int)
    requires h == [op] + rest
    ensures op.Call? ==>
              Answers(ws, h, limit, interval) ==
              [Allows(ws, op, limit, interval)] + Answers(After(ws, op, interval), rest, limit, interval)
    ensures op.Collect? ==> Answers(ws, h, limit, interval) == Answers(After(ws, op, interval), rest, limit, interval)
    ensures CallsOnly(h) == if op.Call? then [op] + CallsOnly(rest) else CallsOnly(rest)
  {
    hide After, Allows;
    assert h[1..] == rest;
  }

  /** Out of time order it can be seen: a call that read its clock before a collection gets a second window. */
  lemma GcIsVisibleToAnOldClock()
    ensures var h := [Call("k", 0), Collect(11), Call("k", 5)];
            Answers(map[], h, 1, 10) == [true, true] && Answers(map[], CallsOnly(h), 1, 10) == [true, false]
  {
    var first, sweep, late := Call("k", 0), Collect(11), Call("k", 5);
    var ws: Windows := map["k" := Window(1, 10)];
    assert After(map[], first, 10) == ws && Allows(map[], first, 1, 10);
    assert After(ws, sweep, 10) == map[] && Allows(map[], late, 1, 10) && !Allows(ws, late, 1, 10);
    hide *;
    assert Answers(map[], [first, sweep, late], 1, 10) == [true, true] by {
      TwoCallsAround(map[], first, sweep, late, 1, 10);
    }
    assert Answers(map[], [first, late], 1, 10) == [true, false] by {
      AnswersOf(map[], [first, late], first, [late], 1, 10);
      OneAnswer(ws, late, 1, 10);
    }
    assert CallsOnly([first, sweep, late]) == [first, late] by {
      TwoCallsAround(map[], first, sweep, late, 1, 10);
    }
  }

  lemma OneAnswer(ws: Windows, op: Op, limit: int, interval: int)
    requires op.Call?
    ensures Answers(ws, [op], limit, interval) == [Allows(ws, op, limit, interval)] && CallsOnly([op]) == [op]
  {
    NoAnswers(After(ws, op, interval), limit, interval);
    AnswersOf(ws, [op], op, [], limit, interval);
  }

  lemma TwoCallsAround(ws: Windows, first: Op, sweep: Op, late: Op, limit: int, interval: int)
    requires first.Call? && sweep.Collect? && late.Call?
    ensures Answers(ws, [first, sweep, late], limit, interval) ==
            [Allows(ws, first, limit, interval),
                Allows(After(After(ws, first, interval), sweep, interval), late, limit, interval)]
    ensures CallsOnly([first, sweep, late]) == [first, late]
  {
    hide *;
    var ws1 := After(ws, first, interval);
    AnswersOf(ws, [first, sweep, late], first, [sweep, late], limit, interval);
    AnswersOf(ws1, [sweep, late], sweep, [late], limit, interval);
    OneAnswer(After(ws1, sweep, interval), late, limit, interval);
  }

  lemma NoAnswers(ws: Windows, limit: int, interval: int)
    ensures Answers(ws, [], limit, interval) == [] && CallsOnly([]) == []
  {
  }

  // ---- the rate bound ----

  /** The calls for a key allowed between two instants, both included. */
  function AllowedBetween(ws: Windows, h: seq<Op>, key: string, from: int, to: int, limit: int, interval: int): nat
    decreases |h|
  {
    if h == [] then 0
    else
      (if h[0].Call? && h[0].key == key && from <= h[0].at <= to && Allows(ws, h[0], limit, interval) then 1 else 0) +
      AllowedBetween(After(ws, h[0], interval), h[1..], key, from, to, limit, interval)
  }

  /** The quotient rounded up; nothing of nothing. */
  function CeilDiv(a: int, b: int): (n: nat)
    requires b > 0
    ensures a > 0 ==> (n - 1) * b < a <= n * b
    decreases a
  {
    if a <= 0 then 0 else 1 + CeilDiv(a - b, b)
  }

  lemma {:induction false} CeilDivMonotone(a: int, a': int, b: int)
    requires b > 0 && a <= a'
    ensures CeilDiv(a, b) <= CeilDiv(a', b)
    decreases a
  {
    if a > 0 {
      CeilDivMonotone(a - b, a' - b, b);
    }
  }

  /**
   How many calls for a key may still be allowed from now up to an instant: what is left of a
   window that is open, and a full one for every window that can open after it.
   */
  ghost function Budget(ws: Windows, key: string, now: int, to: int, limit: nat, interval: int): nat
    requires interval > 0
  {
    if key in ws && !Expired(ws[key], now) then
      (if ws[key].count < limit then limit - ws[key].count else 0) + limit * CeilDiv(to - ws[key].resetAt, interval)
    else if now <= to then limit * (1 + CeilDiv(to - now - interval, interval))
    else 0
  }

  ghost predicate Counts(ws: Windows) {
    forall k :: k in ws ==> ws[k].count >= 1
  }

  lemma Times(k: nat, a: int, b: int)
    requires a <= b
    ensures k * a <= k * b
  {
    assert k * (b - a) >= 0;
  }

  lemma CeilDivStep(a: int, b: int)
    requires b > 0 && a > 0
    ensures CeilDiv(a, b) == 1 + CeilDiv(a - b, b)
  {
  }

  lemma BudgetExpires(ws: Windows, key: string, now: int, later: int, to: int, limit: nat, interval: int)
    requires interval > 0 && key in ws && !Expired(ws[key], now) && Expired(ws[key], later) && later <= to
    ensures Budget(ws, key, later, to, limit, interval) <= Budget(ws, key, now, to, limit, interval)
  {
    hide CeilDiv;
    var left, unopened := to - ws[key].resetAt, to - later - interval;
    CeilDivStep(left, interval);
    CeilDivMonotone(unopened, left - interval, interval);
    Times(limit, 1 + CeilDiv(unopened, interval), CeilDiv(left, interval));
  }

  lemma BudgetWaits(ws: Windows, key: string, now: int, later: int, to: int, limit: nat, interval: int)
    requires interval > 0 && now <= later <= to && (key !in ws || Expired(ws[key], now))
    ensures Budget(ws, key, later, to, limit, interval) <= Budget(ws, key, now, to, limit, interval)
  {
    hide CeilDiv;
    CeilDivMonotone(to - later - interval, to - now - interval, interval);
    Times(limit, 1 + CeilDiv(to - later - interval, interval), 1 + CeilDiv(to - now - interval, interval));
  }

  /** Time alone never raises the budget. */
  lemma BudgetFalls(ws: Windows, key: string, now: int, later: int, to: int, limit: nat, interval: int)
    requires interval > 0 && now <= later
    ensures Budget(ws, key, later, to, limit, interval) <= Budget(ws, key, now, to, limit, interval)
  {
    hide CeilDiv;
    if key in ws && !Expired(ws[key], later) {
      assert Budget(ws, key, later, to, limit, interval) == Budget(ws, key, now, to, limit, interval);
    } else if later > to {
      assert Budget(ws, key, later, to, limit, interval) == 0;
    } else {
      hide Budget;
      if key in ws && !Expired(ws[key], now) {
        BudgetExpires(ws, key, now, later, to, limit, interval);
      } else {
        BudgetWaits(ws, key, now, later, to, limit, interval);
      }
    }
  }

  /** One operation spends what it allows. */
  lemma OpSpends(ws: Windows, op: Op, key: string, to: int, limit: nat, interval: int)
    requires interval > 0 && op.at <= to
    ensures Budget(After(ws, op, interval), key, op.at, to, limit, interval) +
            (if op.Call? && op.key == key && Allows(ws, op, limit, interval) then 1 else 0)
            <= Budget(ws, key, op.at, to, limit, interval)
  {
  }

  lemma {:induction false} NoneLater(ws: Windows, h: seq<Op>, key: string, from: int, to: int, limit: nat,
      interval: int)
    requires TimeOrdered(h) && (h != [] ==> h[0].at > to)
    ensures AllowedBetween(ws, h, key, from, to, limit, interval) == 0
    decreases |h|
  {
    if h != [] {
      NoneLater(After(ws, h[0], interval), h[1..], key, from, to, limit, interval);
    }
  }

  lemma {:induction false} WithinBudget(ws: Windows, h: seq<Op>, key: string, now: int, from: int, to: int,
      limit: nat, interval: int)
    requires interval > 0 && TimeOrdered(h) && (h != [] ==> now <= h[0].at)
    ensures AllowedBetween(ws, h, key, from, to, limit, interval) <= Budget(ws, key, now, to, limit, interval)
    decreases |h|
  {
    if h != [] {
      hide Budget, Allows;
      if h[0].at > to {
        NoneLater(ws, h, key, from, to, limit, interval);
      } else {
        var op := h[0];
        BudgetFalls(ws, key, now, op.at, to, limit, interval);
        OpSpends(ws, op, key, to, limit, interval);
        WithinBudget(After(ws, op, interval), h[1..], key, op.at, from, to, limit, interval);
      }
    }
  }

  /** At the start of a span the budget is one call short of a window more than the span has room for. */
  lemma BudgetAtStart(ws: Windows, key: string, from: int, to: int, limit: nat, interval: int)
    requires interval > 0 && from < to && Counts(ws) && limit > 0
    ensures Budget(ws, key, from, to, limit, interval) <= (CeilDiv(to - from, interval) + 1) * limit - 1
  {
    var n := CeilDiv(to - from, interval);
    if key in ws && !Expired(ws[key], from) {
      CeilDivMonotone(to - ws[key].resetAt, to - from, interval);
      Times(limit, CeilDiv(to - ws[key].resetAt, interval), n);
    }
    assert (n + 1) * limit == limit * n + limit;
  }

  lemma {:induction false} BoundFrom(ws: Windows, h: seq<Op>, key: string, from: int, to: int, limit: int,
      interval: int)
    requires interval > 0 && from < to && TimeOrdered(h) && Counts(ws)
    ensures AllowedBetween(ws, h, key, from, to, limit, interval) <=
            if limit > 0 then (CeilDiv(to - from, interval) + 1) * limit - 1 else 0
    decreases |h|
  {
    if limit <= 0 {
      NoneAllowed(ws, h, key, from, to, limit, interval);
    } else if h != [] {
      if h[0].at < from {
        assert Counts(After(ws, h[0], interval));
        BoundFrom(After(ws, h[0], interval), h[1..], key, from, to, limit, interval);
      } else {
        WithinBudget(ws, h, key, from, from, to, limit, interval);
        BudgetAtStart(ws, key, from, to, limit, interval);
      }
    } else {
      Times(limit, 1, CeilDiv(to - from, interval) + 1);
    }
  }

  lemma {:induction false} NoneAllowed(ws: Windows, h: seq<Op>, key: string, from: int, to: int, limit: int,
      interval: int)
    requires limit <= 0 && Counts(ws)
    ensures AllowedBetween(ws, h, key, from, to, limit, interval) == 0
    decreases |h|
  {
    if h != [] {
      assert Counts(After(ws, h[0], interval));
      NoneAllowed(After(ws, h[0], interval), h[1..], key, from, to, limit, interval);
    }
  }

  /**
   The rate bound: in time order, with collections anywhere, a closed span of length L > 0
   sees fewer than (ceil(L / interval) + 1) * limit allowed calls for a key, since windows
   open strictly more than an interval apart and one open before the span has spent a call.
   */
  lemma RateBound(h: seq<Op>, key: string, from: int, to: int, limit: int, interval: int)
    requires interval > 0 && from < to && TimeOrdered(h)
    ensures AllowedBetween(map[], h, key, from, to, limit, interval) <=
            if limit > 0 then (CeilDiv(to - from, interval) + 1) * limit - 1 else 0
    ensures to - from == interval && limit > 0 ==>
              AllowedBetween(map[], h, key, from, to, limit, interval) <= 2 * limit - 1
  {
    BoundFrom(map[], h, key, from, to, limit, interval);
  }

  // ---- the bound is met ----

  function Repeat(op: Op, n: nat): seq<Op> {
    seq(n, _ => op)
  }

  lemma {:induction false} AllowedSplit(ws: Windows, op: Op, n: nat, h: seq<Op>, key: string, from: int, to: int,
      limit: int, interval: int)
    requires op == Call(key, op.at) && interval > 0 && key in ws && !Expired(ws[key], op.at) && from <= op.at <= to
    requires ws[key].count + n <= limit
    ensures AllowedBetween(ws, Repeat(op, n) + h, key, from, to, limit, interval) ==
            n + AllowedBetween(ws[key := Window(ws[key].count + n, ws[key].resetAt)], h, key, from, to, limit, interval)
    decreases n
  {
    if n == 0 {
      assert Repeat(op, n) + h == h;
      assert ws[key := Window(ws[key].count + n, ws[key].resetAt)] == ws;
    } else {
      var ws' := After(ws, op, interval);
      assert (Repeat(op, n) + h)[1..] == Repeat(op, n - 1) + h;
      AllowedSplit(ws', op, n - 1, h, key, from, to, limit, interval);
      assert ws'[key := Window(ws'[key].count + (n - 1), ws'[key].resetAt)] ==
          ws[key := Window(ws[key].count + n, ws[key].resetAt)];
    }
  }

  lemma AllowedFirst(ws: Windows, op: Op, h: seq<Op>, key: string, from: int, to: int, limit: int, interval: int)
    ensures AllowedBetween(ws, [op] + h, key, from, to, limit, interval) ==
            (if op.Call? && op.key == key && from <= op.at <= to && Allows(ws, op, limit, interval) then 1 else 0) +
            AllowedBetween(After(ws, op, interval), h, key, from, to, limit, interval)
  {
    assert ([op] + h)[1..] == h;
  }

  /** Whole windows of calls, each begun as soon as the one before it is over. */
  function FullWindows(key: string, limit: nat, interval: nat, at: int, k: nat): seq<Op>
    decreases k
  {
    if k == 0 then []
    else Repeat(Call(key, at), limit) + FullWindows(key, limit, interval, at + interval + 1, k - 1)
  }

  /** One call, then all the rest of its window in its last instant, then k whole windows. */
  function Burst(key: string, limit: nat, interval: nat, k: nat): seq<Op>
    requires limit > 0
  {
    [Call(key, 0)] + (Repeat(Call(key, interval), limit - 1) + FullWindows(key, limit, interval, interval + 1, k))
  }

  predicate NoneBefore(h: seq<Op>, at: int) {
    forall i | 0 <= i < |h| :: at <= h[i].at
  }

  lemma {:induction false} FullWindowsOrdered(key: string, limit: nat, interval: nat, at: int, k: nat)
    ensures TimeOrdered(FullWindows(key, limit, interval, at, k))
    ensures NoneBefore(FullWindows(key, limit, interval, at, k), at)
    decreases k
  {
    if k > 0 {
      FullWindowsOrdered(key, limit, interval, at + interval + 1, k - 1);
    }
  }

  lemma BurstOrdered(key: string, limit: nat, interval: nat, k: nat)
    requires limit > 0
    ensures TimeOrdered(Burst(key, limit, interval, k))
  {
    FullWindowsOrdered(key, limit, interval, interval + 1, k);
    hide FullWindows;
    var windows := FullWindows(key, limit, interval, interval + 1, k);
    var rest := Repeat(Call(key, interval), limit - 1) + windows;
    assert TimeOrdered(rest) && NoneBefore(rest, 0);
  }

  /** A window that opens takes as many calls as the limit, and no more are needed to fill it. */
  lemma WindowFills(ws: Windows, key: string, at: int, h: seq<Op>, from: int, to: int, limit: nat, interval: nat)
    requires limit > 0 && interval > 0 && from <= at <= to && (key in ws ==> Expired(ws[key], at))
    ensures AllowedBetween(ws, Repeat(Call(key, at), limit) + h, key, from, to, limit, interval) ==
            limit + AllowedBetween(ws[key := Window(limit, at + interval)], h, key, from, to, limit, interval)
  {
    var op := Call(key, at);
    var again := Repeat(op, limit - 1);
    assert Repeat(op, limit) + h == [op] + (again + h);
    hide AllowedBetween, Repeat;
    AllowedFirst(ws, op, again + h, key, from, to, limit, interval);
    var begun := ws[key := Window(1, at + interval)];
    assert After(ws, op, interval) == begun;
    AllowedSplit(begun, op, limit - 1, h, key, from, to, limit, interval);
    assert begun[key := Window(limit, at + interval)] == ws[key := Window(limit, at + interval)];
  }

  lemma {:induction false} WindowsFill(ws: Windows, key: string, at: int, k: nat, from: int, to: int, limit: nat,
      interval: nat)
    requires limit > 0 && interval > 0 && from <= at && (key in ws ==> Expired(ws[key], at))
    requires k > 0 ==> at + (k - 1) * (interval + 1) <= to
    ensures AllowedBetween(ws, FullWindows(key, limit, interval, at, k), key, from, to, limit, interval) == k * limit
    decreases k
  {
    if k > 0 {
      assert (k - 1) * (interval + 1) >= 0;
      assert k > 1 ==> (k - 1) * (interval + 1) == (k - 2) * (interval + 1) + (interval + 1);
      assert k * limit == limit + (k - 1) * limit;
      hide AllowedBetween, Repeat;
      var rest := FullWindows(key, limit, interval, at + interval + 1, k - 1);
      WindowFills(ws, key, at, rest, from, to, limit, interval);
      WindowsFill(ws[key := Window(limit, at + interval)], key, at + interval + 1, k - 1, from, to, limit, interval);
    }
  }

  lemma {:induction false} CeilDivOfMultiple(k: nat, b: int)
    requires b > 0
    ensures CeilDiv(k * b, b) == k
  {
    if k > 0 {
      assert k * b == (k - 1) * b + b && (k - 1) * b >= 0;
      CeilDivOfMultiple(k - 1, b);
    }
  }

  /** The bound is met over every span of k intervals, as long as k instants fit into one. */
  lemma BurstMeetsBound(key: string, limit: nat, interval: nat, k: nat)
    requires limit > 0 && 0 < k <= interval
    ensures TimeOrdered(Burst(key, limit, interval, k))
    ensures AllowedBetween(map[], Burst(key, limit, interval, k), key, k, k + k * interval, limit, interval) ==
            (CeilDiv(k * interval, interval) + 1) * limit - 1
  {
    BurstOrdered(key, limit, interval, k);
    CeilDivOfMultiple(k, interval);
    var from, to := k, k + k * interval;
    assert to == (interval + 1) + (k - 1) * (interval + 1);
    assert (k - 1) * (interval + 1) >= 0;
    assert (k + 1) * limit == k * limit + limit;
    hide AllowedBetween, Repeat, FullWindows, CeilDiv;
    var windows := FullWindows(key, limit, interval, interval + 1, k);
    var begun: Windows := map[key := Window(1, interval)];
    var full: Windows := map[key := Window(limit, interval)];
    assert After(map[], Call(key, 0), interval) == begun;
    AllowedFirst(map[], Call(key, 0), Repeat(Call(key, interval), limit - 1) + windows, key, from, to, limit, interval);
    AllowedSplit(begun, Call(key, interval), limit - 1, windows, key, from, to, limit, interval);
    assert begun[key := Window(1 + (limit - 1), interval)] == full;
    WindowsFill(full, key, interval + 1, k, from, to, limit, interval);
  }
}
