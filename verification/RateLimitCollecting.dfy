/** Exactly when a collection can be noticed by callers whose clock is behind it. */
module RateLimitCollecting {
  import opened RateLimit

  /** The next call is answered differently exactly when its window was collected too early and was full. */
  lemma CollectionSeenByCall(ws: Windows, key: string, sweep: int, at: int, limit: int, interval: int)
    requires Counts(ws) && interval >= 0
    ensures Allows(Collected(ws, sweep), Call(key, at), limit, interval) !=
            Allows(ws, Call(key, at), limit, interval) <==>
            key in ws && at <= ws[key].resetAt < sweep && 1 <= limit <= ws[key].count
  {
  }

  /** Calls in time order, none with a clock before this one. */
  predicate CallsFrom(h: seq<Op>, from: int) {
    TimeOrdered(h) && forall i | 0 <= i < |h| :: h[i].Call? && from <= h[i].at
  }

  /** The calls already counted in the window that is open. */
  function Spent(ws: Windows, key: string, at: int): int {
    if key in ws && !Expired(ws[key], at) then ws[key].count else 0
  }

  /** The last of n calls at one instant is allowed exactly if the limit has room for all of them. */
  lemma {:induction false} LastOfRepeated(ws: Windows, key: string, at: int, n: nat, limit: int, interval: int)
    requires n > 0 && interval >= 0
    ensures var answers := Answers(ws, Repeat(Call(key, at), n), limit, interval);
            |answers| == n && (answers[n - 1] <==> Spent(ws, key, at) + n <= limit)
    decreases n
  {
    var op := Call(key, at);
    var rest := Repeat(op, n - 1);
    assert Repeat(op, n) == [op] + rest;
    AnswersOf(ws, Repeat(op, n), op, rest, limit, interval);
    if n == 1 {
      NoAnswers(After(ws, op, interval), limit, interval);
      assert rest == [];
    } else {
      LastOfRepeated(After(ws, op, interval), key, at, n - 1, limit, interval);
    }
  }

  lemma CallsOnlyCalls(h: seq<Op>)
    requires forall i | 0 <= i < |h| :: h[i].Call?
    ensures CallsOnly(h) == h
  {
    if h != [] {
      CallsOnlyCalls(h[1..]);
    }
  }

  lemma {:induction false} NothingAllowed(ws: Windows, h: seq<Op>, limit: int, interval: int)
    requires Counts(ws) && limit <= 0 && forall i | 0 <= i < |h| :: h[i].Call?
    ensures Answers(ws, h, limit, interval) == seq(|h|, _ => false)
    decreases |h|
  {
    if h != [] {
      assert !Allows(ws, h[0], limit, interval);
      NothingAllowed(After(ws, h[0], interval), h[1..], limit, interval);
    }
  }

  lemma CollectedCounts(ws: Windows, sweep: int)
    requires Counts(ws)
    ensures Counts(Collected(ws, sweep))
  {
  }

  /** Some window collected by this sweep is still good for such a caller. */
  predicate CollectedEarly(ws: Windows, sweep: int, from: int) {
    exists k | k in ws :: from <= ws[k].resetAt < sweep
  }

  lemma EarlyIsSeen(ws: Windows, sweep: int, from: int, limit: nat, interval: int) returns (h: seq<Op>)
    requires Counts(ws) && interval >= 0 && limit > 0 && CollectedEarly(ws, sweep, from)
    ensures CallsFrom(h, from)
    ensures Answers(Collected(ws, sweep), h, limit, interval) != Answers(ws, h, limit, interval)
  {
    var k :| k in ws && from <= ws[k].resetAt < sweep;
    var at := ws[k].resetAt;
    h := Repeat(Call(k, at), limit);
    assert k !in Collected(ws, sweep) && Spent(Collected(ws, sweep), k, at) == 0;
    assert Spent(ws, k, at) == ws[k].count >= 1;
    LastOfRepeated(ws, k, at, limit, limit, interval);
    LastOfRepeated(Collected(ws, sweep), k, at, limit, limit, interval);
  }

  lemma OnTimeIsUnseen(ws: Windows, sweep: int, from: int, limit: int, interval: int, h: seq<Op>)
    requires Counts(ws) && (limit <= 0 || !CollectedEarly(ws, sweep, from)) && CallsFrom(h, from)
    ensures Answers(Collected(ws, sweep), h, limit, interval) == Answers(ws, h, limit, interval)
  {
    if limit <= 0 {
      CollectedCounts(ws, sweep);
      NothingAllowed(ws, h, limit, interval);
      NothingAllowed(Collected(ws, sweep), h, limit, interval);
    } else {
      assert Agree(Collected(ws, sweep), ws, from);
      AnswersAgree(Collected(ws, sweep), ws, h, from, limit, interval);
      CallsOnlyCalls(h);
    }
  }

  /** The windows a history leaves. */
  function AfterAll(ws: Windows, h: seq<Op>, interval: int): Windows
    decreases |h|
  {
    if h == [] then ws else AfterAll(After(ws, h[0], interval), h[1..], interval)
  }

  lemma {:induction false} AnswersAppend(ws: Windows, before: seq<Op>, h: seq<Op>, limit: int, interval: int)
    ensures Answers(ws, before + h, limit, interval) ==
            Answers(ws, before, limit, interval) + Answers(AfterAll(ws, before, interval), h, limit, interval)
    decreases |before|
  {
    if before == [] {
      assert before + h == h;
    } else {
      assert (before + h)[1..] == before[1..] + h;
      AnswersAppend(After(ws, before[0], interval), before[1..], h, limit, interval);
    }
  }

  lemma {:induction false} AfterAllCounts(ws: Windows, h: seq<Op>, interval: int)
    requires Counts(ws)
    ensures Counts(AfterAll(ws, h, interval))
    decreases |h|
  {
    if h != [] {
      assert Counts(After(ws, h[0], interval));
      AfterAllCounts(After(ws, h[0], interval), h[1..], interval);
    }
  }

  /** A collection after some history changes no later answer to callers with clocks from here on. */
  ghost predicate Unseen(before: seq<Op>, sweep: int, from: int, limit: int, interval: int) {
    forall h | CallsFrom(h, from) ::
      Answers(map[], before + ([Collect(sweep)] + h), limit, interval) == Answers(map[], before + h, limit, interval)
  }

  lemma CollectionInHistory(before: seq<Op>, sweep: int, h: seq<Op>, limit: int, interval: int)
    ensures var ws := AfterAll(map[], before, interval);
            Answers(map[], before + ([Collect(sweep)] + h), limit, interval) ==
                Answers(map[], before + h, limit, interval) <==>
            Answers(Collected(ws, sweep), h, limit, interval) == Answers(ws, h, limit, interval)
  {
    var ws := AfterAll(map[], before, interval);
    AnswersAppend(map[], before, [Collect(sweep)] + h, limit, interval);
    AnswersAppend(map[], before, h, limit, interval);
    AnswersOf(ws, [Collect(sweep)] + h, Collect(sweep), h, limit, interval);
    var first := Answers(map[], before, limit, interval);
    var with, without := Answers(Collected(ws, sweep), h, limit, interval), Answers(ws, h, limit, interval);
    assert (first + with)[|first|..] == with && (first + without)[|first|..] == without;
  }

  /**
   A collection after any history is noticed by later callers, whose clocks may be behind it,
   exactly when it took a window that was not over yet for the earliest of those clocks, and
   the limiter allows anything at all.
   */
  lemma CollectionSeenExactly(before: seq<Op>, sweep: int, from: int, limit: int, interval: int)
    requires interval >= 0
    ensures Unseen(before, sweep, from, limit, interval) <==>
            limit <= 0 || !CollectedEarly(AfterAll(map[], before, interval), sweep, from)
  {
    var ws := AfterAll(map[], before, interval);
    AfterAllCounts(map[], before, interval);
    hide Answers, AfterAll, CollectedEarly, CallsFrom, Counts;
    if limit <= 0 || !CollectedEarly(ws, sweep, from) {
      forall h | CallsFrom(h, from)
        ensures Answers(map[], before + ([Collect(sweep)] + h), limit, interval) ==
                Answers(map[], before + h, limit, interval)
      {
        OnTimeIsUnseen(ws, sweep, from, limit, interval, h);
        CollectionInHistory(before, sweep, h, limit, interval);
      }
    } else {
      var h := EarlyIsSeen(ws, sweep, from, limit, interval);
      CollectionInHistory(before, sweep, h, limit, interval);
    }
  }
}
