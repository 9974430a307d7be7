/** Each key has its own window: what the calls of a key are answered depends on them alone, and exactly how. */
module RateLimitKeys {
  import opened RateLimit
  import opened RateLimitCollecting

  // ---- keys are independent ----

  /** The answers to the calls of one key. */
  function AnswersTo(key: string, ws: Windows, h: seq<Op>, limit: int, interval: int): seq<bool>
    decreases |h|
  {
    if h == [] then []
    else
      (if h[0].Call? && h[0].key == key then [Allows(ws, h[0], limit, interval)] else []) +
      AnswersTo(key, After(ws, h[0], interval), h[1..], limit, interval)
  }

  /** The history without the calls of all other keys. */
  function Without(h: seq<Op>, key: string): (own: seq<Op>)
    ensures forall op | op in own :: op.Collect? || op.key == key
  {
    if h == [] then []
    else (if h[0].Collect? || h[0].key == key then [h[0]] else []) + Without(h[1..], key)
  }

  predicate SameFor(key: string, ws: Windows, ws': Windows) {
    (key in ws <==> key in ws') && (key in ws ==> ws[key] == ws'[key])
  }

  lemma OpKeepsSame(key: string, ws: Windows, ws': Windows, op: Op, limit: int, interval: int)
    requires SameFor(key, ws, ws')
    ensures SameFor(key, After(ws, op, interval), After(ws', op, interval))
    ensures op.Call? && op.key != key ==> SameFor(key, After(ws, op, interval), ws')
    ensures op.Call? && op.key == key ==> Allows(ws, op, limit, interval) == Allows(ws', op, limit, interval)
  {
  }

  lemma {:induction false} OwnAnswers(key: string, ws: Windows, ws': Windows, h: seq<Op>, limit: int, interval: int)
    requires SameFor(key, ws, ws')
    ensures AnswersTo(key, ws, h, limit, interval) == Answers(ws', Without(h, key), limit, interval)
    decreases |h|
  {
    if h != [] {
      hide SameFor, After, Allows;
      var op := h[0];
      OpKeepsSame(key, ws, ws', op, limit, interval);
      if op.Collect? || op.key == key {
        AnswersOf(ws', [op] + Without(h[1..], key), op, Without(h[1..], key), limit, interval);
        OwnAnswers(key, After(ws, op, interval), After(ws', op, interval), h[1..], limit, interval);
      } else {
        assert Without(h, key) == Without(h[1..], key);
        OwnAnswers(key, After(ws, op, interval), ws', h[1..], limit, interval);
      }
    }
  }

  /**
   Keys are independent: whatever the clocks and the collections, the calls of a key are answered as if no
   other key had ever been called.
   */
  lemma KeysAreIndependent(key: string, h: seq<Op>, limit: int, interval: int)
    ensures AnswersTo(key, map[], h, limit, interval) == Answers(map[], Without(h, key), limit, interval)
  {
    OwnAnswers(key, map[], map[], h, limit, interval);
  }

  // ---- when a call is allowed ----

  /** When the calls of a key were made. */
  function TimesOf(h: seq<Op>, key: string): seq<int> {
    if h == [] then []
    else (if h[0].Call? && h[0].key == key then [h[0].at] else []) + TimesOf(h[1..], key)
  }

  /** The call that opened the window the last of these calls fell into: the first call more than an interval after
   the one that opened the window before. */
  function OpenedBy(times: seq<int>, interval: int): (o: nat)
    requires times != []
    ensures o < |times|
  {
    var last := |times| - 1;
    if last == 0 then 0
    else
      var o := OpenedBy(times[..last], interval);
      if times[last] > times[o] + interval then last else o
  }

  /** The window of a key is the one its calls opened, unless it was over and has been collected. */
  predicate Tracks(ws: Windows, key: string, times: seq<int>, interval: int, collecting: bool, now: int) {
    if times == [] then key !in ws
    else
      var o := OpenedBy(times, interval);
      if key in ws then ws[key] == Window(|times| - o, times[o] + interval)
      else collecting && times[o] + interval < now
  }

  lemma OpTracks(ws: Windows, key: string, times: seq<int>, op: Op, interval: int, collecting: bool, now: int)
    requires Tracks(ws, key, times, interval, collecting, now)
    requires if collecting then now <= op.at else op.Call?
    ensures Tracks(After(ws, op, interval), key, times + TimesOf([op], key), interval, collecting, op.at)
    ensures op.Call? && op.key == key ==>
              After(ws, op, interval)[key].count == |times| + 1 - OpenedBy(times + [op.at], interval)
  {
    assert (times + [op.at])[..|times|] == times;
    if !(op.Call? && op.key == key) {
      assert times + TimesOf([op], key) == times;
    }
  }

  lemma TimesOneMore(times: seq<int>, h: seq<Op>, key: string)
    requires h != []
    ensures (times + TimesOf([h[0]], key)) + TimesOf(h[1..], key) == times + TimesOf(h, key)
  {
    assert TimesOf([h[0]], key) + TimesOf(h[1..], key) == TimesOf(h, key);
  }

  lemma {:induction false} HistoryTracks(ws: Windows, key: string, times: seq<int>, h: seq<Op>, interval: int,
      collecting: bool, now: int)
    requires Tracks(ws, key, times, interval, collecting, now)
    requires if collecting then TimeOrdered(h) && (h != [] ==> now <= h[0].at)
             else forall i | 0 <= i < |h| :: h[i].Call?
    ensures Tracks(AfterAll(ws, h, interval), key, times + TimesOf(h, key), interval, collecting,
                   if h == [] then now else h[|h| - 1].at)
    decreases |h|
  {
    if h == [] {
      assert times + TimesOf(h, key) == times;
    } else {
      hide Tracks, After, TimesOf;
      var op := h[0];
      OpTracks(ws, key, times, op, interval, collecting, now);
      HistoryTracks(After(ws, op, interval), key, times + TimesOf([op], key), h[1..], interval, collecting, op.at);
      TimesOneMore(times, h, key);
    }
  }

  /**
   A call is allowed exactly if, counted from the call of its key that opened its window, it is among the first
   limit ones: in any order of the clocks without collections, and in time order with them.
   */
  lemma AllowedExactly(h: seq<Op>, key: string, at: int, limit: int, interval: int)
    requires TimeOrdered(h + [Call(key, at)]) || forall i | 0 <= i < |h| :: h[i].Call?
    ensures var answers := Answers(map[], h + [Call(key, at)], limit, interval);
            var times := TimesOf(h, key) + [at];
            answers != [] && (answers[|answers| - 1] <==> |times| - OpenedBy(times, interval) <= limit)
  {
    var call := Call(key, at);
    var ws := AfterAll(map[], h, interval);
    var times := TimesOf(h, key);
    AnswersAppend(map[], h, [call], limit, interval);
    OneAnswer(ws, call, limit, interval);
    if forall i | 0 <= i < |h| :: h[i].Call? {
      HistoryTracks(map[], key, [], h, interval, false, 0);
      assert [] + times == times;
      OpTracks(ws, key, times, call, interval, false, if h == [] then 0 else h[|h| - 1].at);
    } else {
      var all := h + [call];
      assert all[0] == h[0] && all[|h| - 1] == h[|h| - 1] && all[|h|] == call;
      assert forall i, j | 0 <= i < j < |h| :: all[i].at <= all[j].at && all[i] == h[i] && all[j] == h[j];
      HistoryTracks(map[], key, [], h, interval, true, h[0].at);
      assert [] + times == times;
      OpTracks(ws, key, times, call, interval, true, h[|h| - 1].at);
    }
  }

  /** How many of these instants are not before another. */
  function Since(times: seq<int>, from: int): nat {
    if times == [] then 0
    else Since(times[..|times| - 1], from) + if times[|times| - 1] >= from then 1 else 0
  }

  lemma {:induction false} SinceOpened(times: seq<int>, o: nat, from: int)
    requires o <= |times| && forall i | o <= i < |times| :: times[i] >= from
    ensures Since(times, from) >= |times| - o
  {
    if o < |times| {
      SinceOpened(times[..|times| - 1], o, from);
    }
  }

  lemma OpenedRecently(times: seq<int>, interval: int)
    requires times != [] && interval >= 0
    ensures times[|times| - 1] - interval <= times[OpenedBy(times, interval)]
  {
  }

  predicate Ascending(times: seq<int>) {
    forall i, j | 0 <= i < j < |times| :: times[i] <= times[j]
  }

  lemma {:induction false} TimesOrdered(h: seq<Op>, key: string, from: int)
    requires TimeOrdered(h) && (h != [] ==> from <= h[0].at)
    ensures Ascending(TimesOf(h, key)) && forall i | 0 <= i < |TimesOf(h, key)| :: from <= TimesOf(h, key)[i]
  {
    if h != [] {
      TimesOrdered(h[1..], key, h[0].at);
    }
  }

  lemma {:induction false} TimesAppended(h: seq<Op>, key: string, at: int)
    ensures TimesOf(h + [Call(key, at)], key) == TimesOf(h, key) + [at]
  {
    if h == [] {
      assert h + [Call(key, at)] == [Call(key, at)] && [Call(key, at)][1..] == [];
    } else {
      assert (h + [Call(key, at)])[1..] == h[1..] + [Call(key, at)];
      TimesAppended(h[1..], key, at);
    }
  }

  /** In time order, whoever has made fewer than limit calls within the last interval is allowed the next one. */
  lemma LightUseIsAllowed(h: seq<Op>, key: string, at: int, limit: int, interval: int)
    requires TimeOrdered(h + [Call(key, at)]) && interval >= 0
    requires Since(TimesOf(h, key), at - interval) < limit
    ensures var answers := Answers(map[], h + [Call(key, at)], limit, interval);
            answers != [] && answers[|answers| - 1]
  {
    AllowedExactly(h, key, at, limit, interval);
    var all, times := h + [Call(key, at)], TimesOf(h, key) + [at];
    TimesAppended(h, key, at);
    TimesOrdered(all, key, all[0].at);
    OpenedRecently(times, interval);
    var o := OpenedBy(times, interval);
    SinceOpened(TimesOf(h, key), o, at - interval);
  }
}
