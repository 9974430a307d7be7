/**
 A client that follows NextCursor, with whatever limits it likes, over a table that may grow
 between its requests.
 */
module AuditPaging {
  import opened Wrappers
  import opened AuditLog

  /** The table at each request; entries are only ever added. */
  ghost predicate Growing(tables: nat -> Table) {
    && (forall i :: UniqueIds(tables(i)))
    && (forall i, j | i <= j :: tables(i) <= tables(j))
  }

  ghost function Of(table: Table, organization: nat): Table {
    set e | e in table && e.organization == organization
  }

  /**
   The entries of the first n pages from request i on: the client passes each NextCursor on
   and stops when it gets none.
   */
  ghost function Walk(codec: Codec, tables: nat -> Table, organization: nat, limits: nat -> int, cursor: string,
      i: nat, n: nat): seq<Entry>
    requires Growing(tables)
    decreases n
  {
    if n == 0 then []
    else
      var page := Page(codec, tables(i), organization, limits(i), cursor);
      if page.Failure? then []
      else if page.value.nextCursor == "" then page.value.entries
      else page.value.entries + Walk(codec, tables, organization, limits, page.value.nextCursor, i + 1, n - 1)
  }

  /** Whether that client has come to the last page within n requests. */
  ghost predicate Ends(codec: Codec, tables: nat -> Table, organization: nat, limits: nat -> int, cursor: string,
      i: nat, n: nat)
    requires Growing(tables)
    decreases n
  {
    n > 0 &&
    var page := Page(codec, tables(i), organization, limits(i), cursor);
    page.Success? &&
    (page.value.nextCursor == "" || Ends(codec, tables, organization, limits, page.value.nextCursor, i + 1, n - 1))
  }

  /** The cursor text stands for this bound. */
  ghost predicate StandsFor(codec: Codec, cursor: string, before: Option<Key>) {
    Bound(codec, cursor) == Success(before)
  }

  /** A page: the newest matching rows, and a cursor for the rest when there is a rest. */
  lemma PageOf(codec: Codec, table: Table, organization: nat, limit: int, cursor: string, before: Option<Key>)
    requires codec.Valid() && UniqueIds(table) && StandsFor(codec, cursor, before)
    ensures var rows := Sorted(Matching(table, organization, before));
            var page := Page(codec, table, organization, limit, cursor);
            && Lists(rows, Matching(table, organization, before))
            && page.Success?
            && (page.value.nextCursor == "" ==> page.value.entries == rows)
            && (page.value.nextCursor != "" ==>
                  var n := Clamp(limit);
                  n < |rows| && page.value.entries == rows[..n]
                  && StandsFor(codec, page.value.nextCursor, Some(rows[n - 1].Position())))
  {
    SortedLists(Matching(table, organization, before));
    var rows, n := Sorted(Matching(table, organization, before)), Clamp(limit);
    if |rows| > n {
      codec.CursorRoundTrip(rows[n - 1].createdAt, codec.formatId(rows[n - 1].id));
    }
  }

  /** Everything a walk from some bound returns lies below the bound, newest first, in the organization. */
  ghost predicate GoodWalk(es: seq<Entry>, table: Table, organization: nat, before: Option<Key>) {
    NewestFirst(es) && forall e :: e in es ==> e in table && Matches(e, organization, before)
  }

  lemma Joined(first: seq<Entry>, rest: seq<Entry>, table: Table, organization: nat, before: Option<Key>)
    requires first != [] && GoodWalk(first, table, organization, before)
    requires GoodWalk(rest, table, organization, Some(first[|first| - 1].Position()))
    ensures GoodWalk(first + rest, table, organization, before)
  {
    var last := first[|first| - 1].Position();
    forall i, j | 0 <= i < j < |first + rest|
      ensures Before((first + rest)[j].Position(), (first + rest)[i].Position())
    {
      if j >= |first| && i < |first| {
        assert rest[j - |first|] in rest;
        assert Before(rest[j - |first|].Position(), last);
      }
    }
    forall e | e in rest
      ensures Matches(e, organization, before)
    {
      assert first[|first| - 1] in first;
    }
  }

  lemma FirstPartLists(rows: seq<Entry>, s: Table, n: nat, e: Entry)
    requires Lists(rows, s) && 0 < n <= |rows|
    ensures e in rows[..n] ==> e in s
    ensures e in s && e !in rows[..n] ==> Before(e.Position(), rows[n - 1].Position())
  {
    forall k | 0 <= k < n
      ensures rows[k] in rows[..n]
    {
      assert rows[..n][k] == rows[k];
    }
  }

  /** One page and the walk that follows it, as one walk. */
  lemma WalkStep(table: Table, table': Table, later: Table, organization: nat, before: Option<Key>,
                 rows: seq<Entry>, k: nat, rest: seq<Entry>)
    requires table <= table' && table <= later && Lists(rows, Matching(table, organization, before)) && 0 < k < |rows|
    requires GoodWalk(rest, later, organization, Some(rows[k - 1].Position()))
    ensures GoodWalk(rows[..k] + rest, later, organization, before)
    ensures forall e :: e in Matching(table, organization, before) && e !in rows[..k] ==>
              e in Matching(table', organization, Some(rows[k - 1].Position()))
  {
    forall e | e in rows[..k]
      ensures e in table && Matches(e, organization, before)
    {
      FirstPartLists(rows, Matching(table, organization, before), k, e);
    }
    Joined(rows[..k], rest, later, organization, before);
    forall e | e in Matching(table, organization, before) && e !in rows[..k]
      ensures e in Matching(table', organization, Some(rows[k - 1].Position()))
    {
      FirstPartLists(rows, Matching(table, organization, before), k, e);
    }
  }

  /**
   A walk of n requests is newest first without repetition; once ended it is complete for the
   entries its first table had; until then every page has added one entry at least.
   */
  ghost predicate WalkOk(es: seq<Entry>, ended: bool, first: Table, last: Table, organization: nat,
      before: Option<Key>, n: nat) {
    && GoodWalk(es, last, organization, before)
    && (ended ==> forall e :: e in Matching(first, organization, before) ==> e in es)
    && (!ended ==> |es| >= n)
  }

  lemma WalkOkStep(table: Table, table': Table, last: Table, organization: nat, before: Option<Key>,
                   rows: seq<Entry>, k: nat, rest: seq<Entry>, ended: bool, n: nat)
    requires table <= table' && table <= last && Lists(rows, Matching(table, organization, before)) && 0 < k < |rows|
    requires WalkOk(rest, ended, table', last, organization, Some(rows[k - 1].Position()), n)
    ensures WalkOk(rows[..k] + rest, ended, table, last, organization, before, n + 1)
  {
    WalkStep(table, table', last, organization, before, rows, k, rest);
  }

  lemma {:induction false} WalkFrom(codec: Codec, tables: nat -> Table, organization: nat, limits: nat -> int,
                                    cursor: string, before: Option<Key>, i: nat, n: nat)
    requires codec.Valid() && Growing(tables) && StandsFor(codec, cursor, before)
    ensures WalkOk(Walk(codec, tables, organization, limits, cursor, i, n),
            Ends(codec, tables, organization, limits, cursor, i, n),
                   tables(i), tables(i + n), organization, before, n)
    decreases n
  {
    hide *;
    GrowsTo(tables, i, i + n);
    if n == 0 {
      WalkNothing(codec, tables, organization, limits, cursor, before, i);
    } else {
      GrowsTo(tables, i, i + 1);
      MatchingUnique(tables(i), organization, before);
      PageOf(codec, tables(i), organization, limits(i), cursor, before);
      var rows := Sorted(Matching(tables(i), organization, before));
      var page := Page(codec, tables(i), organization, limits(i), cursor).value;
      WalkUnfold(codec, tables, organization, limits, cursor, i, n);
      if page.nextCursor == "" {
        LastPageOk(rows, tables(i), tables(i + n), organization, before, n);
      } else {
        var k := Clamp(limits(i));
        WalkFrom(codec, tables, organization, limits, page.nextCursor, Some(rows[k - 1].Position()), i + 1, n - 1);
        WalkOkStep(tables(i), tables(i + 1), tables(i + n), organization, before, rows, k,
                   Walk(codec, tables, organization, limits, page.nextCursor, i + 1, n - 1),
                   Ends(codec, tables, organization, limits, page.nextCursor, i + 1, n - 1), n - 1);
      }
    }
  }

  lemma GrowsTo(tables: nat -> Table, i: nat, j: nat)
    requires Growing(tables) && i <= j
    ensures UniqueIds(tables(i)) && tables(i) <= tables(j)
  {
  }

  lemma MatchingUnique(table: Table, organization: nat, before: Option<Key>)
    requires UniqueIds(table)
    ensures UniqueIds(Matching(table, organization, before))
  {
  }

  lemma WalkNothing(codec: Codec, tables: nat -> Table, organization: nat, limits: nat -> int, cursor: string,
      before: Option<Key>, i: nat)
    requires Growing(tables)
    ensures WalkOk(Walk(codec, tables, organization, limits, cursor, i, 0),
            Ends(codec, tables, organization, limits, cursor, i, 0),
                   tables(i), tables(i), organization, before, 0)
  {
  }

  lemma WalkUnfold(codec: Codec, tables: nat -> Table, organization: nat, limits: nat -> int, cursor: string, i: nat,
      n: nat)
    requires Growing(tables) && n > 0 && Page(codec, tables(i), organization, limits(i), cursor).Success?
    ensures var page := Page(codec, tables(i), organization, limits(i), cursor).value;
            && Walk(codec, tables, organization, limits, cursor, i, n) ==
               (if page.nextCursor == "" then page.entries
                else page.entries + Walk(codec, tables, organization, limits, page.nextCursor, i + 1, n - 1))
            && (Ends(codec, tables, organization, limits, cursor, i, n) <==>
                page.nextCursor == "" || Ends(codec, tables, organization, limits, page.nextCursor, i + 1, n - 1))
  {
    hide Page;
  }

  lemma LastPageOk(rows: seq<Entry>, table: Table, last: Table, organization: nat, before: Option<Key>, n: nat)
    requires Lists(rows, Matching(table, organization, before)) && table <= last
    ensures WalkOk(rows, true, table, last, organization, before, n)
  {
  }

  lemma ManyDistinct(es: seq<Entry>, s: Table)
    requires NewestFirst(es) && forall e :: e in es ==> e in s
    ensures |es| <= |s|
    decreases |es|
  {
    if es != [] {
      var last := |es| - 1;
      forall e | e in es[..last]
        ensures e in s - {es[last]}
      {
      }
      ManyDistinct(es[..last], s - {es[last]});
    }
  }

  /**
   Paging while the table grows: no entry repeats, the order is newest first throughout, and
   when the last page has come every entry that was there at the first request has appeared.
   The client does come to the last page unless the table outgrows its requests.
   */
  lemma PagingWhileGrowing(codec: Codec, tables: nat -> Table, organization: nat, limits: nat -> int, n: nat)
    requires codec.Valid() && Growing(tables)
    ensures var es := Walk(codec, tables, organization, limits, "", 0, n);
            && NewestFirst(es)
            && (forall e :: e in es ==> e in Of(tables(n), organization))
            && (Ends(codec, tables, organization, limits, "", 0, n) ==>
                  forall e :: e in Of(tables(0), organization) ==> e in es)
    ensures n > |Of(tables(n), organization)| ==> Ends(codec, tables, organization, limits, "", 0, n)
  {
    WalkFrom(codec, tables, organization, limits, "", None, 0, n);
    var es := Walk(codec, tables, organization, limits, "", 0, n);
    ManyDistinct(es, Of(tables(n), organization));
  }

  /** A table nobody writes to. */
  ghost function AtRest(table: Table): nat -> Table {
    _ => table
  }

  /**
   Pagination equals the sorted list: over a table at rest, whatever the limits, following
   NextCursor ends, and the pages together are the organization's entries newest first.
   */
  lemma PagingEqualsSortedList(codec: Codec, table: Table, organization: nat, limits: nat -> int)
    requires codec.Valid() && UniqueIds(table)
    ensures var n := |Of(table, organization)| + 1;
            && Ends(codec, AtRest(table), organization, limits, "", 0, n)
            && Walk(codec, AtRest(table), organization, limits, "", 0, n) == Sorted(Of(table, organization))
  {
    hide Walk, Ends;
    var n := |Of(table, organization)| + 1;
    PagingWhileGrowing(codec, AtRest(table), organization, limits, n);
    SortedIsUnique(Walk(codec, AtRest(table), organization, limits, "", 0, n), Of(table, organization));
  }
}
