/**
 The audit trail: an append-only table with one entry per source event, and the keyset
 pagination over it, from the cursor text up to a client that follows NextCursor.
 */
module AuditLog {
  import opened Wrappers

  /** An entry; id and createdAt are what paging looks at, details is all the rest. */
  datatype Entry = Entry(id: nat, organization: nat, sourceEvent: nat, createdAt: int, details: string) {
    function Position(): Key {
      Key(createdAt, id)
    }
  }

  datatype Key = Key(createdAt: int, id: nat)

  /** The row-value comparison (created_at, id) < (created_at, id). */
  predicate Before(a: Key, b: Key) {
    a.createdAt < b.createdAt || (a.createdAt == b.createdAt && a.id < b.id)
  }

  type Table = set<Entry>

  /** The primary key of the table. */
  ghost predicate UniqueIds(table: Table) {
    forall e, f :: e in table && f in table && e.id == f.id ==> e == f
  }

  // ---- newest first ----

  predicate NewestFirst(es: seq<Entry>) {
    forall i, j :: 0 <= i < j < |es| ==> Before(es[j].Position(), es[i].Position())
  }

  lemma NewestExists(s: Table) returns (m: Entry)
    requires s != {} && UniqueIds(s)
    ensures m in s && forall e :: e in s && e != m ==> Before(e.Position(), m.Position())
    decreases |s|
  {
    m :| m in s;
    if s != {m} {
      var rest := s - {m};
      var n := NewestExists(rest);
      if Before(m.Position(), n.Position()) {
        m := n;
      }
    }
  }

  ghost function Newest(s: Table): (m: Entry)
    requires s != {} && UniqueIds(s)
    ensures m in s && forall e :: e in s && e != m ==> Before(e.Position(), m.Position())
  {
    assert exists m :: m in s && forall e :: e in s && e != m ==> Before(e.Position(), m.Position()) by {
      var m := NewestExists(s);
    }
    var m :| m in s && forall e :: e in s && e != m ==> Before(e.Position(), m.Position());
    m
  }

  lemma NewestIsUnique(s: Table, m: Entry)
    requires UniqueIds(s) && m in s && forall e :: e in s && e != m ==> Before(e.Position(), m.Position())
    ensures m == Newest(s)
  {
  }

  /** The list ORDER BY created_at DESC, id DESC. */
  ghost function Sorted(s: Table): seq<Entry>
    requires UniqueIds(s)
    decreases |s|
  {
    if s == {} then [] else [Newest(s)] + Sorted(s - {Newest(s)})
  }

  ghost predicate Lists(es: seq<Entry>, s: Table) {
    NewestFirst(es) && forall e :: e in es <==> e in s
  }

  lemma {:induction false} SortedLists(s: Table)
    requires UniqueIds(s)
    ensures Lists(Sorted(s), s) && |Sorted(s)| == |s|
    decreases |s|
  {
    if s != {} {
      var m := Newest(s);
      var rest := Sorted(s - {m});
      SortedLists(s - {m});
      forall i | 0 <= i < |rest|
        ensures Before(rest[i].Position(), m.Position())
      {
        assert rest[i] in rest;
      }
    }
  }

  lemma TailLists(es: seq<Entry>, s: Table)
    requires Lists(es, s) && es != []
    ensures Lists(es[1..], s - {es[0]}) && es[0] in s
  {
    forall e
      ensures e in es[1..] <==> e in s - {es[0]}
    {
      if e in es[1..] {
        var i :| 0 <= i < |es[1..]| && es[1..][i] == e;
        assert es[i + 1] == e;
      }
    }
  }

  /** There is only one way to list a set newest first. */
  lemma {:induction false} SortedIsUnique(es: seq<Entry>, s: Table)
    requires UniqueIds(s) && Lists(es, s)
    ensures es == Sorted(s)
    decreases |s|
  {
    if es == [] {
      assert s == {};
    } else {
      TailLists(es, s);
      var m := Newest(s);
      assert m in es;
      assert m == es[0];
      SortedIsUnique(es[1..], s - {m});
    }
  }

  // ---- the repository ----

  predicate Matches(e: Entry, organization: nat, before: Option<Key>) {
    e.organization == organization && (before.None? || Before(e.Position(), before.value))
  }

  function Matching(table: Table, organization: nat, before: Option<Key>): Table {
    set e | e in table && Matches(e, organization, before)
  }

  function Prefix<T>(xs: seq<T>, n: nat): seq<T> {
    if n <= |xs| then xs[..n] else xs
  }

  class AuditEntryRepository {
    var table: Table

    /**
     Insert on conflict of the source event do nothing: the event keeps the entry it has.
     The result is false only when a different event already uses the id.
     */
    method Create(entry: Entry) returns (ok: bool)
      modifies this
      ensures ok ==> exists e :: e in table && e.sourceEvent == entry.sourceEvent
      ensures (exists e :: e in old(table) && e.sourceEvent == entry.sourceEvent) ==> ok && table == old(table)
      ensures (forall e :: e in old(table) ==> e.sourceEvent != entry.sourceEvent) ==>
                table == if ok then old(table) + {entry} else old(table)
      ensures ok <==> (exists e :: e in old(table) && e.sourceEvent == entry.sourceEvent)
                      || forall e :: e in old(table) ==> e.id != entry.id
      ensures old(UniqueIds(table)) ==> UniqueIds(table)
    {
      if exists e :: e in table && e.sourceEvent == entry.sourceEvent {
        return true;
      }
      if exists e :: e in table && e.id == entry.id {
        return false;
      }
      table := table + {entry};
      ok := true;
    }

    /** The newest rows of an organization below the cursor, at most limit of them. */
    method ListByOrganization(organization: nat, limit: nat, before: Option<Key>) returns (entries: seq<Entry>)
      requires UniqueIds(table)
      ensures entries == Prefix(Sorted(Matching(table, organization, before)), limit)
    {
      entries := [];
      var rows := Matching(table, organization, before);
      ghost var all := Sorted(rows);
      while |entries| < limit && rows != {}
        invariant |entries| <= limit && UniqueIds(rows) && all == entries + Sorted(rows)
        decreases |rows|
      {
        ghost var newest := NewestExists(rows);
        var e :| e in rows && forall f :: f in rows && f != e ==> Before(f.Position(), e.Position());
        NewestIsUnique(rows, e);
        assert all == entries + [e] + Sorted(rows - {e});
        entries := entries + [e];
        rows := rows - {e};
      }
    }
  }

  // ---- the cursor ----

  /**
   The text codecs the cursor is built from: RFC 3339 timestamps (section 5.6), UUID text and
   base64url (section 5 of RFC 4648).
   */
  datatype Codec = Codec(
    formatTime: int -> string, parseTime: string -> Option<int>,
    formatId: nat -> string, parseId: string -> Option<nat>,
    encode: string -> string, decode: string -> Option<string>)
  {
    ghost predicate Valid() {
      && (forall t :: parseTime(formatTime(t)) == Some(t) && '|' !in formatTime(t))
      && (forall i: nat :: parseId(formatId(i)) == Some(i))
      && (forall s :: decode(encode(s)) == Some(s))
      && encode("") == ""
    }

    function EncodeCursor(createdAt: int, id: string): string {
      encode(formatTime(createdAt) + "|" + id)
    }

    function DecodeCursor(cursor: string): Option<(int, string)> {
      var raw := decode(cursor);
      if raw.None? then None
      else
        var bar := FirstBar(raw.value);
        if bar == |raw.value| then None
        else
          var t := parseTime(raw.value[..bar]);
          if t.None? then None else Some((t.value, raw.value[bar + 1..]))
    }

    /** A cursor decodes to what it was made from, whatever the id text holds, and is never the empty cursor. */
    lemma CursorRoundTrip(createdAt: int, id: string)
      requires Valid()
      ensures DecodeCursor(EncodeCursor(createdAt, id)) == Some((createdAt, id))
      ensures EncodeCursor(createdAt, id) != ""
    {
      var raw := formatTime(createdAt) + "|" + id;
      assert '|' !in formatTime(createdAt);
      FirstBarAt(formatTime(createdAt), id);
      assert raw == formatTime(createdAt) + ("|" + id);
      assert raw[..|formatTime(createdAt)|] == formatTime(createdAt);
      assert raw[|formatTime(createdAt)| + 1..] == id;
      assert decode(encode(raw)) == Some(raw);
      assert decode(encode("")) == Some("");
    }
  }

  /** Where the first '|' is, or the length if there is none. */
  function FirstBar(s: string): (n: nat)
    ensures n <= |s| && '|' !in s[..n] && (n < |s| ==> s[n] == '|')
  {
    if s == "" || s[0] == '|' then 0 else 1 + FirstBar(s[1..])
  }

  lemma {:induction false} FirstBarAt(t: string, id: string)
    requires '|' !in t
    ensures FirstBar(t + ("|" + id)) == |t|
  {
    if t != "" {
      assert (t + ("|" + id))[1..] == t[1..] + ("|" + id);
      FirstBarAt(t[1..], id);
    }
  }

  // ---- the service ----

  const DEFAULT_PAGE_LIMIT := 50
  const MAX_PAGE_LIMIT := 500

  function Clamp(limit: int): (n: nat)
    ensures 1 <= n <= MAX_PAGE_LIMIT
  {
    if limit <= 0 then DEFAULT_PAGE_LIMIT else if limit > MAX_PAGE_LIMIT then MAX_PAGE_LIMIT else limit
  }

  datatype PageError = Forbidden | InvalidCursor | StorageError

  datatype EntryPage = EntryPage(entries: seq<Entry>, nextCursor: string)

  /** The cursor text as the query's bound: nothing for the first page. */
  function Bound(codec: Codec, cursor: string): Result<Option<Key>, PageError> {
    if cursor == "" then Success(None)
    else
      var decoded := codec.DecodeCursor(cursor);
      if decoded.None? then Failure(InvalidCursor)
      else
        var id := codec.parseId(decoded.value.1);
        if id.None? then Failure(StorageError) else Success(Some(Key(decoded.value.0, id.value)))
  }

  /** The page a table gives: one row more than the limit is fetched to learn whether there is a next page. */
  ghost function Page(codec: Codec, table: Table, organization: nat, limit: int, cursor: string)
    : Result<EntryPage, PageError>
    requires UniqueIds(table)
  {
    var bound := Bound(codec, cursor);
    if bound.Failure? then Failure(bound.error)
    else
      var n := Clamp(limit);
      var rows := Sorted(Matching(table, organization, bound.value));
      if |rows| <= n then Success(EntryPage(rows, ""))
      else Success(EntryPage(rows[..n], codec.EncodeCursor(rows[n - 1].createdAt, codec.formatId(rows[n - 1].id))))
  }

  /** The first rows of a list, and the cursor that goes on after them if there are more. */
  ghost predicate IsPage(page: EntryPage, codec: Codec, rows: seq<Entry>, n: nat)
    requires n > 0
  {
    if |rows| <= n then page == EntryPage(rows, "")
    else
      && page.entries == rows[..n]
      && page.nextCursor == codec.encode(codec.formatTime(rows[n - 1].createdAt) + "|" + codec.formatId(rows[n - 1].id))
  }

  /** Without a cursor: the newest 50 entries of the organization, or as many as asked for, but never over 500. */
  lemma FirstPage(codec: Codec, table: Table, organization: nat, limit: int)
    requires UniqueIds(table)
    ensures var page := Page(codec, table, organization, limit, "");
            var n := if limit <= 0 then 50 else if limit > 500 then 500 else limit;
            page.Success? && IsPage(page.value, codec, Sorted(set e | e in table && e.organization == organization), n)
  {
    assert Matching(table, organization, None) == set e | e in table && e.organization == organization;
    hide Sorted;
  }

  /** With one: the same of the entries strictly before the one it was made from. */
  lemma PageBelow(codec: Codec, table: Table, organization: nat, limit: int, createdAt: int, id: nat)
    requires UniqueIds(table) && codec.Valid()
    ensures var page := Page(codec, table, organization, limit,
                             codec.encode(codec.formatTime(createdAt) + "|" + codec.formatId(id)));
            var below := set e | e in table && e.organization == organization &&
                                 (e.createdAt < createdAt || (e.createdAt == createdAt && e.id < id));
            var n := if limit <= 0 then 50 else if limit > 500 then 500 else limit;
            page.Success? && IsPage(page.value, codec, Sorted(below), n)
  {
    codec.CursorRoundTrip(createdAt, codec.formatId(id));
    assert Matching(table, organization, Some(Key(createdAt, id))) ==
      set e | e in table && e.organization == organization &&
              (e.createdAt < createdAt || (e.createdAt == createdAt && e.id < id));
    hide Sorted, FirstBar;
  }

  /** A cursor is refused exactly if it does not decode, has no '|', or what stands before the first is no time. */
  lemma CursorRefusedExactly(codec: Codec, table: Table, organization: nat, limit: int, cursor: string)
    requires UniqueIds(table)
    ensures Page(codec, table, organization, limit, cursor) == Failure(InvalidCursor) <==>
            cursor != "" &&
            (codec.decode(cursor).None? ||
             var raw := codec.decode(cursor).value;
             '|' !in raw || forall n | 0 <= n < |raw| && raw[n] == '|' && '|' !in raw[..n] ::
               codec.parseTime(raw[..n]).None?)
  {
    hide Sorted, FirstBar;
    if codec.decode(cursor).Some? && '|' in codec.decode(cursor).value {
      var raw := codec.decode(cursor).value;
      OnlyFirstBar(raw);
    }
  }

  lemma NoBarBefore(raw: string, n: nat)
    requires n <= |raw| && '|' !in raw[..n]
    ensures forall i | 0 <= i < n :: raw[i] != '|'
  {
    forall i | 0 <= i < n
      ensures raw[i] != '|'
    {
      assert raw[..n][i] in raw[..n];
    }
  }

  lemma OnlyFirstBar(raw: string)
    ensures FirstBar(raw) < |raw| <==> '|' in raw
    ensures forall n | 0 <= n < |raw| && raw[n] == '|' && '|' !in raw[..n] :: n == FirstBar(raw)
  {
    hide FirstBar;
    NoBarBefore(raw, FirstBar(raw));
    forall n | 0 <= n < |raw| && raw[n] == '|' && '|' !in raw[..n]
      ensures n == FirstBar(raw)
    {
      NoBarBefore(raw, n);
    }
    assert '|' in raw ==> exists n | 0 <= n < |raw| :: raw[n] == '|';
    assert FirstBar(raw) == |raw| ==> raw[..FirstBar(raw)] == raw;
  }

  method Execute(repo: AuditEntryRepository, codec: Codec, organization: nat, limit: int, cursor: string, allowed: bool)
      returns (result: Result<EntryPage, PageError>)
    requires UniqueIds(repo.table)
    ensures result == if allowed then Page(codec, repo.table, organization, limit, cursor) else Failure(Forbidden)
  {
    if !allowed {
      return Failure(Forbidden);
    }
    var n := limit;
    if n <= 0 {
      n := DEFAULT_PAGE_LIMIT;
    }
    if n > MAX_PAGE_LIMIT {
      n := MAX_PAGE_LIMIT;
    }
    var before := None;
    if cursor != "" {
      var decoded := codec.DecodeCursor(cursor);
      if decoded.None? {
        return Failure(InvalidCursor);
      }
      var id := codec.parseId(decoded.value.1);
      if id.None? {
        return Failure(StorageError);
      }
      before := Some(Key(decoded.value.0, id.value));
    }
    var entries := repo.ListByOrganization(organization, n + 1, before);
    ghost var rows := Sorted(Matching(repo.table, organization, before));
    assert |rows| > n ==> entries[..n] == rows[..n] && entries[n - 1] == rows[n - 1];
    if |entries| > n {
      var last := entries[n - 1];
      return Success(EntryPage(entries[..n], codec.EncodeCursor(last.createdAt, codec.formatId(last.id))));
    }
    result := Success(EntryPage(entries, ""));
  }
}
