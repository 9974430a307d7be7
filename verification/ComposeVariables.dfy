/** Keeping a compose file's variables in step with the environment its content declares. */
module ComposeVariables {
  import opened Wrappers
  import opened Texts
  import opened Templates
  import opened Placeholders
  import opened Compose
  import opened ComposeProperties
  import opened ComposeRendering

  datatype VarType = Kv | Secret | EnvVar | FileTemplate | ConfigFile
  datatype Variable = Variable(kind: VarType, value: string)
  type Rows = map<string, Variable>

  /** The content decides the value of env variables; a key held by another type is left alone. */
  function Synced(rows: Rows, found: Env): Rows {
    map k | k in rows.Keys + found.Keys ::
      if k !in found then rows[k]
      else if k in rows && !rows[k].kind.EnvVar? then rows[k]
      else Variable(EnvVar, found[k])
  }

  /** The variables injected into every service. */
  function EnvVars(rows: Rows): Env {
    map k | k in rows && rows[k].kind.EnvVar? :: rows[k].value
  }

  /** A new variable needs a key; "=value" in a list has none. */
  predicate Storable(rows: Rows, found: Env) {
    "" in found ==> "" in rows
  }

  class VariableTable {
    var rows: Rows

    constructor ()
      ensures rows == map[]
    {
      rows := map[];
    }

    /** Succeeds exactly when every new variable has a key; on failure only some of the keys found are done. */
    method SyncEnvVariablesFromCompose(doc: Entries) returns (ok: bool, ghost found: Env, ghost done: Env)
      modifies `rows
      ensures ScanOf(found, ServicesOf(doc))
      ensures ok <==> Storable(old(rows), found)
      ensures rows == Synced(old(rows), done)
      ensures done.Keys <= found.Keys && forall k | k in done :: done[k] == found[k]
      ensures ok ==> done == found
      // key by key
      ensures ok ==> rows.Keys == old(rows).Keys + found.Keys
      ensures ok ==> forall k | k in found && (k in old(rows) ==> old(rows)[k].kind == EnvVar) ::
                       rows[k] == Variable(EnvVar, found[k])
      ensures ok ==> forall k | k in old(rows) && (k !in found || old(rows)[k].kind != EnvVar) ::
                       rows[k] == old(rows)[k]
    {
      hide Synced, ScanOf;
      var entries := ScanComposeEnvironment(doc);
      found, done := entries, map[];
      var byKey := rows;
      var left := entries.Keys;
      SyncedNothing(rows);
      while left != {}
        invariant left <= entries.Keys && done.Keys == entries.Keys - left
        invariant forall k | k in done :: done[k] == entries[k]
        invariant "" in done ==> "" in byKey
        invariant rows == Synced(byKey, done)
      {
        var key :| key in left;
        left := left - {key};
        SyncedOneMore(byKey, done, key, entries[key]);
        if key in byKey {
          if byKey[key].kind.EnvVar? {
            rows := rows[key := byKey[key].(value := entries[key])];
          }
        } else if key == "" {
          ok := false;
          return;
        } else {
          rows := rows[key := Variable(EnvVar, entries[key])];
        }
        done := done[key := entries[key]];
      }
      SyncedKeyByKey(byKey, done);
      assert done == entries;
      ok := true;
    }
  }

  lemma SyncedKeyByKey(rows: Rows, found: Env)
    ensures Synced(rows, found).Keys == rows.Keys + found.Keys
    ensures forall k | k in found && (k in rows ==> rows[k].kind == EnvVar) ::
              k in Synced(rows, found) && Synced(rows, found)[k] == Variable(EnvVar, found[k])
    ensures forall k | k in rows && (k !in found || rows[k].kind != EnvVar) ::
              k in Synced(rows, found) && Synced(rows, found)[k] == rows[k]
  {
  }

  lemma SyncedNothing(rows: Rows)
    ensures Synced(rows, map[]) == rows
  {
  }

  lemma SyncedOneMore(rows: Rows, found: Env, key: string, value: string)
    requires key !in found
    ensures Synced(rows, found[key := value]) ==
            if key in rows && !rows[key].kind.EnvVar? then Synced(rows, found)
            else Synced(rows, found)[key := Variable(EnvVar, value)]
  {
  }

  /** Saving the same content again changes nothing. */
  lemma SyncTwice(rows: Rows, found: Env)
    ensures Synced(Synced(rows, found), found) == Synced(rows, found)
  {
  }

  /** No variable of another type changes, and none disappears. */
  lemma SyncKeepsOthers(rows: Rows, found: Env, key: string)
    requires key in rows
    ensures key in Synced(rows, found)
    ensures !rows[key].kind.EnvVar? || key !in found ==> Synced(rows, found)[key] == rows[key]
  {
  }

  lemma ScanOfOneService(services: Entries, name: string, found: Env)
    requires services.Keys == {name} && ScanOf(found, services)
    ensures found == Scan(services[name])
  {
    hide Scan;
    forall k | k in found
      ensures k in Scan(services[name]) && Scan(services[name])[k] == found[k]
    {
      assert HasValue(services, k, found[k]);
    }
  }

  /** A list entry without a key is read as the empty key, and a new variable cannot have it. */
  lemma EntryWithoutKey(rows: Rows)
    requires "" !in rows
    ensures "" in ScanItems([Str("=value")]) && !Storable(rows, ScanItems([Str("=value")]))
  {
    assert [Str("=value")][..0] == [];
  }

  // ---- deploying ----

  /** The file's own variables, and those of the organization's global file for all other keys. */
  function Resolved(table: Rows, global: Option<Rows>): Rows {
    if global.None? then table else global.value + table
  }

  /** Key by key: the file's own variable decides, and the global file's for a key this file does not use. */
  lemma ResolvedKeyByKey(table: Rows, global: Option<Rows>)
    ensures var vars := EnvVars(Resolved(table, global));
            && (forall k ::
                  k in vars <==>
                  if k in table then table[k].kind == EnvVar
                  else global.Some? && k in global.value && global.value[k].kind == EnvVar)
            && forall k | k in vars :: vars[k] == if k in table then table[k].value else global.value[k].value
  {
  }

  method ResolveEnvVars(table: Rows, global: Option<Rows>) returns (vars: Env)
    ensures vars == EnvVars(Resolved(table, global))
  {
    var all := table;
    if global.Some? {
      var left := global.value.Keys;
      while left != {}
        invariant left <= global.value.Keys
        invariant all.Keys == table.Keys + (global.value.Keys - left)
        invariant forall k | k in all :: all[k] == if k in table then table[k] else global.value[k]
      {
        var k :| k in left;
        left := left - {k};
        if k !in table {
          all := all[k := global.value[k]];
        }
      }
      assert all == global.value + table;
    }
    vars := map[];
    var left := all.Keys;
    while left != {}
      invariant left <= all.Keys
      invariant forall k :: k in vars <==> k in all && k !in left && all[k].kind.EnvVar?
      invariant forall k | k in vars :: vars[k] == all[k].value
    {
      var k :| k in left;
      left := left - {k};
      if all[k].kind.EnvVar? {
        vars := vars[k := all[k].value];
      }
    }
    assert vars == EnvVars(all);
  }

  /** The global file has an env variable under a key this file's table does not use. */
  predicate AddsEnv(global: Option<Rows>, table: Rows) {
    global.Some? && exists k | k in global.value :: global.value[k].kind.EnvVar? && k !in table
  }

  /** What a service declares is in the table, as env variables with just these values. */
  predicate Declares(table: Rows, own: Env) {
    forall k | k in own :: k in table && table[k] == Variable(EnvVar, own[k])
  }

  lemma ResolvedIsTable(table: Rows, global: Option<Rows>, own: Env)
    ensures EnvVars(Resolved(table, global)) + own == EnvVars(table) <==>
            !AddsEnv(global, table) && Declares(table, own)
  {
    var all := EnvVars(Resolved(table, global)) + own;
    if all == EnvVars(table) {
      forall k | k in own
        ensures k in table && table[k] == Variable(EnvVar, own[k])
      {
        assert all[k] == own[k] && k in EnvVars(table);
      }
    }
    if AddsEnv(global, table) {
      var k :| k in global.value && global.value[k].kind.EnvVar? && k !in table;
      assert k in all && k !in EnvVars(table);
    }
  }

  /**
   A deployed service's environment is exactly the table of env variables precisely when the
   global file adds none and the table has every variable the service declares once filled in.
   */
  lemma DeployedEnvironmentExactly(table: Rows, global: Option<Rows>, doc: Entries, name: string, a: Attachments)
    requires name in ServicesOf(doc) && ScansBack(ServicesOf(doc)[name], a.vars)
    requires a.vars == EnvVars(Resolved(table, global))
    ensures name in ServicesOf(Rendered(doc, a))
    ensures Scan(ServicesOf(Rendered(doc, a))[name]) == EnvVars(table) <==>
            !AddsEnv(global, table) && Declares(table, Scan(ServicesOf(doc)[name]))
  {
    hide *;
    RenderedServices(doc, a);
    RenderedServiceAt(doc, a, name);
    ScanOfInjectedService(ServicesOf(doc)[name], a);
    ResolvedIsTable(table, global, Scan(ServicesOf(doc)[name]));
  }

  /** A key the content declares is held by a variable of another type. */
  predicate HeldByOthers(rows: Rows, found: Env) {
    exists k | k in found :: k in rows && !rows[k].kind.EnvVar?
  }

  lemma SyncedDeclares(rows: Rows, found: Env)
    ensures Declares(Synced(rows, found), found) <==> !HeldByOthers(rows, found)
  {
  }

  /** The environment a service has in the filled-in document is the one it has in the saved one, filled in. */
  ghost predicate FillsIn(raw: Yaml, filled: Yaml, values: map<string, string>) {
    raw.Map? && filled.Map? && FillsTo(EnvOf(raw.entries), values, EnvOf(filled.entries))
  }

  /**
   Saving scans the content as it is written, deploying renders it with its placeholders filled
   in. In a file with one service, no placeholder in the keys or values of whose environment, and
   whose environment scans back (it is a mapping, absent, or a list and no variable's key contains
   '='), the deployed environment is exactly the table of env variables precisely when the global
   file adds none and no key the service declares is held by a variable of another type.
   */
  lemma DeployedEnvironmentIsTable(rows: Rows, global: Option<Rows>, raw: Entries, doc: Entries, name: string,
                                   values: map<string, string>, found: Env, a: Attachments)
    requires ServicesOf(raw).Keys == {name} && ScanOf(found, ServicesOf(raw))
    requires name in ServicesOf(doc) && FillsIn(ServicesOf(raw)[name], ServicesOf(doc)[name], values)
    requires Free(EnvOf(ServicesOf(raw)[name].entries))
    requires a.vars == EnvVars(Resolved(Synced(rows, found), global)) && ScansBack(ServicesOf(doc)[name], a.vars)
    ensures name in ServicesOf(Rendered(doc, a))
    ensures Scan(ServicesOf(Rendered(doc, a))[name]) == EnvVars(Synced(rows, found)) <==>
            !AddsEnv(global, Synced(rows, found)) && !HeldByOthers(rows, found)
  {
    hide *;
    ScanOfOneService(ServicesOf(raw), name, found);
    SameWhenFilled(ServicesOf(raw)[name], ServicesOf(doc)[name], values);
    DeployedEnvironmentExactly(Synced(rows, found), global, doc, name, a);
    SyncedDeclares(rows, found);
  }

  lemma SameWhenFilled(raw: Yaml, filled: Yaml, values: map<string, string>)
    requires FillsIn(raw, filled, values) && Free(EnvOf(raw.entries))
    ensures Scan(filled) == Scan(raw)
  {
    FreeFillsTo(EnvOf(raw.entries), values, EnvOf(filled.entries));
  }

  /** A scalar environment is left alone and read as nothing: that is the table exactly when it has no env variable. */
  lemma ScalarEnvironmentDeployed(table: Rows, doc: Entries, name: string, a: Attachments)
    requires name in ServicesOf(doc) && ServicesOf(doc)[name].Map?
    requires EnvOf(ServicesOf(doc)[name].entries).Str? || EnvOf(ServicesOf(doc)[name].entries).Other?
    ensures name in ServicesOf(Rendered(doc, a))
    ensures Scan(ServicesOf(Rendered(doc, a))[name]) == EnvVars(table) <==> EnvVars(table) == map[]
  {
    RenderedServices(doc, a);
    ScalarInjected(ServicesOf(doc)[name].entries, a);
    hide Injected, ServicesOf, Rendered, EnvVars;
  }

  lemma ScalarInjected(service: Entries, a: Attachments)
    requires EnvOf(service).Str? || EnvOf(service).Other?
    ensures Scan(Map(Injected(service, a))) == map[]
  {
    hide Extended;
  }

  /** In a list, a variable of the table whose key contains '=' is never deployed under that key. */
  lemma EqualsKeyNotDeployed(table: Rows, doc: Entries, name: string, a: Attachments, key: string)
    requires name in ServicesOf(doc) && ServicesOf(doc)[name].Map? && EnvOf(ServicesOf(doc)[name].entries).List?
    requires key in EnvVars(table) && '=' in key
    ensures name in ServicesOf(Rendered(doc, a))
    ensures Scan(ServicesOf(Rendered(doc, a))[name]) != EnvVars(table)
  {
    RenderedServices(doc, a);
    ListInjected(ServicesOf(doc)[name].entries, a);
    hide Injected, ServicesOf, Rendered, EnvVars;
    ListKeysHaveNoEquals(EnvOf(InjectedAll(ServicesOf(doc), a)[name].entries).items);
    ScanKeysAreListKeys(EnvOf(InjectedAll(ServicesOf(doc), a)[name].entries).items);
  }

  lemma ListInjected(service: Entries, a: Attachments)
    requires EnvOf(service).List?
    ensures EnvOf(Injected(service, a)).List?
  {
    hide Extended, AddedEntries, ListKeys;
  }

  // ---- a placeholder in an environment ----

  /** A character that opens no placeholder stays. */
  lemma FillAfter(c: char, rest: string, values: map<string, string>)
    requires c != '{'
    ensures Fill([c] + rest, values) == [c] + Fill(rest, values)
  {
    var s := [c] + rest;
    assert s[1..] == rest;
    assert MatchHere(s).NoMatch? by {
      assert |s| >= 2 ==> s[..2][0] == c;
    }
    hide MatchHere;
    SegmentsSplit(s);
    hide Segments;
    assert ([Literal(c)] + Segments(rest))[1..] == Segments(rest);
  }

  lemma FillPlaceholder(s: string, key: string, value: string)
    requires s != "" && MatchHere(s) == Match(|s|, key)
    ensures Fill(s, map[key := value]) == value
  {
    hide MatchHere;
    SegmentsSplit(s);
    assert s[|s|..] == "";
    assert Segments("") == [];
    var only := Placeholder(s[..|s|], key);
    hide Segments;
    assert Segments(s) == [only];
    var values := map[key := value];
    assert [only][1..] == [];
    assert Substituted([only], values) == values[key] + Substituted([only][1..], values) == value + "";
  }

  lemma MatchOfB()
    ensures MatchHere("{{ B }}") == Match(7, "B")
  {
    assert IsKey("B") && AllSpace(" ");
    hide *;
    BracedMatches("{{ B }}", " ", "B", " ", "");
  }

  lemma EntryTexts(value: string)
    ensures "A={{ B }}" == ['A'] + (['='] + "{{ B }}")
    ensures "A=" + value == ['A'] + (['='] + value)
  {
  }

  lemma FillOfEntry(value: string)
    ensures Fill("A={{ B }}", map["B" := value]) == "A=" + value
  {
    hide *;
    var values := map["B" := value];
    MatchOfB();
    FillPlaceholder("{{ B }}", "B", value);
    FillAfter('=', "{{ B }}", values);
    FillAfter('A', ['='] + "{{ B }}", values);
    EntryTexts(value);
  }

  /** With a placeholder in a declared value, the table keeps the placeholder and the service gets the value. */
  lemma PlaceholderIsDeployedFilled(value: string)
    requires value != "{{ B }}"
    ensures var raw, filled := List([Str("A={{ B }}")]), List([Str("A=" + value)]);
            && FillsTo(raw, map["B" := value], filled)
            && ScanEnv(raw) == map["A" := "{{ B }}"] && ScanEnv(filled) == map["A" := value]
            && !Declares(Synced(map[], ScanEnv(raw)), ScanEnv(filled))
  {
    FillOfEntry(value);
    hide Fill;
    ScanOfPair("A", "{{ B }}");
    ScanOfPair("A", value);
    assert "A" + "=" + "{{ B }}" == "A={{ B }}" && "A" + "=" + value == "A=" + value;
    var raw, filled := List([Str("A={{ B }}")]), List([Str("A=" + value)]);
    assert "A" in ScanEnv(filled);
  }

  /** Likewise in a key: the table has the placeholder for a key, the service the key filled in. */
  lemma PlaceholderKeyIsDeployedFilled(key: string)
    requires key != "{{ B }}"
    ensures var raw, filled := Map(map["{{ B }}" := Str("x")]), Map(map[key := Str("x")]);
            && FillsTo(raw, map["B" := key], filled)
            && ScanEnv(raw) == map["{{ B }}" := "x"] && ScanEnv(filled) == map[key := "x"]
            && !Declares(Synced(map[], ScanEnv(raw)), ScanEnv(filled))
  {
    var values := map["B" := key];
    MatchOfB();
    FillPlaceholder("{{ B }}", "B", key);
    FillX(values);
    hide *;
    OneEntryFills("{{ B }}", key, "x", values);
    ScanOfEntry("{{ B }}", "x");
    ScanOfEntry(key, "x");
    KeyNotDeclared("{{ B }}", key, "x");
  }

  lemma OneEntryFills(key: string, filledKey: string, text: string, values: map<string, string>)
    requires Fill(key, values) == filledKey && Fill(text, values) == text
    ensures FillsTo(Map(map[key := Str(text)]), values, Map(map[filledKey := Str(text)]))
  {
    hide Fill;
    assert KeysFillTo({key}, values, {filledKey});
    assert map[key := Str(text)].Keys == {key} && map[filledKey := Str(text)].Keys == {filledKey};
    assert FillsTo(Str(text), values, Str(text));
  }

  lemma ScanOfEntry(key: string, text: string)
    ensures ScanEnv(Map(map[key := Str(text)])) == map[key := text]
  {
  }

  lemma KeyNotDeclared(key: string, other: string, text: string)
    requires key != other
    ensures !Declares(Synced(map[], map[key := text]), map[other := text])
  {
    assert other in map[other := text];
  }

  lemma FillX(values: map<string, string>)
    ensures Fill("x", values) == "x"
  {
    FillNothing(values);
    FillAfter('x', "", values);
    assert ['x'] + "" == "x";
  }

  lemma FillNothing(values: map<string, string>)
    ensures Fill("", values) == ""
  {
  }

  lemma ScanOfPair(key: string, value: string)
    requires '=' !in key
    ensures ScanItems([Str(key + "=" + value)]) == map[key := value]
  {
    CutOfEntry(key, value);
    assert [Str(key + "=" + value)][..0] == [];
  }

  lemma RenderedServiceAt(doc: Entries, a: Attachments, name: string)
    requires name in ServicesOf(doc) && ScansBack(ServicesOf(doc)[name], a.vars)
    ensures name in InjectedAll(ServicesOf(doc), a)
    ensures InjectedAll(ServicesOf(doc), a)[name] == Map(Injected(ServicesOf(doc)[name].entries, a))
  {
    hide Injected, ServicesOf;
  }

  /** Whatever the table says, each key the service declares keeps the content's value. */
  lemma ContentWins(doc: Entries, name: string, a: Attachments, key: string)
    requires name in ServicesOf(doc) && ScansBack(ServicesOf(doc)[name], a.vars)
    requires key in Scan(ServicesOf(doc)[name])
    ensures name in ServicesOf(Rendered(doc, a))
    ensures key in Scan(ServicesOf(Rendered(doc, a))[name])
    ensures Scan(ServicesOf(Rendered(doc, a))[name])[key] == Scan(ServicesOf(doc)[name])[key]
  {
    RenderedServices(doc, a);
    ScanOfInjectedService(ServicesOf(doc)[name], a);
    hide Scan, Injected, ScansBack, ServicesOf, Rendered;
  }
}
