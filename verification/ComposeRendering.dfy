/** Rendering and scanning as they are carried out: loops over the services, in any order. */
module ComposeRendering {
  import opened Wrappers
  import opened Ordering
  import opened Compose

  function EnvStage(v: Yaml, vars: Env): Yaml {
    if v.Map? then Map(WithEnv(v.entries, vars)) else v
  }

  function AppendStage(v: Yaml, key: string, texts: seq<string>): Yaml {
    if v.Map? then Map(WithAppended(v.entries, key, texts)) else v
  }

  lemma {:induction false} CutIs(s: string, i: nat)
    requires i <= |s| && '=' !in s[..i] && (i < |s| ==> s[i] == '=')
    ensures Cut(s) == (s[..i], if i < |s| then s[i + 1..] else "")
  {
    if i > 0 {
      assert s[0] == s[..i][0] && s[1..][..i - 1] == s[..i][1..];
      CutIs(s[1..], i - 1);
      assert s[..i] == [s[0]] + s[1..i];
    }
  }

  method CutAt(s: string) returns (key: string, value: string)
    ensures (key, value) == Cut(s)
  {
    var i := 0;
    while i < |s| && s[i] != '='
      invariant i <= |s| && '=' !in s[..i]
    {
      i := i + 1;
    }
    CutIs(s, i);
    return s[..i], if i < |s| then s[i + 1..] else "";
  }

  method EnvKeys(items: seq<Yaml>) returns (existing: set<string>)
    ensures existing == ListKeys(items)
  {
    existing := {};
    for i := 0 to |items|
      invariant existing == ListKeys(items[..i])
    {
      assert items[..i + 1][..i] == items[..i];
      if items[i].Str? {
        var key, _ := CutAt(items[i].text);
        existing := existing + {key};
      }
    }
    assert items[..|items|] == items;
  }

  method AppendMissing(items: seq<Yaml>, texts: seq<string>) returns (list: seq<Yaml>)
    ensures list == Extended(items, texts)
  {
    var existing: set<string> := {};
    for i := 0 to |items|
      invariant forall t :: t in existing <==> Str(t) in items[..i]
    {
      assert items[..i + 1] == items[..i] + [items[i]];
      if items[i].Str? {
        existing := existing + {items[i].text};
      }
    }
    assert items[..|items|] == items;
    list := items;
    for i := 0 to |texts|
      invariant list == Extended(items, texts[..i])
      invariant forall t :: t in existing <==> Str(t) in list
    {
      assert texts[..i + 1][..i] == texts[..i];
      if texts[i] !in existing {
        list := list + [Str(texts[i])];
        existing := existing + {texts[i]};
      }
    }
    assert texts[..|texts|] == texts;
  }

  method MergedList(items: seq<Yaml>, vars: Env) returns (env: seq<Yaml>)
    ensures List(env) == EnvMerged(List(items), vars)
  {
    var existing := EnvKeys(items);
    var keys := SortedKeysOf(vars);
    hide ListKeys, SortedKeys, AddedEntries, IsSorted, Distinct;
    env := AppendAbsent(items, keys, existing, vars);
  }

  method AppendAbsent(items: seq<Yaml>, keys: seq<string>, existing: set<string>, vars: Env) returns (env: seq<Yaml>)
    requires forall k :: k in keys ==> k in vars
    ensures env == items + AddedEntries(keys, existing, vars)
  {
    env := items;
    ghost var done: seq<string> := [];
    assert env == items + AddedEntries(done, existing, vars);
    hide *;
    for i := 0 to |keys|
      invariant done == keys[..i]
      invariant forall k :: k in done ==> k in vars
      invariant env == items + AddedEntries(done, existing, vars)
    {
      assert keys[i] in keys;
      AddedOneMore(done, keys[i], existing, vars);
      done := done + [keys[i]];
      if keys[i] !in existing {
        env := env + [Str(keys[i] + "=" + vars[keys[i]])];
      }
    }
    assert done == keys;
  }

  lemma AddedOneMore(keys: seq<string>, k: string, existing: set<string>, vars: Env)
    requires k in vars && forall x :: x in keys ==> x in vars
    ensures forall x :: x in keys + [k] ==> x in vars
    ensures AddedEntries(keys + [k], existing, vars) ==
            AddedEntries(keys, existing, vars) + if k in existing then [] else [Str(k + "=" + vars[k])]
  {
    assert (keys + [k])[..|keys|] == keys;
  }

  method MergedMap(entries: Entries, vars: Env) returns (env: Entries)
    ensures Map(env) == EnvMerged(Map(entries), vars)
  {
    hide *;
    var keys := SortedKeysOf(vars);
    env := entries;
    ghost var done: set<string> := {};
    for i := 0 to |keys|
      invariant env == (map k | k in vars && k in done :: Str(vars[k])) + entries
      invariant forall j :: 0 <= j < i ==> keys[j] in done
    {
      assert keys[i] in keys && keys[i] in vars;
      if keys[i] !in env {
        env := env[keys[i] := Str(vars[keys[i]])];
      }
      done := done + {keys[i]};
    }
    MergedMapIs(entries, vars, keys, done);
  }

  lemma MergedMapIs(entries: Entries, vars: Env, keys: seq<string>, done: set<string>)
    requires keys == SortedKeys(vars.Keys) && forall j :: 0 <= j < |keys| ==> keys[j] in done
    ensures Map((map k | k in vars && k in done :: Str(vars[k])) + entries) == EnvMerged(Map(entries), vars)
  {
    hide SortedKeys, IsSorted, Distinct;
    forall k | k in vars
      ensures k in done
    {
      assert k in keys;
    }
    hide *;
    var all := map k | k in vars && k in done :: Str(vars[k]);
    assert all.Keys == vars.Keys;
    MergedMapOf(entries, vars, all);
  }

  lemma MergedMapOf(entries: Entries, vars: Env, all: Entries)
    requires all.Keys == vars.Keys && forall k | k in vars :: all[k] == Str(vars[k])
    ensures Map(all + entries) == EnvMerged(Map(entries), vars)
  {
    assert all == AsStrings(vars);
  }

  /** The parsed document, with the mapping of services that the injections update. */
  class Document {
    var doc: Entries
    var services: Entries

    constructor (parsed: Entries)
      ensures doc == parsed
    {
      doc, services := parsed, map[];
    }

    method NormalizeTopLevel()
      modifies `doc
      ensures doc == Normalized(old(doc))
    {
      if "services" in doc {
        return;
      }
      var gathered: Entries, normalized: Entries := map[], map[];
      var left := doc.Keys;
      while left != {}
        invariant left <= doc.Keys
        invariant gathered == map k | k in doc && k !in left && k !in RESERVED :: doc[k]
        invariant normalized == map k | k in doc && k !in left && k in RESERVED :: doc[k]
      {
        var k :| k in left;
        left := left - {k};
        if k in RESERVED {
          normalized := normalized[k := doc[k]];
        } else {
          gathered := gathered[k := doc[k]];
        }
      }
      assert normalized == map k | k in doc && k in RESERVED :: doc[k];
      assert gathered == map k | k in doc && k !in RESERVED :: doc[k];
      doc := normalized["services" := Map(gathered)];
    }

    /** One service's environment: existing entries win. */
    method InjectEnv(name: string, vars: Env)
      requires name in services && services[name].Map?
      modifies `services
      ensures services == old(services)[name := EnvStage(old(services[name]), vars)]
    {
      var service := services[name].entries;
      match EnvOf(service) {
        case List(items) =>
          var env := MergedList(items, vars);
          services := services[name := Map(service["environment" := List(env)])];
        case Map(entries) =>
          var env := MergedMap(entries, vars);
          services := services[name := Map(service["environment" := Map(env)])];
        case Null =>
          var env := MergedMap(map[], vars);
          assert env == AsStrings(vars);
          services := services[name := Map(service["environment" := Map(env)])];
        case _ =>
          assert services == services[name := services[name]];
      }
    }

    method InjectNetworks(networks: seq<Network>)
      modifies this
      ensures doc == old(doc)["networks" := Map(TopLevel(EntriesAt(old(doc), "networks"), networks))]
      ensures services.Keys == old(services).Keys
      ensures forall n | n in services :: services[n] == AppendStage(old(services)[n], "networks", Names(networks))
    {
      var top := EntriesAt(doc, "networks");
      for i := 0 to |networks|
        invariant top == TopLevel(EntriesAt(doc, "networks"), networks[..i])
      {
        assert networks[..i + 1][..i] == networks[..i];
        top := top[networks[i].name := Flag(networks[i].isExternal)];
      }
      assert networks[..|networks|] == networks;
      doc := doc["networks" := Map(top)];
      AppendToAll("networks", Names(networks));
    }

    method InjectVolumes(volumes: seq<Volume>)
      modifies `services
      ensures services.Keys == old(services).Keys
      ensures forall n | n in services :: services[n] == AppendStage(old(services)[n], "volumes", Binds(volumes))
    {
      AppendToAll("volumes", Binds(volumes));
    }

    method AppendToAll(key: string, texts: seq<string>)
      modifies `services
      ensures services.Keys == old(services).Keys
      ensures forall n | n in services :: services[n] == AppendStage(old(services)[n], key, texts)
    {
      var left := services.Keys;
      while left != {}
        invariant left <= services.Keys && services.Keys == old(services).Keys
        invariant forall n | n in left :: services[n] == old(services)[n]
        invariant forall n | n in services && n !in left :: services[n] == AppendStage(old(services)[n], key, texts)
      {
        var name :| name in left;
        left := left - {name};
        if services[name].Map? {
          var service := services[name].entries;
          var list := AppendMissing(ItemsAt(service, key), texts);
          services := services[name := Map(service[key := List(list)])];
        }
      }
    }

    method InjectEnvAll(vars: Env)
      modifies `services
      ensures services.Keys == old(services).Keys
      ensures forall n | n in services :: services[n] == EnvStage(old(services)[n], vars)
    {
      var left := services.Keys;
      while left != {}
        invariant left <= services.Keys && services.Keys == old(services).Keys
        invariant forall n | n in left :: services[n] == old(services)[n]
        invariant forall n | n in services && n !in left :: services[n] == EnvStage(old(services)[n], vars)
      {
        var name :| name in left;
        left := left - {name};
        if services[name].Map? {
          InjectEnv(name, vars);
        }
      }
    }

    /** All of it: the document becomes its rendering. */
    method Render(a: Attachments)
      modifies this
      ensures doc == Rendered(old(doc), a)
    {
      NormalizeTopLevel();
      services := EntriesAt(doc, "services");
      if a.vars != map[] {
        InjectEnvAll(a.vars);
      }
      if a.networks != [] {
        InjectNetworks(a.networks);
      }
      if a.volumes != [] {
        InjectVolumes(a.volumes);
      }
      assert services == InjectedAll(ServicesOf(old(doc)), a);
      doc := doc["services" := Map(services)];
    }
  }

  /** Why a document is refused. */
  datatype Refusal = NoServices | NotAMapping(name: string) | NeitherImageNorBuild(name: string)

  method ValidateComposeContent(doc: Entries) returns (refusal: Option<Refusal>)
    ensures refusal.None? <==> ValidDocument(doc)
    ensures refusal.None? ==>
              ServicesOf(doc) != map[] && forall n | n in ServicesOf(doc) ::
                ServicesOf(doc)[n].Map? &&
                    ("image" in ServicesOf(doc)[n].entries || "build" in ServicesOf(doc)[n].entries)
    ensures refusal.Some? ==>
              match refusal.value
              case NoServices => ServicesOf(doc) == map[]
              case NotAMapping(n) => n in ServicesOf(doc) && !ServicesOf(doc)[n].Map?
              case NeitherImageNorBuild(n) =>
                && n in ServicesOf(doc) && ServicesOf(doc)[n].Map?
                && "image" !in ServicesOf(doc)[n].entries && "build" !in ServicesOf(doc)[n].entries
  {
    var document := new Document(doc);
    document.NormalizeTopLevel();
    var services := EntriesAt(document.doc, "services");
    if services == map[] {
      return Some(NoServices);
    }
    var left := services.Keys;
    while left != {}
      invariant left <= services.Keys
      invariant forall n | n in services && n !in left :: IsService(services[n])
    {
      var name :| name in left;
      left := left - {name};
      if !services[name].Map? {
        return Some(NotAMapping(name));
      }
      if "image" !in services[name].entries && "build" !in services[name].entries {
        return Some(NeitherImageNorBuild(name));
      }
    }
    return None;
  }

  method ScanComposeEnvironment(doc: Entries) returns (found: Env)
    ensures ScanOf(found, ServicesOf(doc))
  {
    var document := new Document(doc);
    document.NormalizeTopLevel();
    var services := EntriesAt(document.doc, "services");
    found := map[];
    var left := services.Keys;
    ghost var done: Entries := map[];
    while left != {}
      invariant left <= services.Keys && done.Keys == services.Keys - left
      invariant forall n | n in done :: done[n] == services[n]
      invariant ScanOf(found, done)
    {
      hide ScanOf, Scan;
      var name :| name in left;
      left := left - {name};
      FoundOfOneMore(found, done, name, services[name]);
      found := ScanService(services[name], found);
      done := done[name := services[name]];
    }
    assert done == services;
  }

  lemma HasValueGrows(services: Entries, name: string, service: Yaml, key: string, value: string)
    requires HasValue(services, key, value) && name !in services
    ensures HasValue(services[name := service], key, value)
  {
    hide Scan;
    var n :| n in services && key in Scan(services[n]) && Scan(services[n])[key] == value;
    assert services[name := service][n] == services[n];
  }

  lemma HasValueHere(services: Entries, name: string, service: Yaml, key: string)
    requires key in Scan(service)
    ensures HasValue(services[name := service], key, Scan(service)[key])
  {
    hide Scan;
    assert name in services[name := service] && services[name := service][name] == service;
  }

  lemma FoundOfOneMore(found: Env, services: Entries, name: string, service: Yaml)
    requires ScanOf(found, services) && name !in services
    ensures ScanOf(found + Scan(service), services[name := service])
  {
    hide Scan, HasValue;
    var all := services[name := service];
    var more := found + Scan(service);
    forall k | k in more
      ensures HasValue(all, k, more[k])
    {
      if k in Scan(service) {
        HasValueHere(services, name, service, k);
      } else {
        HasValueGrows(services, name, service, k, found[k]);
      }
    }
    forall n | n in all
      ensures Scan(all[n]).Keys <= more.Keys
    {
      if n == name {
        assert all[n] == service;
      } else {
        assert all[n] == services[n];
      }
    }
  }

  method ScanService(service: Yaml, before: Env) returns (found: Env)
    ensures found == before + Scan(service)
  {
    found := before;
    if !service.Map? {
      return;
    }
    match EnvOf(service.entries) {
      case List(items) => found := ScanList(items, found);
      case Map(entries) => found := ScanMap(entries, found);
      case _ =>
    }
  }

  method ScanList(items: seq<Yaml>, before: Env) returns (found: Env)
    ensures found == before + ScanItems(items)
  {
    found := before;
    for i := 0 to |items|
      invariant found == before + ScanItems(items[..i])
    {
      assert items[..i + 1][..i] == items[..i];
      if items[i].Str? {
        var key, value := CutAt(items[i].text);
        found := found[key := value];
      }
    }
    assert items[..|items|] == items;
  }

  method ScanMap(entries: Entries, before: Env) returns (found: Env)
    ensures found == before + ScanEnv(Map(entries))
  {
    found := before;
    var left := entries.Keys;
    while left != {}
      invariant left <= entries.Keys
      invariant found == before + map k | k in entries && k !in left :: ScanEnv(Map(entries))[k]
    {
      var k :| k in left;
      left := left - {k};
      found := found[k := if entries[k].Null? then "" else Show(entries[k])];
    }
  }
}
