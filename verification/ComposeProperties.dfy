/** What rendering keeps, when rendering twice changes nothing, and how scanning reads back what injection wrote. */
module ComposeProperties {
  import opened Ordering
  import opened Compose

  // ---- what rendering keeps ----

  const INJECTED := {"environment", "networks", "volumes"}

  lemma InjectedKeepsTheRest(service: Entries, a: Attachments, key: string)
    requires key !in INJECTED
    ensures key in Injected(service, a) <==> key in service
    ensures key in service ==> Injected(service, a)[key] == service[key]
  {
    hide EnvMerged, Extended;
  }

  /** Every service stays, a mapping exactly if it was one, with all of its other keys. */
  lemma RenderingKeepsServices(doc: Entries, a: Attachments)
    ensures ServicesOf(Rendered(doc, a)).Keys == ServicesOf(doc).Keys
    ensures forall n | n in ServicesOf(doc) :: ServicesOf(Rendered(doc, a))[n].Map? <==> ServicesOf(doc)[n].Map?
    ensures forall n | n in ServicesOf(doc) :: IsService(ServicesOf(Rendered(doc, a))[n]) <==>
            IsService(ServicesOf(doc)[n])
  {
    hide Injected, Normalized, TopLevel;
    assert ServicesOf(Rendered(doc, a)) == InjectedAll(ServicesOf(doc), a) by { RenderedServices(doc, a); }
    forall n | n in ServicesOf(doc) && ServicesOf(doc)[n].Map?
      ensures IsService(InjectedAll(ServicesOf(doc), a)[n]) <==> IsService(ServicesOf(doc)[n])
    {
      InjectedKeepsTheRest(ServicesOf(doc)[n].entries, a, "image");
      InjectedKeepsTheRest(ServicesOf(doc)[n].entries, a, "build");
    }
  }

  lemma RenderedServices(doc: Entries, a: Attachments)
    ensures "services" in Rendered(doc, a)
    ensures ServicesOf(Rendered(doc, a)) == InjectedAll(ServicesOf(doc), a)
  {
    hide InjectedAll, TopLevel;
  }

  /** Rendering neither breaks a valid document nor repairs an invalid one. */
  lemma RenderingKeepsValidity(doc: Entries, a: Attachments)
    ensures ValidDocument(Rendered(doc, a)) <==> ValidDocument(doc)
  {
    RenderingKeepsServices(doc, a);
    hide Rendered, ServicesOf, IsService;
    assert ServicesOf(Rendered(doc, a)) == map[] <==> ServicesOf(doc) == map[] by {
      assert forall m: Entries :: m == map[] <==> m.Keys == {};
    }
  }

  // ---- cutting at '=' ----

  lemma {:induction false} CutOfEntry(key: string, value: string)
    ensures '=' !in key ==> Cut(key + "=" + value) == (key, value)
    ensures '=' !in Cut(key).0 && '=' !in Cut(key + "=" + value).0
  {
    var s := key + "=" + value;
    if key == "" {
      assert s == ['='] + value && s[1..] == value;
    } else {
      assert s[0] == key[0] && s[1..] == key[1..] + "=" + value;
      CutOfEntry(key[1..], value);
      assert key == [key[0]] + key[1..];
    }
  }

  lemma {:induction false} ListKeysHaveNoEquals(items: seq<Yaml>)
    ensures forall k | k in ListKeys(items) :: '=' !in k
  {
    if items != [] {
      ListKeysHaveNoEquals(items[..|items| - 1]);
      var e := items[|items| - 1];
      if e.Str? {
        CutOfEntry(e.text, "");
      }
    }
  }

  lemma {:induction false} ScanKeysAreListKeys(items: seq<Yaml>)
    ensures ScanItems(items).Keys == ListKeys(items)
  {
    if items != [] {
      ScanKeysAreListKeys(items[..|items| - 1]);
    }
  }

  lemma {:induction false} ScanAppends(items: seq<Yaml>, more: seq<Yaml>)
    ensures ScanItems(items + more) == ScanItems(items) + ScanItems(more)
  {
    if more == [] {
      assert items + more == items;
    } else {
      var before := more[..|more| - 1];
      assert (items + more)[..|items + more| - 1] == items + before;
      ScanAppends(items, before);
    }
  }

  predicate EqualsFree(vars: Env) {
    forall k | k in vars :: '=' !in k
  }

  function Missing(vars: Env, keys: seq<string>, existing: set<string>): Env {
    map k | k in vars && k in keys && k !in existing :: vars[k]
  }

  lemma MissingOfOneMore(vars: Env, keys: seq<string>, k: string, existing: set<string>)
    requires k in vars
    ensures Missing(vars, keys + [k], existing) ==
            if k in existing then Missing(vars, keys, existing) else Missing(vars, keys, existing)[k := vars[k]]
  {
    assert forall x :: x in keys + [k] <==> x in keys || x == k;
  }

  lemma ScanOfSnoc(items: seq<Yaml>, text: string)
    ensures ScanItems(items + [Str(text)]) == ScanItems(items)[Cut(text).0 := Cut(text).1]
  {
    assert (items + [Str(text)])[..|items|] == items;
  }

  /** Scanning the added entries gives back the variables that were missing. */
  lemma {:induction false} ScanOfAdded(keys: seq<string>, existing: set<string>, vars: Env)
    requires forall k :: k in keys ==> k in vars
    requires EqualsFree(vars)
    ensures ScanItems(AddedEntries(keys, existing, vars)) == Missing(vars, keys, existing)
  {
    if keys != [] {
      var k := keys[|keys| - 1];
      var before := keys[..|keys| - 1];
      assert keys == before + [k];
      ScanOfAdded(before, existing, vars);
      MissingOfOneMore(vars, before, k, existing);
      if k !in existing {
        assert k in keys && '=' !in k;
        CutOfEntry(k, vars[k]);
        ScanOfSnoc(AddedEntries(before, existing, vars), k + "=" + vars[k]);
      } else {
        assert AddedEntries(keys, existing, vars) == AddedEntries(before, existing, vars);
      }
    }
  }

  // ---- injection, then scanning ----

  lemma ScanOfMergedListWithout(items: seq<Yaml>, vars: Env)
    requires EqualsFree(vars)
    ensures ScanEnv(EnvMerged(List(items), vars)) == vars + ScanEnv(List(items))
  {
    hide ListKeys, AddedEntries, ScanItems, SortedKeys, EqualsFree;
    var keys := SortedKeys(vars.Keys);
    ScanAppends(items, AddedEntries(keys, ListKeys(items), vars));
    ScanKeysAreListKeys(items);
    ScanOfAdded(keys, ListKeys(items), vars);
    assert ScanItems(items) + Missing(vars, keys, ScanItems(items).Keys) == vars + ScanItems(items);
  }

  lemma ScanOfMergedListWith(items: seq<Yaml>, vars: Env, k: string)
    requires k in vars && '=' in k
    ensures k !in ScanEnv(EnvMerged(List(items), vars)) && k in vars + ScanEnv(List(items))
  {
    hide ListKeys, AddedEntries, ScanItems, SortedKeys;
    var merged := items + AddedEntries(SortedKeys(vars.Keys), ListKeys(items), vars);
    ScanKeysAreListKeys(merged);
    ListKeysHaveNoEquals(merged);
  }

  /** In a list, the scan gives the existing entries over the injected ones exactly when no key contains '='. */
  lemma ScanOfMergedList(items: seq<Yaml>, vars: Env)
    ensures ScanEnv(EnvMerged(List(items), vars)) == vars + ScanEnv(List(items)) <==> EqualsFree(vars)
  {
    hide EnvMerged, ScanEnv;
    if EqualsFree(vars) {
      ScanOfMergedListWithout(items, vars);
    } else {
      var k :| k in vars && '=' in k;
      ScanOfMergedListWith(items, vars, k);
    }
  }

  lemma ScanOfMergedMap(entries: Entries, vars: Env)
    ensures ScanEnv(EnvMerged(Map(entries), vars)) == vars + ScanEnv(Map(entries))
  {
    var merged := AsStrings(vars) + entries;
    forall k | k in merged
      ensures ScanEnv(Map(merged))[k] == (vars + ScanEnv(Map(entries)))[k]
    {
      hide SortedKeys;
    }
    assert ScanEnv(Map(merged)).Keys == (vars + ScanEnv(Map(entries))).Keys;
  }

  /**
   What the scanner reads in a service after injection: the variables, overridden by what it read before.
   It is so in every form of environment except a list when some key contains '=', and except a
   scalar, which injection leaves alone and in which the scanner reads nothing.
   */
  lemma ScanOfInjected(service: Entries, vars: Env)
    ensures EnvOf(service).Str? || EnvOf(service).Other? ==>
              WithEnv(service, vars) == service && Scan(Map(service)) == map[]
    ensures EnvOf(service).Map? || EnvOf(service).Null? ==>
              Scan(Map(WithEnv(service, vars))) == vars + Scan(Map(service))
    ensures EnvOf(service).List? ==>
              (Scan(Map(WithEnv(service, vars))) == vars + Scan(Map(service)) <==> EqualsFree(vars))
  {
    hide EqualsFree, AddedEntries, ListKeys, ScanItems, SortedKeys;
    match EnvOf(service) {
      case List(items) => ScanOfMergedList(items, vars);
      case Map(entries) => ScanOfMergedMap(entries, vars);
      case Null =>
        ScanOfMergedMap(map[], vars);
        assert AsStrings(vars) + map[] == AsStrings(vars);
        assert vars + ScanEnv(Map(map[])) == vars;
      case _ =>
    }
  }

  // ---- rendering twice ----

  lemma {:induction false} AddedNothing(keys: seq<string>, existing: set<string>, vars: Env)
    requires forall k :: k in keys ==> k in vars
    ensures AddedEntries(keys, existing, vars) == [] <==> forall k | k in keys :: k in existing
  {
    if keys != [] {
      var k := keys[|keys| - 1];
      assert keys == keys[..|keys| - 1] + [k];
      AddedNothing(keys[..|keys| - 1], existing, vars);
    }
  }

  lemma MergedListTwice(items: seq<Yaml>, vars: Env)
    ensures EnvMerged(EnvMerged(List(items), vars), vars) == EnvMerged(List(items), vars) <==> EqualsFree(vars)
  {
    var keys := SortedKeys(vars.Keys);
    var added := AddedEntries(keys, ListKeys(items), vars);
    var merged := items + added;
    AddedNothing(keys, ListKeys(merged), vars);
    ListKeysHaveNoEquals(merged);
    if EqualsFree(vars) {
      ScanOfMergedList(items, vars);
      ScanKeysAreListKeys(merged);
      assert forall k | k in keys :: k in ScanItems(merged);
    } else {
      var k :| k in vars && '=' in k;
      assert k in keys && k !in ListKeys(merged);
    }
    hide ListKeys, AddedEntries, ScanItems, SortedKeys, EqualsFree;
    assert merged + AddedEntries(keys, ListKeys(merged), vars) == merged <==>
        AddedEntries(keys, ListKeys(merged), vars) == [];
  }

  lemma WithEnvTwice(service: Entries, vars: Env)
    ensures WithEnv(WithEnv(service, vars), vars) == WithEnv(service, vars) <==>
            !EnvOf(service).List? || EqualsFree(vars)
  {
    hide EqualsFree, AddedEntries, ListKeys, SortedKeys;
    match EnvOf(service) {
      case List(items) => MergedListTwice(items, vars);
      case Map(entries) => assert AsStrings(vars) + (AsStrings(vars) + entries) == AsStrings(vars) + entries;
      case Null => assert AsStrings(vars) + AsStrings(vars) == AsStrings(vars);
      case _ =>
    }
  }

  lemma {:induction false} ExtendedIs(items: seq<Yaml>, texts: seq<string>)
    ensures items <= Extended(items, texts)
    ensures forall x :: x in Extended(items, texts) <==> x in items || (x.Str? && x.text in texts)
  {
    if texts != [] {
      var before := texts[..|texts| - 1];
      assert texts == before + [texts[|texts| - 1]];
      ExtendedIs(items, before);
    }
  }

  lemma {:induction false} ExtendedByNothing(items: seq<Yaml>, texts: seq<string>)
    requires forall t | t in texts :: Str(t) in items
    ensures Extended(items, texts) == items
  {
    if texts != [] {
      assert texts[|texts| - 1] in texts;
      ExtendedByNothing(items, texts[..|texts| - 1]);
    }
  }

  lemma ExtendedTwice(items: seq<Yaml>, texts: seq<string>)
    ensures Extended(Extended(items, texts), texts) == Extended(items, texts)
  {
    ExtendedIs(items, texts);
    ExtendedByNothing(Extended(items, texts), texts);
  }

  lemma {:induction false} TopLevelOver(entries: Entries, networks: seq<Network>)
    ensures TopLevel(entries, networks) == entries + TopLevel(map[], networks)
  {
    if networks == [] {
      assert entries + map[] == entries;
    } else {
      TopLevelOver(entries, networks[..|networks| - 1]);
    }
  }

  lemma TopLevelTwice(entries: Entries, networks: seq<Network>)
    ensures TopLevel(TopLevel(entries, networks), networks) == TopLevel(entries, networks)
  {
    TopLevelOver(entries, networks);
    TopLevelOver(TopLevel(entries, networks), networks);
    var own := TopLevel(map[], networks);
    assert entries + own + own == entries + own;
  }

  lemma WithAppendedTwice(service: Entries, key: string, texts: seq<string>)
    requires key in service && service[key].List?
    requires exists items :: service[key].items == Extended(items, texts)
    ensures WithAppended(service, key, texts) == service
  {
    var items :| service[key].items == Extended(items, texts);
    ExtendedTwice(items, texts);
  }

  predicate SameEnv(s: Entries, t: Entries) {
    ("environment" in s <==> "environment" in t) && EnvOf(s) == EnvOf(t)
  }

  lemma WithEnvFixed(s: Entries, t: Entries, vars: Env)
    requires SameEnv(s, t)
    ensures WithEnv(s, vars) == s <==> WithEnv(t, vars) == t
  {
    hide EnvMerged;
    assert WithEnv(s, vars) == s <==>
           EnvOf(s).Str? || EnvOf(s).Other? || ("environment" in s && EnvMerged(EnvOf(s), vars) == EnvOf(s));
    assert WithEnv(t, vars) == t <==>
           EnvOf(t).Str? || EnvOf(t).Other? || ("environment" in t && EnvMerged(EnvOf(t), vars) == EnvOf(t));
  }

  /** The service is the same after a second injection. */
  predicate InjectsOnce(service: Entries, a: Attachments) {
    a.vars == map[] || !EnvOf(service).List? || EqualsFree(a.vars)
  }

  lemma InjectedTwice(service: Entries, a: Attachments)
    ensures Injected(Injected(service, a), a) == Injected(service, a) <==> InjectsOnce(service, a)
  {
    hide EnvMerged, Extended, EqualsFree;
    var s1 := if a.vars == map[] then service else WithEnv(service, a.vars);
    var s := Injected(service, a);
    assert SameEnv(s1, s);
    var t1 := if a.vars == map[] then s else WithEnv(s, a.vars);
    if a.networks != [] {
      assert t1["networks"] == s["networks"] == List(Extended(ItemsAt(s1, "networks"), Names(a.networks)));
      WithAppendedTwice(t1, "networks", Names(a.networks));
    }
    if a.volumes != [] {
      var s2 := if a.networks == [] then s1 else WithAppended(s1, "networks", Names(a.networks));
      assert t1["volumes"] == s["volumes"] == List(Extended(ItemsAt(s2, "volumes"), Binds(a.volumes)));
      WithAppendedTwice(t1, "volumes", Binds(a.volumes));
    }
    assert Injected(s, a) == t1;
    if a.vars != map[] {
      WithEnvTwice(service, a.vars);
      WithEnvFixed(s1, s, a.vars);
    }
  }

  /** Rendering twice is rendering once, exactly when that is so for every service. */
  lemma RenderingTwice(doc: Entries, a: Attachments)
    ensures Rendered(Rendered(doc, a), a) == Rendered(doc, a) <==>
            forall n | n in ServicesOf(doc) && ServicesOf(doc)[n].Map? :: InjectsOnce(ServicesOf(doc)[n].entries, a)
  {
    RenderedServices(doc, a);
    var r := Rendered(doc, a);
    var rr := Rendered(r, a);
    assert Normalized(r) == r;
    TopLevelTwice(EntriesAt(Normalized(doc), "networks"), a.networks);
    var services := ServicesOf(doc);
    forall n | n in services && services[n].Map?
      ensures InjectedAll(InjectedAll(services, a), a)[n] == InjectedAll(services, a)[n] <==>
              InjectsOnce(services[n].entries, a)
    {
      InjectedTwice(services[n].entries, a);
    }
    hide Injected, InjectsOnce, TopLevel, Normalized;
    var once := InjectedAll(services, a);
    var twice := InjectedAll(once, a);
    assert r["services"] == Map(once);
    assert rr == r["services" := Map(twice)];
    assert rr == r <==> twice == once;
    assert twice == once <==> forall n | n in services :: twice[n] == once[n];
    assert forall n | n in services && !services[n].Map? :: twice[n] == once[n];
  }

  // ---- networks ----

  /** The networks a service names, in list form or as the keys of a mapping. */
  function NetworkNames(service: Entries): set<string> {
    if "networks" !in service then {}
    else match service["networks"]
      case List(items) => set i | 0 <= i < |items| && items[i].Str? :: items[i].text
      case Map(entries) => entries.Keys
      case _ => {}
  }

  /**
   Attaching networks keeps those a service names exactly when they are not given as a mapping, or
   all attached anyway.
   */
  lemma NetworksKept(service: Entries, a: Attachments)
    requires a.networks != []
    ensures NetworkNames(service) <= NetworkNames(Injected(service, a)) <==>
            !("networks" in service && service["networks"].Map?) ||
            forall n | n in service["networks"].entries :: n in Names(a.networks)
    ensures forall n | n in Names(a.networks) :: n in NetworkNames(Injected(service, a))
  {
    var before := ItemsAt(service, "networks");
    var names := Names(a.networks);
    ExtendedIs(before, names);
    hide EnvMerged, Extended;
    var after := Injected(service, a);
    var items := Extended(before, names);
    assert after["networks"] == List(items);
    forall n
      ensures n in NetworkNames(after) <==> Str(n) in before || n in names
    {
      assert Str(n) in items <==> exists i | 0 <= i < |items| && items[i].Str? :: items[i].text == n;
    }
  }

  /** The list a rendered service has: what it had, then each attached text that was not there, and no others. */
  ghost predicate Lists(service: Entries, key: string, before: seq<Yaml>, texts: set<string>) {
    && key in service && service[key].List? && before <= service[key].items
    && forall x :: x in service[key].items <==> x in before || (x.Str? && x.text in texts)
  }

  lemma {:induction false} TopLevelIs(entries: Entries, networks: seq<Network>, name: string)
    ensures name in TopLevel(entries, networks) <==> name in entries || exists n | n in networks :: n.name == name
    ensures (forall n | n in networks :: n.name != name) && name in entries ==>
              TopLevel(entries, networks)[name] == entries[name]
    ensures forall i | 0 <= i < |networks| && networks[i].name == name &&
                       (forall j | i < j < |networks| :: networks[j].name != name) ::
              TopLevel(entries, networks)[name] == Flag(networks[i].isExternal)
  {
    if networks != [] {
      var before, last := networks[..|networks| - 1], networks[|networks| - 1];
      assert networks == before + [last];
      TopLevelIs(entries, before, name);
    }
  }

  /**
   What is attached is in the rendered file: every service that is a mapping lists each volume, host path first,
   and each network by name, after what it listed before, and nothing else.
   */
  lemma AttachedIsRendered(doc: Entries, a: Attachments, name: string)
    requires name in ServicesOf(doc) && ServicesOf(doc)[name].Map?
    ensures var before := ServicesOf(doc)[name].entries;
            var r := Rendered(doc, a);
            && "services" in r && r["services"].Map? && name in r["services"].entries
            && r["services"].entries[name].Map?
            && var after := r["services"].entries[name].entries;
               && (a.volumes != [] ==>
                     Lists(after, "volumes", ItemsAt(before, "volumes"),
                           set v | v in a.volumes :: v.hostPath + ":" + v.containerPath))
               && (a.networks != [] ==>
                     Lists(after, "networks", ItemsAt(before, "networks"), set n | n in a.networks :: n.name))
  {
    hide EnvMerged, Extended, Normalized, TopLevel;
    var before := ServicesOf(doc)[name].entries;
    ExtendedIs(ItemsAt(before, "volumes"), Binds(a.volumes));
    ExtendedIs(ItemsAt(before, "networks"), Names(a.networks));
    TextsOf(a);
    var after := Injected(before, a);
    assert a.volumes != [] ==> after["volumes"] == List(Extended(ItemsAt(before, "volumes"), Binds(a.volumes)));
    assert a.networks != [] ==> after["networks"] == List(Extended(ItemsAt(before, "networks"), Names(a.networks)));
  }

  lemma TextsOf(a: Attachments)
    ensures forall t :: t in Binds(a.volumes) <==> t in set v | v in a.volumes :: v.hostPath + ":" + v.containerPath
    ensures forall t :: t in Names(a.networks) <==> t in set n | n in a.networks :: n.name
  {
    forall v | v in a.volumes
      ensures v.hostPath + ":" + v.containerPath in Binds(a.volumes)
    {
      var i :| 0 <= i < |a.volumes| && a.volumes[i] == v;
      assert Binds(a.volumes)[i] == Bind(v);
    }
    forall n | n in a.networks
      ensures n.name in Names(a.networks)
    {
      var i :| 0 <= i < |a.networks| && a.networks[i] == n;
      assert Names(a.networks)[i] == n.name;
    }
  }

  /** The top level says of each network whether it is external; of two with one name the later one decides. */
  lemma NetworksAtTopLevel(doc: Entries, a: Attachments, i: nat)
    requires i < |a.networks| && forall j | i < j < |a.networks| :: a.networks[j].name != a.networks[i].name
    ensures var r := Rendered(doc, a);
            && "networks" in r && r["networks"].Map? && a.networks[i].name in r["networks"].entries
            && r["networks"].entries[a.networks[i].name] ==
               Map(map["external" := Other(if a.networks[i].isExternal then "true" else "false")])
  {
    hide InjectedAll, Normalized, TopLevel;
    TopLevelIs(EntriesAt(Normalized(doc), "networks"), a.networks, a.networks[i].name);
  }

  /**
   How the value of a variable is read: nothing as the empty text, a scalar as its text, and of a
   list its strings.
   */
  lemma ScannedValues(entries: Entries, k: string, items: seq<Yaml>, e: Yaml)
    requires k in entries
    ensures entries[k].Null? ==> ScanEnv(Map(entries))[k] == ""
    ensures entries[k].Str? ==> ScanEnv(Map(entries))[k] == entries[k].text
    ensures entries[k].Other? ==> ScanEnv(Map(entries))[k] == entries[k].shown
    ensures !e.Str? ==> ScanEnv(List(items + [e])) == ScanEnv(List(items))
  {
    assert (items + [e])[..|items|] == items;
  }

  /** How nested values are read: a list in brackets, a mapping as its sorted entries. */
  lemma ShownNested(a: string, b: string)
    ensures Show(Null) == "<nil>"
    ensures Show(List([])) == "[]" && Show(Map(map[])) == "map[]"
    ensures Show(List([Str(a), Str(b)])) == "[" + (a + " " + b) + "]"
    ensures Show(Map(map[a := Str(b)])) == "map[" + (a + ":" + b) + "]"
  {
    OneKey(a);
    var items, v := [Str(a), Str(b)], Map(map[a := Str(b)]);
    assert items[1..] == [Str(b)];
    assert ShowItems(items[1..]) == b;
    assert ShowItems(items) == a + " " + b == a + (" " + b);
    assert v.entries.Keys == {a};
    assert ShowEntries(v, [a]) == a + ":" + b;
  }

  lemma OneKey(k: string)
    ensures SortedKeys({}) == [] && SortedKeys({k}) == [k]
  {
    SortedUnique([k], SortedKeys({k}));
  }

  // ---- legacy documents ----

  /** Gathering the services of a legacy document is invertible, and happens once. */
  lemma NormalizationLosesNothing(doc: Entries)
    ensures Normalized(Normalized(doc)) == Normalized(doc)
    ensures "services" !in doc ==>
              && (Normalized(doc) - {"services"}) + ServicesOf(doc) == doc
              && ServicesOf(doc).Keys ==
                 doc.Keys - {"version", "networks", "volumes", "configs", "secrets", "services"}
    ensures "services" in doc ==>
              ServicesOf(doc) == if doc["services"].Map? then doc["services"].entries else map[]
  {
  }

  // ---- the whole file ----

  /** Injection and scanning agree on this service. */
  predicate ScansBack(service: Yaml, vars: Env) {
    service.Map? && match EnvOf(service.entries)
      case List(_) => EqualsFree(vars)
      case Map(_) => true
      case Null => true
      case _ => false
  }

  lemma ScanOfInjectedService(service: Yaml, a: Attachments)
    requires ScansBack(service, a.vars)
    ensures Scan(Map(Injected(service.entries, a))) == a.vars + Scan(service)
  {
    ScanOfInjected(service.entries, a.vars);
    hide EnvMerged, Extended, ScanEnv, EqualsFree;
    var s1 := if a.vars == map[] then service.entries else WithEnv(service.entries, a.vars);
    assert SameEnv(s1, Injected(service.entries, a));
    assert a.vars == map[] ==> a.vars + Scan(service) == Scan(service);
  }

  /** Scanning a rendered file finds every variable, with the injected value unless some service had its own. */
  lemma ScanOfRendered(doc: Entries, a: Attachments, found: Env)
    requires forall n | n in ServicesOf(doc) :: ScansBack(ServicesOf(doc)[n], a.vars)
    requires ScanOf(found, ServicesOf(Rendered(doc, a))) && ServicesOf(doc) != map[]
    ensures a.vars.Keys <= found.Keys
    ensures forall k | k in a.vars && (forall n | n in ServicesOf(doc) :: k !in Scan(ServicesOf(doc)[n])) ::
            found[k] == a.vars[k]
  {
    var services := ServicesOf(doc);
    RenderedServices(doc, a);
    forall n | n in services
      ensures Scan(InjectedAll(services, a)[n]) == a.vars + Scan(services[n])
    {
      ScanOfInjectedService(services[n], a);
    }
    hide ServicesOf, Rendered, Injected, ScansBack, Scan;
    var n :| n in services;
    assert n in InjectedAll(services, a);
    forall k | k in a.vars && (forall n | n in services :: k !in Scan(services[n]))
      ensures found[k] == a.vars[k]
    {
      assert k in Scan(InjectedAll(services, a)[n]) && k in found;
      assert HasValue(InjectedAll(services, a), k, found[k]);
      var m :| m in InjectedAll(services, a) && k in Scan(InjectedAll(services, a)[m]) &&
          Scan(InjectedAll(services, a)[m])[k] == found[k];
      assert m in services;
    }
  }
}
