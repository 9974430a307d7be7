/** Compose documents as parsed, and what rendering and scanning make of them. */
module Compose {
  import opened Ordering

  /** A parsed value; Other is any scalar but a string, or a mapping with keys that are not strings. */
  datatype Yaml =
    | Null
    | Str(text: string)
    | Other(shown: string)
    | List(items: seq<Yaml>)
    | Map(entries: map<string, Yaml>)

  type Entries = map<string, Yaml>
  type Env = map<string, string>

  /** The default text of a value. */
  function Show(v: Yaml): string
    decreases v, 1, 0
  {
    match v
    case Null => "<nil>"
    case Str(text) => text
    case Other(shown) => shown
    case List(items) => "[" + ShowItems(items) + "]"
    case Map(entries) => "map[" + ShowEntries(v, SortedKeys(entries.Keys)) + "]"
  }

  function ShowItems(items: seq<Yaml>): string
    decreases items, 1, 0
  {
    if items == [] then ""
    else if |items| == 1 then Show(items[0])
    else Show(items[0]) + " " + ShowItems(items[1..])
  }

  function ShowEntries(v: Yaml, keys: seq<string>): string
    requires v.Map? && forall k :: k in keys ==> k in v.entries
    decreases v, 0, |keys|
  {
    if keys == [] then ""
    else
      assert keys[0] in keys;
      keys[0] + ":" + Show(v.entries[keys[0]]) + (if |keys| == 1 then "" else " " + ShowEntries(v, keys[1..]))
  }

  // ---- the shape of a document ----

  const RESERVED := {"version", "networks", "volumes", "configs", "secrets", "services"}

  /** A document without `services` has its other keys gathered under it. */
  function Normalized(doc: Entries): Entries {
    if "services" in doc then doc
    else
      (map k | k in doc && k in RESERVED :: doc[k])
      ["services" := Map(map k | k in doc && k !in RESERVED :: doc[k])]
  }

  function EntriesAt(doc: Entries, key: string): Entries {
    if key in doc && doc[key].Map? then doc[key].entries else map[]
  }

  function ItemsAt(entries: Entries, key: string): seq<Yaml> {
    if key in entries && entries[key].List? then entries[key].items else []
  }

  function ServicesOf(doc: Entries): Entries {
    EntriesAt(Normalized(doc), "services")
  }

  predicate IsService(v: Yaml) {
    v.Map? && ("image" in v.entries || "build" in v.entries)
  }

  predicate ValidDocument(doc: Entries) {
    ServicesOf(doc) != map[] && forall name | name in ServicesOf(doc) :: IsService(ServicesOf(doc)[name])
  }

  // ---- environment ----

  function EnvOf(service: Entries): Yaml {
    if "environment" in service then service["environment"] else Null
  }

  /** Up to the first '='; the rest after it. */
  function Cut(s: string): (string, string) {
    if s == "" then ("", "")
    else if s[0] == '=' then ("", s[1..])
    else var (key, value) := Cut(s[1..]); ([s[0]] + key, value)
  }

  function ListKeys(items: seq<Yaml>): set<string> {
    if items == [] then {}
    else ListKeys(items[..|items| - 1]) + (var e := items[|items| - 1]; if e.Str? then {Cut(e.text).0} else {})
  }

  /** "KEY=value" for each key not there yet, in the order given. */
  function AddedEntries(keys: seq<string>, existing: set<string>, vars: Env): seq<Yaml>
    requires forall k :: k in keys ==> k in vars
  {
    if keys == [] then []
    else
      var k := keys[|keys| - 1];
      AddedEntries(keys[..|keys| - 1], existing, vars) + (if k in existing then [] else [Str(k + "=" + vars[k])])
  }

  function AsStrings(vars: Env): Entries {
    map k | k in vars :: Str(vars[k])
  }

  function EnvMerged(env: Yaml, vars: Env): Yaml {
    match env
    case List(items) => List(items + AddedEntries(SortedKeys(vars.Keys), ListKeys(items), vars))
    case Map(entries) => Map(AsStrings(vars) + entries)
    case Null => Map(AsStrings(vars))
    case _ => env
  }

  function WithEnv(service: Entries, vars: Env): Entries {
    if EnvOf(service).Str? || EnvOf(service).Other? then service
    else service["environment" := EnvMerged(EnvOf(service), vars)]
  }

  /** What the scanner reads in one service. */
  function ScanEnv(env: Yaml): Env {
    match env
    case List(items) => ScanItems(items)
    case Map(entries) => map k | k in entries :: if entries[k].Null? then "" else Show(entries[k])
    case _ => map[]
  }

  function ScanItems(items: seq<Yaml>): Env {
    if items == [] then map[]
    else
      var found := ScanItems(items[..|items| - 1]);
      var e := items[|items| - 1];
      if e.Str? then found[Cut(e.text).0 := Cut(e.text).1] else found
  }

  function Scan(service: Yaml): Env {
    if service.Map? then ScanEnv(EnvOf(service.entries)) else map[]
  }

  /** Some service has this key, with this value. */
  predicate HasValue(services: Entries, key: string, value: string) {
    exists n | n in services :: key in Scan(services[n]) && Scan(services[n])[key] == value
  }

  /** What a scan of the whole file may find: every key some service has, with the value of one that has it. */
  predicate ScanOf(found: Env, services: Entries) {
    && (forall k | k in found :: HasValue(services, k, found[k]))
    && (forall n | n in services :: Scan(services[n]).Keys <= found.Keys)
  }

  // ---- networks and volumes ----

  datatype Network = Network(name: string, isExternal: bool)
  datatype Volume = Volume(hostPath: string, containerPath: string)

  function Bind(v: Volume): string {
    v.hostPath + ":" + v.containerPath
  }

  /** Each text appended unless it, as a string, is there already. */
  function Extended(items: seq<Yaml>, texts: seq<string>): seq<Yaml> {
    if texts == [] then items
    else
      var before := Extended(items, texts[..|texts| - 1]);
      var t := Str(texts[|texts| - 1]);
      if t in before then before else before + [t]
  }

  function WithAppended(service: Entries, key: string, texts: seq<string>): Entries {
    service[key := List(Extended(ItemsAt(service, key), texts))]
  }

  function Flag(isExternal: bool): Yaml {
    Map(map["external" := Other(if isExternal then "true" else "false")])
  }

  /** The top-level entry of each network; of two with the same name, the later one. */
  function TopLevel(entries: Entries, networks: seq<Network>): Entries {
    if networks == [] then entries
    else
      var n := networks[|networks| - 1];
      TopLevel(entries, networks[..|networks| - 1])[n.name := Flag(n.isExternal)]
  }

  function Names(networks: seq<Network>): (r: seq<string>)
    ensures |r| == |networks|
  {
    seq(|networks|, i requires 0 <= i < |networks| => networks[i].name)
  }

  function Binds(volumes: seq<Volume>): (r: seq<string>)
    ensures |r| == |volumes|
  {
    seq(|volumes|, i requires 0 <= i < |volumes| => Bind(volumes[i]))
  }

  // ---- rendering ----

  datatype Attachments = Attachments(vars: Env, networks: seq<Network>, volumes: seq<Volume>)

  /** One service after all injections. */
  function Injected(service: Entries, a: Attachments): Entries {
    var s1 := if a.vars == map[] then service else WithEnv(service, a.vars);
    var s2 := if a.networks == [] then s1 else WithAppended(s1, "networks", Names(a.networks));
    if a.volumes == [] then s2 else WithAppended(s2, "volumes", Binds(a.volumes))
  }

  function InjectedAll(services: Entries, a: Attachments): Entries {
    map name | name in services ::
      if services[name].Map? then Map(Injected(services[name].entries, a)) else services[name]
  }

  /** The rendered document; services that are not a mapping count as none. */
  function Rendered(doc: Entries, a: Attachments): Entries {
    var normalized := Normalized(doc);
    var top := if a.networks == [] then normalized
               else normalized["networks" := Map(TopLevel(EntriesAt(normalized, "networks"), a.networks))];
    top["services" := Map(InjectedAll(ServicesOf(doc), a))]
  }
}
