/** Which parsed values template substitution leaves as they are. */
module Placeholders {
  import opened Texts
  import opened Templates
  import opened Compose

  predicate FreeText(s: string) {
    Keys(Segments(s)) == []
  }

  function Fill(s: string, values: map<string, string>): string {
    Substituted(Segments(s), values)
  }

  /**
   What a value becomes when its keys and values are filled in and the structure stays as it
   is; two keys that become the same are a document the parser refuses.
   */
  ghost predicate FillsTo(v: Yaml, values: map<string, string>, filled: Yaml) {
    match v
    case Str(text) => filled == Str(Fill(text, values))
    case List(items) =>
      filled.List? && |filled.items| == |items| && forall i | 0 <= i < |items| ::
          FillsTo(items[i], values, filled.items[i])
    case Map(entries) =>
      && filled.Map? && KeysApart(entries.Keys, values) && KeysFillTo(entries.Keys, values, filled.entries.Keys)
      && (forall k {:trigger Fill(k, values)} | k in entries ::
            Fill(k, values) in filled.entries && FillsTo(entries[k], values, filled.entries[Fill(k, values)]))
    case _ => filled == v
  }

  ghost predicate KeysFillTo(keys: set<string>, values: map<string, string>, filled: set<string>) {
    forall k :: k in filled <==> exists j | j in keys :: Fill(j, values) == k
  }

  ghost predicate KeysApart(keys: set<string>, values: map<string, string>) {
    forall j, k | j in keys && k in keys && Fill(j, values) == Fill(k, values) :: j == k
  }

  /** No placeholder in its keys or values. */
  predicate Free(v: Yaml) {
    match v
    case Str(text) => FreeText(text)
    case List(items) => forall i | 0 <= i < |items| :: Free(items[i])
    case Map(entries) => forall k | k in entries :: FreeText(k) && Free(entries[k])
    case _ => true
  }

  /** The keys of the placeholders in it. */
  function NamedKeys(v: Yaml): set<string> {
    match v
    case Str(text) => set k | k in Keys(Segments(text))
    case List(items) => set i, k | 0 <= i < |items| && k in NamedKeys(items[i]) :: k
    case Map(entries) =>
      (set i, k | i in entries && k in Keys(Segments(i)) :: k) + (set i, k | i in entries &&
          k in NamedKeys(entries[i]) :: k)
    case _ => {}
  }

  lemma {:induction false} FreeRenders(segments: seq<Segment>, values: map<string, string>)
    requires Keys(segments) == []
    ensures Substituted(segments, values) == Raw(segments)
  {
    if segments != [] {
      FreeRenders(segments[1..], values);
    }
  }

  /** Blanks for placeholders make the text shorter. */
  lemma {:induction false} BlanksShorten(segments: seq<Segment>, values: map<string, string>)
    requires forall i | 0 <= i < |segments| :: segments[i].Placeholder? ==> segments[i].raw != ""
    requires forall k | k in Keys(segments) :: k in values && values[k] == ""
    ensures |Substituted(segments, values)| <= |Raw(segments)|
    ensures Keys(segments) != [] ==> |Substituted(segments, values)| < |Raw(segments)|
  {
    if segments != [] {
      BlanksShorten(segments[1..], values);
    }
  }

  lemma PlaceholderNotEmpty(raw: string, key: string)
    requires IsPlaceholder(raw, key)
    ensures raw != ""
  {
  }

  lemma FillFree(s: string, values: map<string, string>)
    requires FreeText(s)
    ensures Fill(s, values) == s
  {
    FreeRenders(Segments(s), values);
    SegmentsLossless(s);
  }

  /** A value without placeholders fills in to itself and nothing else. */
  lemma FreeFillsTo(v: Yaml, values: map<string, string>, filled: Yaml)
    requires Free(v)
    ensures FillsTo(v, values, filled) <==> filled == v
    decreases v, 1
  {
    hide FreeText, Fill;
    match v {
      case Str(text) => FillFree(text, values);
      case List(_) => FreeListFillsTo(v, values, filled);
      case Map(_) => FreeMapFillsTo(v, values, filled);
      case _ =>
    }
  }

  lemma FreeListFillsTo(v: Yaml, values: map<string, string>, filled: Yaml)
    requires v.List? && forall i | 0 <= i < |v.items| :: Free(v.items[i])
    ensures FillsTo(v, values, filled) <==> filled == v
    decreases v, 0
  {
    hide Free;
    var items := v.items;
    if filled.List? && |filled.items| == |items| {
      forall i | 0 <= i < |items|
        ensures FillsTo(items[i], values, filled.items[i]) <==> filled.items[i] == items[i]
      {
        FreeFillsTo(items[i], values, filled.items[i]);
      }
      hide Fill, KeysApart;
      assert (forall i | 0 <= i < |items| :: filled.items[i] == items[i]) <==> filled.items == items;
    }
  }

  lemma FreeMapFillsTo(v: Yaml, values: map<string, string>, filled: Yaml)
    requires v.Map? && forall k | k in v.entries :: FreeText(k) && Free(v.entries[k])
    ensures FillsTo(v, values, filled) <==> filled == v
    decreases v, 0
  {
    hide Free, FreeText, Fill;
    var entries := v.entries;
    forall k | k in entries
      ensures Fill(k, values) == k
    {
      FillFree(k, values);
    }
    if filled.Map? && filled.entries.Keys == entries.Keys {
      forall k | k in entries
        ensures FillsTo(entries[k], values, filled.entries[k]) <==> filled.entries[k] == entries[k]
      {
        FreeFillsTo(entries[k], values, filled.entries[k]);
      }
      assert (forall k | k in entries :: filled.entries[k] == entries[k]) <==> filled.entries == entries;
    }
    assert FillsTo(v, values, filled) ==> filled.Map? && forall k :: k in filled.entries <==> k in entries;
  }

  /** Every placeholder has a value. */
  predicate Defined(v: Yaml, values: map<string, string>) {
    NamedKeys(v) <= values.Keys
  }

  /** A shortest of some strings. */
  lemma {:induction false} ShortestOf(keys: set<string>) returns (k: string)
    requires keys != {}
    ensures k in keys && forall j | j in keys :: |k| <= |j|
  {
    k :| k in keys;
    if keys != {k} {
      var m := ShortestOf(keys - {k});
      if |m| < |k| {
        k := m;
      }
    }
  }

  predicate Blank(s: string, values: map<string, string>) {
    forall k | k in Keys(Segments(s)) :: k in values && values[k] == ""
  }

  lemma BlankShortens(s: string, values: map<string, string>)
    requires Blank(s, values)
    ensures if FreeText(s) then Fill(s, values) == s else |Fill(s, values)| < |s|
  {
    if FreeText(s) {
      FillFree(s, values);
    } else {
      var segments := Segments(s);
      SegmentsLossless(s);
      forall i | 0 <= i < |segments| && segments[i].Placeholder?
        ensures segments[i].raw != ""
      {
        SegmentsFollowGrammar(s, i);
        PlaceholderNotEmpty(segments[i].raw, segments[i].key);
      }
      BlanksShorten(segments, values);
    }
  }

  /**
   Keys that fill in, with blanks, to just the same keys have no placeholder: the shortest that had
   one would meet another.
   */
  lemma KeysHaveNone(keys: set<string>, values: map<string, string>)
    requires KeysApart(keys, values) && forall k | k in keys :: Blank(k, values) && Fill(k, values) in keys
    ensures forall k | k in keys :: FreeText(k)
  {
    hide Fill, FreeText, Blank;
    var others := set k | k in keys && !FreeText(k);
    assert forall k | k in keys :: FreeText(k) || k in others;
    if others != {} {
      var k := ShortestOf(others);
      BlankShortens(k, values);
      BlankShortens(Fill(k, values), values);
    }
  }

  lemma BlanksChangeValue(v: Yaml, values: map<string, string>)
    requires forall k | k in NamedKeys(v) :: k in values && values[k] == ""
    requires FillsTo(v, values, v)
    ensures Free(v)
    decreases v, 1
  {
    hide FreeText, Fill, KeysApart;
    match v {
      case Str(text) => BlankShortens(text, values);
      case List(items) =>
        forall i | 0 <= i < |items|
          ensures Free(items[i])
        {
          assert NamedKeys(items[i]) <= NamedKeys(v);
          BlanksChangeValue(items[i], values);
        }
      case Map(_) => BlanksChangeMap(v, values);
      case _ =>
    }
  }

  lemma NamedInMap(v: Yaml, k: string)
    requires v.Map? && k in v.entries
    ensures (forall x | x in Keys(Segments(k)) :: x in NamedKeys(v)) && NamedKeys(v.entries[k]) <= NamedKeys(v)
  {
  }

  lemma MapFillsToItself(v: Yaml, values: map<string, string>)
    requires v.Map? && FillsTo(v, values, v)
    ensures KeysApart(v.entries.Keys, values)
    ensures forall k | k in v.entries ::
              Fill(k, values) in v.entries && FillsTo(v.entries[k], values, v.entries[Fill(k, values)])
  {
    hide Fill, KeysApart, KeysFillTo;
  }

  lemma BlanksChangeMap(v: Yaml, values: map<string, string>)
    requires v.Map? && (forall k | k in NamedKeys(v) :: k in values && values[k] == "")
    requires FillsTo(v, values, v)
    ensures Free(v)
    decreases v, 0
  {
    hide FreeText, Fill, KeysApart, FillsTo, NamedKeys;
    var entries := v.entries;
    MapFillsToItself(v, values);
    forall k | k in entries
      ensures Blank(k, values)
    {
      NamedInMap(v, k);
    }
    hide Blank;
    KeysHaveNone(entries.Keys, values);
    forall k | k in entries
      ensures Free(entries[k])
    {
      FillFree(k, values);
      NamedInMap(v, k);
      BlanksChangeValue(entries[k], values);
    }
  }

  ghost predicate Untouched(v: Yaml) {
    forall values: map<string, string> | Defined(v, values) :: FillsTo(v, values, v)
  }

  /**
   Substitution leaves a value alone, whatever the variables hold, exactly when it has no
   placeholder in its keys or values.
   */
  lemma UntouchedExactly(v: Yaml)
    ensures Untouched(v) <==> Free(v)
  {
    if Free(v) {
      forall values: map<string, string> | Defined(v, values)
        ensures FillsTo(v, values, v)
      {
        FreeFillsTo(v, values, v);
      }
    }
    if Untouched(v) {
      var blanks := map k | k in NamedKeys(v) :: "";
      assert Defined(v, blanks);
      BlanksChangeValue(v, blanks);
    }
  }
}
