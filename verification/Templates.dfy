/** Substitution of {{ KEY }} placeholders in compose content and file templates. */
module Templates {
  import opened Wrappers
  import opened Texts
  import opened Ordering

  // ---- the placeholder pattern ----

  predicate IsSpace(c: char) {
    c == ' ' || c == '\t' || c == '\n' || c == '\U{000C}' || c == '\r'
  }

  predicate IsLetter(c: char) {
    'A' <= c <= 'Z' || 'a' <= c <= 'z' || c == '_'
  }

  predicate IsKeyChar(c: char) {
    IsLetter(c) || '0' <= c <= '9'
  }

  predicate AllSpace(s: string) {
    forall i :: 0 <= i < |s| ==> IsSpace(s[i])
  }

  predicate IsKey(s: string) {
    s != "" && IsLetter(s[0]) && forall i :: 0 <= i < |s| ==> IsKeyChar(s[i])
  }

  /** The characters of the pattern: the five spaces, and a name that does not begin with a digit. */
  lemma PatternCharacters(c: char)
    ensures AllSpace([c]) <==> c in {' ', '\t', '\n', '\U{000C}', '\r'}
    ensures IsKey([c]) <==> 'A' <= c <= 'Z' || 'a' <= c <= 'z' || c == '_'
    ensures IsKey(['k', c]) <==> 'A' <= c <= 'Z' || 'a' <= c <= 'z' || c == '_' || '0' <= c <= '9'
  {
    assert [c][0] == c && ['k', c][0] == 'k' && ['k', c][1] == c;
  }

  /** The pattern, read as a grammar: braces, spaces, a key, spaces, braces. */
  ghost predicate IsPlaceholder(raw: string, key: string) {
    exists before, after | AllSpace(before) && AllSpace(after) :: IsKey(key) && raw == Braced(before, key, after)
  }

  function Braced(before: string, key: string, after: string): string {
    "{{" + (before + (key + (after + "}}")))
  }

  function SpaceRun(s: string): (n: nat)
    ensures n <= |s| && AllSpace(s[..n]) && (n < |s| ==> !IsSpace(s[n]))
  {
    if s == "" || !IsSpace(s[0]) then 0 else 1 + SpaceRun(s[1..])
  }

  function KeyRun(s: string): (n: nat)
    ensures n <= |s| && (forall i :: 0 <= i < n ==> IsKeyChar(s[i])) && (n < |s| ==> !IsKeyChar(s[n]))
  {
    if s == "" || !IsKeyChar(s[0]) then 0 else 1 + KeyRun(s[1..])
  }

  datatype Match = NoMatch | Match(size: nat, key: string)

  /** The match that starts here, if any. */
  function MatchHere(s: string): Match {
    if !StartsWith(s, "{{") then NoMatch
    else
      var a := 2 + SpaceRun(s[2..]);
      var b := a + KeyRun(s[a..]);
      var c := b + SpaceRun(s[b..]);
      if IsKey(s[a..b]) && StartsWith(s[c..], "}}") then Match(c + 2, s[a..b]) else NoMatch
  }

  /** A braced text laid out from the cuts a scan finds. */
  lemma CutsMakeBraced(s: string, a: nat, b: nat, c: nat)
    requires 2 <= a <= b <= c <= |s| && StartsWith(s, "{{") && StartsWith(s[c..], "}}")
    ensures c + 2 <= |s| && s[..c + 2] == Braced(s[2..a], s[a..b], s[b..c])
  {
    assert s[c..][..2] == s[c..c + 2];
    assert s[..c + 2] == s[..2] + (s[2..a] + (s[a..b] + (s[b..c] + s[c..c + 2])));
  }

  lemma PlaceholderIntro(raw: string, before: string, key: string, after: string)
    requires AllSpace(before) && AllSpace(after) && IsKey(key) && raw == Braced(before, key, after)
    ensures IsPlaceholder(raw, key)
  {
  }

  lemma MatchCuts(s: string) returns (a: nat, b: nat, c: nat)
    requires MatchHere(s).Match?
    ensures 2 <= a <= b <= c <= |s| && StartsWith(s, "{{") && StartsWith(s[c..], "}}")
    ensures a - 2 == SpaceRun(s[2..]) && c - b == SpaceRun(s[b..])
    ensures MatchHere(s) == Match(c + 2, s[a..b]) && IsKey(s[a..b])
  {
    assert StartsWith(s, "{{") ==> |s| >= 2;
    hide SpaceRun, KeyRun, IsKey, StartsWith, AllSpace;
    a := 2 + SpaceRun(s[2..]);
    b := a + KeyRun(s[a..]);
    c := b + SpaceRun(s[b..]);
  }

  lemma SpacesAt(s: string, i: nat, n: nat)
    requires i <= |s| && n == SpaceRun(s[i..])
    ensures i + n <= |s| && AllSpace(s[i..i + n])
  {
    hide AllSpace, SpaceRun;
    assert s[i..][..n] == s[i..i + n];
  }

  lemma MatchIsPlaceholder(s: string)
    requires MatchHere(s).Match?
    ensures 0 < MatchHere(s).size <= |s|
    ensures IsPlaceholder(s[..MatchHere(s).size], MatchHere(s).key)
  {
    hide *;
    var a, b, c := MatchCuts(s);
    CutsMakeBraced(s, a, b, c);
    SpacesAt(s, 2, a - 2);
    SpacesAt(s, b, c - b);
    PlaceholderIntro(s[..c + 2], s[2..a], s[a..b], s[b..c]);
  }

  lemma {:induction false} SpaceRunIs(before: string, rest: string)
    requires AllSpace(before) && (rest == "" || !IsSpace(rest[0]))
    ensures SpaceRun(before + rest) == |before|
  {
    if before == "" {
      assert before + rest == rest;
    } else {
      assert (before + rest)[1..] == before[1..] + rest;
      SpaceRunIs(before[1..], rest);
    }
  }

  lemma {:induction false} KeyRunIs(key: string, rest: string)
    requires (forall i :: 0 <= i < |key| ==> IsKeyChar(key[i])) && (rest == "" || !IsKeyChar(rest[0]))
    ensures KeyRun(key + rest) == |key|
  {
    if key == "" {
      assert key + rest == rest;
    } else {
      assert (key + rest)[1..] == key[1..] + rest;
      KeyRunIs(key[1..], rest);
    }
  }

  /** Reading a placeholder from its opening braces on, one run at a time. */
  lemma BracedParts(before: string, rest: string)
    ensures var s := "{{" + (before + rest);
            |s| == 2 + |before| + |rest| && StartsWith(s, "{{") && s[2..] == before + rest && s[2 + |before|..] == rest
  {
  }

  lemma KeyParts(s: string, a: nat, key: string, rest: string)
    requires a <= |s| && s[a..] == key + rest
    ensures a + |key| <= |s| && s[a..a + |key|] == key && s[a + |key|..] == rest
  {
    assert s[a..a + |key|] == s[a..][..|key|];
    assert s[a + |key|..] == s[a..][|key|..];
  }

  /** What a scan returns once its cuts are known. */
  lemma CutsMakeMatch(s: string, a: nat, b: nat, c: nat, key: string)
    requires 2 <= a <= b <= c <= |s| && StartsWith(s, "{{") && StartsWith(s[c..], "}}")
    requires SpaceRun(s[2..]) == a - 2 && KeyRun(s[a..]) == b - a && SpaceRun(s[b..]) == c - b
    requires s[a..b] == key && IsKey(key)
    ensures MatchHere(s) == Match(c + 2, key)
  {
    hide SpaceRun, KeyRun, IsKey, StartsWith;
  }

  lemma SpacesBeforeKey(before: string, key: string, rest: string)
    requires AllSpace(before) && IsKey(key)
    ensures SpaceRun(before + (key + rest)) == |before|
  {
    assert (key + rest)[0] == key[0];
    SpaceRunIs(before, key + rest);
  }

  lemma KeyBeforeSpaces(key: string, after: string, rest: string)
    requires IsKey(key) && AllSpace(after)
    ensures KeyRun(key + (after + ("}}" + rest))) == |key|
  {
    var closing := "}}" + rest;
    assert (after + closing)[0] == (if after == "" then '}' else after[0]);
    KeyRunIs(key, after + closing);
  }

  lemma SpacesBeforeBraces(after: string, rest: string)
    requires AllSpace(after)
    ensures SpaceRun(after + ("}}" + rest)) == |after|
    ensures StartsWith("}}" + rest, "}}")
  {
    assert ("}}" + rest)[0] == '}';
    SpaceRunIs(after, "}}" + rest);
  }

  lemma BracedMatches(s: string, before: string, key: string, after: string, rest: string)
    requires AllSpace(before) && IsKey(key) && AllSpace(after)
    requires s == "{{" + (before + (key + (after + ("}}" + rest))))
    ensures MatchHere(s) == Match(|before| + |key| + |after| + 4, key)
  {
    var a := 2 + |before|;
    var b := a + |key|;
    var c := b + |after|;
    assert c <= |s| && StartsWith(s, "{{") && s[2..] == before + (key + (after + ("}}" + rest)))
      && s[a..] == key + (after + ("}}" + rest)) by {
      BracedParts(before, key + (after + ("}}" + rest)));
    }
    assert s[a..b] == key && s[b..] == after + ("}}" + rest) by {
      KeyParts(s, a, key, after + ("}}" + rest));
    }
    assert s[c..] == "}}" + rest by {
      KeyParts(s, b, after, "}}" + rest);
    }
    assert SpaceRun(s[2..]) == |before| by { SpacesBeforeKey(before, key, after + ("}}" + rest)); }
    assert KeyRun(s[a..]) == |key| by { KeyBeforeSpaces(key, after, rest); }
    assert SpaceRun(s[b..]) == |after| && StartsWith(s[c..], "}}") by { SpacesBeforeBraces(after, rest); }
    CutsMakeMatch(s, a, b, c, key);
  }

  /**
   The scanner and the grammar agree: a match starts here exactly when some prefix is a
   placeholder, and it is that prefix.
   */
  lemma MatchesExactlyPlaceholders(s: string, n: nat, key: string)
    requires n <= |s|
    ensures IsPlaceholder(s[..n], key) <==> MatchHere(s) == Match(n, key)
  {
    hide *;
    if IsPlaceholder(s[..n], key) {
      PlaceholderMatches(s, n, key);
    }
    if MatchHere(s) == Match(n, key) {
      MatchIsPlaceholder(s);
    }
  }

  lemma PlaceholderMatches(s: string, n: nat, key: string)
    requires n <= |s| && IsPlaceholder(s[..n], key)
    ensures MatchHere(s) == Match(n, key)
  {
    var before, after :| AllSpace(before) && AllSpace(after) && IsKey(key) && s[..n] == Braced(before, key, after);
    hide *;
    assert s == s[..n] + s[n..];
    BracedMatchesBefore(s[..n], s[n..], before, key, after);
  }

  lemma BracedMatchesBefore(raw: string, rest: string, before: string, key: string, after: string)
    requires AllSpace(before) && AllSpace(after) && IsKey(key) && raw == Braced(before, key, after)
    ensures MatchHere(raw + rest) == Match(|raw|, key)
  {
    hide *;
    BracedAppends(before, key, after, rest);
    BracedMatches(raw + rest, before, key, after, rest);
  }

  lemma BracedAppends(before: string, key: string, after: string, rest: string)
    ensures Braced(before, key, after) + rest == "{{" + (before + (key + (after + ("}}" + rest))))
    ensures |Braced(before, key, after)| == |before| + |key| + |after| + 4
  {
    assert (after + "}}") + rest == after + ("}}" + rest);
    assert (key + (after + "}}")) + rest == key + (after + ("}}" + rest));
    assert (before + (key + (after + "}}"))) + rest == before + (key + (after + ("}}" + rest)));
  }

  // ---- segments ----

  datatype Segment = Literal(c: char) | Placeholder(raw: string, key: string)

  /** The text taken apart from the left, a placeholder wherever one starts. */
  function Segments(s: string): seq<Segment>
    decreases |s|
  {
    if s == "" then []
    else
      var m := MatchHere(s);
      if m.NoMatch? then [Literal(s[0])] + Segments(s[1..])
      else
        MatchIsPlaceholder(s);
        [Placeholder(s[..m.size], m.key)] + Segments(s[m.size..])
  }

  function Raw(segments: seq<Segment>): string {
    if segments == [] then "" else Text(segments[0]) + Raw(segments[1..])
  }

  function Text(segment: Segment): string {
    match segment case Literal(c) => [c] case Placeholder(raw, _) => raw
  }

  lemma RawOfCons(first: Segment, rest: seq<Segment>)
    ensures Raw([first] + rest) == Text(first) + Raw(rest)
  {
    assert ([first] + rest)[1..] == rest;
  }

  lemma SegmentsSplit(s: string)
    requires s != ""
    ensures MatchHere(s).NoMatch? ==> Segments(s) == [Literal(s[0])] + Segments(s[1..])
    ensures MatchHere(s).Match? ==>
              && 0 < MatchHere(s).size <= |s|
              && Segments(s) ==
                 [Placeholder(s[..MatchHere(s).size], MatchHere(s).key)] + Segments(s[MatchHere(s).size..])
  {
    hide MatchHere, IsPlaceholder;
    if MatchHere(s).Match? {
      MatchIsPlaceholder(s);
    }
  }

  /** Taking apart loses nothing. */
  lemma {:induction false} SegmentsLossless(s: string)
    ensures Raw(Segments(s)) == s
    decreases |s|
  {
    hide MatchHere;
    if s != "" {
      hide Segments;
      SegmentsSplit(s);
      var m := MatchHere(s);
      var n := if m.NoMatch? then 1 else m.size;
      SegmentsLossless(s[n..]);
      RawOfCons(Segments(s)[0], Segments(s[n..]));
      assert s == s[..n] + s[n..];
    }
  }

  /** Every placeholder segment is one by the grammar, and no placeholder starts at a literal. */
  lemma {:induction false} SegmentsFollowGrammar(s: string, i: nat)
    requires i < |Segments(s)|
    ensures Segments(s)[i].Placeholder? ==> IsPlaceholder(Segments(s)[i].raw, Segments(s)[i].key)
    ensures Segments(s)[i].Literal? ==> !StartsPlaceholder(Raw(Segments(s)[i..]))
    decreases |s|
  {
    SegmentsSplit(s);
    SegmentsLossless(s);
    var m := MatchHere(s);
    hide Segments, Raw;
    if i == 0 {
      assert Segments(s)[0..] == Segments(s);
      FirstSegmentFollowsGrammar(s);
    } else {
      var n := if m.NoMatch? then 1 else m.size;
      SegmentsFollowGrammar(s[n..], i - 1);
      assert Segments(s)[i..] == Segments(s[n..])[i - 1..];
    }
  }

  ghost predicate StartsPlaceholder(s: string) {
    exists n: nat, key | n <= |s| :: IsPlaceholder(s[..n], key)
  }

  lemma FirstSegmentFollowsGrammar(s: string)
    requires s != ""
    ensures MatchHere(s).Match? ==> IsPlaceholder(s[..MatchHere(s).size], MatchHere(s).key)
    ensures MatchHere(s).NoMatch? ==> !StartsPlaceholder(s)
  {
    hide MatchHere, IsPlaceholder;
    if MatchHere(s).Match? {
      MatchIsPlaceholder(s);
    } else if StartsPlaceholder(s) {
      var n: nat, key :| n <= |s| && IsPlaceholder(s[..n], key);
      MatchesExactlyPlaceholders(s, n, key);
    }
  }

  /** Each literal as it is, each placeholder as its value; a value is never looked at again. */
  function Substituted(segments: seq<Segment>, values: map<string, string>): string {
    if segments == [] then ""
    else
      (match segments[0]
       case Literal(c) => [c]
       case Placeholder(_, key) => if key in values then values[key] else "") +
      Substituted(segments[1..], values)
  }

  function Keys(segments: seq<Segment>): seq<string> {
    if segments == [] then []
    else (if segments[0].Placeholder? then [segments[0].key] else []) + Keys(segments[1..])
  }

  lemma SubstitutedCons(first: Segment, rest: seq<Segment>, values: map<string, string>)
    ensures Substituted([first] + rest, values) ==
            (if first.Literal? then [first.c] else if first.key in values then values[first.key] else "") +
            Substituted(rest, values)
    ensures Keys([first] + rest) == (if first.Placeholder? then [first.key] else []) + Keys(rest)
  {
    assert ([first] + rest)[1..] == rest;
  }

  /** At a placeholder, what comes out is its value and then what comes out of the rest. */
  lemma PlaceholderBecomesValue(before: string, key: string, after: string, rest: string, values: map<string, string>)
    requires AllSpace(before) && IsKey(key) && AllSpace(after) && key in values
    ensures var s := "{{" + (before + (key + (after + ("}}" + rest))));
            && Substituted(Segments(s), values) == values[key] + Substituted(Segments(rest), values)
            && Keys(Segments(s)) == [key] + Keys(Segments(rest))
  {
    hide *;
    var s := "{{" + (before + (key + (after + ("}}" + rest))));
    BracedMatches(s, before, key, after, rest);
    SegmentsSplit(s);
    var n := |before| + |key| + |after| + 4;
    BracedAppends(before, key, after, rest);
    assert s[n..] == rest;
    SubstitutedCons(Placeholder(s[..n], key), Segments(rest), values);
  }

  /** Anywhere else, what comes out is the character itself. */
  lemma LiteralStays(c: char, rest: string, values: map<string, string>)
    requires forall n: nat, key | n <= 1 + |rest| :: !IsPlaceholder(([c] + rest)[..n], key)
    ensures Substituted(Segments([c] + rest), values) == [c] + Substituted(Segments(rest), values)
    ensures Keys(Segments([c] + rest)) == Keys(Segments(rest))
  {
    hide *;
    var s := [c] + rest;
    if MatchHere(s).Match? {
      MatchIsPlaceholder(s);
    }
    SegmentsSplit(s);
    assert s[1..] == rest;
    SubstitutedCons(Literal(c), Segments(rest), values);
  }

  // ---- the two passes ----

  /** FindAllStringSubmatch: the keys of all matches, in order. */
  function FindAll(s: string): seq<string>
    decreases |s|
  {
    if s == "" then []
    else
      var m := MatchHere(s);
      if m.NoMatch? then FindAll(s[1..])
      else
        MatchIsPlaceholder(s);
        [m.key] + FindAll(s[m.size..])
  }

  /** ReplaceAllStringFunc: every match replaced by what the function makes of its text. */
  function ReplaceMatches(s: string, f: string -> string): string
    decreases |s|
  {
    if s == "" then ""
    else
      var m := MatchHere(s);
      if m.NoMatch? then [s[0]] + ReplaceMatches(s[1..], f)
      else
        MatchIsPlaceholder(s);
        f(s[..m.size]) + ReplaceMatches(s[m.size..], f)
  }

  /** The replacement the second pass computes: it matches again within the matched text. */
  function ValueOf(values: map<string, string>): string -> string {
    m =>
      var keys := FindAll(m);
      if keys != [] && keys[0] in values then values[keys[0]] else ""
  }

  lemma {:induction false} CheckPassSeesKeys(s: string)
    ensures FindAll(s) == Keys(Segments(s))
    decreases |s|
  {
    if s != "" {
      var m := MatchHere(s);
      if m.NoMatch? {
        CheckPassSeesKeys(s[1..]);
        assert Segments(s)[1..] == Segments(s[1..]);
      } else {
        MatchIsPlaceholder(s);
        CheckPassSeesKeys(s[m.size..]);
        assert Segments(s)[1..] == Segments(s[m.size..]);
      }
    }
  }

  /** Matching again within a matched text finds the same key. */
  lemma MatchedAgain(s: string)
    requires MatchHere(s).Match?
    ensures var (n, key) := (MatchHere(s).size, MatchHere(s).key);
            n <= |s| && FindAll(s[..n]) != [] && FindAll(s[..n])[0] == key
  {
    MatchIsPlaceholder(s);
    var (n, key) := (MatchHere(s).size, MatchHere(s).key);
    assert s[..n][..n] == s[..n];
    MatchesExactlyPlaceholders(s[..n], n, key);
  }

  lemma {:induction false} ReplacePassRenders(s: string, values: map<string, string>)
    ensures ReplaceMatches(s, ValueOf(values)) == Substituted(Segments(s), values)
    decreases |s|
  {
    if s != "" {
      var m := MatchHere(s);
      if m.NoMatch? {
        ReplacePassRenders(s[1..], values);
        assert Segments(s)[1..] == Segments(s[1..]);
      } else {
        MatchIsPlaceholder(s);
        MatchedAgain(s);
        ReplacePassRenders(s[m.size..], values);
        assert Segments(s)[1..] == Segments(s[m.size..]);
      }
    }
  }

  /**
   Substitution succeeds exactly when every placeholder's key has a value, and then replaces
   each placeholder by its value in one pass; otherwise it reports the keys without a value,
   each once, sorted.
   */
  method SubstituteTemplateVars(content: string, values: map<string, string>)
      returns (result: Result<string, seq<string>>)
    ensures result.Success? <==> forall key :: key in Keys(Segments(content)) ==> key in values
    ensures result.Success? ==> result.value == Substituted(Segments(content), values)
    ensures result.Failure? ==>
              && (forall key :: key in result.error <==> key in Keys(Segments(content)) && key !in values)
              && Distinct(result.error) && IsSorted(result.error)
  {
    hide Segments, FindAll, Substituted, ReplaceMatches, Keys, MatchHere, IsPlaceholder, Leq;
    CheckPassSeesKeys(content);
    var missing := [];
    var seen: set<string> := {};
    var matches := FindAll(content);
    for i := 0 to |matches|
      invariant forall key :: key in seen <==> key in matches[..i]
      invariant forall key :: key in missing <==> key in matches[..i] && key !in values
      invariant Distinct(missing)
    {
      var key := matches[i];
      assert matches[..i + 1] == matches[..i] + [key];
      if key in seen {
        continue;
      }
      seen := seen + {key};
      if key !in values {
        missing := missing + [key];
      }
    }
    assert matches[..|matches|] == matches;
    if |missing| > 0 {
      SortKeeps(missing);
      assert missing[0] in Keys(Segments(content)) && missing[0] !in values;
      return Failure(Sort(missing));
    }
    ReplacePassRenders(content, values);
    result := Success(ReplaceMatches(content, ValueOf(values)));
  }
}
