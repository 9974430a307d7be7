/** The deploy executor's redaction of resolved values in command output. */
module Scrubbing {
  import opened Texts

  const MASK_CHAR: char := '\U{2022}'

  const MASKED_VALUE: string :=
    [MASK_CHAR, MASK_CHAR, MASK_CHAR, MASK_CHAR, MASK_CHAR, MASK_CHAR, MASK_CHAR, MASK_CHAR]

  /** One replacement after the other, each on what the earlier ones have left. */
  function Scrub(text: string, secrets: seq<string>): string
    decreases |secrets|
  {
    if secrets == [] then text else Scrub(ReplaceAll(text, secrets[0], MASKED_VALUE), secrets[1..])
  }

  method ScrubSecrets(text: string, secretValues: seq<string>) returns (scrubbed: string)
    ensures scrubbed == Scrub(text, secretValues)
  {
    scrubbed := text;
    for i := 0 to |secretValues|
      invariant Scrub(scrubbed, secretValues[i..]) == Scrub(text, secretValues)
    {
      assert secretValues[i..][1..] == secretValues[i + 1..];
      scrubbed := ReplaceAll(scrubbed, secretValues[i], MASKED_VALUE);
    }
  }

  /** The non-empty values of a map, in whatever order the map is walked. */
  method SecretValuesFor(templateValues: map<string, string>) returns (values: seq<string>)
    ensures forall v :: v in values <==> v != "" && v in templateValues.Values
  {
    values := [];
    var keys := templateValues.Keys;
    while keys != {}
      invariant keys <= templateValues.Keys
      invariant forall v :: v in values <==>
        v != "" && exists k :: k in templateValues && k !in keys && templateValues[k] == v
      decreases |keys|
    {
      var k :| k in keys;
      if templateValues[k] != "" {
        values := values + [templateValues[k]];
      }
      keys := keys - {k};
    }
  }

  /**
   A secret no part of which the mask can stand in for: its ends are not mask characters, and it
   holds no whole mask.
   */
  ghost predicate Solid(v: string) {
    v != "" && v[0] != MASK_CHAR && v[|v| - 1] != MASK_CHAR && !Occurs(MASKED_VALUE, v)
  }

  lemma StartOfMask(rest: string, u: string)
    requires u != "" && StartsWith(MASKED_VALUE + rest, u)
    ensures u[|u| - 1] == MASK_CHAR || Occurs(MASKED_VALUE, u)
  {
    var r := MASKED_VALUE + rest;
    assert u == r[..|u|];
    if |u| > 8 {
      assert u[0..][..8] == MASKED_VALUE;
      assert OccursAt(MASKED_VALUE, u, 0);
    } else {
      assert u[|u| - 1] == MASKED_VALUE[|u| - 1];
    }
  }

  /** A beginning of the scrubbed text that no mask can be part of is a beginning of the text. */
  lemma {:induction false} StartSurvives(s: string, v: string, u: string)
    requires v != "" && StartsWith(ReplaceAll(s, v, MASKED_VALUE), u)
    requires u != "" ==> u[|u| - 1] != MASK_CHAR
    requires !Occurs(MASKED_VALUE, u)
    ensures StartsWith(s, u)
    decreases |s|
  {
    if u != "" && s != "" {
      var r := ReplaceAll(s, v, MASKED_VALUE);
      assert r[..|u|] == u;
      if StartsWith(s, v) {
        StartOfMask(ReplaceAll(s[|v|..], v, MASKED_VALUE), u);
      } else {
        assert r[0] == u[0];
        assert r[1..] == ReplaceAll(s[1..], v, MASKED_VALUE);
        assert r[1..][..|u| - 1] == u[1..];
        if Occurs(MASKED_VALUE, u[1..]) {
          OccursLater(u, 1, MASKED_VALUE);
        }
        StartSurvives(s[1..], v, u[1..]);
        assert s[..|u|] == [s[0]] + s[1..][..|u| - 1];
      }
    }
  }

  /** What is solid in the scrubbed text was there before, and is not the secret just replaced. */
  lemma {:induction false} OccurrenceSurvives(s: string, v: string, u: string, i: nat)
    requires v != "" && Solid(u) && OccursAt(u, ReplaceAll(s, v, MASKED_VALUE), i)
    ensures Occurs(u, s) && u != v
    decreases |s|
  {
    var r := ReplaceAll(s, v, MASKED_VALUE);
    assert s != "";
    if StartsWith(s, v) {
      assert forall j :: 0 <= j < |MASKED_VALUE| ==> r[j] == MASK_CHAR;
      assert u[0] == r[i..][0] == r[i];
      assert r[i..] == ReplaceAll(s[|v|..], v, MASKED_VALUE)[i - |MASKED_VALUE|..];
      OccurrenceSurvives(s[|v|..], v, u, i - |MASKED_VALUE|);
      OccursLater(s, |v|, u);
    } else if i == 0 {
      assert r[0..] == r;
      StartSurvives(s, v, u);
      assert s[0..] == s;
      assert OccursAt(u, s, 0);
    } else {
      assert r[i..] == ReplaceAll(s[1..], v, MASKED_VALUE)[i - 1..];
      OccurrenceSurvives(s[1..], v, u, i - 1);
      OccursLater(s, 1, u);
    }
  }

  lemma OccursLater(s: string, n: nat, u: string)
    requires n <= |s| && Occurs(u, s[n..])
    ensures Occurs(u, s)
  {
    var i: nat :| OccursAt(u, s[n..], i);
    assert s[n..][i..] == s[n + i..];
    assert OccursAt(u, s, n + i);
  }

  /** A secret that does not occur stays away: later replacements create no solid text. */
  lemma {:induction false} ScrubCreatesNothing(text: string, secrets: seq<string>, u: string)
    requires Solid(u) && (forall v :: v in secrets ==> v != "") && Occurs(u, Scrub(text, secrets))
    ensures Occurs(u, text) && u !in secrets
    decreases |secrets|
  {
    if secrets != [] {
      assert secrets[0] in secrets && forall v :: v in secrets[1..] ==> v in secrets;
      ScrubCreatesNothing(ReplaceAll(text, secrets[0], MASKED_VALUE), secrets[1..], u);
      var i: nat :| OccursAt(u, ReplaceAll(text, secrets[0], MASKED_VALUE), i);
      OccurrenceSurvives(text, secrets[0], u, i);
      assert secrets == [secrets[0]] + secrets[1..];
    }
  }

  /**
   Scrubbing leaves no solid secret: whatever the order of the secrets, and whether the others are
   solid or not, it occurs nowhere in the scrubbed text, although each replacement edits what the
   earlier ones produced.
   */
  lemma ScrubLeavesNoSecret(text: string, secrets: seq<string>)
    requires forall v :: v in secrets ==> v != ""
    ensures forall v :: v in secrets && Solid(v) ==> !Occurs(v, Scrub(text, secrets))
  {
    forall v | v in secrets && Solid(v)
      ensures !Occurs(v, Scrub(text, secrets))
    {
      if Occurs(v, Scrub(text, secrets)) {
        ScrubCreatesNothing(text, secrets, v);
      }
    }
  }

  // ---- which secrets can survive ----

  lemma {:induction false} TooShort(s: string, v: string, substitute: string)
    requires |s| < |v|
    ensures ReplaceAll(s, v, substitute) == s
  {
    if s != "" {
      TooShort(s[1..], v, substitute);
    }
  }

  lemma ReplacedHere(s: string, v: string, substitute: string)
    requires v != "" && StartsWith(s, v)
    ensures ReplaceAll(s, v, substitute) == substitute + ReplaceAll(s[|v|..], v, substitute)
  {
  }

  lemma ReplacedLater(s: string, v: string, substitute: string)
    requires v != "" && s != "" && !StartsWith(s, v)
    ensures ReplaceAll(s, v, substitute) == [s[0]] + ReplaceAll(s[1..], v, substitute)
  {
  }

  /** In this text the secret starts nowhere before its copy in the middle. */
  ghost predicate FirstBetween(a: string, v: string, b: string) {
    forall i | 0 <= i < |a| :: !StartsWith((a + (v + b))[i..], v)
  }

  lemma FirstBetweenTail(a: string, v: string, b: string)
    requires FirstBetween(a, v, b) && a != ""
    ensures !StartsWith(a + (v + b), v) && FirstBetween(a[1..], v, b)
    ensures (a + (v + b))[1..] == a[1..] + (v + b)
  {
    var s := a + (v + b);
    assert s[0..] == s;
    assert s[1..] == a[1..] + (v + b);
    forall i | 0 <= i < |a| - 1
      ensures !StartsWith((a[1..] + (v + b))[i..], v)
    {
      assert s[1..][i..] == s[i + 1..];
    }
  }

  lemma ReplacedFirst(v: string, b: string, substitute: string)
    requires v != ""
    ensures ReplaceAll("" + (v + b), v, substitute) == "" + (substitute + ReplaceAll(b, v, substitute))
  {
    var s := v + b;
    assert s[..|v|] == v && s[|v|..] == b;
    ReplacedHere(s, v, substitute);
    var r := substitute + ReplaceAll(b, v, substitute);
    assert "" + s == s && "" + r == r;
  }

  /** Up to the first copy of the secret, replacing leaves the text alone. */
  lemma {:induction false} FirstReplaced(a: string, v: string, b: string, substitute: string)
    requires v != "" && FirstBetween(a, v, b)
    ensures ReplaceAll(a + (v + b), v, substitute) == a + (substitute + ReplaceAll(b, v, substitute))
  {
    hide *;
    if a == "" {
      ReplacedFirst(v, b, substitute);
    } else {
      FirstBetweenTail(a, v, b);
      ReplacedLater(a + (v + b), v, substitute);
      FirstReplaced(a[1..], v, b, substitute);
      assert a == [a[0]] + a[1..];
    }
  }

  /** Starts like the mask ends: the mask of one copy and the tail of another make it again. */
  lemma MaskFirstSurvives(v: string) returns (text: string)
    requires v != "" && v[0] == MASK_CHAR
    ensures Occurs(v, ReplaceAll(text, v, MASKED_VALUE))
  {
    text := "" + (v + v[1..]);
    FirstReplaced("", v, v[1..], MASKED_VALUE);
    TooShort(v[1..], v, MASKED_VALUE);
    var r := "" + (MASKED_VALUE + v[1..]);
    assert r[7..] == v;
    assert r[7..][..|v|] == v;
    assert OccursAt(v, r, 7);
  }

  lemma EndsMeet(v: string, i: nat)
    requires i < |v| - 1 && StartsWith((v[..|v| - 1] + (v + ""))[i..], v)
    ensures v[0] == v[i] == v[|v| - 1]
  {
    var n, text := |v| - 1, v[..|v| - 1] + (v + "");
    assert text[i..][..|v|] == v;
    assert v[0] == text[i..][0] == text[i] == v[i];
    assert v[n] == text[i..][n] == text[i + n] == v[i];
  }

  /** Ends like the mask starts. */
  lemma MaskLastSurvives(v: string) returns (text: string)
    requires v != "" && v[0] != MASK_CHAR && v[|v| - 1] == MASK_CHAR
    ensures Occurs(v, ReplaceAll(text, v, MASKED_VALUE))
  {
    var n := |v| - 1;
    text := v[..n] + (v + "");
    forall i | 0 <= i < n
      ensures !StartsWith(text[i..], v)
    {
      if StartsWith(text[i..], v) {
        EndsMeet(v, i);
      }
    }
    FirstReplaced(v[..n], v, "", MASKED_VALUE);
    var r := v[..n] + (MASKED_VALUE + ReplaceAll("", v, MASKED_VALUE));
    assert r[n] == MASK_CHAR;
    assert r[..|v|] == v;
    assert r[0..] == r;
    assert OccursAt(v, r, 0);
  }

  lemma FirstOccurrence(u: string, s: string) returns (p: nat)
    requires Occurs(u, s)
    ensures OccursAt(u, s, p) && forall i: nat | i < p :: !OccursAt(u, s, i)
  {
    p := 0;
    while !OccursAt(u, s, p)
      invariant forall i: nat | i < p :: !OccursAt(u, s, i)
      invariant exists i: nat :: p <= i && OccursAt(u, s, i)
      decreases |s| - p
    {
      p := p + 1;
    }
  }

  lemma AroundMask(v: string, p: nat)
    requires OccursAt(MASKED_VALUE, v, p)
    ensures p + 8 <= |v| && v[..p] + (MASKED_VALUE + v[p + 8..]) == v
    ensures v != "" && v[0] != MASK_CHAR ==> p > 0
  {
    assert v[p..][..8] == MASKED_VALUE;
    assert v[p] == v[p..][..8][0];
  }

  /** Holds a whole mask: put the right ends around it and the mask fills the middle again. */
  lemma WholeMaskSurvives(v: string) returns (text: string)
    requires v != "" && v[0] != MASK_CHAR && Occurs(MASKED_VALUE, v)
    ensures Occurs(v, ReplaceAll(text, v, MASKED_VALUE))
  {
    var p := FirstOccurrence(MASKED_VALUE, v);
    AroundMask(v, p);
    var y := v[p + 8..];
    text := v[..p] + (v + y);
    FirstInText(v, y, p);
    hide *;
    FirstReplaced(v[..p], v, y, MASKED_VALUE);
    TooShort(y, v, MASKED_VALUE);
    OccursInItself(v);
  }

  lemma OccursInItself(v: string)
    ensures Occurs(v, v)
  {
    assert v[0..] == v && v[..|v|] == v;
    assert OccursAt(v, v, 0);
  }

  lemma FirstInText(v: string, y: string, p: nat)
    requires OccursAt(MASKED_VALUE, v, p) && forall i: nat | i < p :: !OccursAt(MASKED_VALUE, v, i)
    ensures FirstBetween(v[..p], v, y)
  {
    assert v[p..p + 8] == v[p..][..8];
    forall i | 0 <= i < p
      ensures !StartsWith((v[..p] + (v + y))[i..], v)
    {
      if StartsWith((v[..p] + (v + y))[i..], v) {
        MaskShifts(v, y, p, i);
      }
    }
  }

  /** An earlier match would bring an earlier mask. */
  lemma MaskShifts(v: string, y: string, p: nat, i: nat)
    requires i < p && p + 8 <= |v| && v[p..p + 8] == MASKED_VALUE
    requires StartsWith((v[..p] + (v + y))[i..], v)
    ensures OccursAt(MASKED_VALUE, v, i)
  {
    var text := v[..p] + (v + y);
    assert text[i..][..|v|] == v;
    forall j | i <= j < i + 8
      ensures v[j] == MASK_CHAR
    {
      assert v[p + j - i] == v[p..p + 8][j - i];
      assert v[p + j - i] == text[i..][p + j - i] == text[p + j] == v[j];
    }
    EightMasks(v[i..][..8]);
  }

  lemma EightMasks(s: string)
    requires |s| == 8 && forall j | 0 <= j < |s| :: s[j] == MASK_CHAR
    ensures s == MASKED_VALUE
  {
  }

  ghost predicate AlwaysRemoved(v: string) {
    forall text: string :: !Occurs(v, Scrub(text, [v]))
  }

  /** A secret is removed from every text exactly when it is solid. */
  lemma RemovedExactly(v: string)
    requires v != ""
    ensures AlwaysRemoved(v) <==> Solid(v)
  {
    if Solid(v) {
      forall text: string
        ensures !Occurs(v, Scrub(text, [v]))
      {
        assert v in [v];
        ScrubLeavesNoSecret(text, [v]);
      }
    } else {
      var text;
      if v[0] == MASK_CHAR {
        text := MaskFirstSurvives(v);
      } else if v[|v| - 1] == MASK_CHAR {
        text := MaskLastSurvives(v);
      } else {
        text := WholeMaskSurvives(v);
      }
      ScrubOne(text, v);
      assert Occurs(v, Scrub(text, [v]));
    }
  }

  lemma ScrubOne(text: string, v: string)
    ensures Scrub(text, [v]) == ReplaceAll(text, v, MASKED_VALUE)
  {
    assert [v][1..] == [];
  }

  // ---- what scrubbing leaves and what it puts ----

  lemma StartOccurs(s: string, v: string)
    ensures StartsWith(s, v) ==> Occurs(v, s)
  {
    assert s[0..] == s;
    assert OccursAt(v, s, 0) <==> StartsWith(s, v);
  }

  lemma {:induction false} ReplacesNothing(s: string, v: string, substitute: string)
    requires v != "" && !Occurs(v, s)
    ensures ReplaceAll(s, v, substitute) == s
  {
    if s != "" {
      StartOccurs(s, v);
      if Occurs(v, s[1..]) {
        OccursLater(s, 1, v);
      }
      ReplacesNothing(s[1..], v, substitute);
    }
  }

  /** Text in which no secret occurs is left as it is. */
  lemma {:induction false} ScrubKeepsCleanText(text: string, secrets: seq<string>)
    requires forall v | v in secrets :: v != "" && !Occurs(v, text)
    ensures Scrub(text, secrets) == text
    decreases |secrets|
  {
    if secrets != [] {
      assert secrets[0] in secrets && forall v | v in secrets[1..] :: v in secrets;
      ReplacesNothing(text, secrets[0], MASKED_VALUE);
      ScrubKeepsCleanText(text, secrets[1..]);
    }
  }

  /** And where a secret first occurs, eight bullets stand for it, with the text before it kept. */
  lemma ScrubMasks(before: string, v: string, after: string)
    requires v != "" && FirstBetween(before, v, after)
    ensures Scrub(before + (v + after), [v]) ==
            before + ("\U{2022}\U{2022}\U{2022}\U{2022}\U{2022}\U{2022}\U{2022}\U{2022}" + Scrub(after, [v]))
  {
    ScrubOne(before + (v + after), v);
    ScrubOne(after, v);
    FirstReplaced(before, v, after, MASKED_VALUE);
  }

  // ---- line by line ----

  predicate SingleLine(v: string) {
    v != "" && '\n' !in v
  }

  /** A newline-free pattern that starts here starts within the line. */
  lemma StartsWithinLine(a: string, b: string, v: string)
    requires '\n' !in v
    ensures StartsWith(a + ("\n" + b), v) <==> StartsWith(a, v)
  {
    var s := a + ("\n" + b);
    assert s[|a|] == '\n';
    assert StartsWith(s, v) ==> forall i :: 0 <= i < |v| ==> v[i] == s[i];
    if |v| <= |a| {
      assert s[..|v|] == a[..|v|];
    }
  }

  lemma {:induction false} ReplaceAcrossNewline(a: string, b: string, v: string, substitute: string)
    requires v != "" && '\n' !in v
    ensures ReplaceAll(a + ("\n" + b), v, substitute) ==
            ReplaceAll(a, v, substitute) + ("\n" + ReplaceAll(b, v, substitute))
    decreases |a|
  {
    var s := a + ("\n" + b);
    StartsWithinLine(a, b, v);
    if StartsWith(a, v) {
      assert s[|v|..] == a[|v|..] + ("\n" + b);
      ReplaceAcrossNewline(a[|v|..], b, v, substitute);
    } else if a == "" {
      assert s == "\n" + b && s[1..] == b;
    } else {
      assert s[1..] == a[1..] + ("\n" + b);
      ReplaceAcrossNewline(a[1..], b, v, substitute);
    }
  }

  lemma {:induction false} ScrubAcrossNewline(a: string, b: string, secrets: seq<string>)
    requires forall v :: v in secrets ==> SingleLine(v)
    ensures Scrub(a + ("\n" + b), secrets) == Scrub(a, secrets) + ("\n" + Scrub(b, secrets))
    decreases |secrets|
  {
    if secrets != [] {
      assert SingleLine(secrets[0]);
      ReplaceAcrossNewline(a, b, secrets[0], MASKED_VALUE);
      ScrubAcrossNewline(ReplaceAll(a, secrets[0], MASKED_VALUE), ReplaceAll(b, secrets[0], MASKED_VALUE),
          secrets[1..]);
    }
  }

  /** The output as the connection collects it: every line and its newline. */
  function Output(lines: seq<string>): string {
    if lines == [] then "" else lines[0] + ("\n" + Output(lines[1..]))
  }

  function ScrubLines(lines: seq<string>, secrets: seq<string>): (scrubbed: seq<string>)
    ensures |scrubbed| == |lines| && forall i :: 0 <= i < |lines| ==> scrubbed[i] == Scrub(lines[i], secrets)
  {
    seq(|lines|, i requires 0 <= i < |lines| => Scrub(lines[i], secrets))
  }

  lemma {:induction false} ScrubNothing(secrets: seq<string>)
    requires forall v :: v in secrets ==> SingleLine(v)
    ensures Scrub("", secrets) == ""
    decreases |secrets|
  {
    if secrets != [] {
      assert SingleLine(secrets[0]);
      ScrubNothing(secrets[1..]);
    }
  }

  /** The streamed lines and the stored output agree: scrubbing line by line scrubs the whole. */
  lemma {:induction false} StreamedEqualsStored(lines: seq<string>, secrets: seq<string>)
    requires forall v :: v in secrets ==> SingleLine(v)
    ensures Output(ScrubLines(lines, secrets)) == Scrub(Output(lines), secrets)
    decreases |lines|
  {
    if lines == [] {
      ScrubNothing(secrets);
    } else {
      StreamedEqualsStored(lines[1..], secrets);
      ScrubAcrossNewline(lines[0], Output(lines[1..]), secrets);
      assert ScrubLines(lines, secrets)[1..] == ScrubLines(lines[1..], secrets);
    }
  }

  // ---- a secret of several lines ----

  predicate IsLine(line: string) {
    '\n' !in line
  }

  predicate AreLines(lines: seq<string>) {
    forall i | 0 <= i < |lines| :: IsLine(lines[i])
  }

  function Newlines(s: string): nat {
    if s == "" then 0 else (if s[0] == '\n' then 1 else 0) + Newlines(s[1..])
  }

  lemma {:induction false} NewlinesOf(s: string)
    ensures Newlines(s) == 0 <==> IsLine(s)
  {
    if s != "" {
      NewlinesOf(s[1..]);
      assert s == [s[0]] + s[1..];
    }
  }

  /** The text cut at its newlines. */
  function Cut(s: string): (lines: seq<string>)
    ensures lines != []
  {
    if s == "" then [""]
    else if s[0] == '\n' then [""] + Cut(s[1..])
    else var rest := Cut(s[1..]); [[s[0]] + rest[0]] + rest[1..]
  }

  lemma {:induction false} CutIs(s: string)
    ensures AreLines(Cut(s)) && Output(Cut(s)) == s + "\n"
  {
    hide Output;
    if s != "" {
      CutIs(s[1..]);
      assert s == [s[0]] + s[1..];
      var rest := Cut(s[1..]);
      if s[0] == '\n' {
        OutputBegins("", rest);
      } else {
        OutputGrows(s[0], rest);
      }
    } else {
      OutputBegins("", []);
    }
  }

  lemma OutputBegins(line: string, lines: seq<string>)
    ensures Output([line] + lines) == line + ("\n" + Output(lines))
    ensures Output([]) == "" && [line] + [] == [line]
  {
    assert ([line] + lines)[1..] == lines;
  }

  lemma OutputGrows(c: char, lines: seq<string>)
    requires lines != []
    ensures Output([[c] + lines[0]] + lines[1..]) == [c] + Output(lines)
  {
    hide Output;
    OutputBegins([c] + lines[0], lines[1..]);
    OutputBegins(lines[0], lines[1..]);
    assert [lines[0]] + lines[1..] == lines;
    assert ([c] + lines[0]) + ("\n" + Output(lines[1..])) == [c] + (lines[0] + ("\n" + Output(lines[1..])));
  }

  lemma StartOfLine(line: string, v: string)
    requires IsLine(line) && StartsWith(line, v)
    ensures IsLine(v)
  {
    assert forall i | 0 <= i < |v| :: v[i] == line[..|v|][i] == line[i];
  }

  /** A line cannot hold a secret of several. */
  lemma {:induction false} LineStays(line: string, v: string)
    requires IsLine(line) && !IsLine(v)
    ensures ReplaceAll(line, v, MASKED_VALUE) == line
  {
    if line != "" {
      if StartsWith(line, v) {
        StartOfLine(line, v);
      }
      LineStays(line[1..], v);
    }
  }

  lemma LinesStay(lines: seq<string>, v: string)
    requires AreLines(lines) && !IsLine(v)
    ensures ScrubLines(lines, [v]) == lines
  {
    forall i | 0 <= i < |lines|
      ensures Scrub(lines[i], [v]) == lines[i]
    {
      ScrubOne(lines[i], v);
      LineStays(lines[i], v);
    }
  }

  lemma {:induction false} NewlinesAdd(a: string, b: string)
    ensures Newlines(a + b) == Newlines(a) + Newlines(b)
  {
    if a == "" {
      assert a + b == b;
    } else {
      assert (a + b)[1..] == a[1..] + b;
      NewlinesAdd(a[1..], b);
    }
  }

  /** The stored output has the newlines of the secret replaced with it; the stream keeps them. */
  lemma CutSecretDiffers(v: string)
    requires !IsLine(v)
    ensures Output(ScrubLines(Cut(v), [v])) != Scrub(Output(Cut(v)), [v])
  {
    CutIs(v);
    LinesStay(Cut(v), v);
    var text := v + "\n";
    ScrubOne(text, v);
    FirstReplaced("", v, "\n", MASKED_VALUE);
    assert "" + text == text;
    var tail := ReplaceAll("\n", v, MASKED_VALUE);
    assert Newlines(tail) <= 1 by {
      assert "\n"[1..] == "";
      assert tail == "\n" || tail == MASKED_VALUE + "" by {
        assert ReplaceAll("", v, MASKED_VALUE) == "";
        if StartsWith("\n", v) {
          assert |v| == 1;
        }
      }
      NewlinesOf(MASKED_VALUE);
      assert MASKED_VALUE + "" == MASKED_VALUE;
    }
    assert "" + (MASKED_VALUE + tail) == MASKED_VALUE + tail;
    NewlinesAdd(MASKED_VALUE, tail);
    NewlinesOf(MASKED_VALUE);
    NewlinesAdd(v, "\n");
    NewlinesOf(v);
    NewlinesOf("\n");
  }

  /** Stream and store agree on every output exactly when the secret is a single line. */
  lemma StreamedEqualsStoredExactly(v: string)
    requires v != ""
    ensures (forall lines | AreLines(lines) :: Output(ScrubLines(lines, [v])) == Scrub(Output(lines), [v])) <==>
            IsLine(v)
  {
    if IsLine(v) {
      forall lines | AreLines(lines)
        ensures Output(ScrubLines(lines, [v])) == Scrub(Output(lines), [v])
      {
        StreamedEqualsStored(lines, [v]);
      }
    } else {
      CutIs(v);
      CutSecretDiffers(v);
    }
  }
}
