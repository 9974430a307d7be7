/** Quoting a path for the remote shell, and the shell's reading of it. */
module ShellQuoting {
  import opened Wrappers
  import opened Texts

  function ShellQuote(s: string): string {
    "'" + ReplaceAll(s, "'", "'\\''") + "'"
  }

  // ---- the reader: sections 2.2.1 and 2.2.2 of the POSIX Shell Command Language ----

  predicate Blank(c: char) {
    c == ' ' || c == '\t'
  }

  /** What ends a word when it is not quoted. */
  predicate Delimiter(c: char) {
    Blank(c) || c == '\n' || c == '|' || c == '&' || c == ';' || c == '<' || c == '>' || c == '(' || c == ')'
  }

  /** What would be expanded or open another kind of quoting; this reader does not go there. */
  predicate Special(c: char) {
    || c == '$' || c == '`' || c == '"' || c == '*' || c == '?'
    || c == '[' || c == '#' || c == '~' || c == '=' || c == '%'
  }

  /** Section 2.2.2: everything up to the next single quote is literal. */
  function SingleQuoted(s: string): (r: Option<(string, string)>)
    ensures r.Some? ==> |r.value.1| < |s|
  {
    if s == "" then None
    else if s[0] == '\'' then Some(("", s[1..]))
    else
      var r := SingleQuoted(s[1..]);
      if r.None? then None else Some(([s[0]] + r.value.0, r.value.1))
  }

  /** The rest of a word: its value after quote removal, and what follows it. */
  function ReadWord(s: string): (r: Option<(string, string)>)
    ensures r.Some? ==> |r.value.1| <= |s|
    decreases |s|
  {
    if s == "" || Delimiter(s[0]) then Some(("", s))
    else if s[0] == '\'' then
      var q := SingleQuoted(s[1..]);
      if q.None? then None else Prepend(q.value.0, ReadWord(q.value.1))
    else if s[0] == '\\' then
      // section 2.2.1: the next character is literal, but a newline joins the lines
      if |s| == 1 then None
      else if s[1] == '\n' then ReadWord(s[2..])
      else Prepend([s[1]], ReadWord(s[2..]))
    else if Special(s[0]) then None
    else Prepend([s[0]], ReadWord(s[1..]))
  }

  function Prepend(first: string, rest: Option<(string, string)>): Option<(string, string)> {
    if rest.None? then None else Some((first + rest.value.0, rest.value.1))
  }

  /** The words of a simple command without operators. */
  function Words(s: string): Option<seq<string>>
    decreases |s|
  {
    if s == "" then Some([])
    else if Blank(s[0]) then Words(s[1..])
    else if Delimiter(s[0]) then None
    else
      var r := ReadWord(s);
      if r.None? || |r.value.1| == |s| then None
      else
        var rest := Words(r.value.1);
        if rest.None? then None else Some([r.value.0] + rest.value)
  }

  function Escaped(s: string): string {
    ReplaceAll(s, "'", "'\\''")
  }

  lemma EscapedFirst(s: string)
    requires s != ""
    ensures Escaped(s) == (if s[0] == '\'' then "'\\''" else [s[0]]) + Escaped(s[1..])
  {
    assert s[..1] == "'" <==> s[0] == '\'';
  }

  /** What is still to be read of a quoted text, before its closing quote. */
  function Inside(s: string, rest: string): string {
    Escaped(s) + ("'" + rest)
  }

  lemma InsideQuote(s: string, rest: string)
    requires s != "" && s[0] == '\''
    ensures SingleQuoted(Inside(s, rest)) == Some(("", "\\'" + ("'" + Inside(s[1..], rest))))
  {
    EscapedFirst(s);
    var after := "\\'" + ("'" + Inside(s[1..], rest));
    assert Inside(s, rest) == "'" + after;
    assert Inside(s, rest)[1..] == after;
  }

  lemma EscapedQuote(rest: string)
    ensures ReadWord("\\'" + rest) == Prepend("'", ReadWord(rest))
  {
    assert ("\\'" + rest)[2..] == rest;
  }

  lemma InsideOther(s: string, rest: string)
    requires s != "" && s[0] != '\''
    ensures SingleQuoted(Inside(s, rest)) ==
            var q := SingleQuoted(Inside(s[1..], rest));
            if q.None? then None else Some(([s[0]] + q.value.0, q.value.1))
  {
    EscapedFirst(s);
    assert Inside(s, rest) == [s[0]] + Inside(s[1..], rest);
    assert Inside(s, rest)[1..] == Inside(s[1..], rest);
  }

  lemma OpenQuote(inner: string)
    ensures ReadWord("'" + inner) ==
            var q := SingleQuoted(inner);
            if q.None? then None else Prepend(q.value.0, ReadWord(q.value.1))
  {
    assert ("'" + inner)[1..] == inner;
  }

  lemma ClosedQuote(rest: string)
    requires rest == "" || Delimiter(rest[0])
    ensures ReadWord("'" + Inside("", rest)) == Some(("", rest))
  {
    assert Inside("", rest) == "'" + rest;
    assert Inside("", rest)[1..] == rest;
    OpenQuote(Inside("", rest));
    assert SingleQuoted(Inside("", rest)) == Some(("", rest));
    assert ReadWord(rest) == Some(("", rest));
    var nothing: string := "";
    assert nothing + nothing == nothing;
  }

  /** From inside the quotes on, the reader finds the text and stops where the quoting stops. */
  lemma {:induction false} ReadsBack(s: string, rest: string)
    requires rest == "" || Delimiter(rest[0])
    ensures ReadWord("'" + Inside(s, rest)) == Some((s, rest))
    decreases |s|
  {
    hide ReadWord, SingleQuoted, Inside;
    if s == "" {
      ClosedQuote(rest);
    } else {
      ReadsBack(s[1..], rest);
      OpenQuote(Inside(s, rest));
      if s[0] == '\'' {
        InsideQuote(s, rest);
        EscapedQuote("'" + Inside(s[1..], rest));
        assert s == "" + ("'" + s[1..]);
      } else {
        InsideOther(s, rest);
        OpenQuote(Inside(s[1..], rest));
        var q := SingleQuoted(Inside(s[1..], rest)).value;
        var w := ReadWord(q.1).value;
        assert ([s[0]] + q.0) + w.0 == [s[0]] + (q.0 + w.0);
        assert s == [s[0]] + s[1..];
      }
    }
  }

  /**
   The quoted text is one word with the text as its value, whatever the text holds, and it
   ends where the quoting ends: in front of the blank or operator of the command around it.
   */
  lemma QuoteIsOneWord(s: string, rest: string)
    requires rest == "" || Delimiter(rest[0])
    ensures ReadWord(ShellQuote(s) + rest) == Some((s, rest))
  {
    ReadsBack(s, rest);
    assert ShellQuote(s) + rest == "'" + Inside(s, rest);
  }

  /** Reading a quoted text alone gives exactly one word equal to it. */
  lemma ShellQuoteRoundTrip(s: string)
    ensures Words(ShellQuote(s)) == Some([s])
  {
    QuoteIsOneWord(s, "");
    assert ShellQuote(s) + "" == ShellQuote(s);
    assert ReadWord(ShellQuote(s)) == Some((s, ""));
    var none: seq<string> := [];
    assert Words("") == Some(none) && [s] + none == [s];
  }
}
