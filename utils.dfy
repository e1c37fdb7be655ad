/** The outbound escaping of `$` and `*` applied to model output, and its inverse used at
    display time. A response is either a whole string or the chunks a generator yields. */
module Utils {
  import opened Strings

  /** `Union[str, Generator[str, None, None]]`: a finite generator is its list of chunks. */
  datatype Reply = Text(text: string) | Chunks(parts: seq<string>)

  /** The text a reply stands for: `''.join(...)` of a generator, the string itself otherwise. */
  function Materialize(r: Reply): string {
    match r
    case Text(s) => s
    case Chunks(parts) => Concat(parts)
  }

  /** Stands for the default `str` of a generator object, whose address is not modelled. */
  const GeneratorRepr := "<generator object>"

  /** `str(response)`, as an f-string embeds it: a string is itself, a generator prints as its
      repr and none of its chunks. */
  function ReplyString(r: Reply): string {
    match r
    case Text(s) => s
    case Chunks(_) => GeneratorRepr
  }

  /** The replacement rule inside the escape function: every `$` becomes `\$`, then every `*`
      becomes `\*`. */
  function EscapeRule(s: string): string {
    ReplaceAll(ReplaceAll(s, "$", "\\$"), "*", "\\*")
  }

  /** The rule of the unescape function: every `\$` becomes `$`, then every `\*` becomes `*`. */
  function UnescapeRule(s: string): string {
    ReplaceAll(ReplaceAll(s, "\\$", "$"), "\\*", "*")
  }

  /** `unescape_special_characters`, which only accepts a string. Text without an escape
      sequence comes back unchanged. */
  function UnescapeSpecialCharacters(s: string): (r: string)
    ensures !Contains(s, "\\$") && !Contains(s, "\\*") ==> r == s
  {
    if !Contains(s, "\\$") && !Contains(s, "\\*") then
      ReplaceAllAbsent(s, "\\$", "$");
      ReplaceAllAbsent(s, "\\*", "*");
      UnescapeRule(s)
    else UnescapeRule(s)
  }

  /** What the generator returned by `escape_special_characters` yields. The function body
      contains `yield`, so every call returns a generator: for a chunked input it yields the
      escaped chunks in order; for a plain string it yields nothing, and the string it
      `return`s only ends the iteration. */
  function EscapeSpecialCharacters(text: Reply): (yielded: seq<string>)
    ensures text.Text? ==> yielded == []
    ensures text.Chunks? ==> |yielded| == |text.parts|
    ensures text.Chunks? ==> forall i :: 0 <= i < |yielded| ==> yielded[i] == EscapeRule(text.parts[i])
  {
    match text
    case Text(_) => []
    case Chunks(parts) => seq(|parts|, i requires 0 <= i < |parts| => EscapeRule(parts[i]))
  }

  /** The behaviour the signature and the `return` statement announce: a string comes back
      escaped as a string, a generator chunk by chunk. */
  function EscapeIntended(text: Reply): (r: Reply)
    ensures r.Text? <==> text.Text?
  {
    match text
    case Text(s) => Text(EscapeRule(s))
    case Chunks(parts) => Chunks(EscapeSpecialCharacters(text))
  }

  // ---- the rules, one character at a time

  function EscapeChar(c: char): string {
    if c == '$' then "\\$" else if c == '*' then "\\*" else [c]
  }

  function EscapeEach(s: string): string {
    if s == [] then "" else EscapeChar(s[0]) + EscapeEach(s[1..])
  }

  function StarChar(c: char): string {
    if c == '*' then "\\*" else [c]
  }

  function StarEach(s: string): string {
    if s == [] then "" else StarChar(s[0]) + StarEach(s[1..])
  }

  lemma {:induction false} ReplaceCharEach(s: string, c: char, rep: string)
    ensures s != [] ==> ReplaceAll(s, [c], rep) == (if s[0] == c then rep else [s[0]]) + ReplaceAll(s[1..], [c], rep)
  {
    if s != [] {
      if s[0] == c {
        assert s == [c] + s[1..];
        ReplaceAllAtMatch([c], s[1..], rep);
      } else {
        ReplaceAllNoMatch(s, [c], rep);
      }
    }
  }

  lemma {:induction false} EscapeRuleEach(s: string)
    ensures EscapeRule(s) == EscapeEach(s)
  {
    if s != [] {
      var x, t := s[0], s[1..];
      ReplaceCharEach(s, '$', "\\$");
      var head := if x == '$' then "\\$" else [x];
      ReplaceCharConcat(head, ReplaceAll(t, "$", "\\$"), '*', "\\*");
      ReplaceCharEach(head, '*', "\\*");
      if x == '$' {
        ReplaceCharEach(head[1..], '*', "\\*");
      }
      assert ReplaceAll(head, "*", "\\*") == EscapeChar(x);
      EscapeRuleEach(t);
    }
  }

  lemma {:induction false} StarEachHead(s: string)
    ensures StarEach(s) == [] || StarEach(s)[0] != '*'
  {
  }

  lemma {:induction false} EscapeEachHead(s: string)
    ensures EscapeEach(s) == [] || (EscapeEach(s)[0] != '$' && EscapeEach(s)[0] != '*')
  {
  }

  lemma UndoDollarHead(x: char, u: string)
    requires u == [] || (u[0] != '$' && u[0] != '*')
    ensures ReplaceAll(EscapeChar(x) + u, "\\$", "$") == StarChar(x) + ReplaceAll(u, "\\$", "$")
  {
    if x == '$' {
      ReplaceAllAtMatch("\\$", u, "$");
    } else if x == '*' {
      var v := ['*'] + u;
      assert "\\*" + u == ['\\'] + v;
      ReplaceAllNoMatch(['\\'] + v, "\\$", "$");
      assert (['\\'] + v)[1..] == v;
      ReplaceAllNoMatch(v, "\\$", "$");
      assert v[1..] == u;
    } else {
      assert u != [] ==> ([x] + u)[..2] == [x, u[0]];
      ReplaceAllNoMatch([x] + u, "\\$", "$");
      assert ([x] + u)[1..] == u;
    }
  }

  /** Undoing the `$` escapes leaves only the `*` escapes. */
  lemma {:induction false} UndoDollar(s: string)
    ensures ReplaceAll(EscapeEach(s), "\\$", "$") == StarEach(s)
  {
    if s != [] {
      var u := EscapeEach(s[1..]);
      assert EscapeEach(s) == EscapeChar(s[0]) + u;
      EscapeEachHead(s[1..]);
      UndoDollarHead(s[0], u);
      UndoDollar(s[1..]);
    }
  }

  lemma {:induction false} UndoStar(s: string)
    ensures ReplaceAll(StarEach(s), "\\*", "*") == s
  {
    if s != [] {
      var x, t := s[0], s[1..];
      var u := StarEach(t);
      UndoStar(t);
      StarEachHead(t);
      if x == '*' {
        ReplaceAllAtMatch("\\*", u, "*");
      } else {
        assert u != [] ==> ([x] + u)[..2] == [x, u[0]];
        ReplaceAllNoMatch([x] + u, "\\*", "*");
        assert ([x] + u)[1..] == u;
      }
      assert s == [x] + t;
    }
  }

  /** Unescaping undoes escaping, for every string (the escape marker may occur in `s`). */
  lemma RoundTrip(s: string)
    ensures UnescapeRule(EscapeRule(s)) == s
  {
    EscapeRuleEach(s);
    UndoDollar(s);
    UndoStar(s);
  }

  /** Escaping inserts one backslash per `$` and per `*` and drops nothing. */
  lemma {:induction false} EscapedLength(s: string)
    ensures |EscapeRule(s)| == |s| + CountChar(s, '$') + CountChar(s, '*')
  {
    EscapeRuleEach(s);
    EscapeEachLength(s);
  }

  lemma {:induction false} EscapeEachLength(s: string)
    ensures |EscapeEach(s)| == |s| + CountChar(s, '$') + CountChar(s, '*')
  {
    if s != [] {
      EscapeEachLength(s[1..]);
    }
  }

  /** Unescaping the generator's chunks gives back the input chunks, one for one. */
  lemma ChunkRoundTrip(parts: seq<string>)
    ensures |EscapeSpecialCharacters(Chunks(parts))| == |parts|
    ensures forall i :: 0 <= i < |parts| ==>
      UnescapeSpecialCharacters(EscapeSpecialCharacters(Chunks(parts))[i]) == parts[i]
  {
    forall i | 0 <= i < |parts| {
      RoundTrip(parts[i]);
    }
  }

  /** As written, a plain non-empty string sent through the escape function is lost: the
      generator yields nothing, although the intended escaped text is non-empty. */
  lemma StringInputIsLost(s: string)
    requires s != []
    ensures Concat(EscapeSpecialCharacters(Text(s))) == ""
    ensures Materialize(EscapeIntended(Text(s))) != ""
  {
    EscapedLength(s);
  }

  /** The intended escape is undone by unescaping the materialised text or every chunk. */
  lemma IntendedRoundTrip(text: Reply)
    ensures text.Text? ==> UnescapeSpecialCharacters(Materialize(EscapeIntended(text))) == text.text
    ensures text.Chunks? ==> |EscapeIntended(text).parts| == |text.parts|
    ensures text.Chunks? ==> forall i :: 0 <= i < |text.parts| ==>
      UnescapeSpecialCharacters(EscapeIntended(text).parts[i]) == text.parts[i]
  {
    match text
    case Text(s) => RoundTrip(s);
    case Chunks(parts) => ChunkRoundTrip(parts);
  }
}
