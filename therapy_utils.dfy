/** The helpers of the chat page: the chunks a bot message is streamed in, and the mask under
    which an API key would be logged. */
module TherapyUtils {
  import opened Wrappers
  import opened Strings
  import opened Utils

  // ---- stream_data

  /** The text `stream_data` splits: every leading and trailing `"` removed, then every `$`
      preceded by a backslash so that the page does not read it as mathematics. */
  function StreamText(msg: string): string {
    ReplaceAll(Strip(msg, '"'), "$", "\\$")
  }

  /** `stream_data`: one chunk per space-separated word, each followed by a space. The pause
      between chunks is left out. */
  method StreamData(msg: string) returns (chunks: seq<string>)
    ensures |chunks| == CountChar(StreamText(msg), ' ') + 1
    ensures forall i :: 0 <= i < |chunks| ==> chunks[i] == Split(StreamText(msg), ' ')[i] + " "
    ensures Concat(chunks) == StreamText(msg) + " "
  {
    var text := Strip(msg, '"');
    text := ReplaceAll(text, "$", "\\$");
    chunks := YieldWords(Split(text, ' '));
  }

  /** The loop of `stream_data`: each word followed by a space, in order. */
  method YieldWords(words: seq<string>) returns (chunks: seq<string>)
    requires words != []
    ensures |chunks| == |words|
    ensures forall k :: 0 <= k < |words| ==> chunks[k] == words[k] + " "
    ensures Concat(chunks) == Join(words, " ") + " "
  {
    chunks := [];
    var i := 0;
    while i < |words|
      invariant 0 <= i <= |words|
      invariant |chunks| == i
      invariant forall k :: 0 <= k < i ==> chunks[k] == words[k] + " "
      invariant i > 0 ==> Concat(chunks) == Join(words[..i], " ") + " "
    {
      ConcatAppend(chunks, words[i] + " ");
      JoinAppend(words[..i], words[i], " ");
      assert words[..i + 1] == words[..i] + [words[i]];
      chunks := chunks + [words[i] + " "];
      i := i + 1;
    }
    assert words[..i] == words;
  }

  lemma {:induction false} JoinAppend(parts: seq<string>, last: string, sep: string)
    ensures Join(parts + [last], sep) == if parts == [] then last else Join(parts, sep) + sep + last
  {
    if |parts| == 1 {
      assert parts + [last] == [parts[0], last];
    } else if |parts| > 1 {
      assert (parts + [last])[1..] == parts[1..] + [last];
      JoinAppend(parts[1..], last, sep);
    }
  }

  /** Every chunk ends with the space that follows its word, and none holds another space. */
  lemma ChunksAreWords(msg: string, chunks: seq<string>)
    requires |chunks| == CountChar(StreamText(msg), ' ') + 1
    requires forall i :: 0 <= i < |chunks| ==> chunks[i] == Split(StreamText(msg), ' ')[i] + " "
    ensures forall i :: 0 <= i < |chunks| ==>
      |chunks[i]| > 0 && chunks[i][|chunks[i]| - 1] == ' ' && ' ' !in chunks[i][..|chunks[i]| - 1]
  {
    var words := Split(StreamText(msg), ' ');
    forall i | 0 <= i < |chunks|
      ensures |chunks[i]| > 0 && chunks[i][|chunks[i]| - 1] == ' ' && ' ' !in chunks[i][..|chunks[i]| - 1]
    {
      assert chunks[i][..|chunks[i]| - 1] == words[i];
    }
  }

  /** The escape `stream_data` applies, one character at a time. */
  function DollarEach(s: string): string {
    if s == [] then "" else (if s[0] == '$' then "\\$" else [s[0]]) + DollarEach(s[1..])
  }

  lemma {:induction false} ReplaceDollarEach(s: string)
    ensures ReplaceAll(s, "$", "\\$") == DollarEach(s)
  {
    if s != [] {
      ReplaceCharEach(s, '$', "\\$");
      ReplaceDollarEach(s[1..]);
    }
  }

  lemma {:induction false} UndoDollarEach(s: string)
    ensures ReplaceAll(DollarEach(s), "\\$", "$") == s
  {
    if s != [] {
      var x, u := s[0], DollarEach(s[1..]);
      UndoDollarEach(s[1..]);
      assert u == [] || u[0] != '$';
      if x == '$' {
        ReplaceAllAtMatch("\\$", u, "$");
      } else {
        assert u != [] ==> ([x] + u)[..2] == [x, u[0]];
        ReplaceAllNoMatch([x] + u, "\\$", "$");
        assert ([x] + u)[1..] == u;
      }
      assert s == [x] + s[1..];
    }
  }

  lemma {:induction false} DollarEachEnds(s: string)
    ensures |DollarEach(s)| >= |s|
    ensures s != [] ==> DollarEach(s)[0] == (if s[0] == '$' then '\\' else s[0])
    ensures s != [] ==> DollarEach(s)[|DollarEach(s)| - 1] == s[|s| - 1]
  {
    if s != [] {
      DollarEachEnds(s[1..]);
    }
  }

  /** The page's unescaping gives back the message without its surrounding quotes, and the
      streamed text neither starts nor ends with a quote. */
  lemma StreamTextSpec(msg: string)
    ensures ReplaceAll(StreamText(msg), "\\$", "$") == Strip(msg, '"')
    ensures StreamText(msg) == [] <==> Strip(msg, '"') == []
    ensures StreamText(msg) != [] ==> StreamText(msg)[0] != '"' && StreamText(msg)[|StreamText(msg)| - 1] != '"'
  {
    var t := Strip(msg, '"');
    ReplaceDollarEach(t);
    UndoDollarEach(t);
    DollarEachEnds(t);
  }

  // ---- secure_log_api_key

  /** `'*' * n`, which is empty for a negative `n`. */
  function Stars(n: int): (r: string)
    ensures |r| == if n < 0 then 0 else n
    ensures forall i :: 0 <= i < |r| ==> r[i] == '*'
  {
    if n <= 0 then "" else "*" + Stars(n - 1)
  }

  /** `secure_log_api_key`: the first three characters, a star for each character beyond
      six, and the last three, with Python's clamped slices; an empty key takes the error
      branch and gets no mask. */
  function MaskedKey(key: string): (r: Option<string>)
    ensures r.None? <==> key == ""
  {
    if key == "" then None
    else
      var head := if |key| < 3 then key else key[..3];
      var tail := if |key| < 3 then key else key[|key| - 3..];
      Some(head + Stars(|key| - 6) + tail)
  }

  /** A key of at least six characters keeps its length, its first three and last three
      characters, and shows a star everywhere else. */
  lemma MaskHidesMiddle(key: string)
    requires |key| >= 6
    ensures MaskedKey(key).Some?
    ensures var m := MaskedKey(key).value;
      |m| == |key| && m[..3] == key[..3] && m[|key| - 3..] == key[|key| - 3..] &&
      forall i :: 3 <= i < |key| - 3 ==> m[i] == '*'
  {
    var m := MaskedKey(key).value;
    assert m == key[..3] + Stars(|key| - 6) + key[|key| - 3..];
  }

  /** A key of at most six characters can be read back from its mask: its first characters
      lead the mask, and the rest of it ends the mask. */
  lemma ShortKeyRevealed(key: string)
    requires 0 < |key| <= 6
    ensures var m := MaskedKey(key).value;
      var k := if |key| < 3 then |key| else 3;
      |m| >= |key| && key == m[..k] + m[|m| - (|key| - k)..]
  {
    var m := MaskedKey(key).value;
    var k := if |key| < 3 then |key| else 3;
    var tail := if |key| < 3 then key else key[|key| - 3..];
    assert m == key[..k] + tail;
    assert m[..k] == key[..k];
    assert m[|m| - (|key| - k)..] == key[k..];
    assert key == key[..k] + key[k..];
  }
}
