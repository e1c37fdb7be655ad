/** The records of a turn-taking conversation's history, and the parsing of a persuasion-mode
    reply into its technique and response. */
module AlternatingConv {
  import opened Wrappers
  import opened Strings
  import opened Utils
  import opened Actions

  /** A step's reward: `None`, the `0` of `get_reward`, or the donated amount as the digit
      string the pattern captured. */
  datatype Reward = NoReward | Zero | Price(digits: string)

  /** The `response`, `reward`, `terminated` and `truncated` entries of a history record. */
  datatype Outcome = Outcome(response: Reply, reward: Reward, terminated: bool, truncated: bool)

  /** `current_iteration`: the step index written by a turn, or a string label. */
  datatype Iteration = Numbered(n: nat) | Label(text: string)

  /** The per-participant columns of the settings record, in the participants' order. */
  datatype Settings = Settings(players: seq<string>, models: seq<string>, actions: seq<ActionSpace>,
                               prolificIds: seq<Option<string>>)

  /** One history entry: the settings record labelled "START" (which has no outcome until one
      is written into it), or a turn record. */
  datatype Record =
    | SettingsRecord(settings: Settings, written: Option<Outcome>)
    | TurnRecord(iteration: Iteration, player: string, action: ActionSpace, technique: Option<string>,
                 outcome: Outcome)

  /** `read_iteration_message`: the `response` of the given record, `""` when it has none. */
  function ReadIterationMessage(history: seq<Record>, iteration: nat): (r: Result<Reply, PyError>)
    ensures iteration >= |history| <==> r == Err(IndexError)
    ensures r.Ok? && history[iteration].TurnRecord? ==> r.value == history[iteration].outcome.response
    ensures r.Ok? && history[iteration].SettingsRecord? ==>
      r.value == if history[iteration].written.Some? then history[iteration].written.value.response else Text("")
  {
    if iteration >= |history| then Err(IndexError)
    else match history[iteration]
      case SettingsRecord(_, written) => Ok(if written.Some? then written.value.response else Text(""))
      case TurnRecord(_, _, _, _, outcome) => Ok(outcome.response)
  }

  /** `update_game_state`: overwrites the outcome of the last record. */
  function UpdateLast(history: seq<Record>, outcome: Outcome): (r: Result<seq<Record>, PyError>)
    ensures history == [] <==> r == Err(IndexError)
    ensures r.Ok? ==> |r.value| == |history| && r.value[..|history| - 1] == history[..|history| - 1]
    ensures r.Ok? ==> ReadIterationMessage(r.value, |history| - 1) == Ok(outcome.response)
    ensures r.Ok? ==> r.value[|history| - 1].TurnRecord? == history[|history| - 1].TurnRecord?
    ensures r.Ok? && history[|history| - 1].TurnRecord? ==>
      r.value[|history| - 1] == history[|history| - 1].(outcome := outcome)
    ensures r.Ok? && history[|history| - 1].SettingsRecord? ==>
      r.value[|history| - 1] == SettingsRecord(history[|history| - 1].settings, Some(outcome))
  {
    if history == [] then Err(IndexError)
    else
      var last := history[|history| - 1];
      var updated := match last
        case SettingsRecord(settings, _) => SettingsRecord(settings, Some(outcome))
        case TurnRecord(_, _, _, _, _) => last.(outcome := outcome);
      Ok(history[..|history| - 1] + [updated])
  }

  // ---- re.search(r"<open>(.*?)<close>", s)

  /** `open`, then a newline-free text `t`, then `close`, starting at index `i` of `s`. */
  ghost predicate MatchAt(s: string, open: string, close: string, i: nat, t: string) {
    i + |open| + |t| <= |s| &&
    StartsWith(s[i..], open) &&
    s[i + |open|..i + |open| + |t|] == t &&
    '\n' !in t &&
    StartsWith(s[i + |open| + |t|..], close)
  }

  ghost predicate HasMatch(s: string, open: string, close: string) {
    exists i: nat, t: string :: MatchAt(s, open, close, i, t)
  }

  /** The match `re.search` reports for a lazy `(.*?)` group: the leftmost start, and at that
      start the shortest capture. */
  ghost predicate FirstMatch(s: string, open: string, close: string, i: nat, t: string) {
    MatchAt(s, open, close, i, t) &&
    (forall j: nat, u: string :: j < i ==> !MatchAt(s, open, close, j, u)) &&
    (forall u: string :: |u| < |t| ==> !MatchAt(s, open, close, i, u))
  }

  /** The text `group(1)` returns. */
  ghost predicate IsFirstCapture(s: string, open: string, close: string, t: string) {
    exists i: nat :: FirstMatch(s, open, close, i, t)
  }

  /** Where the lazy group ends when it starts at `j`: the first `k >= j` at which `close`
      begins, unless a newline comes first. */
  function CloseFrom(s: string, close: string, j: nat): (r: Option<nat>)
    requires j <= |s|
    ensures r.Some? ==> j <= r.value <= |s|
    decreases |s| - j
  {
    if StartsWith(s[j..], close) then Some(j)
    else if j == |s| || s[j] == '\n' then None
    else CloseFrom(s, close, j + 1)
  }

  lemma {:induction false} CloseFromSpec(s: string, close: string, j: nat)
    requires j <= |s|
    ensures var r := CloseFrom(s, close, j);
      (r.Some? ==> (j <= r.value <= |s| && StartsWith(s[r.value..], close) &&
         forall k :: j <= k < r.value ==> s[k] != '\n' && !StartsWith(s[k..], close))) &&
      (r.None? ==> forall k :: j <= k <= |s| && StartsWith(s[k..], close) ==> '\n' in s[j..k])
    decreases |s| - j
  {
    if StartsWith(s[j..], close) {
    } else if j == |s| || s[j] == '\n' {
      forall k | j <= k <= |s| && StartsWith(s[k..], close)
        ensures '\n' in s[j..k]
      {
        assert k != j;
        assert s[j..k][0] == '\n';
      }
    } else {
      CloseFromSpec(s, close, j + 1);
      if CloseFrom(s, close, j).None? {
        forall k | j <= k <= |s| && StartsWith(s[k..], close)
          ensures '\n' in s[j..k]
        {
          assert k != j;
          assert '\n' in s[j + 1..k];
          assert s[j..k] == [s[j]] + s[j + 1..k];
        }
      }
    }
  }

  /** `re.search` from start position `i` on. */
  function SearchFrom(s: string, open: string, close: string, i: nat): (r: Option<(nat, string)>)
    decreases |s| + 1 - i
  {
    if i > |s| then None
    else if StartsWith(s[i..], open) && CloseFrom(s, close, i + |open|).Some? then
      Some((i, s[i + |open|..CloseFrom(s, close, i + |open|).value]))
    else SearchFrom(s, open, close, i + 1)
  }

  /** No match starts at index `j`. */
  ghost predicate NoMatchAt(s: string, open: string, close: string, j: nat) {
    forall u: string :: !MatchAt(s, open, close, j, u)
  }

  /** No match at index `i` has a capture shorter than `t`. */
  ghost predicate Shortest(s: string, open: string, close: string, i: nat, t: string) {
    forall u: string :: |u| < |t| ==> !MatchAt(s, open, close, i, u)
  }

  /** Without `open` at `i` nothing matches there. */
  lemma NoOpenNoMatch(s: string, open: string, close: string, i: nat)
    requires i <= |s| && !StartsWith(s[i..], open)
    ensures NoMatchAt(s, open, close, i)
  {
  }

  /** With `open` at `i` but a newline before any `close`, nothing matches there. */
  lemma NoCloseNoMatch(s: string, open: string, close: string, i: nat)
    requires i <= |s| && StartsWith(s[i..], open) && CloseFrom(s, close, i + |open|).None?
    ensures NoMatchAt(s, open, close, i)
  {
    var j := i + |open|;
    CloseFromSpec(s, close, j);
    forall u: string | j + |u| <= |s| && StartsWith(s[j + |u|..], close)
      ensures '\n' in u || s[j..j + |u|] != u
    {
      assert '\n' in s[j..j + |u|];
    }
  }

  /** With `open` at `i`, the first closing position gives the match and the shortest capture. */
  lemma FirstCloseMatches(s: string, open: string, close: string, i: nat)
    requires i <= |s| && StartsWith(s[i..], open) && CloseFrom(s, close, i + |open|).Some?
    ensures var t := s[i + |open|..CloseFrom(s, close, i + |open|).value];
      MatchAt(s, open, close, i, t) && Shortest(s, open, close, i, t)
  {
    var j := i + |open|;
    CloseFromSpec(s, close, j);
    var k := CloseFrom(s, close, j).value;
    var t := s[j..k];
    assert forall m :: 0 <= m < |t| ==> t[m] == s[j + m];
    assert MatchAt(s, open, close, i, t);
    forall u: string | |u| < |t|
      ensures !MatchAt(s, open, close, i, u)
    {
      assert !StartsWith(s[j + |u|..], close);
    }
  }

  lemma {:induction false} SearchFromSpec(s: string, open: string, close: string, i: nat)
    ensures var r := SearchFrom(s, open, close, i);
      (r.Some? ==> (i <= r.value.0 && MatchAt(s, open, close, r.value.0, r.value.1) &&
         (forall j: nat :: i <= j < r.value.0 ==> NoMatchAt(s, open, close, j)) &&
         Shortest(s, open, close, r.value.0, r.value.1))) &&
      (r.None? ==> forall j: nat :: i <= j ==> NoMatchAt(s, open, close, j))
    decreases |s| + 1 - i
  {
    if i > |s| {
      forall j: nat | i <= j
        ensures NoMatchAt(s, open, close, j)
      {
      }
    } else if StartsWith(s[i..], open) && CloseFrom(s, close, i + |open|).Some? {
      FirstCloseMatches(s, open, close, i);
    } else {
      if !StartsWith(s[i..], open) {
        NoOpenNoMatch(s, open, close, i);
      } else {
        NoCloseNoMatch(s, open, close, i);
      }
      SearchFromSpec(s, open, close, i + 1);
      var r := SearchFrom(s, open, close, i + 1);
      assert SearchFrom(s, open, close, i) == r;
      var end := if r.Some? then r.value.0 else |s| + 1;
      forall j: nat | i <= j < end
        ensures NoMatchAt(s, open, close, j)
      {
        if j > i {
          assert i + 1 <= j;
        }
      }
      if r.None? {
        forall j: nat | i <= j
          ensures NoMatchAt(s, open, close, j)
        {
          if j > i {
            assert i + 1 <= j;
          }
        }
      }
    }
  }

  /** The capture `re.search(open + "(.*?)" + close, s).group(1)`, if the pattern occurs. */
  function Search(s: string, open: string, close: string): (r: Option<string>)
    ensures r.Some? <==> HasMatch(s, open, close)
    ensures r.Some? ==> IsFirstCapture(s, open, close, r.value)
  {
    SearchFromSpec(s, open, close, 0);
    var found := SearchFrom(s, open, close, 0);
    if found.Some? then
      assert FirstMatch(s, open, close, found.value.0, found.value.1) by {
        forall j: nat, u: string | j < found.value.0
          ensures !MatchAt(s, open, close, j, u)
        {
          assert NoMatchAt(s, open, close, j);
        }
      }
      Some(found.value.1)
    else
      assert !HasMatch(s, open, close) by {
        forall i: nat, t: string
          ensures !MatchAt(s, open, close, i, t)
        {
          assert NoMatchAt(s, open, close, i);
        }
      }
      None
  }

  /** The leftmost, shortest capture is unique. */
  lemma FirstCaptureUnique(s: string, open: string, close: string, t1: string, t2: string)
    requires IsFirstCapture(s, open, close, t1) && IsFirstCapture(s, open, close, t2)
    ensures t1 == t2
  {
    var i1: nat :| FirstMatch(s, open, close, i1, t1);
    var i2: nat :| FirstMatch(s, open, close, i2, t2);
    assert i1 == i2;
    assert |t1| == |t2|;
  }

  const TechniqueOpen := "<technique>"
  const TechniqueClose := "</technique>"
  const ResponseOpen := "<response>"
  const ResponseClose := "</response>"

  /** `extract_persuasion_response`: the reply is materialised; each tag gives the first
      newline-free text between its pair; without a response tag the whole text is the
      response, without a technique tag there is no technique. */
  function ExtractPersuasionResponse(text: Reply): (r: (Option<string>, string))
    ensures var s := Materialize(text);
      (r.0.Some? <==> HasMatch(s, TechniqueOpen, TechniqueClose)) &&
      (r.0.Some? ==> IsFirstCapture(s, TechniqueOpen, TechniqueClose, r.0.value)) &&
      (HasMatch(s, ResponseOpen, ResponseClose) ==> IsFirstCapture(s, ResponseOpen, ResponseClose, r.1)) &&
      (!HasMatch(s, ResponseOpen, ResponseClose) ==> r.1 == s)
  {
    var s := Materialize(text);
    var technique := Search(s, TechniqueOpen, TechniqueClose);
    var response := Search(s, ResponseOpen, ResponseClose);
    (technique, if response.Some? then response.value else s)
  }

  /** A reply in the tagged output format the technique-listing prompt demands. */
  const Tagged := TechniqueOpen + "Logic" + TechniqueClose + ResponseOpen + "Hi" + ResponseClose

  lemma TaggedTechnique()
    ensures FirstMatch(Tagged, TechniqueOpen, TechniqueClose, 0, "Logic")
  {
    var s := Tagged;
    assert s[..11] == TechniqueOpen;
    assert s[11..16] == "Logic";
    assert s[16..][..12] == TechniqueClose;
    assert MatchAt(s, TechniqueOpen, TechniqueClose, 0, "Logic");
    forall u: string | |u| < 5
      ensures !MatchAt(s, TechniqueOpen, TechniqueClose, 0, u)
    {
      assert s[11 + |u|] != '<';
    }
  }

  lemma TaggedResponse()
    ensures FirstMatch(Tagged, ResponseOpen, ResponseClose, 28, "Hi")
  {
    var s := Tagged;
    assert s[28..][..10] == ResponseOpen;
    assert s[38..40] == "Hi";
    assert s[40..] == ResponseClose;
    assert MatchAt(s, ResponseOpen, ResponseClose, 28, "Hi");
    forall j: nat, u: string | j < 28
      ensures !MatchAt(s, ResponseOpen, ResponseClose, j, u)
    {
      assert s[j..][0] == s[j];
      assert s[j..][1] == s[j + 1];
    }
    forall u: string | |u| < 2
      ensures !MatchAt(s, ResponseOpen, ResponseClose, 28, u)
    {
      assert s[38 + |u|] != '<';
    }
  }

  /** The tagged reply splits into its technique and its response text. */
  lemma TaggedReplyExample()
    ensures ExtractPersuasionResponse(Text(Tagged)) == (Some("Logic"), "Hi")
  {
    var r := ExtractPersuasionResponse(Text(Tagged));
    TaggedTechnique();
    FirstCaptureUnique(Tagged, TechniqueOpen, TechniqueClose, r.0.value, "Logic");
    TaggedResponse();
    FirstCaptureUnique(Tagged, ResponseOpen, ResponseClose, r.1, "Hi");
  }
}
