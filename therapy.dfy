/** The therapy conversation engine: participants keyed by name, a fixed schedule of turns,
    the step that produces and records one turn, and the donation-based termination test. */
module Therapy {
  import opened Wrappers
  import opened Strings
  import opened Utils
  import opened Actions
  import opened Llm
  import opened Agents
  import opened AlternatingConv
  import opened Conversation

  // ---- detecting a pledge: the patterns `donate \$\d+` and `donate \$(\d+)`

  const DonateText := "donate $"

  /** `donate $` followed by a digit starts at index `i`. */
  predicate DonateAt(s: string, i: nat) {
    i + |DonateText| < |s| && StartsWith(s[i..], DonateText) && IsDigit(s[i + |DonateText|])
  }

  function FindDonate(s: string, i: nat): (r: Option<nat>)
    ensures r.Some? ==> i <= r.value && DonateAt(s, r.value) && forall j: nat :: i <= j < r.value ==> !DonateAt(s, j)
    ensures r.None? ==> forall j: nat :: i <= j ==> !DonateAt(s, j)
    decreases |s| - i
  {
    if i >= |s| then None
    else if DonateAt(s, i) then Some(i)
    else FindDonate(s, i + 1)
  }

  /** `contains_donate_amount` */
  function ContainsDonateAmount(text: string): (b: bool)
    ensures b <==> exists i: nat :: DonateAt(text, i)
  {
    FindDonate(text, 0).Some?
  }

  /** The digits from `j` on, as many as there are: the greedy `\d+`. */
  function DigitRun(s: string, j: nat): (r: string)
    requires j <= |s|
    ensures j + |r| <= |s| && r == s[j..j + |r|]
    ensures forall k :: 0 <= k < |r| ==> IsDigit(r[k])
    ensures j + |r| == |s| || !IsDigit(s[j + |r|])
    decreases |s| - j
  {
    if j < |s| && IsDigit(s[j]) then [s[j]] + DigitRun(s, j + 1) else ""
  }

  /** The amount `re.search(r"donate \$(\d+)", text).group(1)` captures: the whole digit run
      after the first `donate $` that is followed by a digit. */
  function DonorPrice(text: string): (p: Option<string>)
    ensures p.Some? <==> ContainsDonateAmount(text)
    ensures p.Some? ==> p.value != [] && forall k :: 0 <= k < |p.value| ==> IsDigit(p.value[k])
  {
    match FindDonate(text, 0)
    case None => None
    case Some(i) => Some(DigitRun(text, i + |DonateText|))
  }

  /** The captured amount is the whole digit run after the first `donate $` that is followed
      by a digit. */
  lemma DonorPriceIsFirstPledge(text: string)
    ensures DonorPrice(text).Some? ==>
      var p := DonorPrice(text).value;
      exists i: nat :: (DonateAt(text, i) && (forall j: nat :: j < i ==> !DonateAt(text, j)) &&
        var start := i + |DonateText|;
        StartsWith(text[start..], p) &&
        (start + |p| == |text| || !IsDigit(text[start + |p|])))
  {
    var found := FindDonate(text, 0);
    if found.Some? {
      var i := found.value;
      var run := DigitRun(text, i + |DonateText|);
      assert text[i + |DonateText|..][..|run|] == run;
    }
  }

  /** The test `is_end_state` applies to one record: a record by a player not named
      "assistant" whose text response contains a pledge gives the amount. A generator response
      cannot be searched, and the settings record has no player. */
  function RecordDonation(record: Record): (r: Result<Option<string>, PyError>)
    ensures record.SettingsRecord? ==> r == Err(KeyError)
    ensures record.TurnRecord? && record.player == "assistant" ==> r == Ok(None)
    ensures record.TurnRecord? && record.player != "assistant" && record.outcome.response.Chunks? ==> r == Err(TypeError)
    ensures record.TurnRecord? && record.player != "assistant" && record.outcome.response.Text? ==>
      r == Ok(DonorPrice(record.outcome.response.text))
  {
    match record
    case SettingsRecord(_, _) => Err(KeyError)
    case TurnRecord(_, player, _, _, outcome) =>
      if player == "assistant" then Ok(None)
      else match outcome.response
        case Chunks(_) => Err(TypeError)
        case Text(message) => Ok(DonorPrice(message))
  }

  /** `is_end_state` on a history: no verdict before the fourth record, then the test on the
      second-to-last record. */
  function EndState(history: seq<Record>): (r: Result<Option<string>, PyError>)
    ensures |history| <= 3 ==> r == Ok(None)
    ensures |history| > 3 ==> r == RecordDonation(history[|history| - 2])
  {
    if |history| <= 3 then Ok(None) else RecordDonation(history[|history| - 2])
  }

  /** What a step reports from the test on the history before it: whether the conversation
      ends, and the reward, the pledged amount when it does. */
  function Verdict(history: seq<Record>): Result<(bool, Reward), PyError> {
    match EndState(history)
    case Err(e) => Err(e)
    case Ok(None) => Ok((false, NoReward))
    case Ok(Some(price)) => Ok((true, Price(price)))
  }

  /** A step ends the conversation exactly when the record before the newest one is a
      participant other than "assistant" pledging in plain text, and it is rewarded with the
      first pledged amount. */
  lemma VerdictOnPledge(history: seq<Record>)
    ensures Verdict(history).Ok? && Verdict(history).value.0 <==>
      (|history| > 3 && history[|history| - 2].TurnRecord? && history[|history| - 2].player != "assistant" &&
       history[|history| - 2].outcome.response.Text? &&
       ContainsDonateAmount(history[|history| - 2].outcome.response.text))
    ensures Verdict(history).Ok? && Verdict(history).value.0 ==>
      Verdict(history).value.1 == Price(DonorPrice(history[|history| - 2].outcome.response.text).value)
    ensures Verdict(history).Ok? && !Verdict(history).value.0 ==> Verdict(history).value.1 == NoReward
  {
  }

  /** The most recent record never takes part in the test: whatever was said last, the verdict
      is the same. */
  lemma LatestRecordIgnored(history: seq<Record>, r1: Record, r2: Record)
    ensures EndState(history + [r1]) == EndState(history + [r2])
  {
    EndStateAfter(history, r1);
    EndStateAfter(history, r2);
  }

  /** Adding a record makes the test read the record that was last before it. */
  lemma EndStateAfter(history: seq<Record>, record: Record)
    ensures EndState(history + [record]) == if |history| < 3 then Ok(None) else RecordDonation(history[|history| - 1])
  {
    var h := history + [record];
    assert |h| == |history| + 1;
    if |history| >= 3 {
      assert h[|h| - 2] == history[|history| - 1];
    }
  }

  /** `after_end_state`'s message quotes the captured digits after a dollar sign. */
  function AfterEndStateMessage(price: string): (m: string)
    ensures Contains(m, "$" + price)
  {
    var head := "The user is willing to donate ";
    var m := head + "$" + price + "! Thank you for your donation!";
    assert StartsWith(m[|head|..], "$" + price) by {
      assert m[|head|..][..|"$" + price|] == "$" + price;
    }
    m
  }

  // ---- the engine

  /** One participant's entry in the configuration; `modelArgs` holds the keys of its
      `model_args` entry, empty when the entry is absent. */
  datatype PlayerSpec = PlayerSpec(name: string, engine: string, system: string, role: string,
                                   modelArgs: set<string>, actionSpace: ActionSpaceSpec,
                                   persona: map<string, string>, prolificId: Option<string>)

  function Roles(specs: seq<PlayerSpec>): (roles: seq<string>)
    ensures |roles| == |specs| && forall i :: 0 <= i < |specs| ==> roles[i] == specs[i].role
  {
    if specs == [] then [] else [specs[0].role] + Roles(specs[1..])
  }

  /** What `step` returns: `(response, reward, terminated, truncated, info)`, with `info`
      reduced to its `"name"`. */
  datatype StepResult = StepResult(response: Reply, reward: Reward, terminated: bool, truncated: bool, infoName: string)

  /** The records of a history after `settings`: one per step, in order, by the scheduled
      participant. */
  ghost predicate WellFormedHistory(history: seq<Record>, transit: seq<string>) {
    |history| >= 1 && |history| <= |transit| + 1 &&
    history[0].SettingsRecord? &&
    forall j :: 1 <= j < |history| ==>
      history[j].TurnRecord? && history[j].iteration == Numbered(j - 1) && history[j].player == transit[j - 1]
  }

  /** Recording the turn of the next scheduled step keeps a history well formed. */
  lemma AppendTurnKeepsWellFormed(history: seq<Record>, transit: seq<string>, record: Record)
    requires WellFormedHistory(history, transit) && |history| <= |transit|
    requires record.TurnRecord? && record.iteration == Numbered(|history| - 1) && record.player == transit[|history| - 1]
    ensures WellFormedHistory(history + [record], transit)
  {
    var h := history + [record];
    forall j | 1 <= j < |h|
      ensures h[j].TurnRecord? && h[j].iteration == Numbered(j - 1) && h[j].player == transit[j - 1]
    {
      if j < |history| {
        assert h[j] == history[j];
      }
    }
  }

  /** The test at step `k` reads the record of step `k - 2`, the scheduled participant's turn
      two steps back. */
  lemma TestLooksTwoStepsBack(history: seq<Record>, transit: seq<string>)
    requires WellFormedHistory(history, transit) && |history| > 3
    ensures var k := |history| - 1;
      history[k - 1].iteration == Numbered(k - 2) && history[k - 1].player == transit[k - 2] &&
      EndState(history) == RecordDonation(history[k - 1])
  {
  }

  /** With the schedule alternating "assistant" and "user", only the steps of the user test for
      a pledge, and each tests the user's previous message. */
  lemma OnlyUserStepsTest(history: seq<Record>, transit: seq<string>)
    requires WellFormedHistory(history, transit) && |history| > 3
    requires forall j :: 0 <= j < |transit| ==> transit[j] == (if j % 2 == 0 then "assistant" else "user")
    ensures (|history| - 1) % 2 == 0 ==> EndState(history) == Ok(None)
    ensures (|history| - 1) % 2 == 1 ==> history[|history| - 2].player == "user"
  {
    var k := |history| - 1;
    TestLooksTwoStepsBack(history, transit);
    assert (k - 2) % 2 == k % 2;
    assert history[k - 1].player == transit[k - 2];
  }

  class Therapy {
    const transit: seq<string>
    const initMessage: Option<string>
    const persuasionFlag: bool
    const wordsLimit: int
    const taxonomy: seq<TechniqueRecord>
    /** The participants keyed by name; `playerOrder` is the order of the keys. */
    const players: map<string, Agent>
    const playerOrder: seq<string>
    var state: nat
    var gameState: seq<Record>
    var donorPrice: Option<string>

    ghost predicate Valid()
      reads this
    {
      WellFormedHistory(gameState, transit) &&
      |gameState| == state + 1 &&
      (forall n :: n in players ==> players[n].name == n) &&
      (forall n, m :: n in players && m in players && n != m ==> players[n] != players[m])
    }

    /** The participant whose turn it is, as the set of objects a turn may change. */
    ghost function Actor(): set<Agent>
      reads this
    {
      if state < |transit| && transit[state] in players then {players[transit[state]]} else {}
    }

    constructor (transit: seq<string>, initMessage: Option<string>, persuasionFlag: bool, wordsLimit: int,
                 taxonomy: seq<TechniqueRecord>, players: map<string, Agent>, playerOrder: seq<string>)
      requires forall n :: n in playerOrder ==> n in players
      requires forall n :: n in players ==> players[n].name == n
      requires forall n, m :: n in players && m in players && n != m ==> players[n] != players[m]
      ensures this.transit == transit && this.initMessage == initMessage && this.persuasionFlag == persuasionFlag
      ensures this.wordsLimit == wordsLimit && this.taxonomy == taxonomy
      ensures this.players == players && this.playerOrder == playerOrder
      ensures state == 0 && donorPrice.None?
      ensures gameState == [SettingsRecord(SettingsOf(players, playerOrder), None)]
      ensures Valid()
    {
      this.transit := transit;
      this.initMessage := initMessage;
      this.persuasionFlag := persuasionFlag;
      this.wordsLimit := wordsLimit;
      this.taxonomy := taxonomy;
      this.players := players;
      this.playerOrder := playerOrder;
      state := 0;
      gameState := [SettingsRecord(SettingsOf(players, playerOrder), None)];
      donorPrice := None;
    }

    /** `sample_action`: the scheduled participant's space draws an action; nothing changes. */
    method SampleAction(draw: nat) returns (r: Result<Action, PyError>)
      requires taxonomy != [] ==> draw < |taxonomy|
      ensures state >= |transit| ==> r == Err(IndexError)
      ensures state < |transit| && transit[state] !in players ==> r == Err(KeyError)
      ensures state < |transit| && transit[state] in players ==>
        r == Sample(players[transit[state]].actionSpace, taxonomy, draw)
    {
      if state >= |transit| {
        return Err(IndexError);
      }
      var next := transit[state];
      if next !in players {
        return Err(KeyError);
      }
      r := Sample(players[next].actionSpace, taxonomy, draw);
    }

    /** In persuasion mode a reply is split into its technique and a one-chunk generator of its
        response text; otherwise it passes through. */
    function Parse(raw: Reply): (r: (Option<string>, Reply))
      ensures !persuasionFlag ==> r == (None, raw)
      ensures persuasionFlag ==> (r.1.Chunks? && |r.1.parts| == 1 &&
        (r.0, r.1.parts[0]) == ExtractPersuasionResponse(raw))
    {
      if persuasionFlag then
        var (technique, text) := ExtractPersuasionResponse(raw);
        (technique, Chunks([text]))
      else (None, raw)
    }

    /** Whether the opening message stands in for the first turn. */
    predicate UsesInitMessage()
      reads this
    {
      state == 0 && initMessage.Some? && initMessage.value != ""
    }

    /** The prompt the scheduled participant is sent: built by the action from the last
        recorded response. */
    ghost function PromptFor(action: Action): Result<Prompt, PyError>
      requires Valid() && state < |transit| && transit[state] in players
      reads this, Actor()
    {
      var agent := players[transit[state]];
      CallWithContext(action, ReadIterationMessage(gameState, state).value, agent.persona, agent.conversation,
                      persuasionFlag, wordsLimit, taxonomy)
    }

    /** `get_response`: the opening message on the first turn when there is one; otherwise the
        action's prompt is sent to the scheduled participant's model, which records it. */
    method GetResponse(action: Action, model: Model) returns (r: Result<(Option<string>, Reply), PyError>)
      requires Valid()
      modifies Actor()
      ensures state >= |transit| ==> r == Err(IndexError)
      ensures state < |transit| && UsesInitMessage() ==>
        r == Ok(Parse(Text(initMessage.value))) && forall a :: a in Actor() ==> a.conversation == old(a.conversation)
      ensures state < |transit| && !UsesInitMessage() && transit[state] !in players ==> r == Err(KeyError)
      ensures state < |transit| && !UsesInitMessage() && transit[state] in players ==>
        var agent := players[transit[state]];
        var prompt := old(PromptFor(action));
        (prompt.Err? ==> r == Err(TypeError) && agent.conversation == old(agent.conversation)) &&
        (prompt.Ok? ==>
          agent.conversation == old(agent.conversation) + [Message("user", Directive(prompt.value))] &&
          r == match model(agent.conversation) case Err(e) => Err(e) case Ok(raw) => Ok(Parse(raw)))
    {
      if state >= |transit| {
        return Err(IndexError);
      }
      var next := transit[state];
      var raw: Reply;
      if UsesInitMessage() {
        raw := Text(initMessage.value);
      } else {
        var lastMessage := ReadIterationMessage(gameState, state).value;
        if next !in players {
          return Err(KeyError);
        }
        var agent := players[next];
        var prompt := CallWithContext(action, lastMessage, agent.GetPersona(), agent.GetConversation(),
                                      persuasionFlag, wordsLimit, taxonomy);
        if prompt.Err? {
          return Err(TypeError);
        }
        var reply := agent.Chat(prompt.value, model);
        if reply.Err? {
          return Err(reply.error);
        }
        raw := reply.value;
      }
      r := Ok(Parse(raw));
    }

    /** `is_end_state`: the verdict on the current history; a found pledge is remembered. */
    method IsEndState() returns (r: Result<bool, PyError>)
      modifies this`donorPrice
      ensures EndState(gameState).Err? ==> r == Err(EndState(gameState).error) && donorPrice == old(donorPrice)
      ensures EndState(gameState).Ok? ==> r == Ok(EndState(gameState).value.Some?)
      ensures EndState(gameState).Ok? && EndState(gameState).value.Some? ==> donorPrice == EndState(gameState).value
      ensures EndState(gameState).Ok? && EndState(gameState).value.None? ==> donorPrice == old(donorPrice)
    {
      var verdict := EndState(gameState);
      if verdict.Err? {
        return Err(verdict.error);
      }
      if verdict.value.Some? {
        donorPrice := verdict.value;
      }
      r := Ok(verdict.value.Some?);
    }

    /** `get_reward`: the pledged amount when the test passes, `0` otherwise. */
    method GetReward() returns (r: Result<Reward, PyError>)
      modifies this`donorPrice
      ensures EndState(gameState).Err? ==> r == Err(EndState(gameState).error)
      ensures EndState(gameState).Ok? && EndState(gameState).value.Some? ==>
        r == Ok(Price(EndState(gameState).value.value)) && donorPrice == EndState(gameState).value
      ensures EndState(gameState).Ok? && EndState(gameState).value.None? ==> r == Ok(Zero) && donorPrice == old(donorPrice)
    {
      var ended := IsEndState();
      if ended.Err? {
        return Err(ended.error);
      }
      if ended.value {
        r := Ok(Price(donorPrice.value));
      } else {
        r := Ok(Zero);
      }
    }

    /** `after_end_state`: fails before any pledge was found. */
    function AfterEndState(): (r: Result<string, PyError>)
      reads this
      ensures donorPrice.None? <==> r == Err(AttributeError)
      ensures donorPrice.Some? ==> r == Ok(AfterEndStateMessage(donorPrice.value))
    {
      if donorPrice.None? then Err(AttributeError) else Ok(AfterEndStateMessage(donorPrice.value))
    }

    /** `get_info`: the name of the scheduled participant. */
    function GetInfo(): (r: Result<string, PyError>)
      reads this
      ensures state >= |transit| ==> r == Err(IndexError)
      ensures state < |transit| ==> (r.Ok? <==> transit[state] in players)
      ensures r.Ok? ==> r.value == players[transit[state]].name
    {
      if state >= |transit| then Err(IndexError)
      else if transit[state] !in players then Err(KeyError)
      else Ok(players[transit[state]].name)
    }

    /** `is_truncated_state`: the schedule is used up, which is exactly when the schedule can
        no longer be indexed for the next participant. */
    predicate IsTruncatedState()
      reads this
      ensures IsTruncatedState() <==> GetInfo() == Err(IndexError)
    {
      state >= |transit|
    }

    /** `write_game_state`: appends a record of the current step. */
    method WriteGameState(player: Agent, response: Reply, reward: Reward, terminated: bool, truncated: bool,
                          technique: Option<string>)
      modifies this`gameState
      ensures gameState == old(gameState) + [TurnRecord(Numbered(state), player.name, player.actionSpace, technique,
                                                        Outcome(response, reward, terminated, truncated))]
    {
      gameState := gameState + [TurnRecord(Numbered(state), player.name, player.actionSpace, technique,
                                           Outcome(response, reward, terminated, truncated))];
    }

    /** `update_game_state`: overwrites the outcome of the last record; the engine's invariant
        survives it. */
    method UpdateGameState(response: Reply, reward: Reward, terminated: bool, truncated: bool)
      returns (r: Result<(), PyError>)
      modifies this`gameState
      ensures UpdateLast(old(gameState), Outcome(response, reward, terminated, truncated)).Err? ==>
        r == Err(IndexError) && gameState == old(gameState)
      ensures UpdateLast(old(gameState), Outcome(response, reward, terminated, truncated)).Ok? ==>
        r == Ok(()) && gameState == UpdateLast(old(gameState), Outcome(response, reward, terminated, truncated)).value
      ensures old(Valid()) ==> Valid()
    {
      var updated := UpdateLast(gameState, Outcome(response, reward, terminated, truncated));
      if updated.Err? {
        return Err(IndexError);
      }
      gameState := updated.value;
      r := Ok(());
    }

    /** `get_next_player`: advances the schedule. */
    method GetNextPlayer()
      modifies this`state
      ensures state == old(state) + 1
    {
      state := state + 1;
    }

    /** `log_state`: the human-readable log of the history. */
    method LogState() returns (r: Result<string, PyError>)
      ensures r == RenderLog(gameState, taxonomy)
    {
      r := LogHumanReadableState(gameState, taxonomy);
    }

    /** The turn `step` takes before recording it, judged in the state before the step: the
        given response with the given technique, or what `get_response` produces (the opening
        message, or the model's parsed reply to the transcript with the prompt added). */
    ghost function Produced(action: Action, technique: Option<string>, response: Option<Reply>, model: Model)
      : Result<(Option<string>, Reply), PyError>
      requires Valid() && state < |transit|
      reads this, Actor()
    {
      if response.Some? then Ok((technique, response.value))
      else if UsesInitMessage() then Ok(Parse(Text(initMessage.value)))
      else if transit[state] !in players then Err(KeyError)
      else match PromptFor(action)
        case Err(_) => Err(TypeError)
        case Ok(prompt) =>
          match model(players[transit[state]].conversation + [Message("user", Directive(prompt))])
          case Err(e) => Err(e)
          case Ok(raw) => Ok(Parse(raw))
    }

    /** The user entry `get_response` leaves in the transcript: the prompt, whenever one is
        built and sent, whether or not the model then answers. */
    ghost function SentPrompt(action: Action, response: Option<Reply>): seq<Message<Content>>
      requires Valid() && state < |transit|
      reads this, Actor()
    {
      if response.None? && !UsesInitMessage() && transit[state] in players && PromptFor(action).Ok?
      then [Message("user", Directive(PromptFor(action).value))]
      else []
    }

    /** The first part of `step`: a given response is taken as it is, otherwise `get_response`
        is asked for one. */
    method Respond(action: Action, technique: Option<string>, response: Option<Reply>, model: Model)
      returns (r: Result<(Option<string>, Reply), PyError>)
      requires Valid() && state < |transit|
      modifies Actor()
      ensures r == old(Produced(action, technique, response, model))
      ensures transit[state] in players ==>
        players[transit[state]].conversation == old(players[transit[state]].conversation) + old(SentPrompt(action, response))
    {
      if response.Some? {
        return Ok((technique, response.value));
      }
      r := GetResponse(action, model);
    }

    /** `step`: produces the scheduled participant's turn (or takes the given response), adds it
        to that participant's transcript, tests for a pledge, records the turn and advances.
        The schedule is indexed before anything else, so a returned step is never truncated.
        A failure after the reply was produced leaves the prompt and the reply in the
        transcript, and the history, the step and the pledge as they were. */
    method Step(action: Action, technique: Option<string>, response: Option<Reply>, model: Model)
      returns (r: Result<StepResult, PyError>)
      requires Valid()
      modifies this, Actor()
      ensures Valid()
      ensures old(state) >= |transit| ==> r == Err(IndexError)
      ensures r.Err? ==> state == old(state) && gameState == old(gameState) && donorPrice == old(donorPrice)
      ensures old(state) < |transit| ==>
        var turn := old(Produced(action, technique, response, model));
        (turn.Err? ==> r == Err(turn.error)) &&
        (turn.Ok? && transit[old(state)] !in players ==> r == Err(KeyError)) &&
        (turn.Ok? && transit[old(state)] in players ==>
          (r.Ok? <==> Verdict(old(gameState)).Ok?) &&
          (r.Err? ==> r.error == Verdict(old(gameState)).error))
      ensures old(state) < |transit| && transit[old(state)] in players ==>
        var agent := players[transit[old(state)]];
        var turn := old(Produced(action, technique, response, model));
        agent.conversation == old(agent.conversation) + old(SentPrompt(action, response)) +
          (if turn.Ok? then [Message("assistant", Said(turn.value.1))] else [])
      ensures r.Ok? ==>
        var name := transit[old(state)];
        var agent := players[name];
        var turn := old(Produced(action, technique, response, model));
        state == old(state) + 1 &&
        r.value.truncated == false && r.value.infoName == name &&
        turn.Ok? && r.value.response == turn.value.1 &&
        gameState == old(gameState) + [TurnRecord(Numbered(old(state)), name, agent.actionSpace, turn.value.0,
          Outcome(r.value.response, r.value.reward, r.value.terminated, false))]
      ensures r.Ok? ==> Verdict(old(gameState)) == Ok((r.value.terminated, r.value.reward))
      ensures r.Ok? && r.value.terminated ==> donorPrice == EndState(old(gameState)).value
      ensures r.Ok? && !r.value.terminated ==> donorPrice == old(donorPrice)
    {
      if state >= |transit| {
        return Err(IndexError);
      }
      var next := transit[state];
      var got := Respond(action, technique, response, model);
      if got.Err? {
        return Err(got.error);
      }
      var (tech, reply) := got.value;
      if next !in players {
        return Err(KeyError);
      }
      var agent := players[next];
      agent.UpdateConversationTracking("assistant", Said(reply));
      r := RecordTurn(agent, reply, tech);
    }

    /** The verdict part of `step`: the pledge test and, when the conversation ends, the
        reward. The schedule is not yet used up, so there is no truncation reward. */
    method Judge() returns (r: Result<(bool, Reward), PyError>)
      requires state < |transit|
      modifies this`donorPrice
      ensures r == Verdict(gameState)
      ensures r.Ok? && r.value.0 ==> donorPrice == EndState(gameState).value
      ensures !(r.Ok? && r.value.0) ==> donorPrice == old(donorPrice)
    {
      var terminated := IsEndState();
      if terminated.Err? {
        return Err(terminated.error);
      }
      var truncated := IsTruncatedState();
      var reward := NoReward;
      if terminated.value || truncated {
        var rewarded := GetReward();
        assert rewarded.Ok?;
        reward := rewarded.value;
      }
      r := Ok((terminated.value, reward));
    }

    /** The rest of `step` once the reply is in the participant's transcript: the verdict, the
        record of the turn and the move to the next step. */
    method RecordTurn(agent: Agent, reply: Reply, tech: Option<string>) returns (r: Result<StepResult, PyError>)
      requires Valid() && state < |transit| && transit[state] in players && agent == players[transit[state]]
      modifies this`donorPrice, this`gameState, this`state
      ensures Valid()
      ensures r.Ok? <==> Verdict(old(gameState)).Ok?
      ensures r.Err? ==> r.error == Verdict(old(gameState)).error
      ensures r.Err? ==> state == old(state) && gameState == old(gameState) && donorPrice == old(donorPrice)
      ensures r.Ok? ==>
        state == old(state) + 1 && r.value.response == reply && r.value.truncated == false &&
        r.value.infoName == agent.name &&
        gameState == old(gameState) + [TurnRecord(Numbered(old(state)), agent.name, agent.actionSpace, tech,
                                                  Outcome(reply, r.value.reward, r.value.terminated, false))]
      ensures r.Ok? ==> Verdict(old(gameState)) == Ok((r.value.terminated, r.value.reward))
      ensures r.Ok? && r.value.terminated ==> donorPrice == EndState(old(gameState)).value
      ensures r.Ok? && !r.value.terminated ==> donorPrice == old(donorPrice)
    {
      var judged := Judge();
      if judged.Err? {
        return Err(judged.error);
      }
      var (terminated, reward) := judged.value;
      var info := GetInfo();
      AppendTurnKeepsWellFormed(gameState, transit, TurnRecord(Numbered(state), agent.name, agent.actionSpace, tech,
                                                               Outcome(reply, reward, terminated, false)));
      WriteGameState(agent, reply, reward, terminated, false, tech);
      GetNextPlayer();
      r := Ok(StepResult(reply, reward, terminated, false, info.value));
    }
  }

  /** The settings record: each participant's name, engine, action space and participant id,
      in key order. */
  function SettingsOf(players: map<string, Agent>, order: seq<string>): (s: Settings)
    requires forall n :: n in order ==> n in players
    ensures s.players == order && |s.models| == |s.actions| == |s.prolificIds| == |order|
    ensures forall i :: 0 <= i < |order| ==>
      s.models[i] == players[order[i]].engine && s.actions[i] == players[order[i]].actionSpace &&
      s.prolificIds[i] == players[order[i]].prolificId
  {
    Settings(order,
             seq(|order|, i requires 0 <= i < |order| => players[order[i]].engine),
             seq(|order|, i requires 0 <= i < |order| => players[order[i]].actionSpace),
             seq(|order|, i requires 0 <= i < |order| => players[order[i]].prolificId))
  }

  function Names(specs: seq<PlayerSpec>): (names: seq<string>)
    ensures |names| == |specs| && forall i :: 0 <= i < |specs| ==> names[i] == specs[i].name
  {
    if specs == [] then [] else [specs[0].name] + Names(specs[1..])
  }

  /** The schedule is checked against the roles but looked up by name: when every participant's
      name is its role, every scheduled entry names a participant. */
  lemma ScheduleNamesParticipants(specs: seq<PlayerSpec>, transit: seq<string>)
    requires forall t :: t in transit ==> t in Roles(specs)
    requires forall i :: 0 <= i < |specs| ==> specs[i].name == specs[i].role
    ensures forall t :: t in transit ==> t in Names(specs)
  {
    assert Roles(specs) == Names(specs);
  }

  /** A participant configuration that passes the schedule check and still fails on the first
      lookup: the role is scheduled, but the participant is keyed by another name. */
  lemma RoleCheckDoesNotCoverNames()
    ensures var specs := [PlayerSpec("bot", "Claude 3 Haiku", "", "assistant", {}, ActionSpaceSpec("human", None), map[], None)];
      (forall t :: t in ["assistant"] ==> t in Roles(specs)) && "assistant" !in Names(specs)
  {
  }

  /** The participant's action space and backend can both be built. */
  predicate Buildable(spec: PlayerSpec) {
    GetActionSpace(spec.actionSpace).Ok? && LoadLlmAgent(spec.engine, spec.modelArgs).Ok?
  }

  /** The error raised while building a participant that cannot be built. */
  function BuildError(spec: PlayerSpec): PyError
    requires !Buildable(spec)
  {
    if GetActionSpace(spec.actionSpace).Err? then GetActionSpace(spec.actionSpace).error
    else LoadLlmAgent(spec.engine, spec.modelArgs).error
  }

  /** Every one of the first `i` participants can be built. */
  predicate AllBuildable(specs: seq<PlayerSpec>, i: nat)
    requires i <= |specs|
  {
    i == 0 || (AllBuildable(specs, i - 1) && Buildable(specs[i - 1]))
  }

  lemma {:induction false} AllBuildableSpec(specs: seq<PlayerSpec>, i: nat)
    requires i <= |specs|
    ensures AllBuildable(specs, i) <==> forall j :: 0 <= j < i ==> Buildable(specs[j])
  {
    if i > 0 {
      AllBuildableSpec(specs, i - 1);
    }
  }

  /** One participant that cannot be built stops every longer prefix from being buildable. */
  lemma {:induction false} AllBuildableStops(specs: seq<PlayerSpec>, i: nat, n: nat)
    requires i < n <= |specs| && !Buildable(specs[i])
    ensures !AllBuildable(specs, n)
  {
    if n > i + 1 {
      AllBuildableStops(specs, i, n - 1);
    }
  }

  /** The agent carries the participant's configuration. */
  predicate BuiltFrom(agent: Agent, spec: PlayerSpec) {
    agent.name == spec.name && agent.engine == spec.engine && agent.system == spec.system &&
    agent.persona == spec.persona && agent.prolificId == spec.prolificId &&
    Ok(agent.actionSpace) == GetActionSpace(spec.actionSpace) &&
    Ok(agent.backend) == LoadLlmAgent(spec.engine, spec.modelArgs)
  }

  /** The names of the first `i` participants. */
  function NameSet(specs: seq<PlayerSpec>, i: nat): (names: set<string>)
    requires i <= |specs|
    ensures forall n :: n in names <==> exists j :: 0 <= j < i && specs[j].name == n
  {
    if i == 0 then {} else NameSet(specs, i - 1) + {specs[i - 1].name}
  }

  /** The names of the first `i` participants in order of first appearance, each once: the key
      order of a dictionary filled in that order. */
  function FirstAppearance(specs: seq<PlayerSpec>, i: nat): (order: seq<string>)
    requires i <= |specs|
    ensures |order| <= i
  {
    if i == 0 then []
    else
      var before := FirstAppearance(specs, i - 1);
      if specs[i - 1].name in before then before else before + [specs[i - 1].name]
  }

  lemma {:induction false} FirstAppearanceMembers(specs: seq<PlayerSpec>, i: nat)
    requires i <= |specs|
    ensures forall n :: n in FirstAppearance(specs, i) <==> n in NameSet(specs, i)
  {
    if i > 0 {
      FirstAppearanceMembers(specs, i - 1);
    }
  }

  lemma {:induction false} FirstAppearancePrefix(specs: seq<PlayerSpec>, p: nat, i: nat)
    requires p <= i <= |specs|
    ensures FirstAppearance(specs, p) <= FirstAppearance(specs, i)
  {
    if p < i {
      FirstAppearancePrefix(specs, p, i - 1);
    }
  }

  lemma {:induction false} FirstAppearanceDistinct(specs: seq<PlayerSpec>, i: nat)
    requires i <= |specs|
    ensures forall j, k :: 0 <= j < k < |FirstAppearance(specs, i)| ==>
      FirstAppearance(specs, i)[j] != FirstAppearance(specs, i)[k]
  {
    if i > 0 {
      FirstAppearanceDistinct(specs, i - 1);
    }
  }

  /** The key order holds no name twice, grows only at its end, and places a name right after
      the names seen before its first occurrence. */
  lemma FirstAppearanceSpec(specs: seq<PlayerSpec>, i: nat)
    requires i <= |specs|
    ensures forall j, k :: 0 <= j < k < |FirstAppearance(specs, i)| ==>
      FirstAppearance(specs, i)[j] != FirstAppearance(specs, i)[k]
    ensures forall p :: 0 <= p <= i ==> FirstAppearance(specs, p) <= FirstAppearance(specs, i)
    ensures forall p :: 0 <= p < i && specs[p].name !in NameSet(specs, p) ==>
      |FirstAppearance(specs, p)| < |FirstAppearance(specs, i)| &&
      FirstAppearance(specs, i)[|FirstAppearance(specs, p)|] == specs[p].name
  {
    FirstAppearanceDistinct(specs, i);
    forall p | 0 <= p <= i
      ensures FirstAppearance(specs, p) <= FirstAppearance(specs, i)
    {
      FirstAppearancePrefix(specs, p, i);
    }
    forall p | 0 <= p < i && specs[p].name !in NameSet(specs, p)
      ensures |FirstAppearance(specs, p)| < |FirstAppearance(specs, i)| &&
        FirstAppearance(specs, i)[|FirstAppearance(specs, p)|] == specs[p].name
    {
      FirstAppearanceMembers(specs, p);
      FirstAppearancePrefix(specs, p + 1, i);
      assert FirstAppearance(specs, p + 1) == FirstAppearance(specs, p) + [specs[p].name];
    }
  }

  /** No later participant among the first `upTo` has the same name as the one at `i`. */
  predicate LastWithName(specs: seq<PlayerSpec>, i: nat, upTo: nat)
    requires i < upTo <= |specs|
  {
    forall k :: i < k < upTo ==> specs[k].name != specs[i].name
  }

  /** The dictionary the comprehension of `init_players` builds from the first `i` participants
      and their agents: each name bound to the agent of its last occurrence. */
  function Registry(specs: seq<PlayerSpec>, agents: seq<Agent>, i: nat): map<string, Agent>
    requires i <= |specs| && i <= |agents|
  {
    if i == 0 then map[] else Registry(specs, agents, i - 1)[specs[i - 1].name := agents[i - 1]]
  }

  /** Agents beyond the first `i` do not affect the registry of the first `i` participants. */
  lemma {:induction false} RegistryExtend(specs: seq<PlayerSpec>, agents: seq<Agent>, agent: Agent, i: nat)
    requires i <= |specs| && i <= |agents|
    ensures Registry(specs, agents + [agent], i) == Registry(specs, agents, i)
  {
    if i > 0 {
      RegistryExtend(specs, agents, agent, i - 1);
      assert (agents + [agent])[i - 1] == agents[i - 1];
    }
  }

  /** The registry's keys are the participants' names. */
  lemma {:induction false} RegistryKeys(specs: seq<PlayerSpec>, agents: seq<Agent>, i: nat)
    requires i <= |specs| && i <= |agents|
    ensures Registry(specs, agents, i).Keys == NameSet(specs, i)
  {
    if i > 0 {
      RegistryKeys(specs, agents, i - 1);
    }
  }

  /** Every name is bound to the agent of the last participant carrying it. */
  lemma {:induction false} RegistryLast(specs: seq<PlayerSpec>, agents: seq<Agent>, i: nat, j: nat)
    requires i <= |specs| && i <= |agents| && j < i && LastWithName(specs, j, i)
    ensures specs[j].name in Registry(specs, agents, i)
    ensures Registry(specs, agents, i)[specs[j].name] == agents[j]
  {
    if j < i - 1 {
      assert specs[i - 1].name != specs[j].name;
      RegistryLast(specs, agents, i - 1, j);
    }
  }

  /** Every binding comes from the last participant carrying that name. */
  lemma {:induction false} RegistryFrom(specs: seq<PlayerSpec>, agents: seq<Agent>, i: nat, n: string)
    requires i <= |specs| && i <= |agents| && n in Registry(specs, agents, i)
    ensures exists j ::
      0 <= j < i && specs[j].name == n && LastWithName(specs, j, i) && Registry(specs, agents, i)[n] == agents[j]
  {
    if n == specs[i - 1].name {
      assert LastWithName(specs, i - 1, i);
    } else {
      RegistryFrom(specs, agents, i - 1, n);
      var j :| 0 <= j < i - 1 && specs[j].name == n && LastWithName(specs, j, i - 1) &&
        Registry(specs, agents, i - 1)[n] == agents[j];
      assert LastWithName(specs, j, i);
    }
  }

  /** When every agent is built from its participant and the agents are distinct, the registry
      binds every participant's name, binds each name to an agent of that name built from the
      last participant carrying it, and binds distinct names to distinct agents. */
  lemma RegistryFacts(specs: seq<PlayerSpec>, agents: seq<Agent>, i: nat)
    requires i <= |specs| && i <= |agents|
    requires forall j :: 0 <= j < i ==> BuiltFrom(agents[j], specs[j])
    requires forall j, k :: 0 <= j < k < i ==> agents[j] != agents[k]
    ensures Registry(specs, agents, i).Keys == NameSet(specs, i)
    ensures forall n :: n in Registry(specs, agents, i) ==> Registry(specs, agents, i)[n].name == n
    ensures forall n, m :: n in Registry(specs, agents, i) && m in Registry(specs, agents, i) && n != m ==>
      Registry(specs, agents, i)[n] != Registry(specs, agents, i)[m]
    ensures forall j :: 0 <= j < i && LastWithName(specs, j, i) ==>
      specs[j].name in Registry(specs, agents, i) && BuiltFrom(Registry(specs, agents, i)[specs[j].name], specs[j])
  {
    RegistryKeys(specs, agents, i);
    forall n | n in Registry(specs, agents, i)
      ensures Registry(specs, agents, i)[n].name == n
    {
      RegistryFrom(specs, agents, i, n);
    }
    forall n, m | n in Registry(specs, agents, i) && m in Registry(specs, agents, i) && n != m
      ensures Registry(specs, agents, i)[n] != Registry(specs, agents, i)[m]
    {
      RegistryFrom(specs, agents, i, n);
      RegistryFrom(specs, agents, i, m);
    }
    forall j | 0 <= j < i && LastWithName(specs, j, i)
      ensures specs[j].name in Registry(specs, agents, i) && BuiltFrom(Registry(specs, agents, i)[specs[j].name], specs[j])
    {
      RegistryLast(specs, agents, i, j);
    }
  }

  /** One participant of `init_players`: its action space, then its agent. */
  method BuildPlayer(spec: PlayerSpec) returns (r: Result<Agent, PyError>)
    ensures r.Ok? <==> Buildable(spec)
    ensures r.Err? ==> r.error == BuildError(spec)
    ensures r.Ok? ==> fresh(r.value) && BuiltFrom(r.value, spec) && r.value.conversation == InitialTranscript(spec.system)
  {
    var space := GetActionSpace(spec.actionSpace);
    if space.Err? {
      return Err(space.error);
    }
    r := NewAgent(spec.name, spec.engine, spec.system, spec.modelArgs, spec.persona, space.value, spec.prolificId);
  }

  /** The agents of the comprehension of `init_players`: each participant's action space and
      agent are built in order, the first failure aborting. */
  method BuildAgents(specs: seq<PlayerSpec>) returns (r: Result<seq<Agent>, PyError>)
    ensures r.Ok? <==> AllBuildable(specs, |specs|)
    ensures r.Err? ==> exists i :: (0 <= i < |specs| && AllBuildable(specs, i) && !Buildable(specs[i]) &&
      r.error == BuildError(specs[i]))
    ensures r.Ok? ==> |r.value| == |specs|
    ensures r.Ok? ==> forall j :: 0 <= j < |specs| ==> BuiltFrom(r.value[j], specs[j])
    ensures r.Ok? ==> forall j, k :: 0 <= j < k < |specs| ==> r.value[j] != r.value[k]
    ensures r.Ok? ==> forall j :: 0 <= j < |specs| ==> fresh(r.value[j])
  {
    var agents: seq<Agent> := [];
    var i := 0;
    while i < |specs|
      invariant 0 <= i <= |specs| && BuiltAgents(specs, agents, i)
      invariant forall j :: 0 <= j < i ==> fresh(agents[j])
    {
      var agent := BuildPlayer(specs[i]);
      if agent.Err? {
        AllBuildableStops(specs, i, |specs|);
        assert AllBuildable(specs, i) && !Buildable(specs[i]) && agent.error == BuildError(specs[i]);
        return Err(agent.error);
      }
      assert agent.value !in agents;
      BuiltAgentsStep(specs, agents, agent.value, i);
      agents := agents + [agent.value];
      i := i + 1;
    }
    r := Ok(agents);
  }

  /** The loop state of `BuildAgents`: the first `i` participants are buildable, and `agents`
      holds distinct agents built from them in order. */
  predicate BuiltAgents(specs: seq<PlayerSpec>, agents: seq<Agent>, i: nat)
    requires i <= |specs|
  {
    |agents| == i && AllBuildable(specs, i) &&
    (forall j :: 0 <= j < i ==> BuiltFrom(agents[j], specs[j])) &&
    (forall j, k :: 0 <= j < k < i ==> agents[j] != agents[k])
  }

  lemma BuiltAgentsStep(specs: seq<PlayerSpec>, agents: seq<Agent>, agent: Agent, i: nat)
    requires i < |specs| && BuiltAgents(specs, agents, i)
    requires Buildable(specs[i]) && BuiltFrom(agent, specs[i]) && agent !in agents
    ensures BuiltAgents(specs, agents + [agent], i + 1)
  {
    var longer := agents + [agent];
    forall j, k | 0 <= j < k < i + 1
      ensures longer[j] != longer[k]
    {
      if k == i {
        assert longer[j] == agents[j];
      }
    }
  }

  /** The dictionary of the comprehension of `init_players`: each agent stored under its
      participant's name in turn; a new name is appended to the key order. */
  method Register(specs: seq<PlayerSpec>, agents: seq<Agent>) returns (players: map<string, Agent>, order: seq<string>)
    requires |agents| == |specs|
    ensures players == Registry(specs, agents, |specs|)
    ensures order == FirstAppearance(specs, |specs|)
    ensures forall n :: n in order <==> n in players
  {
    players := map[];
    order := [];
    var i := 0;
    while i < |specs|
      invariant 0 <= i <= |specs|
      invariant players == Registry(specs, agents, i)
      invariant order == FirstAppearance(specs, i)
      invariant forall n :: n in order <==> n in players
    {
      if specs[i].name !in players {
        order := order + [specs[i].name];
      }
      players := players[specs[i].name := agents[i]];
      i := i + 1;
    }
  }

  /** The comprehension of `init_players`: the players keyed by name, in order of first
      appearance; a repeated name keeps its first position and its last configuration. */
  method BuildPlayers(specs: seq<PlayerSpec>) returns (r: Result<(map<string, Agent>, seq<string>), PyError>)
    ensures r.Ok? <==> AllBuildable(specs, |specs|)
    ensures r.Err? ==> exists i :: (0 <= i < |specs| && AllBuildable(specs, i) && !Buildable(specs[i]) &&
      r.error == BuildError(specs[i]))
    ensures r.Ok? ==> var (players, order) := r.value;
      players.Keys == NameSet(specs, |specs|) && order == FirstAppearance(specs, |specs|) &&
      (forall n :: n in order <==> n in players) &&
      (forall n :: n in players ==> players[n].name == n && fresh(players[n])) &&
      (forall n, m :: n in players && m in players && n != m ==> players[n] != players[m]) &&
      (forall i :: 0 <= i < |specs| && LastWithName(specs, i, |specs|) ==>
        specs[i].name in players && BuiltFrom(players[specs[i].name], specs[i]))
  {
    var agents := BuildAgents(specs);
    if agents.Err? {
      return Err(agents.error);
    }
    var players, order := Register(specs, agents.value);
    RegistryFacts(specs, agents.value, |specs|);
    forall n | n in players
      ensures fresh(players[n])
    {
      RegistryFrom(specs, agents.value, |specs|, n);
    }
    r := Ok((players, order));
  }

  /** `init_players`: the schedule must only mention configured roles, and then the players are
      built. */
  method InitPlayers(specs: seq<PlayerSpec>, transit: seq<string>) returns (r: Result<(map<string, Agent>, seq<string>), PyError>)
    ensures (exists t :: t in transit && t !in Roles(specs)) ==> r == Err(AssertionError)
    ensures r.Ok? <==> (forall t :: t in transit ==> t in Roles(specs)) && AllBuildable(specs, |specs|)
    ensures r.Ok? ==> var (players, order) := r.value;
      players.Keys == NameSet(specs, |specs|) && order == FirstAppearance(specs, |specs|) &&
      (forall n :: n in order <==> n in players) &&
      (forall n :: n in players ==> players[n].name == n && fresh(players[n])) &&
      (forall n, m :: n in players && m in players && n != m ==> players[n] != players[m]) &&
      (forall i :: 0 <= i < |specs| && LastWithName(specs, i, |specs|) ==>
        specs[i].name in players && BuiltFrom(players[specs[i].name], specs[i]))
  {
    if exists t :: t in transit && t !in Roles(specs) {
      return Err(AssertionError);
    }
    r := BuildPlayers(specs);
  }

  /** `Therapy(...)`: the players, then the engine over them, starting at step 0 with the
      settings record alone. */
  method NewTherapy(specs: seq<PlayerSpec>, transit: seq<string>, initMessage: Option<string>, persuasionFlag: bool,
                    wordsLimit: int, taxonomy: seq<TechniqueRecord>) returns (r: Result<Therapy, PyError>)
    ensures (exists t :: t in transit && t !in Roles(specs)) ==> r == Err(AssertionError)
    ensures r.Ok? <==> (forall t :: t in transit ==> t in Roles(specs)) && AllBuildable(specs, |specs|)
    ensures r.Ok? ==> fresh(r.value) && r.value.Valid() && r.value.state == 0 && r.value.donorPrice.None?
    ensures r.Ok? ==> r.value.transit == transit && r.value.taxonomy == taxonomy && r.value.initMessage == initMessage
    ensures r.Ok? ==> r.value.persuasionFlag == persuasionFlag && r.value.wordsLimit == wordsLimit
    ensures r.Ok? ==> r.value.players.Keys == NameSet(specs, |specs|) && r.value.playerOrder == FirstAppearance(specs, |specs|)
    ensures r.Ok? ==> forall n :: n in r.value.playerOrder <==> n in r.value.players
    ensures r.Ok? ==> r.value.gameState == [SettingsRecord(SettingsOf(r.value.players, r.value.playerOrder), None)]
    ensures r.Ok? ==> forall i :: 0 <= i < |specs| && LastWithName(specs, i, |specs|) ==>
      specs[i].name in r.value.players && BuiltFrom(r.value.players[specs[i].name], specs[i])
  {
    var built := InitPlayers(specs, transit);
    if built.Err? {
      return Err(built.error);
    }
    var (players, order) := built.value;
    var therapy := new Therapy(transit, initMessage, persuasionFlag, wordsLimit, taxonomy, players, order);
    r := Ok(therapy);
  }
}
