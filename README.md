# Therapy conversation engine and survey helpers, in Dafny

This project models the core of a research system in which a simulated or human user talks
with an AI therapist that may try to persuade the user to donate. The model covers:

- The turn engine. A fixed schedule (`transit`) names the participant of each step. A step
  produces that participant's reply, appends it to the participant's transcript and records it
  in the history, whose first entry is a settings record. The step then tests for a pledge of
  the form `donate $<digits>` and advances the step counter. This is the `Therapy` class, which
  merges the turn-taking base and the donation scenario into one class.
- The persuasion-mode reply parser. It reads the `<technique>` and `<response>` tags, with the
  leftmost, shortest match of Python's lazy `(.*?)` group, which cannot cross a newline.
- Participants (`Agent`): their settings, their backend, and an append-only transcript.
- The action strategies: the base and human actions, the catalogue-driven therapy action with
  its two prompt templates, and the dispatch from a configuration to an action space.
- Backend selection by engine name, and the request shaping and stream reading of the
  managed multi-model service adapter.
- The escaping of `$` and `*` in model output and its inverse.
- The human-readable conversation log.
- The web front end's helpers:
  - the word-by-word streaming of a bot message;
  - the masking of an API key;
  - the balanced round-robin sample of detections shown in the survey;
  - the two passes over the survey page's session state that check the reasoning text areas
    and sort ticked from unticked checkboxes.

Python exceptions are values of `Result<_, PyError>`. A language model is a function from a
transcript to a reply. A random draw is a number the caller supplies. A Python generator is
the list of chunks it yields.

The modules follow the source files:

| module | models |
|---|---|
| `Wrappers` | options, results and the exception kinds |
| `Strings` | the `str` operations the code relies on |
| `Utils` | `therapy_system/utils.py` |
| `Actions` | `therapy_system/action/` |
| `Llm` | `therapy_system/agents/llm/` |
| `Agents` | `therapy_system/agents/agents.py` |
| `AlternatingConv` | the history records and the reply parser of `therapy_system/envs/alternating_conv.py` |
| `Conversation` | `therapy_system/envs/conversation.py` |
| `Therapy` | `therapy_system/envs/therapy/therapy.py` and the engine methods of `alternating_conv.py` |
| `TherapyUtils` | `webapp/therapy_utils.py` |
| `FeedbackUtils` | `webapp/feedback_utils.py` |

## Model

| member | source | states |
|---|---|---|
| Utils.EscapeSpecialCharacters | therapy_system/utils.py:3-9 | as written the function is a generator: a string argument yields nothing, and a generator of chunks yields each chunk escaped, in order |
| Utils.EscapeIntended | therapy_system/utils.py:3-9 | the announced behaviour: a string comes back escaped as a string, a generator as a generator of the escaped chunks |
| Utils.RoundTrip | therapy_system/utils.py:4-13 | unescaping the escaped text gives back the original text, for every text |
| Utils.EscapedLength | therapy_system/utils.py:4 | escaping adds exactly one backslash per `$` and per `*` |
| Utils.UnescapeSpecialCharacters | therapy_system/utils.py:11-13 | a text holding neither `\$` nor `\*` comes back unchanged |
| Utils.ChunkRoundTrip | therapy_system/utils.py:5-13 | unescaping every yielded chunk gives back the input chunks, one for one |
| Utils.StringInputIsLost | therapy_system/utils.py:3-9 | a non-empty string sent through the escape function as written comes out as no text at all, while the intended escape keeps it |
| Utils.IntendedRoundTrip | therapy_system/utils.py:3-13 | the intended escape is undone by unescaping, for a string and for every chunk of a generator |
| Strings.Split | webapp/therapy_utils.py:29 | one more part than separators, no part holds the separator, and the parts joined by it give back the text |
| Strings.TrimStart | webapp/therapy_utils.py:27 | only leading copies of the character are removed, all of them |
| Strings.TrimEnd | webapp/therapy_utils.py:27 | only trailing copies of the character are removed, all of them |
| Strings.SortSpec | webapp/feedback_utils.py:31 | sorting distinct strings orders them strictly and keeps each of them exactly once |
| Actions.RenameKeysSpec | therapy_system/action/therapy/therapy.py:11 | a renamed line has exactly the renamed keys of its pairs, and each renamed key carries the value of the last pair renamed to it |
| Actions.RenameKeyDropsPrefix | therapy_system/action/therapy/therapy.py:11 | an `ss_` in front of a key is removed by the renaming |
| Actions.RenameKeyKeepsPlainKeys | therapy_system/action/therapy/therapy.py:11 | a key without `ss_` is kept as it is |
| Actions.LoadTaxonomy | therapy_system/action/therapy/therapy.py:6-13 | one renamed record per catalogue line, in file order |
| Actions.RenameKeys | therapy_system/action/therapy/therapy.py:11 | renaming can merge keys but never adds one: a renamed line has at most one key per pair, and at least one key when it has a pair |
| Actions.TherapyPrompt | therapy_system/action/therapy/therapy.py:15-68 | the plain therapy template exactly when the persuasion flag is false, otherwise the technique template holding the whole catalogue; both embed the user input, as the text the f-string prints, and the word limit |
| Actions.NewTherapyAction | therapy_system/action/therapy/therapy.py:92-97 | no index draws one in range; a negative index gives no strategy; a non-negative index selects that record or raises `IndexError` |
| Actions.Sample | therapy_system/action/therapy/therapy.py:76-80 | base and human spaces give their fixed action; "random" and a `null` index give the record of the draw; an index space builds the action from its index |
| Actions.ConfiguredIndexIgnoresDraw | therapy_system/action/therapy/therapy.py:76-97 | a configured index gives the same action whatever the draw: no strategy for a negative index, that record in range, `IndexError` past the end |
| Actions.RandomReachesEveryTechnique | therapy_system/action/therapy/therapy.py:95-97 | every catalogue record is the strategy of some random draw |
| Actions.SpaceStringNamesSampledTechnique | therapy_system/action/therapy/therapy.py:82-88 | a configured space prints "None" for a negative index and otherwise the technique of the record its samples carry, failing exactly when the index is out of range; "random" prints "Random" |
| Actions.SpaceString | therapy_system/action/therapy/therapy.py:82-88 | only a therapy space with an index other than "random" can fail to print; "random" prints "Random", a `null` index raises `TypeError`, and a printed non-negative index is in range and prints its record's technique |
| Actions.NullIndexDrawsButDoesNotPrint | therapy_system/action/therapy/therapy.py:76-97 | a `null` index samples exactly like "random", yet printing its space raises `TypeError` while "random" prints "Random" |
| Actions.ActionString | therapy_system/action/human_action.py:10-15 | `str` gives `"Human-input"` exactly for a human action |
| Actions.CallWithMessage | therapy_system/action/action.py:13-15 | the one-argument call returns the message unchanged for the base and human actions; a therapy action rejects it |
| Actions.CallWithContext | therapy_system/action/therapy/therapy.py:99-107 | the five-argument call of a therapy action returns the prompt for `str` of the message, the catalogue, the flag and the word limit; the other actions reject it |
| Actions.GeneratorInputIsItsRepr | therapy_system/action/therapy/therapy.py:15-68 | a generator message reaches the prompt only as its repr, so two generators give the same prompt whatever they yield, while a string message is quoted in full |
| Actions.PromptIgnoresStrategy | therapy_system/action/therapy/therapy.py:99-107 | the prompt does not depend on the persona, the transcript or the action's own strategy, and with the flag set it embeds the whole catalogue |
| Actions.GetActionSpace | therapy_system/action/__init__.py:6-13 | "therapy" builds a therapy space from the `"action"` value, `null` included (`KeyError` without it), "human" a human space, any other name `ValueError` |
| Actions.OutOfRangeIndexFailsLate | therapy_system/action/therapy/therapy.py:72-97 | an index past the catalogue is accepted at construction and fails only when sampling |
| Llm.LoadLlmAgent | therapy_system/agents/llm/__init__.py:3-15 | the human backend exactly when the name mentions "human" in any letter case; the only failures are the unsupported engine's `ValueError` and the `TypeError` of an argument key the adapter does not take |
| Llm.LoadLlmAgentSelects | therapy_system/agents/llm/__init__.py:3-15 | a name containing "human" in any letter case selects the human backend whatever the arguments; else one containing "gpt" selects the chat-completion backend with the name unchanged; else a display name selects the managed-service backend with its id; anything else is `ValueError("Unsupported engine: …")`; an adapter whose arguments hold a key other than `temperature`, `max_tokens` and `stream` raises `TypeError` |
| Llm.HumanBeforeGpt | therapy_system/agents/llm/__init__.py:4-9 | a name mentioning both "human" and "gpt" selects the human backend, whatever the arguments |
| Llm.AwsEngine | therapy_system/agents/llm/aws.py:33-34 | a display name becomes its model id; any other engine string passes through |
| Llm.IdsAreNotDisplayNames | therapy_system/agents/llm/aws.py:6-23 | no model id is a display name, so a raw id is rejected by the dispatch and kept by the adapter |
| Llm.PrepareMessages | therapy_system/agents/llm/aws.py:42-50 | an empty list fails; a leading system entry becomes the single system prompt and is dropped; the other entries keep role and order with their content wrapped, so the length drops by one exactly when the first entry is a system entry |
| Llm.PrepareMessagesLossless | therapy_system/agents/llm/aws.py:42-50 | every wrapped message holds exactly one text block, and the system prompt followed by the unwrapped messages gives back the input |
| Llm.PrepareInferenceConfig | therapy_system/agents/llm/aws.py:52-56 | exactly the adapter's token limit and temperature |
| Llm.ConverseRequest | therapy_system/agents/llm/aws.py:58-81 | an empty transcript fails the assertion; otherwise the request carries the adapter's engine, the prepared messages and the adapter's token limit and temperature |
| Llm.Cutoff | therapy_system/agents/llm/aws.py:83-90 | the loop reads up to and including the first stopping event, and every event when none stops it |
| Llm.DeltasAppend | therapy_system/agents/llm/aws.py:86-87 | one more event adds its delta text, if any, at the end |
| Llm.CutoffAt | therapy_system/agents/llm/aws.py:88-90 | the first stopping event at position i ends the loop after i + 1 events |
| Llm.ChatWithStream | therapy_system/agents/llm/aws.py:71-90 | no stream yields nothing; otherwise the delta texts of the events up to the first stopping event, in order |
| Llm.AwsChat | therapy_system/agents/llm/lm_model.py:18-22 | an empty transcript fails; a blocking call raises `AttributeError`, because the escape applies `replace` to the service's message object; a streamed call yields one escaped chunk per delta, each unescaping to its delta |
| Agents.InitialTranscript | therapy_system/agents/agents.py:26-36 | the transcript starts empty exactly when the system prompt is empty, and otherwise holds the one system entry |
| Agents.Agent.constructor | therapy_system/agents/agents.py:14-36 | stores every setting and the chosen backend, and seeds the transcript with the system prompt when there is one |
| Agents.Agent.UpdateConversationTracking | therapy_system/agents/agents.py:41-42 | appends exactly one entry with the given role and content; earlier entries are untouched |
| Agents.Agent.Chat | therapy_system/agents/agents.py:44-47 | appends one user entry before the model call, so it stays even when the call fails, passes the whole new transcript to the model and does not record the reply |
| Agents.Agent.GetPersona | therapy_system/agents/agents.py:49-50 | the stored persona |
| Agents.Agent.GetConversation | therapy_system/agents/agents.py:52-53 | the stored transcript |
| Agents.Agent.ToString | therapy_system/agents/agents.py:38-39 | the agent's name |
| Agents.NewAgent | therapy_system/agents/agents.py:14-36 | fails exactly when the backend dispatch on the engine and the keys of the model arguments fails, with its error; otherwise a fresh agent holding the settings, the dispatched backend and the seeded transcript |
| AlternatingConv.ReadIterationMessage | therapy_system/envs/alternating_conv.py:64-68 | an index past the history raises `IndexError`; otherwise the record's response, and `""` for a record without one |
| AlternatingConv.UpdateLast | therapy_system/envs/alternating_conv.py:203-215 | an empty history raises `IndexError`; otherwise only the last record's outcome is overwritten (a settings record keeps its settings and gains the outcome), the length and every earlier record are kept, and reading the last record gives the new response |
| AlternatingConv.CloseFromSpec | therapy_system/envs/alternating_conv.py:83-84 | the lazy group ends at the first closing tag after the opening one, with no newline and no earlier closing tag in between; when there is none, a newline comes before every later closing tag |
| AlternatingConv.NoOpenNoMatch | therapy_system/envs/alternating_conv.py:83-84 | nothing matches at a position without the opening tag |
| AlternatingConv.NoCloseNoMatch | therapy_system/envs/alternating_conv.py:83-84 | nothing matches at an opening tag whose group meets a newline before a closing tag |
| AlternatingConv.FirstCloseMatches | therapy_system/envs/alternating_conv.py:83-84 | at an opening tag the first closing tag gives a match, and the shortest capture there |
| AlternatingConv.SearchFromSpec | therapy_system/envs/alternating_conv.py:83-84 | the search from a position finds the leftmost match start and the shortest capture at it, or reports that no position matches |
| AlternatingConv.Search | therapy_system/envs/alternating_conv.py:83-84 | a capture is found exactly when the pattern occurs, and it is the leftmost, shortest one, as `re.search` with a lazy group reports it |
| AlternatingConv.FirstCaptureUnique | therapy_system/envs/alternating_conv.py:83-84 | the leftmost, shortest capture is unique |
| AlternatingConv.ExtractPersuasionResponse | therapy_system/envs/alternating_conv.py:74-103 | a chunked reply is joined first; the technique is present exactly when its tags match and is then their first capture; the response is the first capture of its tags, or the whole text when they do not match (the four cases) |
| AlternatingConv.TaggedReplyExample | therapy_system/envs/alternating_conv.py:79-103 | a reply in the demanded tagged format splits into its technique and its response text |
| Conversation.Column | therapy_system/envs/conversation.py:126 | a column that can be built has one string per element |
| Conversation.ColumnSpec | therapy_system/envs/conversation.py:123-131 | the column of `str` values is built exactly when every element can be shown, and then holds their strings in order; otherwise the first element that cannot be shown decides the error |
| Conversation.SettingsBlock | therapy_system/envs/conversation.py:132-136 | a participant block opens with `Player <i+1> Settings:` and ends with a blank line |
| Conversation.TurnBlock | therapy_system/envs/conversation.py:142-152 | a turn block opens with `Current Iteration: ` and ends with a blank line |
| Conversation.TurnText | therapy_system/envs/conversation.py:139-152 | a record labelled "END" renders as nothing, a turn record as its four-line block, and a settings record raises `KeyError` |
| Conversation.JoinedFails | therapy_system/envs/conversation.py:139-152 | joining the turn blocks fails exactly when some record cannot be rendered |
| Conversation.RenderLog | therapy_system/envs/conversation.py:113-159 | an empty history raises `IndexError`, a history without a settings record first raises `KeyError`; otherwise the log is built exactly when every action space prints and every later record renders |
| Conversation.TurnsTextFailsExactly | therapy_system/envs/conversation.py:139-152 | rendering the later records fails exactly when one of them is a settings record |
| Conversation.LogStartsWithHeader | therapy_system/envs/conversation.py:117-122 | every rendered log opens with `Game Settings` and a blank line |
| Conversation.LogAppendTurn | therapy_system/envs/conversation.py:139-152 | a turn recorded later adds exactly its own block at the end of the log |
| Conversation.EndRecordsAreSkipped | therapy_system/envs/conversation.py:140-141 | a record labelled "END" leaves the log unchanged |
| Conversation.LogHumanReadableState | therapy_system/envs/conversation.py:113-159 | the log accumulated block by block is the rendered log |
| Conversation.AppendSettingsBlocks | therapy_system/envs/conversation.py:123-136 | one block per participant is appended, as many as the shortest settings column |
| Conversation.ShowEach | therapy_system/envs/conversation.py:126 | the strings are built one by one, stopping at the first failure, giving the column |
| Conversation.AppendEach | therapy_system/envs/conversation.py:139-152 | the turn blocks are appended one by one, stopping at the first failure, giving the joined text |
| Therapy.FindDonate | therapy_system/envs/therapy/therapy.py:58-62 | the position found is the first occurrence of `donate $` and a digit at or after the start; none is found only when there is no such occurrence |
| Therapy.ContainsDonateAmount | therapy_system/envs/therapy/therapy.py:58-62 | true exactly when the text holds `donate $` followed by a digit somewhere |
| Therapy.DigitRun | therapy_system/envs/therapy/therapy.py:73 | the captured run is a slice of digits at the position, and it stops at the end of the text or at a non-digit |
| Therapy.DonorPrice | therapy_system/envs/therapy/therapy.py:73 | an amount is captured exactly when the text contains a pledge, and it is a non-empty string of digits |
| Therapy.DonorPriceIsFirstPledge | therapy_system/envs/therapy/therapy.py:73 | the captured amount is the whole digit run after the first pledge in the text |
| Therapy.RecordDonation | therapy_system/envs/therapy/therapy.py:67-75 | a settings record raises `KeyError`, an assistant's record gives no pledge, a streamed reply raises `TypeError`, and a text reply gives its pledged amount if it has one |
| Therapy.EndState | therapy_system/envs/therapy/therapy.py:64-75 | up to three records there is no verdict; beyond that the verdict is the test on the next-to-last record |
| Therapy.VerdictOnPledge | therapy_system/envs/therapy/therapy.py:55-56 | a step ends the conversation exactly when the record before the newest one pledges; the reward is the pledged amount when it ends and none otherwise |
| Therapy.LatestRecordIgnored | therapy_system/envs/therapy/therapy.py:67 | whatever the newest record says, the verdict is the same |
| Therapy.EndStateAfter | therapy_system/envs/therapy/therapy.py:65-67 | after a record is added, the test reads the record that was last before it |
| Therapy.AfterEndStateMessage | therapy_system/envs/therapy/therapy.py:77-78 | the thank-you message quotes the pledged amount after a dollar sign |
| Therapy.Roles | therapy_system/envs/therapy/therapy.py:37 | one role per participant, in order |
| Therapy.AppendTurnKeepsWellFormed | therapy_system/envs/alternating_conv.py:183-201 | recording the scheduled participant's turn at the current step keeps the history one record per step, in schedule order |
| Therapy.TestLooksTwoStepsBack | therapy_system/envs/therapy/therapy.py:64-75 | the test at step `k` reads the turn of step `k - 2` by the participant scheduled then |
| Therapy.OnlyUserStepsTest | therapy_system/envs/therapy/therapy.py:68-69 | with the schedule alternating assistant and user, the steps that read an assistant's turn find no pledge, and the others read a user's turn |
| Therapy.Therapy.constructor | therapy_system/envs/therapy/therapy.py:21-34 | the engine starts at step 0 with no pledge and a history holding only the settings record of the players |
| Therapy.Therapy.SampleAction | therapy_system/envs/alternating_conv.py:70-72 | past the schedule `IndexError`, a scheduled name that is not a participant `KeyError`; otherwise that participant's space draws, and nothing changes |
| Therapy.Therapy.Parse | therapy_system/envs/alternating_conv.py:131-139 | without persuasion the reply is returned as it is; with persuasion the reply becomes the extracted technique and a one-chunk generator of the extracted response |
| Therapy.Therapy.GetResponse | therapy_system/envs/alternating_conv.py:114-139 | past the schedule `IndexError`; the opening message on the first step when there is one; otherwise the scheduled participant is sent the action's prompt over the last message, its persona and its transcript, and its reply is parsed |
| Therapy.Therapy.IsEndState | therapy_system/envs/therapy/therapy.py:64-75 | reports the verdict on the history, raises its error, and remembers the amount when a pledge is found and only then |
| Therapy.Therapy.GetReward | therapy_system/envs/therapy/therapy.py:55-56 | the pledged amount when the test passes, `0` when it does not, the test's error otherwise |
| Therapy.Therapy.AfterEndState | therapy_system/envs/therapy/therapy.py:77-78 | fails with `AttributeError` exactly when no pledge was ever found, and otherwise quotes it |
| Therapy.Therapy.GetInfo | therapy_system/envs/alternating_conv.py:175-178 | the scheduled participant's name; `IndexError` past the schedule, and an error for a scheduled name that is not a participant |
| Therapy.Therapy.IsTruncatedState | therapy_system/envs/alternating_conv.py:180-181 | the schedule is used up exactly when `get_info` can no longer index it |
| Therapy.Therapy.WriteGameState | therapy_system/envs/alternating_conv.py:183-201 | exactly one record of the current step is appended, the rest of the history unchanged |
| Therapy.Therapy.UpdateGameState | therapy_system/envs/alternating_conv.py:203-215 | an empty history raises `IndexError`; otherwise only the last record's outcome is overwritten, and a well-formed engine stays well formed |
| Therapy.Therapy.GetNextPlayer | therapy_system/envs/alternating_conv.py:217-218 | the step counter advances by one and nothing else changes |
| Therapy.Therapy.LogState | therapy_system/envs/conversation.py:101-107 | the log written is the rendered human-readable log of the history |
| Therapy.Therapy.Respond | therapy_system/envs/alternating_conv.py:148-151 | a given response is taken with the given technique; otherwise the result and the transcript are those of `get_response`: the opening message, or the prompt is sent and the model's reply parsed |
| Therapy.Therapy.Step | therapy_system/envs/alternating_conv.py:142-173 | past the schedule `IndexError`; the turn is the given response and technique or what `get_response` produces, and its failure is the step's; the transcript gains the sent prompt, if any, and the produced reply even when the step then fails; on success exactly one record with the turn's technique and reply is appended, the verdict is the test on the earlier history, the step counter advances and the step is never truncated; on failure the history, the counter and the pledge are unchanged |
| Therapy.Therapy.Judge | therapy_system/envs/alternating_conv.py:155-159 | the verdict and reward are those of the test on the history, and a pledge is remembered only when the conversation ends |
| Therapy.Therapy.RecordTurn | therapy_system/envs/alternating_conv.py:153-173 | succeeds exactly when the test does, then appends the turn's record and advances; otherwise nothing is recorded |
| Therapy.SettingsOf | therapy_system/envs/therapy/therapy.py:26-31 | the settings list the players in key order with each one's engine, action space and participant id at the same position |
| Therapy.Names | therapy_system/envs/therapy/therapy.py:41 | one name per participant, in order |
| Therapy.ScheduleNamesParticipants | therapy_system/envs/therapy/therapy.py:37-41 | when each participant's name is its role, the schedule check guarantees that every scheduled entry is a key of the players |
| Therapy.RoleCheckDoesNotCoverNames | therapy_system/envs/therapy/therapy.py:37-41 | a participant whose name differs from its role passes the schedule check and is still not a key of the players |
| Therapy.AllBuildableSpec | therapy_system/envs/therapy/therapy.py:40-52 | the first `i` participants are buildable exactly when each of them is |
| Therapy.FirstAppearance | therapy_system/envs/therapy/therapy.py:40-52 | the key order has at most one entry per participant |
| Therapy.FirstAppearanceMembers | therapy_system/envs/therapy/therapy.py:40-52 | the key order holds exactly the participants' names |
| Therapy.FirstAppearanceSpec | therapy_system/envs/therapy/therapy.py:40-52 | the key order holds no name twice, only grows at its end as participants are added, and places each name right after the names seen before its first occurrence |
| Therapy.NameSet | therapy_system/envs/therapy/therapy.py:41 | a name belongs to the set exactly when one of the first `i` participants carries it |
| Therapy.RegistryExtend | therapy_system/envs/therapy/therapy.py:40-52 | agents built later do not change the players built so far |
| Therapy.RegistryKeys | therapy_system/envs/therapy/therapy.py:40-52 | the players' keys are exactly the participants' names |
| Therapy.RegistryLast | therapy_system/envs/therapy/therapy.py:40-52 | a name is bound to the agent of the last participant carrying it |
| Therapy.RegistryFrom | therapy_system/envs/therapy/therapy.py:40-52 | every binding comes from the last participant carrying that name |
| Therapy.RegistryFacts | therapy_system/envs/therapy/therapy.py:40-52 | each key is bound to an agent of that name built from the last participant carrying it, and distinct keys to distinct agents |
| Therapy.BuildPlayer | therapy_system/envs/therapy/therapy.py:41-50 | a participant is built exactly when its action space and then its backend (engine and model-argument keys) can be, failing with the first error; the agent carries its configuration, its backend and a fresh transcript |
| Therapy.BuildAgents | therapy_system/envs/therapy/therapy.py:40-52 | succeeds exactly when every participant can be built; otherwise the error is that of the first one that cannot; the agents are distinct and carry their configurations |
| Therapy.Register | therapy_system/envs/therapy/therapy.py:40-52 | the dictionary binds each name to its last agent, and the key order is the names in order of first appearance |
| Therapy.BuildPlayers | therapy_system/envs/therapy/therapy.py:40-53 | on success the keys are the names in order of first appearance, each bound to a distinct fresh agent of that name built from the last participant carrying it |
| Therapy.InitPlayers | therapy_system/envs/therapy/therapy.py:36-53 | a scheduled role that no participant has raises `AssertionError`; otherwise the players are built, keyed in order of first appearance |
| Therapy.NewTherapy | therapy_system/envs/therapy/therapy.py:10-34 | fails exactly when the schedule check or a participant fails; otherwise a valid engine at step 0 storing the schedule, opening message, persuasion flag, word limit and catalogue, with the players in order of first appearance and a history of the one settings record written from them |
| TherapyUtils.StreamData | webapp/therapy_utils.py:26-31 | one chunk per space-separated word of the quote-stripped, `$`-escaped message, each followed by a space; joined, the chunks give that text plus a space |
| TherapyUtils.YieldWords | webapp/therapy_utils.py:29-31 | each word is followed by a space, in order, and the chunks join to the words joined by spaces plus a space |
| TherapyUtils.ChunksAreWords | webapp/therapy_utils.py:29-31 | every chunk ends with its space and holds no other space |
| TherapyUtils.StreamTextSpec | webapp/therapy_utils.py:27-28 | replacing `\$` by `$` in the streamed text gives back the message without surrounding quotes; the streamed text is empty exactly when that is, and neither starts nor ends with a quote |
| TherapyUtils.Stars | webapp/therapy_utils.py:15 | `n` stars, and none for a negative `n` |
| TherapyUtils.MaskedKey | webapp/therapy_utils.py:10-18 | an empty key takes the error branch and gets no mask; every other key gets one |
| TherapyUtils.MaskHidesMiddle | webapp/therapy_utils.py:14-15 | a key of six or more characters keeps its length and its first and last three characters, and every other character is a star |
| TherapyUtils.ShortKeyRevealed | webapp/therapy_utils.py:14-15 | a key of at most six characters can be read back whole from its mask |
| FeedbackUtils.CategoryOf | webapp/feedback_utils.py:26 | exactly the keys whose detection has a `category` field get a category |
| FeedbackUtils.CategoriesSpec | webapp/feedback_utils.py:24-31 | the categories iterated are those of the detections, sorted and distinct, and each holds at least one detection |
| FeedbackUtils.GroupedSpec | webapp/feedback_utils.py:24-38 | list `i` holds the detections of the `i`-th sorted category, and the round robin over the lists visits every detection exactly once |
| FeedbackUtils.CategoryVisitedOnce | webapp/feedback_utils.py:25-26 | the round robin visits the detections of each category once each, in dictionary order |
| FeedbackUtils.EntriesSpec | webapp/feedback_utils.py:37 | the sampled dictionary holds exactly the sampled keys, each with its detection unchanged |
| FeedbackUtils.SampleSpec | webapp/feedback_utils.py:29-39 | once there are more detections than places, the sample holds exactly `max_display` distinct detections of the input, each unchanged, and none for a negative `max_display` |
| FeedbackUtils.SampleFair | webapp/feedback_utils.py:30-38 | each category contributes its first detections in dictionary order; two categories differ by at most one detection unless the smaller has run out; a category sorted earlier never has fewer unless it has run out |
| FeedbackUtils.TakenFair | webapp/feedback_utils.py:30-38 | at every point of the round robin no list is taken past its end, and the counts taken from the lists stay balanced |
| FeedbackUtils.DrawnSpec | webapp/feedback_utils.py:36-37 | keys drawn one by one without repetition from the detections are exactly a repetition-free sequence of keys of the detections |
| FeedbackUtils.GroupByCategory | webapp/feedback_utils.py:24-26 | a detection without a `category` raises `KeyError`; otherwise each category's list holds its keys in dictionary order, the categories in order of first appearance |
| FeedbackUtils.SampleRound | webapp/feedback_utils.py:31-38 | one pass over the sorted categories: it stops with the first `max_display` keys of the round robin, or it takes one key from each list that is not empty and keeps the sampling state of the next round |
| FeedbackUtils.PickRounds | webapp/feedback_utils.py:29-39 | the sampling loop returns the first `max_display` keys of the round robin over the sorted categories, each with its detection |
| FeedbackUtils.SamplingStart | webapp/feedback_utils.py:29 | before the first round nothing is sampled and every list is whole |
| FeedbackUtils.SamplingEnd | webapp/feedback_utils.py:30-39 | when the loop ends, the sample is the first `max_display` keys of the round robin |
| FeedbackUtils.GetSurveySample | webapp/feedback_utils.py:14-39 | all the detections when they fit; otherwise `KeyError` exactly when a detection lacks a `category`, and the round-robin sample over the sorted categories when none does |
| FeedbackUtils.Registered | webapp/feedback_utils.py:403 | a key set on the session keeps the keys distinct and adds exactly that key |
| FeedbackUtils.Session.constructor | webapp/feedback_utils.py:194-197 | the session starts with the page's entries and both selection sets empty |
| FeedbackUtils.Session.Set | webapp/feedback_utils.py:403-405 | the key takes the new value, a new key goes last, and nothing else changes |
| FeedbackUtils.Session.ValidateReasoning | webapp/feedback_utils.py:395-405 | the flag is set to whether some reasoning text area with the prefix and suffix is still empty, and nothing else changes |
| FeedbackUtils.Session.FixUserSelections | webapp/feedback_utils.py:275-290 | both flags are set, and every checkbox's detection key joins the selections when ticked and the non-selections when not |
| FeedbackUtils.SortCheckboxes | webapp/feedback_utils.py:284-290 | the ticked set holds the detection keys of the ticked checkboxes and the unticked set those of the others |
| FeedbackUtils.KeyPart | webapp/feedback_utils.py:286 | the part after `checkbox_` up to its first underscore, and all of it when it has none |
| FeedbackUtils.PickedSpec | webapp/feedback_utils.py:284-290 | a key is picked exactly when some checkbox with that tick state carries it |
| FeedbackUtils.SelectionsPartition | webapp/feedback_utils.py:284-290 | when detection keys hold no underscore, each checkbox's key lands in exactly one of the two sets, the one its tick decides |
| FeedbackUtils.ReasoningKeyMatches | webapp/feedback_utils.py:312 | the text area drawn for a detection is one the validation checks |
| FeedbackUtils.NecessaryIgnoresUnnecessary | webapp/feedback_utils.py:400 | the check for necessary reasons never looks at a text area for unnecessary ones |
| FeedbackUtils.ReasoningBlocks | webapp/feedback_utils.py:399-405 | an empty text area blocks submission, and once every text area holds text submission is open |

## Left out

- Files and directories: writing the log file, creating the log directory and building the timestamped log path in `therapy_system/envs/conversation.py`. `Therapy.Therapy.LogState` returns the log text instead of writing it.
- Network calls: the managed service's client calls, the OpenAI adapter and `generate_response`. A language model is a function parameter, and a stream is a given list of events. `therapy_system/agents/llm/openai.py` is not part of this model.
- Llm.AwsChat: the blocking path's `AttributeError` is raised by the returned generator when its consumer first reads it, not by the call, and the model reports it as the call's result. Where the consumer reads at once, as the webapp pages do with `''.join(response)` right after `get_response`, nothing falls between the two. In a step without persuasion it does not: `step` gets the generator back unread (therapy_system/envs/alternating_conv.py:150-151), appends it to the acting participant's transcript (:153), writes a history record holding it (:161-168) and advances the step counter (:171), and only a later reader of that record or transcript meets the error. The adapter's default is `stream=False` (therapy_system/agents/llm/aws.py:31), so any AWS participant without a `stream` argument takes this path.
- Therapy.Therapy.Step: for the blocking AWS path above, the model's step fails with `AttributeError` and leaves the history, the step counter and the pledge unchanged, where the source completes the step with the unread generator as the reply.
- Agents.NewAgent: only the keys of `model_args` are modelled, which decide the `TypeError` of an unexpected keyword. The values (temperature, token limit, stream flag) are not carried into the backend, so `Llm.AwsChat` takes the adapter's settings as a parameter rather than from the agent.
- Therapy.BuildPlayer: the same holds for a participant's `model_args`; its keys reach `Llm.LoadLlmAgent`, its values are not kept.
- Participant configuration: `Therapy.PlayerSpec` always carries `name`, `engine`, `system`, `role` and `action_space`, and its action-space entry always carries `"name"`. The `KeyError` that a participant dict missing one of them raises (therapy_system/envs/therapy/therapy.py:37, 41-44, 47), or an action-space entry without `"name"` raises (therapy_system/action/__init__.py:7), is not modelled. The missing `"action"` key inside `action_space` is modelled by `Actions.GetActionSpace`.
- Actions.GetActionSpace: an `"action"` value is "random", an integer or `null`. Any other JSON value (another string, a float, a list) is not modelled.
- Actions.ActionTypeValue and Actions.ActionTypeString are plain definitions of the one-member enumeration, without a contract: nothing else in the core uses the enumeration.
- Therapy.FindDonate: `\d` in a pattern over a Python `str` matches every Unicode decimal digit, while the model's digit class is `0`-`9` (`Strings.IsDigit`). A pledge written with other decimal digits, such as `donate $٣`, is found by the source and not by the model.
- Therapy.ContainsDonateAmount: ASCII digits only, as for `Therapy.FindDonate`.
- Therapy.DigitRun: the run stops at the first character outside `0`-`9`, where the source's `\d+` continues over any decimal digit.
- Therapy.DonorPrice: ASCII digits only, as for `Therapy.FindDonate`.
- Therapy.DonorPriceIsFirstPledge: ASCII digits only, as for `Therapy.FindDonate`.
- Therapy.RecordDonation: this test and every verdict built on it (`Therapy.EndState`, `Therapy.Verdict` and the engine's test, reward and step) inherit the ASCII digit class.
- `time.sleep` in `stream_data`, and every `print` and `logging` call. `secure_log_api_key` returns `None`, so `TherapyUtils.MaskedKey` is the mask it builds.
- Randomness: the draw of `random.randint` is a caller-supplied index into the catalogue.
- Reading the technique catalogue file and parsing its JSON lines: `Actions.LoadTaxonomy` takes the parsed key/value pairs of each line.
- Actions.TherapyPrompt: the wording of the two prompt templates is not reproduced. A prompt is a value that names its template and the user input, catalogue and word limit it embeds. The user input is embedded as the f-string prints it (`Utils.ReplyString`): a string in full, a generator as its repr. The repr's object address is not modelled.
- Python's `re` engine: the patterns `donate \$\d+`, `donate \$(\d+)`, `<technique>(.*?)</technique>` and `<response>(.*?)</response>` are written out as searches on strings.
- Generators are finite lists of chunks, so lazy evaluation is not modelled: when a generator's chunks are produced relative to other effects. In particular the streaming adapter's `_chat_with_stream` runs `prepare_messages` on the transcript list only when first read (therapy_system/agents/llm/aws.py:71-74). By then `step` has appended the assistant entry holding that very generator to the same list (therapy_system/envs/alternating_conv.py:153), so the source's request sees the aliased, longer transcript. `Agents.Agent.Chat` instead passes the model a snapshot of the transcript at the call. A generator's `repr` is a fixed string without the object's address, and so is an object's default `repr`.
- Conversation.RenderLog: the settings record always holds the four per-participant lists that the engine writes. The rule that skips settings values that are not lists therefore never applies and is not modelled.
- The Streamlit pages and widgets, Firebase storage, `store_feedback`, `setup_survey_config` and the rest of the survey rendering in `webapp/feedback_utils.py`. The session state is a map from keys to `FeedbackUtils.Value`s, which keep only what their truth value depends on. The selection sets are fields of `FeedbackUtils.Session`.
- The environment factory in `therapy_system/envs/__init__.py`. The example driver script is not part of this model.
- The turn-taking base class and the donation scenario are one class, `Therapy.Therapy`. Only the scenario is ever built, and its constructor replaces the history the base class sets up.
- Integer widths: Python integers are unbounded, and so are Dafny's.

## Findings

| source | as written | input that shows it | evidently intended | confidence | as-written member | corrected member |
|---|---|---|---|---|---|---|
| therapy_system/utils.py:3-9 | the function body contains `yield`, so every call returns a generator; for a string argument the `return rules(text)` branch only ends that generator, and the escaped string is lost | `escape_special_characters("a")` yields nothing, so `''.join(...)` of it is `""` | a string comes back escaped as a string, and a generator as a generator of escaped chunks, as the type annotation and the `return` announce | not executed | Utils.StringInputIsLost | Utils.IntendedRoundTrip |

`Llm.AwsChat` keeps the escape as written, because it models the adapter as the source runs
it. Its blocking path fails under either escape, since the service's message object has no
`replace`.
