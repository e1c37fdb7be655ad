/** Backend selection for a participant's language model, and the request shaping and stream
    reading of the managed multi-model service adapter. The network calls themselves are not
    part of this model. */
module Llm {
  import opened Wrappers
  import opened Strings
  import opened Utils

  /** Display names of the managed service's models and the model ids they stand for. */
  const AwsModelsMapping: map<string, string> := map[
    "Claude 3 Sonnet" := "anthropic.claude-3-sonnet-20240229-v1:0",
    "Claude 3 Haiku" := "anthropic.claude-3-haiku-20240307-v1:0",
    "Claude 3.5 Sonnet" := "anthropic.claude-3-5-sonnet-20240620-v1:0",
    "Command-R" := "cohere.command-r-v1:0",
    "Command-R Plus" := "cohere.command-r-plus-v1:0",
    "LLaMA-3-8B-Instruct" := "meta.llama3-8b-instruct-v1:0",
    "LLaMA-3-70B-Instruct" := "meta.llama3-70b-instruct-v1:0",
    "Mistral-7B-Instruct" := "mistral.mistral-7b-instruct-v0:2",
    "Mixtral-8x7B-Instruct" := "mistral.mixtral-8x7b-instruct-v0:1",
    "Mistral Large" := "mistral.mistral-large-2402-v1:0",
    "Mistral Small" := "mistral.mistral-small-2402-v1:0"
  ]

  /** The adapter `load_llm_agent` constructs, reduced to its kind and engine string. */
  datatype Backend = HumanBackend | OpenAIBackend(engine: string) | AwsBackend(modelId: string)

  /** The keyword parameters both adapter constructors take after the engine. */
  const KeywordParameters: set<string> := {"temperature", "max_tokens", "stream"}

  /** `load_llm_agent(model_name, args)`, with `args` reduced to its keys: case-insensitive
      substring tests, "human" before "gpt", then an exact lookup among the managed service's
      display names. The human stub ignores `args`; the two adapters receive `**args`, and a key
      that is not one of their keyword parameters (the engine included, which is already given
      positionally) raises `TypeError`. */
  function LoadLlmAgent(modelName: string, argKeys: set<string>): (r: Result<Backend, PyError>)
    ensures r.Ok? && r.value.HumanBackend? <==> Contains(Lower(modelName), "human")
    ensures r.Err? ==> r.error == TypeError || r.error == ValueError("Unsupported engine: " + modelName)
    ensures r == Err(TypeError) ==> !(argKeys <= KeywordParameters)
  {
    var lowered := Lower(modelName);
    if Contains(lowered, "human") then Ok(HumanBackend)
    else if Contains(lowered, "gpt") then
      if argKeys <= KeywordParameters then Ok(OpenAIBackend(modelName)) else Err(TypeError)
    else if modelName in AwsModelsMapping then
      if argKeys <= KeywordParameters then Ok(AwsBackend(AwsModelsMapping[modelName])) else Err(TypeError)
    else Err(ValueError("Unsupported engine: " + modelName))
  }

  /** The selection rule: a name mentioning "human" in any letter case is the human stub, one
      mentioning "gpt" the OpenAI adapter, a display name of the managed service its model id,
      and every other name is rejected; an adapter is built only when every argument key is one
      of its keyword parameters. */
  lemma LoadLlmAgentSelects(modelName: string, argKeys: set<string>)
    ensures Contains(Lower(modelName), "human") ==> LoadLlmAgent(modelName, argKeys) == Ok(HumanBackend)
    ensures !Contains(Lower(modelName), "human") && Contains(Lower(modelName), "gpt") ==>
      LoadLlmAgent(modelName, argKeys) == if argKeys <= KeywordParameters then Ok(OpenAIBackend(modelName)) else Err(TypeError)
    ensures !Contains(Lower(modelName), "human") && !Contains(Lower(modelName), "gpt") ==>
      LoadLlmAgent(modelName, argKeys) ==
        if modelName !in AwsModelsMapping then Err(ValueError("Unsupported engine: " + modelName))
        else if argKeys <= KeywordParameters then Ok(AwsBackend(AwsModelsMapping[modelName]))
        else Err(TypeError)
  {
  }

  /** The engine string the managed-service adapter keeps: a display name becomes its id, any
      other string is kept. */
  function AwsEngine(engine: string): (r: string)
    ensures engine in AwsModelsMapping ==> r == AwsModelsMapping[engine]
    ensures engine !in AwsModelsMapping ==> r == engine
  {
    if engine in AwsModelsMapping then AwsModelsMapping[engine] else engine
  }

  /** Only display names are keys: no model id is itself a display name. So a raw id is not
      recognised by `load_llm_agent` through the mapping, and the id `load_llm_agent` hands to
      the adapter passes through the adapter's own mapping unchanged. */
  lemma IdsAreNotDisplayNames()
    ensures forall name :: name in AwsModelsMapping ==> AwsModelsMapping[name] !in AwsModelsMapping
    ensures forall name :: name in AwsModelsMapping ==> AwsEngine(AwsModelsMapping[name]) == AwsModelsMapping[name]
  {
    DisplayNamesAreCapitalised();
    IdsAreLowerCase();
  }

  lemma DisplayNamesAreCapitalised()
    ensures forall k :: k in AwsModelsMapping ==> |k| > 0 && 'A' <= k[0] <= 'Z'
  {
  }

  lemma IdsAreLowerCase()
    ensures forall k :: k in AwsModelsMapping ==> |AwsModelsMapping[k]| > 0 && 'a' <= AwsModelsMapping[k][0] <= 'z'
  {
  }

  /** A name mentioning both "human" and "gpt" selects the human stub, whatever the arguments. */
  lemma HumanBeforeGpt(modelName: string, argKeys: set<string>)
    requires Contains(Lower(modelName), "human") && Contains(Lower(modelName), "gpt")
    ensures LoadLlmAgent(modelName, argKeys) == Ok(HumanBackend)
  {
  }

  // ---- aws.py: request shaping

  /** A chat transcript entry `{"role": ..., "content": ...}`. */
  datatype Message<C> = Message(role: string, content: C)

  /** `{"text": content}` */
  datatype TextBlock<C> = TextBlock(text: C)

  /** `{"role": role, "content": [{"text": content}]}` */
  datatype AwsMessage<C> = AwsMessage(role: string, content: seq<TextBlock<C>>)

  datatype Prepared<C> = Prepared(messages: seq<AwsMessage<C>>, systemPrompts: Option<seq<TextBlock<C>>>)

  function Wrap<C>(m: Message<C>): AwsMessage<C> {
    AwsMessage(m.role, [TextBlock(m.content)])
  }

  /** `prepare_messages`: a leading system entry becomes the single system prompt; every other
      entry keeps its role and order with its content wrapped. An empty list fails on
      `messages[0]`. */
  function PrepareMessages<C>(messages: seq<Message<C>>): (r: Result<Prepared<C>, PyError>)
    ensures messages == [] <==> r.Err?
    ensures r.Err? ==> r.error == IndexError
    ensures r.Ok? && messages[0].role == "system" ==>
      r.value.systemPrompts == Some([TextBlock(messages[0].content)]) &&
      |r.value.messages| == |messages| - 1 &&
      forall i :: 0 <= i < |r.value.messages| ==> r.value.messages[i] == Wrap(messages[i + 1])
    ensures r.Ok? && messages[0].role != "system" ==>
      r.value.systemPrompts.None? &&
      |r.value.messages| == |messages| &&
      forall i :: 0 <= i < |r.value.messages| ==> r.value.messages[i] == Wrap(messages[i])
  {
    if messages == [] then Err(IndexError)
    else
      var system := if messages[0].role == "system" then Some([TextBlock(messages[0].content)]) else None;
      var rest := if messages[0].role == "system" then messages[1..] else messages;
      Ok(Prepared(seq(|rest|, i requires 0 <= i < |rest| => Wrap(rest[i])), system))
  }

  function Unwrap<C>(m: AwsMessage<C>): Message<C>
    requires |m.content| == 1
  {
    Message(m.role, m.content[0].text)
  }

  /** Nothing is lost: every wrapped message holds exactly one text block, and the system prompt
      followed by the unwrapped messages is the input. */
  lemma PrepareMessagesLossless<C>(messages: seq<Message<C>>)
    requires messages != []
    ensures var p := PrepareMessages(messages).value;
      forall i :: 0 <= i < |p.messages| ==> |p.messages[i].content| == 1
    ensures var p := PrepareMessages(messages).value;
      var back := seq(|p.messages|, i requires 0 <= i < |p.messages| => Unwrap(p.messages[i]));
      (if p.systemPrompts.Some? then [Message("system", p.systemPrompts.value[0].text)] else []) + back == messages
  {
    var p := PrepareMessages(messages).value;
    var back := seq(|p.messages|, i requires 0 <= i < |p.messages| => Unwrap(p.messages[i]));
    if messages[0].role == "system" {
      assert [Message("system", p.systemPrompts.value[0].text)] + back == [messages[0]] + messages[1..];
    } else {
      assert back == messages;
    }
  }

  /** The adapter's sampling settings. `temperature` is a Python float. */
  datatype AwsSettings = AwsSettings(engine: string, temperature: real, maxTokens: int, stream: bool)

  datatype InferenceConfig = InferenceConfig(maxTokens: int, temperature: real)

  /** `prepare_inference_config`: exactly the adapter's token limit and temperature. */
  function PrepareInferenceConfig(settings: AwsSettings): (r: InferenceConfig)
    ensures r.maxTokens == settings.maxTokens && r.temperature == settings.temperature
  {
    InferenceConfig(settings.maxTokens, settings.temperature)
  }

  /** What `_chat` and `_chat_with_stream` send to the service. */
  datatype Request<C> = Request(modelId: string, prepared: Prepared<C>, config: InferenceConfig)

  /** The request both chat paths build after `assert len(messages) > 0`. */
  function ConverseRequest<C>(settings: AwsSettings, messages: seq<Message<C>>): (r: Result<Request<C>, PyError>)
    ensures r.Err? <==> messages == []
    ensures r.Err? ==> r.error == AssertionError
    ensures r.Ok? ==> r.value.modelId == settings.engine && Ok(r.value.prepared) == PrepareMessages(messages)
    ensures r.Ok? ==> r.value.config.maxTokens == settings.maxTokens && r.value.config.temperature == settings.temperature
  {
    if |messages| == 0 then Err(AssertionError)
    else Ok(Request(settings.engine, PrepareMessages(messages).value, PrepareInferenceConfig(settings)))
  }

  // ---- aws.py: reading the response stream

  /** One stream event: the text of a `contentBlockDelta`, if any, and whether a `messageStop`
      is present and whether it carries `stop_reason`. */
  datatype Event = Event(delta: Option<string>, messageStop: Option<bool>)

  predicate StopsStream(e: Event) {
    e.messageStop == Some(true)
  }

  /** The number of events the loop reads: up to and including the first stopping event. */
  function Cutoff(events: seq<Event>): (n: nat)
    ensures n <= |events|
    ensures forall k :: 0 <= k < n - 1 ==> !StopsStream(events[k])
    ensures n < |events| ==> n > 0 && StopsStream(events[n - 1])
    ensures (forall k :: 0 <= k < |events| ==> !StopsStream(events[k])) ==> n == |events|
  {
    if events == [] then 0
    else if StopsStream(events[0]) then 1
    else 1 + Cutoff(events[1..])
  }

  /** The delta texts of the given events, in order. */
  function Deltas(events: seq<Event>): seq<string> {
    if events == [] then []
    else (if events[0].delta.Some? then [events[0].delta.value] else []) + Deltas(events[1..])
  }

  lemma {:induction false} DeltasAppend(events: seq<Event>, e: Event)
    ensures Deltas(events + [e]) == Deltas(events) + (if e.delta.Some? then [e.delta.value] else [])
  {
    if events == [] {
      assert events + [e] == [e];
    } else {
      var first, rest := events[0], events[1..];
      var longer := events + [e];
      assert longer[0] == first && longer[1..] == rest + [e];
      DeltasAppend(rest, e);
      assert Deltas(longer) == Deltas([first]) + Deltas(rest + [e]);
    }
  }

  lemma {:induction false} CutoffAt(events: seq<Event>, i: nat)
    requires i < |events| && StopsStream(events[i])
    requires forall k :: 0 <= k < i ==> !StopsStream(events[k])
    ensures Cutoff(events) == i + 1
  {
    if i > 0 {
      CutoffAt(events[1..], i - 1);
    }
  }

  /** `_chat_with_stream`'s loop over the events: yields every delta text in order and stops
      after the first `messageStop` that carries `stop_reason`; no stream yields nothing. */
  method ChatWithStream(stream: Option<seq<Event>>) returns (yielded: seq<string>)
    ensures stream.None? ==> yielded == []
    ensures stream.Some? ==> yielded == Deltas(stream.value[..Cutoff(stream.value)])
  {
    yielded := [];
    if stream.None? || stream.value == [] {
      return;
    }
    var events := stream.value;
    var i := 0;
    while i < |events|
      invariant 0 <= i <= |events|
      invariant forall k :: 0 <= k < i ==> !StopsStream(events[k])
      invariant yielded == Deltas(events[..i])
    {
      var event := events[i];
      if event.delta.Some? {
        yielded := yielded + [event.delta.value];
      }
      DeltasAppend(events[..i], event);
      assert events[..i + 1] == events[..i] + [event];
      if event.messageStop.Some? && event.messageStop.value {
        CutoffAt(events, i);
        return;
      }
      i := i + 1;
    }
    assert events[..i] == events;
  }

  /** The deltas the streaming loop yields for a (possibly absent) stream. */
  function StreamedDeltas(stream: Option<seq<Event>>): seq<string> {
    if stream.None? then [] else Deltas(stream.value[..Cutoff(stream.value)])
  }

  /** `LM_Agent.chat` over the managed-service adapter, given what the service returns:
      `events` is the event stream of a streaming call. Either path hands its result to the
      escape function, so the reply is always a generator. A streamed reply yields the escaped
      deltas, each of which unescapes to the delta itself. The blocking path hands over the
      service's message object, which is neither a generator nor a string: the escape rule's
      `replace` on it raises `AttributeError`. The model reports that error at the call;
      the source raises it only when the returned generator is first read. An empty
      transcript fails the adapter's assertion. */
  function AwsChat<C>(settings: AwsSettings, messages: seq<Message<C>>, stream: Option<seq<Event>>): (r: Result<Reply, PyError>)
    ensures messages == [] <==> r == Err(AssertionError)
    ensures messages != [] && !settings.stream ==> r == Err(AttributeError)
    ensures messages != [] && settings.stream ==>
      r.Ok? && r.value.Chunks? && |r.value.parts| == |StreamedDeltas(stream)| &&
      forall i :: 0 <= i < |r.value.parts| ==> UnescapeSpecialCharacters(r.value.parts[i]) == StreamedDeltas(stream)[i]
  {
    match ConverseRequest(settings, messages)
    case Err(e) => Err(e)
    case Ok(_) =>
      if settings.stream then
        ChunkRoundTrip(StreamedDeltas(stream));
        Ok(Chunks(EscapeSpecialCharacters(Chunks(StreamedDeltas(stream)))))
      else
        Err(AttributeError)
  }
}
