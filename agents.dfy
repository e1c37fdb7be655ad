/** A conversation participant: its settings, its language-model backend and its running
    transcript. */
module Agents {
  import opened Wrappers
  import opened Utils
  import opened Actions
  import opened Llm

  /** What a transcript entry carries: text (a system prompt or a model reply) or a prompt
      built by an action. */
  datatype Content = Said(reply: Reply) | Directive(prompt: Prompt)

  /** A language model as seen by the engine: it answers a whole transcript. */
  type Model = seq<Message<Content>> -> Result<Reply, PyError>

  /** The transcript a new agent starts with: its system prompt, when it has one. */
  function InitialTranscript(system: string): (t: seq<Message<Content>>)
    ensures system == "" <==> t == []
    ensures t != [] ==> t == [Message("system", Said(Text(system)))]
  {
    if system != "" then [Message("system", Said(Text(system)))] else []
  }

  class Agent {
    const name: string
    const engine: string
    const system: string
    const persona: map<string, string>
    const actionSpace: ActionSpace
    const prolificId: Option<string>
    const backend: Backend
    var conversation: seq<Message<Content>>

    /** Stores the settings; a non-empty system prompt becomes the first transcript entry. */
    constructor (name: string, engine: string, system: string, persona: map<string, string>,
                 actionSpace: ActionSpace, prolificId: Option<string>, backend: Backend)
      ensures this.name == name && this.engine == engine && this.system == system
      ensures this.persona == persona && this.actionSpace == actionSpace
      ensures this.prolificId == prolificId && this.backend == backend
      ensures conversation == InitialTranscript(system)
    {
      this.name := name;
      this.engine := engine;
      this.system := system;
      this.persona := persona;
      this.actionSpace := actionSpace;
      this.prolificId := prolificId;
      this.backend := backend;
      conversation := [];
      new;
      if system != "" {
        UpdateConversationTracking("system", Said(Text(system)));
      }
    }

    /** Appends one entry with the given role; earlier entries are untouched. */
    method UpdateConversationTracking(entity: string, message: Content)
      modifies this`conversation
      ensures conversation == old(conversation) + [Message(entity, message)]
    {
      conversation := conversation + [Message(entity, message)];
    }

    /** Records the prompt as a user entry, then asks the model with the whole transcript,
        the new entry included; a failing model leaves that entry in place. */
    method Chat(message: Prompt, model: Model) returns (r: Result<Reply, PyError>)
      modifies this`conversation
      ensures conversation == old(conversation) + [Message("user", Directive(message))]
      ensures r == model(conversation)
    {
      UpdateConversationTracking("user", Directive(message));
      r := model(conversation);
    }

    function GetPersona(): (p: map<string, string>)
      ensures p == persona
    {
      persona
    }

    function GetConversation(): (c: seq<Message<Content>>)
      reads this
      ensures c == conversation
    {
      conversation
    }

    /** `str(agent)` is the agent's name. */
    function ToString(): (s: string)
      ensures s == name
    {
      name
    }
  }

  /** Builds an agent: the backend is chosen from the engine name and the keys of the model
      arguments first, so an unsupported engine or an unexpected keyword argument fails before
      anything is stored. */
  method NewAgent(name: string, engine: string, system: string, modelArgs: set<string>, persona: map<string, string>,
                  actionSpace: ActionSpace, prolificId: Option<string>) returns (r: Result<Agent, PyError>)
    ensures r.Err? <==> LoadLlmAgent(engine, modelArgs).Err?
    ensures r.Err? ==> r.error == LoadLlmAgent(engine, modelArgs).error
    ensures r.Ok? ==> fresh(r.value) && r.value.backend == LoadLlmAgent(engine, modelArgs).value
    ensures r.Ok? ==> (r.value.name == name && r.value.engine == engine && r.value.system == system &&
      r.value.persona == persona && r.value.actionSpace == actionSpace && r.value.prolificId == prolificId)
    ensures r.Ok? ==> r.value.conversation == InitialTranscript(system)
  {
    var backend := LoadLlmAgent(engine, modelArgs);
    if backend.Err? {
      return Err(backend.error);
    }
    var agent := new Agent(name, engine, system, persona, actionSpace, prolificId, backend.value);
    r := Ok(agent);
  }
}
