/** Per-turn action strategies: the base action and action space, the human pass-through
    strategy, the catalogue-driven therapy strategy and its two prompt templates, and the
    dispatch from a configuration to an action space. */
module Actions {
  import opened Wrappers
  import opened Strings
  import opened Utils

  // ---- action.py

  /** `ActionType`, an enumeration with the single member `NONE = 0`. */
  datatype ActionType = NONE

  function ActionTypeValue(t: ActionType): int {
    match t
    case NONE => 0
  }

  /** `str(ActionType.NONE)`: the class name, a dot, the member name. */
  function ActionTypeString(t: ActionType): string {
    match t
    case NONE => "ActionType.NONE"
  }

  // ---- the technique catalogue (therapy/therapy.py, module level)

  /** One catalogue line, after its keys were renamed; values are kept as opaque JSON text. */
  type TechniqueRecord = map<string, string>

  /** The renaming applied to every key of a catalogue line: each `ss_` is removed
      (one left-to-right pass of `str.replace`). */
  function RenameKey(k: string): string {
    ReplaceAll(k, "ss_", "")
  }

  /** The dict comprehension over one parsed line: renamed keys, and where two keys rename to
      the same key the later pair wins. */
  function RenameKeys(items: seq<(string, string)>): (r: TechniqueRecord)
    ensures |r| <= |items|
    ensures items != [] ==> r != map[]
  {
    if items == [] then map[]
    else
      var init := RenameKeys(items[..|items| - 1]);
      var k := RenameKey(items[|items| - 1].0);
      assert init[k := items[|items| - 1].1].Keys == init.Keys + {k};
      init[k := items[|items| - 1].1]
  }

  lemma {:induction false} RenameKeysKeys(items: seq<(string, string)>)
    ensures forall k :: k in RenameKeys(items) <==> exists i :: 0 <= i < |items| && RenameKey(items[i].0) == k
  {
    if items != [] {
      var init, last := items[..|items| - 1], items[|items| - 1];
      RenameKeysKeys(init);
      forall k
        ensures k in RenameKeys(items) <==> exists i :: 0 <= i < |items| && RenameKey(items[i].0) == k
      {
        if k == RenameKey(last.0) {
          assert RenameKey(items[|items| - 1].0) == k;
        } else if k in RenameKeys(init) {
          var i :| 0 <= i < |init| && RenameKey(init[i].0) == k;
          assert items[i] == init[i];
        }
        if exists i :: 0 <= i < |items| && RenameKey(items[i].0) == k {
          var i :| 0 <= i < |items| && RenameKey(items[i].0) == k;
          if i < |init| {
            assert items[i] == init[i];
          }
        }
      }
    }
  }

  lemma {:induction false} RenameKeysValues(items: seq<(string, string)>, i: nat)
    requires i < |items|
    requires forall j :: i < j < |items| ==> RenameKey(items[j].0) != RenameKey(items[i].0)
    ensures RenameKey(items[i].0) in RenameKeys(items)
    ensures RenameKeys(items)[RenameKey(items[i].0)] == items[i].1
  {
    if i < |items| - 1 {
      var init := items[..|items| - 1];
      assert init[i] == items[i];
      forall j | i < j < |init|
        ensures RenameKey(init[j].0) != RenameKey(init[i].0)
      {
        assert init[j] == items[j];
      }
      RenameKeysValues(init, i);
    }
  }

  /** The keys of a renamed line are exactly the renamed keys of its pairs, and each carries
      the value of the last pair that renames to it. */
  lemma RenameKeysSpec(items: seq<(string, string)>)
    ensures forall k :: k in RenameKeys(items) <==> exists i :: 0 <= i < |items| && RenameKey(items[i].0) == k
    ensures forall i :: 0 <= i < |items| ==>
      ((forall j :: i < j < |items| ==> RenameKey(items[j].0) != RenameKey(items[i].0)) ==>
        RenameKeys(items)[RenameKey(items[i].0)] == items[i].1)
  {
    RenameKeysKeys(items);
    forall i | 0 <= i < |items| && (forall j :: i < j < |items| ==> RenameKey(items[j].0) != RenameKey(items[i].0))
      ensures RenameKeys(items)[RenameKey(items[i].0)] == items[i].1
    {
      RenameKeysValues(items, i);
    }
  }

  lemma RenameKeyDropsPrefix(k: string)
    ensures RenameKey("ss_" + k) == RenameKey(k)
  {
    ReplaceAllAtMatch("ss_", k, "");
  }

  lemma RenameKeyKeepsPlainKeys(k: string)
    requires !Contains(k, "ss_")
    ensures RenameKey(k) == k
  {
    ReplaceAllAbsent(k, "ss_", "");
  }

  /** The loading loop: one renamed record per catalogue line, in file order. */
  method LoadTaxonomy(lines: seq<seq<(string, string)>>) returns (taxonomy: seq<TechniqueRecord>)
    ensures |taxonomy| == |lines|
    ensures forall i :: 0 <= i < |lines| ==> taxonomy[i] == RenameKeys(lines[i])
  {
    taxonomy := [];
    for n := 0 to |lines|
      invariant |taxonomy| == n
      invariant forall i :: 0 <= i < n ==> taxonomy[i] == RenameKeys(lines[i])
    {
      taxonomy := taxonomy + [RenameKeys(lines[n])];
    }
  }

  // ---- therapy_prompt

  /** The directive prompt. The wording of the two templates is not reproduced; the model keeps
      which template is used and every value embedded in it. `WithTechniques` is the template
      that lists the catalogue and demands the `<technique>`/`<response>` output format. Both
      templates are f-strings, so the user input is embedded as its `str`. */
  datatype Prompt =
    | TherapyOnly(userInput: string, wordsLimit: int)
    | WithTechniques(userInput: string, techniques: seq<TechniqueRecord>, wordsLimit: int)

  function TherapyPrompt(userInput: string, techniques: seq<TechniqueRecord>, persuasionFlag: bool,
                         wordsLimit: int): (p: Prompt)
    ensures p.TherapyOnly? <==> !persuasionFlag
    ensures p.userInput == userInput && p.wordsLimit == wordsLimit
    ensures p.WithTechniques? ==> p.techniques == techniques
  {
    if !persuasionFlag then TherapyOnly(userInput, wordsLimit)
    else WithTechniques(userInput, techniques, wordsLimit)
  }

  // ---- actions and action spaces

  /** The `strategy_idx` of a therapy action space: the string "random", an integer, or
      `None` when the configuration's `"action"` is `null`. */
  datatype StrategyIndex = Random | Index(i: int) | Null

  datatype ActionSpace = BaseSpace | TherapySpace(strategyIdx: StrategyIndex) | HumanSpace

  /** `TherapyAction.strategy` is the selected catalogue record, or `None` for a negative
      index. Neither `Action` nor `HumanAction` stores anything. */
  datatype Action = BaseAction | TherapyAction(strategy: Option<TechniqueRecord>) | HumanAction

  /** `TherapyAction(persuasion_technique)`: `None` draws `random.randint(0, len(TAXONOMY) - 1)`,
      whose result is the caller-supplied `draw`; a negative index selects nothing; an index past
      the catalogue fails. */
  function NewTherapyAction(persuasionTechnique: Option<int>, taxonomy: seq<TechniqueRecord>,
                            draw: nat): (r: Result<Action, PyError>)
    requires persuasionTechnique.None? && taxonomy != [] ==> draw < |taxonomy|
    ensures r.Ok? ==> r.value.TherapyAction?
    ensures persuasionTechnique.None? ==>
      r == if taxonomy == [] then Err(ValueError("empty range for randrange"))
           else Ok(TherapyAction(Some(taxonomy[draw])))
    ensures persuasionTechnique.Some? && persuasionTechnique.value < 0 ==> r == Ok(TherapyAction(None))
    ensures persuasionTechnique.Some? && persuasionTechnique.value >= 0 ==>
      r == if persuasionTechnique.value < |taxonomy| then Ok(TherapyAction(Some(taxonomy[persuasionTechnique.value])))
           else Err(IndexError)
  {
    var idx := if persuasionTechnique.Some? then persuasionTechnique.value else draw;
    if persuasionTechnique.None? && taxonomy == [] then Err(ValueError("empty range for randrange"))
    else if idx < 0 then Ok(TherapyAction(None))
    else if idx < |taxonomy| then Ok(TherapyAction(Some(taxonomy[idx])))
    else Err(IndexError)
  }

  /** A space whose samples are random draws: "random" itself, and `None`, which is not
      "random" but is passed on as the absent technique. */
  predicate Draws(space: ActionSpace) {
    space == TherapySpace(Random) || space == TherapySpace(Null)
  }

  /** `space.sample()`. */
  function Sample(space: ActionSpace, taxonomy: seq<TechniqueRecord>, draw: nat): (r: Result<Action, PyError>)
    requires Draws(space) && taxonomy != [] ==> draw < |taxonomy|
    ensures space.BaseSpace? ==> r == Ok(BaseAction)
    ensures space.HumanSpace? ==> r == Ok(HumanAction)
    ensures space.TherapySpace? ==> r.Ok? ==> r.value.TherapyAction?
    ensures Draws(space) && taxonomy != [] ==> r == Ok(TherapyAction(Some(taxonomy[draw])))
  {
    match space
    case BaseSpace => Ok(BaseAction)
    case HumanSpace => Ok(HumanAction)
    case TherapySpace(Random) => NewTherapyAction(None, taxonomy, draw)
    case TherapySpace(Null) => NewTherapyAction(None, taxonomy, draw)
    case TherapySpace(Index(i)) => NewTherapyAction(Some(i), taxonomy, draw)
  }

  /** A configured index is used on every call whatever the random draw; an index past the
      catalogue fails only here, at sample time. */
  lemma ConfiguredIndexIgnoresDraw(i: int, taxonomy: seq<TechniqueRecord>, d1: nat, d2: nat)
    ensures Sample(TherapySpace(Index(i)), taxonomy, d1) == Sample(TherapySpace(Index(i)), taxonomy, d2)
    ensures i < 0 ==> Sample(TherapySpace(Index(i)), taxonomy, d1) == Ok(TherapyAction(None))
    ensures 0 <= i < |taxonomy| ==> Sample(TherapySpace(Index(i)), taxonomy, d1) == Ok(TherapyAction(Some(taxonomy[i])))
    ensures i >= |taxonomy| ==> Sample(TherapySpace(Index(i)), taxonomy, d1) == Err(IndexError)
  {
  }

  /** "random" can select every catalogue entry: each index is reached by some draw. */
  lemma RandomReachesEveryTechnique(taxonomy: seq<TechniqueRecord>, k: nat)
    requires k < |taxonomy|
    ensures exists draw: nat ::
      (draw < |taxonomy| && Sample(TherapySpace(Random), taxonomy, draw) == Ok(TherapyAction(Some(taxonomy[k]))))
  {
    assert Sample(TherapySpace(Random), taxonomy, k) == Ok(TherapyAction(Some(taxonomy[k])));
  }

  /** Stands for CPython's default `repr` of an object without `__str__`, whose address part
      is not modelled. */
  function DefaultRepr(className: string): string {
    "<" + className + " object>"
  }

  /** `str(space)`: `TherapyActionSpace.__str__`; the other spaces use the default repr. A
      `None` index is not "random" and cannot be compared with 0. */
  function SpaceString(space: ActionSpace, taxonomy: seq<TechniqueRecord>): (r: Result<string, PyError>)
    ensures r.Err? ==> space.TherapySpace? && !space.strategyIdx.Random?
    ensures space == TherapySpace(Null) ==> r == Err(TypeError)
    ensures space == TherapySpace(Random) ==> r == Ok("Random")
    ensures space.TherapySpace? && space.strategyIdx.Index? && space.strategyIdx.i >= 0 && r.Ok? ==>
      space.strategyIdx.i < |taxonomy| && "technique" in taxonomy[space.strategyIdx.i] &&
      r.value == taxonomy[space.strategyIdx.i]["technique"]
  {
    match space
    case BaseSpace => Ok(DefaultRepr("therapy_system.action.action.ActionSpace"))
    case HumanSpace => Ok(DefaultRepr("therapy_system.action.human_action.HumanActionSpace"))
    case TherapySpace(Random) => Ok("Random")
    case TherapySpace(Null) => Err(TypeError)
    case TherapySpace(Index(i)) =>
      if i < 0 then Ok("None")
      else if i >= |taxonomy| then Err(IndexError)
      else if "technique" !in taxonomy[i] then Err(KeyError)
      else Ok(taxonomy[i]["technique"])
  }

  /** A configured space prints as the name of the technique its samples carry: a negative index
      prints "None" and samples no technique; otherwise printing fails exactly when sampling fails
      or the sampled entry has no "technique" key. Only the configured spaces can fail to print. */
  lemma SpaceStringNamesSampledTechnique(i: int, taxonomy: seq<TechniqueRecord>, draw: nat)
    ensures i < 0 ==> (SpaceString(TherapySpace(Index(i)), taxonomy) == Ok("None") &&
      Sample(TherapySpace(Index(i)), taxonomy, draw) == Ok(TherapyAction(None)))
    ensures 0 <= i ==> (SpaceString(TherapySpace(Index(i)), taxonomy).Ok? <==>
      Sample(TherapySpace(Index(i)), taxonomy, draw).Ok? &&
      "technique" in Sample(TherapySpace(Index(i)), taxonomy, draw).value.strategy.value)
    ensures 0 <= i && SpaceString(TherapySpace(Index(i)), taxonomy).Ok? ==>
      (Sample(TherapySpace(Index(i)), taxonomy, draw) == Ok(TherapyAction(Some(taxonomy[i]))) &&
       SpaceString(TherapySpace(Index(i)), taxonomy).value == taxonomy[i]["technique"])
  {
  }

  /** A `None` index draws a technique at random like "random", but the space cannot be
      printed. */
  lemma NullIndexDrawsButDoesNotPrint(taxonomy: seq<TechniqueRecord>, draw: nat)
    requires draw < |taxonomy|
    ensures Sample(TherapySpace(Null), taxonomy, draw) == Sample(TherapySpace(Random), taxonomy, draw)
    ensures SpaceString(TherapySpace(Null), taxonomy) == Err(TypeError) && SpaceString(TherapySpace(Random), taxonomy) == Ok("Random")
  {
  }

  /** `str(action)`: only `HumanAction` defines `__str__`, so the sentinel string identifies
      exactly the human actions. */
  function ActionString(a: Action): (s: string)
    ensures s == "Human-input" <==> a.HumanAction?
  {
    match a
    case HumanAction => "Human-input"
    case BaseAction =>
      var s := DefaultRepr("therapy_system.action.action.Action");
      assert s[0] == '<';
      s
    case TherapyAction(_) =>
      var s := DefaultRepr("therapy_system.action.therapy.therapy.TherapyAction");
      assert s[0] == '<';
      s
  }

  /** `action(message)`: the base `__call__` returns its one argument, and `HumanAction`
      inherits it; `TherapyAction.__call__` needs five arguments, so one is a `TypeError`. */
  function CallWithMessage(a: Action, message: Reply): (r: Result<Reply, PyError>)
    ensures !a.TherapyAction? ==> r == Ok(message)
    ensures a.TherapyAction? ==> r == Err(TypeError)
  {
    if a.TherapyAction? then Err(TypeError) else Ok(message)
  }

  /** `action(message, persona, conversation, persuasion_flag, words_limit)`, the call the engine
      makes: a therapy action renders the prompt over the whole catalogue, embedding the message
      as `str(message)`; the one-argument `__call__` of the other actions rejects five
      arguments. */
  function CallWithContext<C>(a: Action, message: Reply, persona: map<string, string>, conversation: C,
                              persuasionFlag: bool, wordsLimit: int,
                              taxonomy: seq<TechniqueRecord>): (r: Result<Prompt, PyError>)
    ensures a.TherapyAction? ==> r == Ok(TherapyPrompt(ReplyString(message), taxonomy, persuasionFlag, wordsLimit))
    ensures !a.TherapyAction? ==> r == Err(TypeError)
  {
    if a.TherapyAction? then Ok(TherapyPrompt(ReplyString(message), taxonomy, persuasionFlag, wordsLimit))
    else Err(TypeError)
  }

  /** The prompt ignores the persona, the transcript and the action's own selected technique. */
  lemma PromptIgnoresStrategy<C>(s1: Option<TechniqueRecord>, s2: Option<TechniqueRecord>, message: Reply,
                                 p1: map<string, string>, p2: map<string, string>, c1: C, c2: C,
                                 flag: bool, limit: int, taxonomy: seq<TechniqueRecord>)
    ensures CallWithContext(TherapyAction(s1), message, p1, c1, flag, limit, taxonomy)
         == CallWithContext(TherapyAction(s2), message, p2, c2, flag, limit, taxonomy)
    ensures flag ==>
      (CallWithContext(TherapyAction(s1), message, p1, c1, flag, limit, taxonomy) == Ok(WithTechniques(ReplyString(message), taxonomy, limit)))
  {
  }

  /** A generator reply reaches the prompt only as its repr: two generators give the same prompt
      whatever they yield, while a string reply is quoted in full. */
  lemma GeneratorInputIsItsRepr<C>(s: Option<TechniqueRecord>, parts1: seq<string>, parts2: seq<string>,
                                   text: string, persona: map<string, string>, conversation: C,
                                   flag: bool, limit: int, taxonomy: seq<TechniqueRecord>)
    ensures CallWithContext(TherapyAction(s), Chunks(parts1), persona, conversation, flag, limit, taxonomy)
         == CallWithContext(TherapyAction(s), Chunks(parts2), persona, conversation, flag, limit, taxonomy)
    ensures CallWithContext(TherapyAction(s), Chunks(parts1), persona, conversation, flag, limit, taxonomy).value.userInput
         == GeneratorRepr
    ensures CallWithContext(TherapyAction(s), Text(text), persona, conversation, flag, limit, taxonomy).value.userInput
         == text
  {
  }

  // ---- action/__init__.py

  /** The `action_space` entry of a participant: its `"name"` and, when present, its `"action"`. */
  datatype ActionSpaceSpec = ActionSpaceSpec(name: string, action: Option<StrategyIndex>)

  /** `get_action_space`: exact, case-sensitive dispatch on the name. */
  function GetActionSpace(spec: ActionSpaceSpec): (r: Result<ActionSpace, PyError>)
    ensures spec.name == "therapy" ==>
      r == if spec.action.Some? then Ok(TherapySpace(spec.action.value)) else Err(KeyError)
    ensures spec.name == "human" ==> r == Ok(HumanSpace)
    ensures spec.name != "therapy" && spec.name != "human" ==> r == Err(ValueError("Unknown action space: " + spec.name))
  {
    if spec.name == "therapy" then
      if spec.action.Some? then Ok(TherapySpace(spec.action.value)) else Err(KeyError)
    else if spec.name == "human" then Ok(HumanSpace)
    else Err(ValueError("Unknown action space: " + spec.name))
  }

  /** Construction accepts any index; an index past the catalogue surfaces only when sampling. */
  lemma OutOfRangeIndexFailsLate(i: int, taxonomy: seq<TechniqueRecord>, draw: nat)
    requires i >= |taxonomy|
    ensures GetActionSpace(ActionSpaceSpec("therapy", Some(Index(i)))) == Ok(TherapySpace(Index(i)))
    ensures Sample(TherapySpace(Index(i)), taxonomy, draw) == Err(IndexError)
  {
  }
}
