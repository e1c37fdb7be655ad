/** The human-readable log of a conversation: the participants' settings, then one block per
    turn. Writing it to a file is not part of this model; the text is the result. */
module Conversation {
  import opened Wrappers
  import opened Strings
  import opened Utils
  import opened Actions
  import opened AlternatingConv

  const Header := "Game Settings\n\n"
  const Separator := "------------------ \n"

  /** `str(x)` for an optional string. */
  function OptionString(o: Option<string>): string {
    if o.Some? then o.value else "None"
  }

  /** `str(current_iteration)` */
  function IterationString(it: Iteration): string {
    match it
    case Numbered(n) => NatToString(n)
    case Label(t) => t
  }

  /** `[show(x) for x in xs]` for a `show` that may raise: the first element that cannot be
      shown decides the error. */
  function Column<T>(show: T -> Result<string, PyError>, xs: seq<T>): (r: Result<seq<string>, PyError>)
    ensures r.Ok? ==> |r.value| == |xs|
  {
    if xs == [] then Ok([])
    else match Column(show, xs[..|xs| - 1])
      case Err(e) => Err(e)
      case Ok(init) =>
        match show(xs[|xs| - 1])
        case Err(e) => Err(e)
        case Ok(last) => Ok(init + [last])
  }

  /** The column succeeds exactly when every element can be shown, and then holds their strings
      in order; otherwise the error is that of the first element that cannot be shown. */
  lemma {:induction false} ColumnSpec<T>(show: T -> Result<string, PyError>, xs: seq<T>)
    ensures Column(show, xs).Ok? <==> forall i :: 0 <= i < |xs| ==> show(xs[i]).Ok?
    ensures Column(show, xs).Ok? ==> forall i :: 0 <= i < |xs| ==> Column(show, xs).value[i] == show(xs[i]).value
    ensures Column(show, xs).Err? ==> exists i ::
      0 <= i < |xs| && show(xs[i]) == Err(Column(show, xs).error) && forall j :: 0 <= j < i ==> show(xs[j]).Ok?
  {
    if xs != [] {
      var front := xs[..|xs| - 1];
      ColumnSpec(show, front);
      assert forall i :: 0 <= i < |front| ==> front[i] == xs[i];
    }
  }

  /** `str(space)` for the given catalogue. */
  function ShowSpace(taxonomy: seq<TechniqueRecord>): ActionSpace -> Result<string, PyError> {
    space => SpaceString(space, taxonomy)
  }

  /** `[str(p) for p in actions]` */
  function ActionColumn(actions: seq<ActionSpace>, taxonomy: seq<TechniqueRecord>): Result<seq<string>, PyError> {
    Column(ShowSpace(taxonomy), actions)
  }

  function SettingsBlock(index: nat, player: string, model: string, action: string, prolificId: string): (b: string)
    ensures StartsWith(b, "Player " + NatToString(index + 1) + " Settings:\n") && EndsWith(b, "\n\n")
  {
    var head := "Player " + NatToString(index + 1) + " Settings:\n";
    var b := head + "\tplayer: " + player + "\n" + "\tmodel: " + model + "\n" + "\taction: " + action + "\n"
             + "\tprolific_id: " + prolificId + "\n\n";
    assert b[..|head|] == head;
    b
  }

  /** The number of participant blocks: the columns are zipped, so the shortest one decides. */
  function BlockCount(s: Settings): nat {
    var n := if |s.players| < |s.models| then |s.players| else |s.models|;
    var n := if |s.actions| < n then |s.actions| else n;
    if |s.prolificIds| < n then |s.prolificIds| else n
  }

  /** The first `k` participant blocks, in order. */
  function Blocks(s: Settings, actions: seq<string>, k: nat): string
    requires k <= BlockCount(s) && |actions| == |s.actions|
  {
    if k == 0 then ""
    else
      var last := SettingsBlock(k - 1, s.players[k - 1], s.models[k - 1], actions[k - 1], OptionString(s.prolificIds[k - 1]));
      Blocks(s, actions, k - 1) + last
  }

  /** The four labelled lines of a turn, joined by newlines and closed by a blank line. */
  function TurnBlock(iteration: Iteration, player: string, response: Reply, technique: Option<string>): (b: string)
    ensures StartsWith(b, "Current Iteration: ") && EndsWith(b, "\n\n")
  {
    var head := "Current Iteration: ";
    var b := head + IterationString(iteration) + "\nPlayer: " + player + "\nResponse: " + ReplyString(response)
             + "\nPersuasion Technique: " + OptionString(technique) + "\n\n";
    assert b[..|head|] == head;
    b
  }

  /** The block of one history record after the settings: nothing for a record labelled "END",
      and a `KeyError` for a settings record, which has no player. */
  function TurnText(r: Record): (t: Result<string, PyError>)
    ensures t.Err? <==> r.SettingsRecord?
    ensures t.Err? ==> t.error == KeyError
    ensures r.TurnRecord? && r.iteration == Label("END") ==> t == Ok("")
    ensures r.TurnRecord? && r.iteration != Label("END") ==>
      t == Ok(TurnBlock(r.iteration, r.player, r.outcome.response, r.technique))
  {
    match r
    case SettingsRecord(_, _) => Err(KeyError)
    case TurnRecord(iteration, player, _, technique, outcome) =>
      if iteration == Label("END") then Ok("")
      else Ok(TurnBlock(iteration, player, outcome.response, technique))
  }

  /** The texts `show` gives the elements, concatenated in order; the first element that cannot
      be shown decides the error. */
  function Joined<T>(show: T -> Result<string, PyError>, xs: seq<T>): Result<string, PyError> {
    if xs == [] then Ok("")
    else match Joined(show, xs[..|xs| - 1])
      case Err(e) => Err(e)
      case Ok(prefix) =>
        match show(xs[|xs| - 1])
        case Err(e) => Err(e)
        case Ok(last) => Ok(prefix + last)
  }

  /** Joining fails exactly when some element cannot be shown. */
  lemma {:induction false} JoinedFails<T>(show: T -> Result<string, PyError>, xs: seq<T>)
    ensures Joined(show, xs).Err? <==> exists i :: 0 <= i < |xs| && show(xs[i]).Err?
  {
    if xs != [] {
      var front := xs[..|xs| - 1];
      JoinedFails(show, front);
      assert forall i :: 0 <= i < |front| ==> front[i] == xs[i];
    }
  }

  /** The blocks of the given records, in order. */
  function TurnsText(records: seq<Record>): Result<string, PyError> {
    Joined(TurnText, records)
  }

  /** `log_human_readable_state`: the header, one block per participant, the separator, then
      one block per later record. */
  function RenderLog(history: seq<Record>, taxonomy: seq<TechniqueRecord>): (r: Result<string, PyError>)
    ensures history == [] ==> r == Err(IndexError)
    ensures history != [] && history[0].TurnRecord? ==> r == Err(KeyError)
    ensures history != [] && history[0].SettingsRecord? ==>
      (r.Ok? <==> ActionColumn(history[0].settings.actions, taxonomy).Ok? && TurnsText(history[1..]).Ok?)
  {
    if history == [] then Err(IndexError)
    else match history[0]
      case TurnRecord(_, _, _, _, _) => Err(KeyError)
      case SettingsRecord(settings, _) =>
        match ActionColumn(settings.actions, taxonomy)
        case Err(e) => Err(e)
        case Ok(actions) =>
          match TurnsText(history[1..])
          case Err(e) => Err(e)
          case Ok(turns) =>
            Ok(Header + Blocks(settings, actions, BlockCount(settings)) + Separator + turns)
  }

  /** Rendering the later records fails exactly when one of them is a settings record. */
  lemma TurnsTextFailsExactly(records: seq<Record>)
    ensures TurnsText(records).Err? <==> exists i :: 0 <= i < |records| && records[i].SettingsRecord?
  {
    JoinedFails(TurnText, records);
  }

  /** Every rendered log opens with the settings header. */
  lemma LogStartsWithHeader(history: seq<Record>, taxonomy: seq<TechniqueRecord>)
    requires RenderLog(history, taxonomy).Ok?
    ensures StartsWith(RenderLog(history, taxonomy).value, Header)
  {
    var log := RenderLog(history, taxonomy).value;
    assert log[..|Header|] == Header;
  }

  /** A turn recorded after the log was rendered adds exactly its own block at the end. */
  lemma LogAppendTurn(history: seq<Record>, record: Record, taxonomy: seq<TechniqueRecord>)
    requires RenderLog(history, taxonomy).Ok? && record.TurnRecord?
    ensures RenderLog(history + [record], taxonomy) == Ok(RenderLog(history, taxonomy).value + TurnText(record).value)
  {
    var h := history + [record];
    var tail := h[1..];
    assert h[0] == history[0];
    assert tail == history[1..] + [record];
    JoinedAppend(TurnText, history[1..], record);
    var settings := history[0].settings;
    var actions := ActionColumn(settings.actions, taxonomy).value;
    AppendAssociative(Header + Blocks(settings, actions, BlockCount(settings)) + Separator,
                      TurnsText(history[1..]).value, TurnText(record).value);
  }

  /** Records labelled "END" leave the log unchanged. */
  lemma EndRecordsAreSkipped(history: seq<Record>, record: Record, taxonomy: seq<TechniqueRecord>)
    requires RenderLog(history, taxonomy).Ok? && record.TurnRecord? && record.iteration == Label("END")
    ensures RenderLog(history + [record], taxonomy) == RenderLog(history, taxonomy)
  {
    LogAppendTurn(history, record, taxonomy);
    assert RenderLog(history, taxonomy).value + "" == RenderLog(history, taxonomy).value;
  }

  /** The same log, built the way `log_human_readable_state` builds it: column strings first,
      then the participant blocks, then the turns one by one. */
  method LogHumanReadableState(history: seq<Record>, taxonomy: seq<TechniqueRecord>) returns (r: Result<string, PyError>)
    ensures r == RenderLog(history, taxonomy)
  {
    if |history| == 0 {
      return Err(IndexError);
    }
    if history[0].TurnRecord? {
      return Err(KeyError);
    }
    var settings := history[0].settings;
    var column := ShowEach(ShowSpace(taxonomy), settings.actions);
    if column.Err? {
      return Err(column.error);
    }
    var log := AppendSettingsBlocks(Header, settings, column.value);
    log := log + Separator;
    r := AppendEach(log, TurnText, history[1..]);
  }

  /** Appends one block per participant to `log`. */
  method AppendSettingsBlocks(log: string, settings: Settings, actions: seq<string>) returns (r: string)
    requires |actions| == |settings.actions|
    ensures r == log + Blocks(settings, actions, BlockCount(settings))
  {
    r := log;
    var n := BlockCount(settings);
    var idx := 0;
    while idx < n
      invariant 0 <= idx <= n
      invariant r == log + Blocks(settings, actions, idx)
    {
      var block := SettingsBlock(idx, settings.players[idx], settings.models[idx], actions[idx],
                                 OptionString(settings.prolificIds[idx]));
      AppendAssociative(log, Blocks(settings, actions, idx), block);
      r := r + block;
      idx := idx + 1;
    }
  }

  /** Shows each element in turn, stopping at the first failure. */
  method ShowEach<T>(show: T -> Result<string, PyError>, xs: seq<T>) returns (r: Result<seq<string>, PyError>)
    ensures r == Column(show, xs)
  {
    var column: seq<string> := [];
    var i := 0;
    while i < |xs|
      invariant 0 <= i <= |xs|
      invariant Column(show, xs[..i]) == Ok(column)
    {
      var text := show(xs[i]);
      ColumnAppend(show, xs[..i], xs[i]);
      assert xs[..i + 1] == xs[..i] + [xs[i]];
      if text.Err? {
        ColumnPrefixError(show, xs, i + 1);
        return Err(text.error);
      }
      column := column + [text.value];
      i := i + 1;
    }
    assert xs[..i] == xs;
    r := Ok(column);
  }

  /** Appends the text of each element in turn to `log`, stopping at the first failure. */
  method AppendEach<T>(log: string, show: T -> Result<string, PyError>, xs: seq<T>) returns (r: Result<string, PyError>)
    ensures Joined(show, xs).Err? ==> r == Err(Joined(show, xs).error)
    ensures Joined(show, xs).Ok? ==> r == Ok(log + Joined(show, xs).value)
  {
    var text := log;
    var k := 0;
    while k < |xs|
      invariant 0 <= k <= |xs|
      invariant Joined(show, xs[..k]).Ok?
      invariant text == log + Joined(show, xs[..k]).value
    {
      var block := show(xs[k]);
      JoinedAppend(show, xs[..k], xs[k]);
      assert xs[..k] + [xs[k]] == xs[..k + 1];
      if block.Err? {
        JoinedPrefixError(show, xs, k + 1);
        return Err(block.error);
      }
      var prefix := Joined(show, xs[..k]).value;
      assert Joined(show, xs[..k + 1]) == Ok(prefix + block.value);
      AppendAssociative(log, prefix, block.value);
      text := text + block.value;
      k := k + 1;
    }
    assert xs[..k] == xs;
    r := Ok(text);
  }

  lemma ColumnAppend<T>(show: T -> Result<string, PyError>, xs: seq<T>, x: T)
    ensures Column(show, xs + [x]) ==
      match Column(show, xs)
      case Err(e) => Err(e)
      case Ok(init) => (match show(x) case Err(e) => Err(e) case Ok(t) => Ok(init + [t]))
  {
    assert (xs + [x])[..|xs|] == xs;
  }

  lemma {:induction false} ColumnPrefixError<T>(show: T -> Result<string, PyError>, xs: seq<T>, k: nat)
    requires k <= |xs| && Column(show, xs[..k]).Err?
    ensures Column(show, xs) == Column(show, xs[..k])
    decreases |xs|
  {
    if k < |xs| {
      var front := xs[..|xs| - 1];
      assert front[..k] == xs[..k];
      ColumnPrefixError(show, front, k);
    } else {
      assert xs[..k] == xs;
    }
  }

  lemma AppendAssociative(a: string, b: string, c: string)
    ensures (a + b) + c == a + (b + c)
  {
  }

  lemma JoinedAppend<T>(show: T -> Result<string, PyError>, xs: seq<T>, x: T)
    ensures Joined(show, xs + [x]) ==
      match Joined(show, xs)
      case Err(e) => Err(e)
      case Ok(prefix) => (match show(x) case Err(e) => Err(e) case Ok(last) => Ok(prefix + last))
  {
    assert (xs + [x])[..|xs|] == xs;
  }

  lemma {:induction false} JoinedPrefixError<T>(show: T -> Result<string, PyError>, xs: seq<T>, k: nat)
    requires k <= |xs| && Joined(show, xs[..k]).Err?
    ensures Joined(show, xs) == Joined(show, xs[..k])
    decreases |xs|
  {
    if k < |xs| {
      var front := xs[..|xs| - 1];
      assert front[..k] == xs[..k];
      JoinedPrefixError(show, front, k);
    } else {
      assert xs[..k] == xs;
    }
  }
}
