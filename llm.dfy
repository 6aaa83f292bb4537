/**
 * The model tables of the chat client (`chat_with_llm/llm.py`): the configured models are read
 * once into three dictionaries (model id to short name, alias to model id, model id to query
 * delay, where -1 marks a disabled model), and the lookups answer from them.
 */
module Llm {
  import opened Wrappers
  import opened PyStr

  /** The `alias` entry of a model configuration: a list, a string, or anything else (usually absent). */
  datatype Alias = NoAlias | StrAlias(name: string) | ListAlias(names: seq<string>)

  /** One configured model; an absent or zero `delay` is 0. */
  datatype ModelConfig = ModelConfig(name: string, alias: Alias, delay: int, disabled: bool)

  /** The three dictionaries; `order` is the key order of the short-name dictionary. */
  datatype Tables = Tables(toShort: map<string, string>, toModel: map<string, string>, delays: map<string, int>, order: seq<string>)

  const NoTables := Tables(map[], map[], map[], [])

  /** The tables are consistent: ids listed once, aliases pointing at ids, delays of ids and never 0. */
  ghost predicate Wf(t: Tables) {
    (forall m :: m in t.toShort <==> m in t.order)
    && (forall i, j :: 0 <= i < j < |t.order| ==> t.order[i] != t.order[j])
    && (forall a :: a in t.toModel ==> t.toModel[a] in t.toShort)
    && (forall m :: m in t.delays ==> m in t.toShort && t.delays[m] != 0)
  }

  /** The alias dictionary after mapping every name of `names` to `id`. */
  function AddAliases(toModel: map<string, string>, names: seq<string>, id: string): (r: map<string, string>)
    ensures forall a :: a in r <==> a in toModel || a in names
    ensures forall a :: a in names ==> r[a] == id
    ensures forall a :: a in toModel && a !in names ==> r[a] == toModel[a]
    decreases |names|
  {
    if |names| == 0 then toModel
    else AddAliases(toModel[names[0] := id], names[1..], id)
  }

  /** The short name recorded for a configuration: the first listed alias, the alias, or the id. */
  function ShortOf(c: ModelConfig): string {
    match c.alias
    case ListAlias(names) => if |names| > 0 then names[0] else c.name
    case StrAlias(a) => a
    case NoAlias => c.name
  }

  /** One iteration of the configuration loop. */
  function Step(t: Tables, c: ModelConfig): Tables {
    var id := c.name;
    var toModel := match c.alias
      case ListAlias(names) => AddAliases(t.toModel, names, id)
      case StrAlias(a) => t.toModel[a := id]
      case NoAlias => t.toModel[id := id];
    var delays := if c.delay != 0 || c.disabled then t.delays[id := if c.disabled then -1 else c.delay] else t.delays;
    Tables(t.toShort[id := ShortOf(c)], toModel, delays, if id in t.toShort then t.order else t.order + [id])
  }

  /** The tables after the first `k` configurations. */
  function LoadUpTo(cs: seq<ModelConfig>, k: nat): Tables
    requires k <= |cs|
  {
    if k == 0 then NoTables else Step(LoadUpTo(cs, k - 1), cs[k - 1])
  }

  /**
   * What one configuration records: the short name and reverse mapping of its alias, and a delay
   * entry (-1 when disabled) exactly when its delay is non-zero or it is disabled.
   */
  lemma StepRecords(t: Tables, c: ModelConfig)
    ensures var t' := Step(t, c);
      t'.toShort == t.toShort[c.name := ShortOf(c)]
      && (c.alias.ListAlias? ==>
            (forall a :: a in c.alias.names ==> a in t'.toModel && t'.toModel[a] == c.name)
            && (forall a :: a !in c.alias.names ==> (a in t'.toModel <==> a in t.toModel) && (a in t.toModel ==> t'.toModel[a] == t.toModel[a]))
            && ShortOf(c) == (if |c.alias.names| > 0 then c.alias.names[0] else c.name))
      && (c.alias.StrAlias? ==> t'.toModel == t.toModel[c.alias.name := c.name] && ShortOf(c) == c.alias.name)
      && (c.alias.NoAlias? ==> t'.toModel == t.toModel[c.name := c.name] && ShortOf(c) == c.name)
      && (c.delay != 0 || c.disabled ==> t'.delays == t.delays[c.name := if c.disabled then -1 else c.delay])
      && (c.delay == 0 && !c.disabled ==> t'.delays == t.delays)
  {
  }

  lemma StepWf(t: Tables, c: ModelConfig)
    requires Wf(t)
    ensures Wf(Step(t, c))
  {
    var t' := Step(t, c);
    forall a | a in t'.toModel
      ensures t'.toModel[a] in t'.toShort
    {
      if c.alias.ListAlias? {
        if a !in c.alias.names {
          assert t'.toModel[a] == t.toModel[a];
        }
      }
    }
  }

  /** After the loop the tables are consistent. */
  lemma {:induction false} LoadWf(cs: seq<ModelConfig>, k: nat)
    requires k <= |cs|
    ensures Wf(LoadUpTo(cs, k))
  {
    if k > 0 {
      LoadWf(cs, k - 1);
      StepWf(LoadUpTo(cs, k - 1), cs[k - 1]);
    }
  }

  /** The known ids are exactly the configured names. */
  lemma {:induction false} LoadNames(cs: seq<ModelConfig>, k: nat)
    requires k <= |cs|
    ensures forall m :: m in LoadUpTo(cs, k).toShort <==> exists i :: 0 <= i < k && cs[i].name == m
  {
    if k > 0 {
      LoadNames(cs, k - 1);
      var t0 := LoadUpTo(cs, k - 1);
      var t := LoadUpTo(cs, k);
      assert t.toShort == t0.toShort[cs[k - 1].name := ShortOf(cs[k - 1])];
      forall m | m in t.toShort
        ensures exists i :: 0 <= i < k && cs[i].name == m
      {
        if m != cs[k - 1].name {
          var i :| 0 <= i < k - 1 && cs[i].name == m;
        }
      }
    }
  }

  /** A delay entry exists only for a name some configuration gave a delay or disabled. */
  lemma {:induction false} LoadDelays(cs: seq<ModelConfig>, k: nat)
    requires k <= |cs|
    ensures forall m :: m in LoadUpTo(cs, k).delays ==>
      exists i :: 0 <= i < k && cs[i].name == m && (cs[i].delay != 0 || cs[i].disabled)
  {
    if k > 0 {
      LoadDelays(cs, k - 1);
      var t0 := LoadUpTo(cs, k - 1);
      var t := LoadUpTo(cs, k);
      var c := cs[k - 1];
      assert t.delays == if c.delay != 0 || c.disabled then t0.delays[c.name := if c.disabled then -1 else c.delay] else t0.delays;
      forall m | m in t.delays
        ensures exists i :: 0 <= i < k && cs[i].name == m && (cs[i].delay != 0 || cs[i].disabled)
      {
        if m != c.name || (c.delay == 0 && !c.disabled) {
          var i :| 0 <= i < k - 1 && cs[i].name == m && (cs[i].delay != 0 || cs[i].disabled);
        }
      }
    }
  }

  /** `_load_model_from_config`: the tables built from the configurations in order. */
  method LoadModels(cs: seq<ModelConfig>) returns (t: Tables)
    ensures t == LoadUpTo(cs, |cs|)
  {
    t := NoTables;
    for k := 0 to |cs|
      invariant t == LoadUpTo(cs, k)
    {
      t := AddModel(t, cs[k]);
    }
  }

  /** The loop body: the alias entries are made one at a time. */
  method AddModel(t: Tables, c: ModelConfig) returns (t': Tables)
    ensures t' == Step(t, c)
  {
    var id := c.name;
    var toShort := t.toShort;
    var toModel := t.toModel;
    var order := if id in toShort then t.order else t.order + [id];
    match c.alias {
      case ListAlias(names) =>
        toShort := toShort[id := if |names| > 0 then names[0] else id];
        for j := 0 to |names|
          invariant AddAliases(toModel, names[j..], id) == AddAliases(t.toModel, names, id)
        {
          assert names[j..][1..] == names[j + 1..];
          toModel := toModel[names[j] := id];
        }
        assert names[|names|..] == [];
      case StrAlias(a) =>
        toShort := toShort[id := a];
        toModel := toModel[a := id];
      case NoAlias =>
        toShort := toShort[id := id];
        toModel := toModel[id := id];
    }
    var delays := t.delays;
    if c.delay != 0 || c.disabled {
      delays := delays[id := if c.disabled then -1 else c.delay];
    }
    t' := Tables(toShort, toModel, delays, order);
  }

  /** `g_model_delays.get(name, 0)`. */
  function Delay(t: Tables, name: string): int {
    if name in t.delays then t.delays[name] else 0
  }

  /**
   * `list_models`: the ids, in order, whose delay is not -1. The delay lookup first resolves the
   * id as a model name, and for an id `random` or one containing '*' that resolution calls
   * `list_models` again, which visits the same id and never stops: RecursionError.
   */
  function FilterModels(t: Tables, ms: seq<string>): (r: Result<seq<string>>)
    ensures r.Ok? <==> forall i :: 0 <= i < |ms| ==> ms[i] != "random" && '*' !in ms[i]
    ensures r.Err? ==> r.error == RecursionError
    ensures r.Ok? ==> forall m :: m in r.value <==> m in ms && Delay(t, m) != -1
    ensures r.Ok? ==> |r.value| <= |ms|
    decreases |ms|
  {
    if |ms| == 0 then Ok([])
    else if ms[0] == "random" then Err(RecursionError)
    else if '*' in ms[0] then Err(RecursionError)
    else
      match FilterModels(t, ms[1..])
      case Err(e) => Err(e)
      case Ok(rest) =>
        assert forall m :: m in ms <==> m == ms[0] || m in ms[1..];
        Ok((if Delay(t, ms[0]) != -1 then [ms[0]] else []) + rest)
  }

  function ListModels(t: Tables): Result<seq<string>> {
    FilterModels(t, t.order)
  }

  /** `model or model_id_or_alias` after the unknown-name check. */
  function Resolved(name: string, model: Option<string>, failOnUnknown: bool): (r: Result<string>)
    ensures r.Err? <==> failOnUnknown && model.None?
    ensures r.Err? ==> r.error == ValueError
    ensures r.Ok? ==> r.value == (if model.Some? && model.value != "" then model.value else name)
  {
    if failOnUnknown && model.None? then Err(ValueError)
    else Ok(if model.Some? && model.value != "" then model.value else name)
  }

  /**
   * `get_model`: `random` picks the listed model at `pick` (IndexError when there is none); a
   * name with '*' first lists the models, which may raise, and then tests the length of the
   * still unbound `model`: UnboundLocalError before its pattern is used; any other name is looked
   * up in the alias table.
   */
  function GetModel(t: Tables, name: string, failOnUnknown: bool, pick: nat): (r: Result<string>)
    ensures name != "random" && '*' !in name ==>
      r == Resolved(name, if name in t.toModel then Some(t.toModel[name]) else None, failOnUnknown)
    ensures name == "random" && ListModels(t).Err? ==> r == Err(RecursionError)
    ensures name == "random" && ListModels(t).Ok? && ListModels(t).value == [] ==> r == Err(IndexError)
    ensures name == "random" && ListModels(t).Ok? && ListModels(t).value != [] ==>
      r.Ok? && (r.value in ListModels(t).value || r.value == name)
    ensures name != "random" && '*' in name ==>
      r == (if ListModels(t).Err? then Err(RecursionError) else Err(UnboundLocalError))
  {
    if name == "random" then
      match ListModels(t)
      case Err(e) => Err(e)
      case Ok(ms) => if |ms| == 0 then Err(IndexError) else Resolved(name, Some(ms[pick % |ms|]), failOnUnknown)
    else if '*' in name then
      match ListModels(t)
      case Err(e) => Err(e)
      case Ok(_) => Err(UnboundLocalError)
    else Resolved(name, if name in t.toModel then Some(t.toModel[name]) else None, failOnUnknown)
  }

  /** A plain name that is an alias resolves to a known model id (or to itself when the alias maps to ""). */
  lemma GetModelKnown(t: Tables, name: string, failOnUnknown: bool, pick: nat)
    requires Wf(t) && name != "random" && '*' !in name
    ensures var r := GetModel(t, name, failOnUnknown, pick);
      (name in t.toModel ==> r.Ok? && (r.value in t.toShort || r.value == name))
      && (name !in t.toModel ==> r == (if failOnUnknown then Err(ValueError) else Ok(name)))
  {
  }

  /** The short name of a freshly configured model resolves back to it, unless its alias list is empty. */
  lemma ShortNameRoundTrip(t: Tables, c: ModelConfig, pick: nat)
    requires c.alias != ListAlias([]) && c.name != ""
    requires ShortOf(c) != "random" && '*' !in ShortOf(c)
    ensures var t' := Step(t, c);
      GetModel(t', ShortName(t', c.name), true, pick) == Ok(c.name)
  {
    var t' := Step(t, c);
    assert ShortName(t', c.name) == ShortOf(c);
    if c.alias.ListAlias? {
      assert c.alias.names[0] in c.alias.names;
    }
  }

  /** An empty alias list leaves a new model id unknown to `get_model`. */
  lemma EmptyAliasListUnknown(t: Tables, id: string, delay: int, disabled: bool, pick: nat)
    requires id !in t.toModel && id != "random" && '*' !in id
    ensures GetModel(Step(t, ModelConfig(id, ListAlias([]), delay, disabled)), id, true, pick) == Err(ValueError)
  {
  }

  /** `get_model_short_name`: the recorded short name, or the id itself. */
  function ShortName(t: Tables, id: string): (r: string)
    ensures id in t.toShort ==> r == t.toShort[id]
    ensures id !in t.toShort ==> r == id
  {
    if id in t.toShort then t.toShort[id] else id
  }

  /** `get_model_save_name`: every '/' and ':' becomes '_'. */
  function SaveName(id: string): string {
    ReplaceAll(ReplaceAll(id, "/", "_"), ":", "_")
  }

  lemma SaveNameChars(id: string)
    ensures |SaveName(id)| == |id|
    ensures forall i :: 0 <= i < |id| ==> SaveName(id)[i] == (if id[i] == '/' || id[i] == ':' then '_' else id[i])
    ensures '/' !in SaveName(id) && ':' !in SaveName(id)
  {
    ReplaceCharMap(id, '/', '_');
    ReplaceCharMap(ReplaceAll(id, "/", "_"), ':', '_');
  }

  /** Two ids can share a save name: any `a/b` and `a:b`; the lookup below then answers the first. */
  lemma SaveNameCollides(a: string, b: string)
    ensures SaveName(a + "/" + b) == SaveName(a + ":" + b) == SaveName(a) + "_" + SaveName(b)
  {
    var x, y, z := a + "/" + b, a + ":" + b, SaveName(a) + "_" + SaveName(b);
    SaveNameChars(a);
    SaveNameChars(b);
    SaveNameChars(x);
    SaveNameChars(y);
    assert |z| == |x|;
    forall i | 0 <= i < |x|
      ensures SaveName(x)[i] == z[i] && SaveName(y)[i] == z[i]
    {
      if i < |a| {
        assert x[i] == a[i] && y[i] == a[i];
      } else if i > |a| {
        assert x[i] == b[i - |a| - 1] && y[i] == b[i - |a| - 1];
      }
    }
  }

  /** The first id of `ms` whose save name is `save`. */
  function FindSaveName(ms: seq<string>, save: string): (r: Option<string>)
    ensures r.Some? ==>
              exists i :: 0 <= i < |ms| && ms[i] == r.value && SaveName(ms[i]) == save
                          && forall j :: 0 <= j < i ==> SaveName(ms[j]) != save
    ensures r.None? <==> forall i :: 0 <= i < |ms| ==> SaveName(ms[i]) != save
    decreases |ms|
  {
    if |ms| == 0 then None
    else if SaveName(ms[0]) == save then Some(ms[0])
    else
      var r := FindSaveName(ms[1..], save);
      assert forall i :: 0 < i < |ms| ==> ms[i] == ms[1..][i - 1];
      r
  }

  /** `get_model_from_save_name`: a search over the known ids. */
  method GetModelFromSaveName(t: Tables, save: string) returns (r: Option<string>)
    ensures r == FindSaveName(t.order, save)
  {
    for i := 0 to |t.order|
      invariant FindSaveName(t.order[i..], save) == FindSaveName(t.order, save)
    {
      assert t.order[i..][1..] == t.order[i + 1..];
      if SaveName(t.order[i]) == save {
        return Some(t.order[i]);
      }
    }
    assert t.order[|t.order|..] == [];
    r := None;
  }

  /** Where save names do not collide, the save name of a known id finds that id. */
  lemma SaveNameRoundTrip(ms: seq<string>, m: string)
    requires m in ms
    requires forall i, j :: 0 <= i < |ms| && 0 <= j < |ms| && SaveName(ms[i]) == SaveName(ms[j]) ==> ms[i] == ms[j]
    ensures FindSaveName(ms, SaveName(m)) == Some(m)
  {
  }

  /** `get_model_query_delay`: the name is resolved (and may fail) but the delay is looked up under the name as given. */
  function QueryDelay(t: Tables, name: string, pick: nat): (r: Result<int>)
    ensures GetModel(t, name, false, pick).Err? ==> r == Err(GetModel(t, name, false, pick).error)
    ensures GetModel(t, name, false, pick).Ok? ==> r == Ok(Delay(t, name))
  {
    match GetModel(t, name, false, pick)
    case Err(e) => Err(e)
    case Ok(_) => Ok(Delay(t, name))
  }

  /**
   * Asking by an alias without a delay entry of its own gives delay 0, whatever the delay of the
   * model the alias names.
   */
  lemma AliasDelayIgnored(t: Tables, alias: string, pick: nat)
    requires alias != "random" && '*' !in alias
    requires alias in t.toModel && alias !in t.delays
    ensures GetModel(t, alias, true, pick) == Ok(if t.toModel[alias] != "" then t.toModel[alias] else alias)
    ensures QueryDelay(t, alias, pick) == Ok(0)
    ensures t.toModel[alias] in t.delays && t.delays[t.toModel[alias]] != 0 ==>
      QueryDelay(t, alias, pick) != Ok(Delay(t, t.toModel[alias]))
  {
  }

  /**
   * The check at the start of `chat_impl`: the delay of the given name (with its failures) and
   * ValueError when it is -1.
   */
  function ChatAllowed(t: Tables, modelId: string, pick: nat): (r: Result<int>)
    ensures r.Ok? <==> QueryDelay(t, modelId, pick).Ok? && QueryDelay(t, modelId, pick).value != -1
    ensures r.Ok? ==> r.value == Delay(t, modelId)
    ensures QueryDelay(t, modelId, pick) == Ok(-1) ==> r == Err(ValueError)
  {
    match QueryDelay(t, modelId, pick)
    case Err(e) => Err(e)
    case Ok(d) => if d == -1 then Err(ValueError) else Ok(d)
  }

  /** A disabled model cannot be chatted with by its id, and is not listed. */
  lemma DisabledRefused(cs: seq<ModelConfig>, pick: nat)
    requires |cs| > 0 && cs[|cs| - 1].disabled
    requires cs[|cs| - 1].name != "random" && '*' !in cs[|cs| - 1].name
    ensures var t := LoadUpTo(cs, |cs|);
      ChatAllowed(t, cs[|cs| - 1].name, pick) == Err(ValueError)
      && (ListModels(t).Ok? ==> cs[|cs| - 1].name !in ListModels(t).value)
  {
  }

  /** The request message: prompt, separator, contents, or the other way round. */
  function Message(prompt: string, contents: string, sep: string, promptFollowsContents: bool): string {
    if promptFollowsContents then contents + sep + prompt else prompt + sep + contents
  }

  /** With a one-character separator absent from both texts, the message splits back into them. */
  lemma MessageSplits(prompt: string, contents: string, sep: char, promptFollowsContents: bool)
    requires sep !in prompt && sep !in contents
    ensures Split(Message(prompt, contents, [sep], promptFollowsContents), sep)
      == if promptFollowsContents then [contents, prompt] else [prompt, contents]
  {
    SplitNoSep(prompt, sep);
    SplitNoSep(contents, sep);
    if promptFollowsContents {
      SplitAround(contents, sep, prompt);
    } else {
      SplitAround(prompt, sep, contents);
    }
  }

  /** A record section: its header line, its text and a line break. */
  function Section(header: string, text: string): string {
    header + "\n" + text + "\n"
  }

  /**
   * The saved conversation record: the model line, the prompt section, the reasoning section only
   * when there is a non-empty reasoning, and the response section.
   */
  function Record(modelId: string, prompt: string, reasoning: Option<string>, response: string): string {
    "model: " + modelId + "\n"
    + Section("prompt:", prompt)
    + (if reasoning.Some? && reasoning.value != "" then Section("reasoning:", reasoning.value) else "")
    + Section("response:", response)
  }

  /** The lines of a record whose fields hold no line break. */
  function RecordLineSeq(modelId: string, prompt: string, reasoning: Option<string>, response: string): seq<string> {
    ["model: " + modelId, "prompt:", prompt]
    + (if reasoning.Some? && reasoning.value != "" then ["reasoning:", reasoning.value] else [])
    + ["response:", response, ""]
  }

  /** With single-line fields the record's lines are the headers and the fields, ending in an empty line. */
  lemma RecordLines(modelId: string, prompt: string, reasoning: Option<string>, response: string)
    requires '\n' !in modelId && '\n' !in prompt && '\n' !in response
    requires reasoning.Some? ==> '\n' !in reasoning.value
    ensures Split(Record(modelId, prompt, reasoning, response), '\n') == RecordLineSeq(modelId, prompt, reasoning, response)
  {
    var lines := RecordLineSeq(modelId, prompt, reasoning, response);
    assert '\n' !in "model: " + modelId;
    forall k | 0 <= k < |lines|
      ensures '\n' !in lines[k]
    {
    }
    RecordJoin(modelId, prompt, reasoning, response);
    SplitOfJoin(lines, '\n');
  }

  lemma RecordJoin(modelId: string, prompt: string, reasoning: Option<string>, response: string)
    ensures Join(RecordLineSeq(modelId, prompt, reasoning, response), "\n") == Record(modelId, prompt, reasoning, response)
  {
    var hasReasoning := reasoning.Some? && reasoning.value != "";
    var opt := if hasReasoning then Section("reasoning:", reasoning.value) else "";
    var mid := (if hasReasoning then ["reasoning:", reasoning.value] else []) + ["response:", response, ""];
    AfterPromptJoin(reasoning, response);
    SectionJoin("prompt:", prompt, mid);
    JoinCons("model: " + modelId, ["prompt:", prompt] + mid, "\n");
    assert RecordLineSeq(modelId, prompt, reasoning, response) == ["model: " + modelId] + (["prompt:", prompt] + mid);
    ConcatAssoc("model: " + modelId + "\n", Section("prompt:", prompt), opt, Section("response:", response));
  }

  /** The lines after the prompt join into the optional reasoning section and the response section. */
  lemma AfterPromptJoin(reasoning: Option<string>, response: string)
    ensures var hasReasoning := reasoning.Some? && reasoning.value != "";
      Join((if hasReasoning then ["reasoning:", reasoning.value] else []) + ["response:", response, ""], "\n")
      == (if hasReasoning then Section("reasoning:", reasoning.value) else "") + Section("response:", response)
  {
    var tail := ["response:", response, ""];
    SectionJoin("response:", response, [""]);
    assert Join(tail, "\n") == Section("response:", response) + "";
    if reasoning.Some? && reasoning.value != "" {
      SectionJoin("reasoning:", reasoning.value, tail);
    } else {
      assert [] + tail == tail;
    }
  }

  lemma ConcatAssoc(a: string, b: string, c: string, d: string)
    ensures a + (b + (c + d)) == a + b + c + d
    ensures a + (b + c) + d == a + b + c + d
  {
  }

  lemma SectionJoin(header: string, text: string, t: seq<string>)
    requires |t| > 0
    ensures Join([header, text] + t, "\n") == Section(header, text) + Join(t, "\n")
  {
    JoinTwo(header, text, t, "\n");
  }

  lemma JoinTwo(a: string, b: string, t: seq<string>, sep: string)
    requires |t| > 0
    ensures Join([a, b] + t, sep) == a + sep + b + sep + Join(t, sep)
  {
    var u := [b] + t;
    JoinCons(b, t, sep);
    JoinCons(a, u, sep);
    assert [a, b] + t == [a] + u;
  }

  lemma JoinCons(a: string, rest: seq<string>, sep: string)
    requires |rest| > 0
    ensures Join([a] + rest, sep) == a + sep + Join(rest, sep)
  {
    assert ([a] + rest)[1..] == rest;
  }
}
