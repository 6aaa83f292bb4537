/**
 * The first version of the chat client (`llm.py`): a fixed table from simple names to model ids,
 * the same request message and saved record as the current client (`Llm.Message`, `Llm.Record`),
 * and a record file named after the timestamp and the model id.
 */
module LegacyLlm {
  import opened Wrappers
  import opened PyStr
  import Storage
  import Llm

  /** The simple-name table; an empty value means "use the simple name itself". */
  const Models: map<string, string> := map[
    "4o" := "or-openai/chatgpt-4o-latest",
    "o1" := "lobechat-o1-2024-12-17",
    "o1-mini" := "or-openai/o1-mini-2024-09-12",
    "o3-mini" := "lobechat-o3-mini-2025-01-31",
    "gpt4.5" := "or-openai/gpt-4.5-preview-2025-02-27",
    "gpt-4.5" := "or-openai/gpt-4.5-preview-2025-02-27",
    "gemini-1.5-pro" := "",
    "gemini-2.0-flash" := "",
    "gemini-2.0-flash-thinking" := "gemini-2.0-flash-thinking-exp-01-21",
    "gemini-2.0-pro" := "gemini-2.0-pro-exp-02-05",
    "grok-2.0-pro" := "",
    "grok-2.0-latest" := "",
    "grok-beta" := "",
    "deepseek-reasoner" := "deepseek-reasoner-alpha-data-process",
    "deepseek-chat" := "deepseek-chat-alpha-data-process"
  ]

  /** `get_model`: the table's id when it is non-empty, otherwise the name as given. */
  function GetModel(simpleName: string): (r: string)
    ensures simpleName in Models && Models[simpleName] != "" ==> r == Models[simpleName]
    ensures simpleName !in Models || Models[simpleName] == "" ==> r == simpleName
  {
    var id := if simpleName in Models then Models[simpleName] else simpleName;
    if id == "" then simpleName else id
  }

  /** A non-empty name never resolves to "", and resolving twice changes nothing. */
  lemma GetModelNonEmpty(simpleName: string)
    ensures simpleName != "" ==> GetModel(simpleName) != ""
    ensures GetModel(GetModel(simpleName)) == GetModel(simpleName)
  {
    var r := GetModel(simpleName);
    if r != simpleName {
      assert r in Models.Values;
      assert r !in Models;
    }
  }

  /** The request message is the same as the current client's: prompt and contents around `sep`. */
  lemma MessageSplits(prompt: string, contents: string, sep: char, promptFollowsContents: bool)
    requires sep !in prompt && sep !in contents
    ensures var m := Llm.Message(prompt, contents, [sep], promptFollowsContents);
      m == (if promptFollowsContents then contents + [sep] + prompt else prompt + [sep] + contents)
      && Split(m, sep) == if promptFollowsContents then [contents, prompt] else [prompt, contents]
  {
    Llm.MessageSplits(prompt, contents, sep, promptFollowsContents);
  }

  /** The record file of a new conversation: `chat_history/<use case>/<timestamp>_<model id>.txt`. */
  function RecordFile(useCase: string, timestamp: string, modelId: string): (f: string)
    ensures EndsWith(f, modelId + ".txt")
  {
    Storage.PathJoin("chat_history", useCase) + "/" + timestamp + "_" + modelId + ".txt"
  }

  /**
   * One iteration of the collision loop: a name ending in `<model id>.txt` gets `_1` before
   * `.txt`; any other name has the number after its last '_' incremented, and `int()` of that
   * part raises ValueError.
   */
  function Rename(filename: string, modelId: string): (r: Result<string>)
    ensures EndsWith(filename, modelId + ".txt") ==> r.Ok? && EndsWith(r.value, "_1.txt") && |r.value| == |filename| + 2
  {
    if EndsWith(filename, modelId + ".txt") then Ok(filename[..|filename| - |".txt"|] + "_1.txt")
    else
      var parts := Split(filename, '_');
      match PyInt(parts[|parts| - 1])
      case Err(_) => Err(ValueError)
      case Ok(n) => Ok(Join(parts[..|parts| - 1], "_") + "_" + IntToStr(n + 1) + ".txt")
  }

  /** The first collision inserts `_1` before `.txt`. */
  lemma FirstRename(useCase: string, timestamp: string, modelId: string)
    ensures var f := RecordFile(useCase, timestamp, modelId);
      Rename(f, modelId) == Ok(Storage.PathJoin("chat_history", useCase) + "/" + timestamp + "_" + modelId + "_1.txt")
  {
    var dir := Storage.PathJoin("chat_history", useCase) + "/" + timestamp + "_" + modelId;
    assert RecordFile(useCase, timestamp, modelId) == dir + ".txt";
    assert (dir + ".txt")[..|dir + ".txt"| - |".txt"|] == dir;
  }

  /** The numbered fallback always fails on a `.txt` name: its last part ends in 't', which `int()` rejects. */
  lemma FallbackFails(filename: string, modelId: string)
    requires EndsWith(filename, ".txt") && !EndsWith(filename, modelId + ".txt")
    ensures Rename(filename, modelId) == Err(ValueError)
  {
    SplitLast(filename, '_');
    TxtLastPartRejected(filename, Split(filename, '_'));
    RenameRejects(filename, modelId);
  }

  /** The last '_'-part of a `.txt` name ends in 't', so `int()` rejects it. */
  lemma TxtLastPartRejected(s: string, p: seq<string>)
    requires |p| >= 1 && LastPartOk(s, '_', p) && EndsWith(s, ".txt")
    ensures PyInt(p[|p| - 1]).Err?
  {
    assert s[|s| - 1] == 't';
    LastPartLastChar(s, p);
    var l := p[|p| - 1];
    assert !IsSpace(l[|l| - 1]) && !IsDigit(l[|l| - 1]);
    PyIntRejectsTrailing(l);
  }

  /** A name that does not end with the model id fails when `int()` rejects its last '_'-part. */
  lemma RenameRejects(filename: string, modelId: string)
    requires !EndsWith(filename, modelId + ".txt")
    requires var parts := Split(filename, '_'); |parts| >= 1 && PyInt(parts[|parts| - 1]).Err?
    ensures Rename(filename, modelId) == Err(ValueError)
  {
  }

  /** When a name does not end with '_', its last '_'-part is not empty and ends as the name does. */
  lemma LastPartLastChar(s: string, p: seq<string>)
    requires |p| >= 1 && LastPartOk(s, '_', p) && |s| > 0 && s[|s| - 1] != '_'
    ensures var l := p[|p| - 1]; l != "" && l[|l| - 1] == s[|s| - 1]
  {
  }

  /**
   * The once-renamed name is `..._<model id>_1.txt`; it still ends in `<model id>.txt` exactly
   * when `<model id>_1` ends in the model id, which holds only for ids such as `1`, `_1` or `1_1`
   * (and the empty id).
   */
  lemma RenamedEndsWith(useCase: string, timestamp: string, modelId: string)
    ensures var f1 := Rename(RecordFile(useCase, timestamp, modelId), modelId).value;
      EndsWith(f1, modelId + ".txt") <==> EndsWith(modelId + "_1", modelId)
  {
    FirstRename(useCase, timestamp, modelId);
    var e := Storage.PathJoin("chat_history", useCase) + "/" + timestamp + "_";
    var y := modelId + "_1";
    var f1 := Rename(RecordFile(useCase, timestamp, modelId), modelId).value;
    assert f1 == e + y + ".txt";
    var n := |modelId| + 4;
    assert f1[|f1| - n..] == y[|y| - |modelId|..] + ".txt";
    if EndsWith(f1, modelId + ".txt") {
      assert y[|y| - |modelId|..] == (y[|y| - |modelId|..] + ".txt")[..|modelId|];
    }
  }

  /**
   * So a second collision raises for every model id except those `RenamedEndsWith` names; in
   * particular for every non-empty id other than `1` that does not end in `_1`.
   */
  lemma SecondRenameFails(useCase: string, timestamp: string, modelId: string)
    requires !EndsWith(modelId + "_1", modelId)
    ensures var f := RecordFile(useCase, timestamp, modelId);
      Rename(Rename(f, modelId).value, modelId) == Err(ValueError)
  {
    FirstRename(useCase, timestamp, modelId);
    RenamedEndsWith(useCase, timestamp, modelId);
    var f1 := Rename(RecordFile(useCase, timestamp, modelId), modelId).value;
    assert EndsWith(f1, ".txt") by {
      assert f1[|f1| - 4..] == ".txt";
    }
    FallbackFails(f1, modelId);
  }

  /** For the other ids the second collision inserts `_1` once more. */
  lemma SecondRenameRepeats(useCase: string, timestamp: string, modelId: string)
    requires EndsWith(modelId + "_1", modelId)
    ensures var f := RecordFile(useCase, timestamp, modelId);
      Rename(Rename(f, modelId).value, modelId)
        == Ok(Storage.PathJoin("chat_history", useCase) + "/" + timestamp + "_" + modelId + "_1_1.txt")
  {
    FirstRename(useCase, timestamp, modelId);
    RenamedEndsWith(useCase, timestamp, modelId);
    var d := Storage.PathJoin("chat_history", useCase) + "/" + timestamp + "_" + modelId + "_1";
    var f1 := Rename(RecordFile(useCase, timestamp, modelId), modelId).value;
    assert f1 == d + ".txt";
    assert f1[..|f1| - |".txt"|] == d;
    assert Rename(f1, modelId) == Ok(d + "_1.txt");
    var x := Storage.PathJoin("chat_history", useCase) + "/" + timestamp + "_" + modelId;
    assert d + "_1.txt" == x + "_1_1.txt";
  }

  /** The ids `RenamedEndsWith` names are `1` and ids ending in `_1`, besides the empty one. */
  lemma RenamedEndsWithIds(modelId: string)
    requires EndsWith(modelId + "_1", modelId)
    ensures modelId == "" || modelId == "1" || EndsWith(modelId, "_1")
  {
    var m := |modelId|;
    var y := modelId + "_1";
    if m == 1 {
      assert modelId[0] == y[|y| - 1];
      assert modelId == [modelId[0]];
    } else if m >= 2 {
      assert modelId[m - 2] == y[|y| - 2] && modelId[m - 1] == y[|y| - 1];
      assert modelId[m - 2..] == [modelId[m - 2], modelId[m - 1]];
    }
  }
}
