/**
 * `scripts/gen_summary_for_chat.py`: which chat records of a use case still lack a summary.
 * A record is saved as `<stem>.txt`, its summary as `<stem>.summary.txt`, and the prompt sent
 * for it as `<stem>.input.txt`.
 */
module GenSummary {
  import opened PyStr

  /** What the key loop makes of a key. */
  datatype KeyKind = Ignored | Summary(stem: string) | Conversation(stem: string)

  /** The `if`/`elif` chain on the suffix of a key. */
  function Classify(key: string): (r: KeyKind)
    ensures r.Summary? ==> key == r.stem + ".summary.txt"
    ensures r.Conversation? ==> key == r.stem + ".txt" && !EndsWith(key, ".summary.txt") && !EndsWith(key, ".input.txt")
    ensures r.Ignored? <==> EndsWith(key, ".input.txt") || !EndsWith(key, ".txt")
  {
    if EndsWith(key, ".input.txt") then Ignored
    else if EndsWith(key, ".summary.txt") then
      assert key[|key| - 4..] == key[|key| - 12..][8..];
      Summary(key[..|key| - 12])
    else if EndsWith(key, ".txt") then Conversation(key[..|key| - 4])
    else Ignored
  }

  /** `conversations` and `summaries` after the loop has seen the first `k` keys. */
  datatype Scan = Scan(conversations: set<string>, summaries: set<string>)

  function ScanUpTo(keys: seq<string>, k: nat): Scan
    requires k <= |keys|
  {
    if k == 0 then Scan({}, {})
    else
      var s := ScanUpTo(keys, k - 1);
      match Classify(keys[k - 1])
      case Ignored => s
      case Summary(stem) => Scan(s.conversations, s.summaries + {stem})
      case Conversation(stem) => Scan(s.conversations + {stem}, s.summaries)
  }

  /** `to_be_summarized = conversations - summaries`. */
  function Pending(keys: seq<string>): set<string> {
    var s := ScanUpTo(keys, |keys|);
    s.conversations - s.summaries
  }

  /** The key loop and the set difference. */
  method ToBeSummarized(keys: seq<string>) returns (r: set<string>)
    ensures r == Pending(keys)
  {
    var conversations: set<string> := {};
    var summaries: set<string> := {};
    var i := 0;
    while i < |keys|
      invariant i <= |keys| && ScanUpTo(keys, i) == Scan(conversations, summaries)
    {
      var key := keys[i];
      if EndsWith(key, ".input.txt") {
      } else if EndsWith(key, ".summary.txt") {
        summaries := summaries + {key[..|key| - 12]};
      } else if EndsWith(key, ".txt") {
        conversations := conversations + {key[..|key| - 4]};
      }
      i := i + 1;
    }
    r := conversations - summaries;
  }

  /** The stems of record keys among the first `k`: not a prompt, not a summary, ending in `.txt`. */
  function Conversations(keys: seq<string>, k: nat): set<string>
    requires k <= |keys|
  {
    set i | 0 <= i < k && Classify(keys[i]).Conversation? :: Classify(keys[i]).stem
  }

  /** The stems of summary keys among the first `k`. */
  function Summaries(keys: seq<string>, k: nat): set<string>
    requires k <= |keys|
  {
    set i | 0 <= i < k && Classify(keys[i]).Summary? :: Classify(keys[i]).stem
  }

  /** The loop collects exactly the record stems and the summary stems. */
  lemma {:induction false} ScanSets(keys: seq<string>, k: nat)
    requires k <= |keys|
    ensures ScanUpTo(keys, k) == Scan(Conversations(keys, k), Summaries(keys, k))
  {
    if k > 0 {
      ScanSets(keys, k - 1);
      ConversationsStep(keys, k);
      SummariesStep(keys, k);
    }
  }

  lemma ConversationsStep(keys: seq<string>, k: nat)
    requires 0 < k <= |keys|
    ensures var kind := Classify(keys[k - 1]);
      Conversations(keys, k) == Conversations(keys, k - 1) + (if kind.Conversation? then {kind.stem} else {})
  {
    var kind := Classify(keys[k - 1]);
    var extra: set<string> := if kind.Conversation? then {kind.stem} else {};
    forall x | x in Conversations(keys, k) ensures x in Conversations(keys, k - 1) + extra {
      var i :| 0 <= i < k && Classify(keys[i]).Conversation? && Classify(keys[i]).stem == x;
      if i < k - 1 {
        assert x in Conversations(keys, k - 1);
      }
    }
  }

  lemma SummariesStep(keys: seq<string>, k: nat)
    requires 0 < k <= |keys|
    ensures var kind := Classify(keys[k - 1]);
      Summaries(keys, k) == Summaries(keys, k - 1) + (if kind.Summary? then {kind.stem} else {})
  {
    var kind := Classify(keys[k - 1]);
    var extra: set<string> := if kind.Summary? then {kind.stem} else {};
    forall x | x in Summaries(keys, k) ensures x in Summaries(keys, k - 1) + extra {
      var i :| 0 <= i < k && Classify(keys[i]).Summary? && Classify(keys[i]).stem == x;
      if i < k - 1 {
        assert x in Summaries(keys, k - 1);
      }
    }
  }

  /**
   * A stem is pending exactly when `<stem>.txt` is listed as a record and `<stem>.summary.txt` is
   * not listed.
   */
  lemma PendingExactly(keys: seq<string>, stem: string)
    ensures stem in Pending(keys) <==>
      (stem + ".txt" in keys && !EndsWith(stem + ".txt", ".summary.txt") && !EndsWith(stem + ".txt", ".input.txt"))
      && stem + ".summary.txt" !in keys
  {
    ScanSets(keys, |keys|);
    RecordListed(keys, stem);
    SummaryListed(keys, stem);
  }

  /** A stem is among the records exactly when `<stem>.txt` is listed and is not a summary or a prompt. */
  lemma RecordListed(keys: seq<string>, stem: string)
    ensures stem in Conversations(keys, |keys|) <==>
      stem + ".txt" in keys && !EndsWith(stem + ".txt", ".summary.txt") && !EndsWith(stem + ".txt", ".input.txt")
  {
    var conv := stem + ".txt";
    assert EndsWith(conv, ".txt");
    assert conv[..|conv| - 4] == stem;
    if stem in Conversations(keys, |keys|) {
      var i :| 0 <= i < |keys| && Classify(keys[i]).Conversation? && Classify(keys[i]).stem == stem;
      assert keys[i] == conv;
    }
    if conv in keys && !EndsWith(conv, ".summary.txt") && !EndsWith(conv, ".input.txt") {
      var i :| 0 <= i < |keys| && keys[i] == conv;
      assert Classify(keys[i]) == Conversation(stem);
    }
  }

  /** A stem is among the summaries exactly when `<stem>.summary.txt` is listed. */
  lemma SummaryListed(keys: seq<string>, stem: string)
    ensures stem in Summaries(keys, |keys|) <==> stem + ".summary.txt" in keys
  {
    var sum := stem + ".summary.txt";
    assert sum[|sum| - 12..] == ".summary.txt";
    assert sum[|sum| - 10..][0] == sum[|sum| - 12..][2];
    assert sum[..|sum| - 12] == stem;
    if stem in Summaries(keys, |keys|) {
      var i :| 0 <= i < |keys| && Classify(keys[i]).Summary? && Classify(keys[i]).stem == stem;
      assert keys[i] == sum;
    }
    if sum in keys {
      var i :| 0 <= i < |keys| && keys[i] == sum;
      assert Classify(keys[i]) == Summary(stem);
    }
  }

  /** A `.plain.txt` key is taken for a record: its stem keeps the `.plain` part. */
  lemma PlainIsConversation(key: string)
    requires EndsWith(key, ".plain.txt")
    ensures Classify(key) == Conversation(key[..|key| - 4])
  {
    assert key[|key| - 4..] == key[|key| - 10..][6..];
    assert key[|key| - 10..] != ".input.txt";
    assert !EndsWith(key, ".summary.txt") by {
      if |key| >= 12 {
        assert key[|key| - 12..][2] == key[|key| - 10..][0];
      }
    }
  }
}
