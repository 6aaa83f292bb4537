/**
 * `scripts/extract_markdown_response.py`: the response part of a saved chat record, and its
 * conversion from markdown to plain text (links, emphasis and code marks removed, headers and
 * separators rewritten, bullets numbered).
 */
module MarkdownResponse {
  import opened Wrappers
  import opened PyStr

  // ---------------------------------------------------------------------------------------------
  // extract_response

  /** A line that opens the response (`line.startswith('response:')`). */
  predicate IsResponseLine(line: string) { StartsWith(line, "response:") }

  /** Some line before `i` opened the response. */
  predicate Started(lines: seq<string>, i: nat)
    requires i <= |lines|
  {
    exists j :: 0 <= j < i && IsResponseLine(lines[j])
  }

  /** What line `i` contributes: the text after "response:" on a response line, else the line itself once started. */
  function KeepAt(lines: seq<string>, i: nat): Option<string>
    requires i < |lines|
  {
    var line := lines[i];
    if IsResponseLine(line) then
      if LStrip(line[9..]) != "" then Some(LStrip(line[9..])) else None
    else if Started(lines, i) && Strip(line) != "" && !StartsWith(line, "model:") && !StartsWith(line, "prompt:") then
      Some(line)
    else None
  }

  function KeepStep(lines: seq<string>): nat -> Option<string> {
    (i: nat) => if i < |lines| then KeepAt(lines, i) else None
  }

  /** The kept lines, joined with newlines. */
  function Response(content: string): string {
    var lines := Split(content, '\n');
    Join(Gather(KeepStep(lines), |lines|), "\n")
  }

  lemma StartedStep(lines: seq<string>, i: nat)
    requires i < |lines|
    ensures Started(lines, i + 1) <==> Started(lines, i) || IsResponseLine(lines[i])
  {
    if Started(lines, i + 1) && !IsResponseLine(lines[i]) {
      var j :| 0 <= j < i + 1 && IsResponseLine(lines[j]);
      assert j < i;
    }
  }

  /** `extract_response`: one pass with the `response_started` flag. */
  method ExtractResponse(content: string) returns (r: string)
    ensures r == Response(content)
  {
    var lines := Split(content, '\n');
    var started := false;
    var kept: seq<string> := [];
    for i := 0 to |lines|
      invariant started <==> Started(lines, i)
      invariant kept == Gather(KeepStep(lines), i)
    {
      StartedStep(lines, i);
      var line := lines[i];
      assert KeepStep(lines)(i) == KeepAt(lines, i);
      if StartsWith(line, "response:") {
        started := true;
        var rest := LStrip(line[9..]);
        if rest != "" {
          kept := kept + [rest];
        }
      } else if started {
        if Strip(line) != "" && !StartsWith(line, "model:") && !StartsWith(line, "prompt:") {
          kept := kept + [line];
        }
      }
    }
    r := Join(kept, "\n");
  }

  /** Nothing is kept from the lines before the first response line. */
  lemma {:induction false} NothingBeforeResponse(lines: seq<string>, j: nat)
    requires j <= |lines| && forall i :: 0 <= i < j ==> !IsResponseLine(lines[i])
    ensures Gather(KeepStep(lines), j) == []
  {
    if j > 0 {
      NothingBeforeResponse(lines, j - 1);
      assert !Started(lines, j - 1);
      assert KeepStep(lines)(j - 1) == KeepAt(lines, j - 1);
    }
  }

  /** Without a response line the response is empty. */
  lemma NoResponseLine(content: string)
    requires forall i :: 0 <= i < |Split(content, '\n')| ==> !IsResponseLine(Split(content, '\n')[i])
    ensures Response(content) == ""
  {
    NothingBeforeResponse(Split(content, '\n'), |Split(content, '\n')|);
  }

  /**
   * Once started, a line other than a response line is kept verbatim exactly when it is not blank
   * and starts with neither "model:" nor "prompt:".
   */
  lemma KeptAfterStart(lines: seq<string>, i: nat)
    requires i < |lines| && Started(lines, i) && !IsResponseLine(lines[i])
    ensures KeepAt(lines, i) == Some(lines[i]) <==>
              Strip(lines[i]) != "" && !StartsWith(lines[i], "model:") && !StartsWith(lines[i], "prompt:")
    ensures KeepAt(lines, i).None? ==> Strip(lines[i]) == "" || StartsWith(lines[i], "model:") || StartsWith(lines[i], "prompt:")
  {
  }

  // ---------------------------------------------------------------------------------------------
  // The substitutions of transform_markdown_to_plain_text

  function NotChar(c: char): char -> bool {
    (x: char) => x != c
  }

  /** `open`, a non-empty run of characters other than `stop`, then `close`: where the match ends. */
  function Enclosed(s: string, p: nat, open: string, stop: char, close: string): Option<nat>
    requires p <= |s|
  {
    var q := p + |open|;
    if q <= |s| && s[p..q] == open then
      var n := Span(s, q, NotChar(stop));
      if n > 0 && q + n + |close| <= |s| && s[q + n..q + n + |close|] == close then Some(q + n + |close|) else None
    else None
  }

  /** The match of `open([^stop]+)close` at `p`, with the group as its replacement. */
  function Group(s: string, p: nat, open: string, stop: char, close: string): Option<(nat, string)>
    requires p <= |s|
  {
    match Enclosed(s, p, open, stop, close)
    case None => None
    case Some(e) => if p + |open| <= e - |close| then Some((e, s[p + |open|..e - |close|])) else None
  }

  /** `\[([^\]]+)\]\([^)]+\)` at `p`, replaced by the link text. */
  function LinkAt(s: string, p: nat): Option<(nat, string)>
    requires p <= |s|
  {
    match Enclosed(s, p, "[", ']', "]")
    case None => None
    case Some(k) =>
      match Enclosed(s, k, "(", ')', ")")
      case None => None
      case Some(e) => if p + 1 <= k - 1 then Some((e, s[p + 1..k - 1])) else None
  }

  /** A position where `^` matches in multi-line mode. */
  predicate AtLineStart(s: string, p: nat) { p == 0 || (p <= |s| && s[p - 1] == '\n') }

  predicate IsHash(c: char) { c == '#' }

  /** `^#+\s+` at `p` (multi-line), removed. */
  function HeaderAt(s: string, p: nat): Option<(nat, string)>
    requires p <= |s|
  {
    if !AtLineStart(s, p) then None
    else
      var h := Span(s, p, IsHash);
      if h == 0 then None
      else
        var w := Span(s, p + h, IsSpace);
        if w == 0 then None else Some((p + h + w, ""))
  }

  /**
   * `^---\s*$` at `p` (multi-line), replaced by two newlines: the greedy `\s*` gives back
   * whitespace until `$` holds, at the end of the text or before a newline.
   */
  function SeparatorAt(s: string, p: nat): Option<(nat, string)>
    requires p <= |s|
  {
    if !AtLineStart(s, p) || p + 3 > |s| || s[p..p + 3] != "---" then None
    else
      var w := Span(s, p + 3, IsSpace);
      if p + 3 + w == |s| then Some((|s|, "\n\n"))
      else
        match LastNewline(s, p + 3, p + 3 + w)
        case None => None
        case Some(j) => Some((j, "\n\n"))
  }

  function LinkPattern(s: string): nat -> Option<(nat, string)> {
    (p: nat) => if p <= |s| then LinkAt(s, p) else None
  }

  function GroupPattern(s: string, open: string, stop: char, close: string): nat -> Option<(nat, string)> {
    (p: nat) => if p <= |s| then Group(s, p, open, stop, close) else None
  }

  function HeaderPattern(s: string): nat -> Option<(nat, string)> {
    (p: nat) => if p <= |s| then HeaderAt(s, p) else None
  }

  function SeparatorPattern(s: string): nat -> Option<(nat, string)> {
    (p: nat) => if p <= |s| then SeparatorAt(s, p) else None
  }

  /** The six substitutions in their order: links, bold, italic, code, headers, separators. */
  function Substituted(content: string): string {
    var s1 := Sub(content, LinkPattern(content), 0);
    var s2 := Sub(s1, GroupPattern(s1, "**", '*', "**"), 0);
    var s3 := Sub(s2, GroupPattern(s2, "*", '*', "*"), 0);
    var s4 := Sub(s3, GroupPattern(s3, "`", '`', "`"), 0);
    var s5 := Sub(s4, HeaderPattern(s4), 0);
    Sub(s5, SeparatorPattern(s5), 0)
  }

  /** Where an enclosed match sits: the opening, a non-empty body free of `stop`, and the closing. */
  lemma EnclosedShape(s: string, p: nat, open: string, stop: char, close: string) returns (body: string)
    requires p <= |s| && Enclosed(s, p, open, stop, close).Some?
    ensures var e := Enclosed(s, p, open, stop, close).value;
      p + |open| + |body| + |close| == e <= |s| && |body| > 0 && stop !in body
      && s[p..p + |open|] == open && s[p + |open|..e - |close|] == body && s[e - |close|..e] == close
  {
    var q := p + |open|;
    var n := Span(s, q, NotChar(stop));
    body := s[q..q + n];
    SpanExcludes(s, q, NotChar(stop), stop);
  }

  /** Every opening, body free of `stop` and closing that starts with `stop` is an enclosed match. */
  lemma EnclosedOf(s: string, p: nat, open: string, body: string, stop: char, close: string)
    requires p + |open| + |body| + |close| <= |s| && |body| > 0 && stop !in body && |close| > 0 && close[0] == stop
    requires s[p..p + |open|] == open && s[p + |open|..p + |open| + |body|] == body
    requires s[p + |open| + |body|..p + |open| + |body| + |close|] == close
    ensures Enclosed(s, p, open, stop, close) == Some(p + |open| + |body| + |close|)
  {
    var q := p + |open|;
    var e := q + |body|;
    assert forall k :: q <= k < e ==> s[k] == body[k - q];
    assert s[e] == close[0];
    SpanOf(s, q, |body|, NotChar(stop));
  }

  /** A link match is '[' text ']' '(' target ')', text and target non-empty and free of ']' and ')' respectively. */
  lemma LinkAtShape(s: string, p: nat) returns (target: string)
    requires p <= |s| && LinkAt(s, p).Some?
    ensures var (e, text) := LinkAt(s, p).value;
      p + 4 + |text| + |target| == e <= |s| && |text| > 0 && ']' !in text && |target| > 0 && ')' !in target
      && s[p] == '[' && s[p + 1..p + 1 + |text|] == text && s[p + 1 + |text|] == ']'
      && s[p + 2 + |text|] == '(' && s[p + 3 + |text|..e - 1] == target && s[e - 1] == ')'
  {
    var k := Enclosed(s, p, "[", ']', "]").value;
    var text := EnclosedShape(s, p, "[", ']', "]");
    target := EnclosedShape(s, k, "(", ')', ")");
    assert s[p..p + 1] == "[" && s[k - 1..k] == "]" && s[k..k + 1] == "(";
    var e := Enclosed(s, k, "(", ')', ")").value;
    assert s[e - 1..e] == ")";
  }

  /** Every match of the pattern ends after its start and within the text, so each is substituted. */
  lemma MatchesAdvance(s: string, p: nat)
    requires p <= |s|
    ensures LinkAt(s, p).Some? ==> p < LinkAt(s, p).value.0 <= |s|
    ensures HeaderAt(s, p).Some? ==> p < HeaderAt(s, p).value.0 <= |s|
    ensures SeparatorAt(s, p).Some? ==> p < SeparatorAt(s, p).value.0 <= |s|
    ensures forall open, stop, close :: Group(s, p, open, stop, close).Some? ==> p < Group(s, p, open, stop, close).value.0 <= |s|
  {
    if LinkAt(s, p).Some? {
      var t := LinkAtShape(s, p);
    }
    forall open, stop, close | Group(s, p, open, stop, close).Some?
      ensures p < Group(s, p, open, stop, close).value.0 <= |s|
    {
      var b := EnclosedShape(s, p, open, stop, close);
    }
  }

  /** A header match is a non-empty run of '#' at a line start followed by a non-empty run of whitespace. */
  lemma HeaderAtShape(s: string, p: nat) returns (h: nat)
    requires p <= |s| && HeaderAt(s, p).Some?
    ensures var e := HeaderAt(s, p).value.0;
      AtLineStart(s, p) && 0 < h < e - p && e <= |s| && HeaderAt(s, p).value.1 == ""
      && (forall j :: p <= j < p + h ==> s[j] == '#') && (forall j :: p + h <= j < e ==> IsSpace(s[j]))
      && (e == |s| || !IsSpace(s[e]))
  {
    h := Span(s, p, IsHash);
    SpanAccepts(s, p, IsHash);
    SpanAccepts(s, p + h, IsSpace);
  }

  /**
   * A separator match is "---" at a line start, then whitespace up to the end of the text or up to
   * a newline; it becomes two newlines.
   */
  lemma SeparatorAtShape(s: string, p: nat)
    requires p <= |s| && SeparatorAt(s, p).Some?
    ensures var e := SeparatorAt(s, p).value.0;
      AtLineStart(s, p) && p + 3 <= e <= |s| && s[p..p + 3] == "---" && SeparatorAt(s, p).value.1 == "\n\n"
      && (forall j :: p + 3 <= j < e ==> IsSpace(s[j])) && (e == |s| || s[e] == '\n')
  {
    SpanAccepts(s, p + 3, IsSpace);
  }

  /** A "---" line at the end of the text, or one followed by a newline and some text, becomes two newlines. */
  lemma SeparatorLine(s: string, p: nat)
    requires AtLineStart(s, p) && p + 3 <= |s| && s[p..p + 3] == "---"
    requires p + 3 == |s| || (p + 4 < |s| && s[p + 3] == '\n' && !IsSpace(s[p + 4]))
    ensures SeparatorAt(s, p) == Some((p + 3, "\n\n"))
  {
    if p + 3 < |s| {
      SpanOf(s, p + 3, 1, IsSpace);
    }
  }

  // ---------------------------------------------------------------------------------------------
  // The list pass

  /** `re.match(r'^\d+\.\s+', stripped)`. */
  predicate Numbered(t: string) {
    var n := Span(t, 0, IsDigit);
    0 < n && n + 1 < |t| && t[n] == '.' && IsSpace(t[n + 1])
  }

  /** How the pass sees a line, by its stripped text: a bullet, an already numbered item, blank, or other. */
  datatype LineKind = Bullet | Numeral | Blank | Plain

  function Kind(line: string): LineKind {
    var t := Strip(line);
    if StartsWith(t, "- ") then Bullet
    else if Numbered(t) then Numeral
    else if t == "" then Blank
    else Plain
  }

  /** The kind of a line, by the tests the pass makes on the stripped line. */
  lemma KindOf(line: string)
    ensures Kind(line) == Bullet <==> StartsWith(Strip(line), "- ")
    ensures Kind(line) == Numeral <==> !StartsWith(Strip(line), "- ") && Numbered(Strip(line))
    ensures Kind(line) == Blank <==> !StartsWith(Strip(line), "- ") && !Numbered(Strip(line)) && Strip(line) == ""
  {
  }

  /** A line that the pass counts as a list item. */
  predicate IsListLine(line: string) {
    Kind(line) == Bullet || Kind(line) == Numeral
  }

  /** The kinds of all lines. */
  function Kinds(lines: seq<string>): (r: seq<LineKind>)
    ensures |r| == |lines|
  {
    if lines == [] then [] else Kinds(lines[..|lines| - 1]) + [Kind(lines[|lines| - 1])]
  }

  lemma {:induction false} KindsAt(lines: seq<string>, i: nat)
    requires i < |lines|
    ensures Kinds(lines)[i] == Kind(lines[i])
  {
    var m := |lines| - 1;
    if i < m {
      KindsAt(lines[..m], i);
      assert lines[..m][i] == lines[i];
    }
  }

  /**
   * The number of list items before `i` since the last line that is neither a list item nor blank:
   * `list_counter - 1` when line `i` is reached.
   */
  function ListRun(kinds: seq<LineKind>, i: nat): nat
    requires i <= |kinds|
  {
    if i == 0 then 0
    else if kinds[i - 1] == Bullet || kinds[i - 1] == Numeral then ListRun(kinds, i - 1) + 1
    else if kinds[i - 1] == Plain then 0
    else ListRun(kinds, i - 1)
  }

  /** What the pass makes of a line of the given kind when the counter is `k` (`stripped[2:]` as a Python slice). */
  function RenderLine(line: string, kind: LineKind, k: nat): string {
    match kind
    case Bullet => var t := Strip(line); NatToStr(k) + ". " + (if |t| >= 2 then t[2..] else "")
    case Numeral => Strip(line)
    case _ => line
  }

  /** The list pass over the first `k` lines, whose kinds are `kinds`. */
  function ListPassUpTo(lines: seq<string>, kinds: seq<LineKind>, k: nat): (r: seq<string>)
    requires |kinds| == |lines| && k <= |lines|
    ensures |r| == k
  {
    if k == 0 then []
    else ListPassUpTo(lines, kinds, k - 1) + [RenderLine(lines[k - 1], kinds[k - 1], 1 + ListRun(kinds, k - 1))]
  }

  function ListPassSpec(lines: seq<string>): (r: seq<string>)
    ensures |r| == |lines|
  {
    ListPassUpTo(lines, Kinds(lines), |lines|)
  }

  /** Line `i` of the pass is line `i` rendered with the counter at that line. */
  lemma {:induction false} ListPassAt(lines: seq<string>, kinds: seq<LineKind>, k: nat, i: nat)
    requires |kinds| == |lines| && i < k <= |lines|
    ensures ListPassUpTo(lines, kinds, k)[i] == RenderLine(lines[i], kinds[i], 1 + ListRun(kinds, i))
  {
    if i < k - 1 {
      ListPassAt(lines, kinds, k - 1, i);
    }
  }

  /** `transform_markdown_to_plain_text`. */
  function PlainText(content: string): string {
    if content == "" then "" else Join(ListPassSpec(Split(Substituted(content), '\n')), "\n")
  }

  /** The three ways a line is rendered, by the stripped line. */
  lemma RenderCases(line: string, k: nat)
    ensures StartsWith(Strip(line), "- ") ==> RenderLine(line, Kind(line), k) == NatToStr(k) + ". " + Strip(line)[2..]
    ensures !StartsWith(Strip(line), "- ") && Numbered(Strip(line)) ==> RenderLine(line, Kind(line), k) == Strip(line)
    ensures !IsListLine(line) ==> RenderLine(line, Kind(line), k) == line
  {
  }

  /** The loop over the lines with `list_counter` and `in_list`. */
  method ListPass(lines: seq<string>) returns (out: seq<string>)
    ensures out == ListPassSpec(lines)
  {
    ghost var kinds := Kinds(lines);
    out := [];
    var counter := 1;
    var inList := false;
    for i := 0 to |lines|
      invariant out == ListPassUpTo(lines, kinds, i)
      invariant counter == 1 + ListRun(kinds, i) && (inList <==> ListRun(kinds, i) > 0)
    {
      var line := lines[i];
      var stripped := Strip(line);
      KindsAt(lines, i);
      KindOf(line);
      StrippedNotIndented(line, "  - ");
      StrippedNotIndented(line, "   - ");
      if StartsWith(stripped, "- ") {
        assert kinds[i] == Bullet && ListRun(kinds, i + 1) == ListRun(kinds, i) + 1;
        inList := true;
        out := out + [NatToStr(counter) + ". " + stripped[2..]];
        counter := counter + 1;
      } else if Numbered(stripped) {
        assert kinds[i] == Numeral && ListRun(kinds, i + 1) == ListRun(kinds, i) + 1;
        inList := true;
        out := out + [stripped];
        counter := counter + 1;
      } else if StartsWith(stripped, "  - ") || StartsWith(stripped, "   - ") {
        assert false;
      } else {
        if inList && stripped != "" {
          assert kinds[i] == Plain && ListRun(kinds, i + 1) == 0;
          counter := 1;
          inList := false;
        } else if stripped == "" {
          assert kinds[i] == Blank && ListRun(kinds, i + 1) == ListRun(kinds, i);
        } else {
          assert kinds[i] == Plain && ListRun(kinds, i + 1) == 0;
        }
        out := out + [line];
      }
    }
  }

  /** `transform_markdown_to_plain_text`, with the list pass as a loop. */
  method TransformMarkdown(content: string) returns (r: string)
    ensures r == PlainText(content)
  {
    if content == "" {
      return "";
    }
    var lines := Split(Substituted(content), '\n');
    var out := ListPass(lines);
    r := Join(out, "\n");
  }

  /** An empty text stays empty. */
  lemma PlainTextEmpty()
    ensures PlainText("") == ""
  {
  }

  /** The pass keeps the number of lines, and leaves a line that is not a list item as it is. */
  lemma ListPassLines(lines: seq<string>, i: nat)
    requires i < |lines|
    ensures |ListPassSpec(lines)| == |lines|
    ensures !IsListLine(lines[i]) ==> ListPassSpec(lines)[i] == lines[i]
    ensures Numbered(Strip(lines[i])) && !StartsWith(Strip(lines[i]), "- ") ==> ListPassSpec(lines)[i] == Strip(lines[i])
  {
    var kinds := Kinds(lines);
    ListPassAt(lines, kinds, |lines|, i);
    KindsAt(lines, i);
  }

  /**
   * A bullet right after an ordinary non-blank line is numbered 1, and a bullet right after a list
   * item is numbered one more than that item's counter.
   */
  lemma ListNumbering(lines: seq<string>, i: nat)
    requires 0 < i < |lines| && StartsWith(Strip(lines[i]), "- ")
    ensures Kind(lines[i - 1]) == Plain ==> ListPassSpec(lines)[i] == "1. " + Strip(lines[i])[2..]
    ensures IsListLine(lines[i - 1]) ==>
              ListPassSpec(lines)[i] == NatToStr(2 + ListRun(Kinds(lines), i - 1)) + ". " + Strip(lines[i])[2..]
  {
    var kinds := Kinds(lines);
    BulletRendered(lines, i);
    KindsAt(lines, i - 1);
    if kinds[i - 1] == Plain {
      assert ListRun(kinds, i) == 0;
      assert NatToStr(1) == "1";
    } else if IsListLine(lines[i - 1]) {
      assert ListRun(kinds, i) == ListRun(kinds, i - 1) + 1;
    }
  }

  /** A bullet is rendered with the counter one more than the run before it. */
  lemma BulletRendered(lines: seq<string>, i: nat)
    requires i < |lines| && StartsWith(Strip(lines[i]), "- ")
    ensures ListPassSpec(lines)[i] == NatToStr(1 + ListRun(Kinds(lines), i)) + ". " + Strip(lines[i])[2..]
  {
    var kinds := Kinds(lines);
    ListPassAt(lines, kinds, |lines|, i);
    KindsAt(lines, i);
    KindOf(lines[i]);
    assert kinds[i] == Bullet;
  }

  /** An indented sub-bullet never reaches its branch: a stripped line has no leading space. */
  lemma SubBulletUnreachable(line: string)
    ensures !StartsWith(Strip(line), "  - ") && !StartsWith(Strip(line), "   - ")
  {
    StrippedNotIndented(line, "  - ");
    StrippedNotIndented(line, "   - ");
  }
}
