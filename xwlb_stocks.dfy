/**
 * `scripts/test_read_xwlb_stocks.py`: a file of stock recommendations, grouped by date. A line
 * such as `20240105` opens the section of that date; in the lines that follow, the first six-digit
 * A-share code of each line names the stock, and the first line naming a stock is kept for it.
 */
module XwlbStocks {
  import opened Wrappers
  import opened PyStr

  /** `to_hf_stock_code`: codes starting with 6 are listed in Shanghai, all others in Shenzhen. */
  function HfCode(code: string): (r: string)
    ensures |r| == |code| + 3 && r[..|code|] == code
    ensures r[|code|..] == ".SH" || r[|code|..] == ".SZ"
    ensures r[|code|..] == ".SH" <==> StartsWith(code, "6")
  {
    if StartsWith(code, "6") then code + ".SH" else code + ".SZ"
  }

  /** Two codes never share an exchange code, so keying by the exchange code is keying by the code. */
  lemma HfCodeInjective(a: string, b: string)
    requires HfCode(a) == HfCode(b)
    ensures a == b
  {
    assert |a| == |b|;
    assert a == HfCode(a)[..|a|];
  }

  // ---------------------------------------------------------------------------------------
  // lines

  /** `[036]\d{5}` at position `p`. */
  function CodeAt(line: string, p: nat): Option<string> {
    if p + 6 <= |line| && line[p] in "036" && IsDigits(line[p + 1..p + 6]) then Some(line[p..p + 6])
    else None
  }

  function CodePattern(line: string): nat -> Option<string> {
    (p: nat) => CodeAt(line, p)
  }

  /** `line.startswith('20') and len(line) == 8`, on a stripped line. */
  predicate IsHeader(line: string) {
    StartsWith(line, "20") && |line| == 8
  }

  /** What the loop makes of a line: nothing, a date header, or the stock it names and its text. */
  datatype Kind = Skip | Header(date: string) | Stock(code: string, line: string)

  /** The leftmost code in a stripped line. */
  function FirstCode(line: string): Option<string> {
    Search(CodePattern(line), 0, |line|)
  }

  /** The tests of the loop body on one line of the file. */
  function KindOf(raw: string): (r: Kind)
    ensures r.Header? <==> |Strip(raw)| > 0 && IsHeader(Strip(raw))
    ensures r.Header? ==> r.date == Strip(raw)
    ensures r.Stock? <==> |Strip(raw)| > 0 && !IsHeader(Strip(raw)) && FirstCode(Strip(raw)).Some?
    ensures r.Stock? ==> r.line == Strip(raw) && r.code == HfCode(FirstCode(r.line).value)
  {
    var line := Strip(raw);
    if |line| == 0 then Skip
    else if IsHeader(line) then Header(line)
    else match FirstCode(line)
      case None => Skip
      case Some(code) => Stock(HfCode(code), line)
  }

  /** The code found in a line is its leftmost one, and none is found only when the line holds none. */
  lemma FirstCodeLeftmost(line: string) returns (p: nat)
    ensures FirstCode(line).None? <==> forall q: nat :: q <= |line| ==> CodeAt(line, q).None?
    ensures FirstCode(line).Some? ==>
      p <= |line| && CodeAt(line, p) == FirstCode(line) && forall q: nat :: q < p ==> CodeAt(line, q).None?
  {
    SearchLeftmost(CodePattern(line), 0, |line|);
    forall q: nat ensures CodePattern(line)(q) == CodeAt(line, q) {
    }
    if FirstCode(line).Some? {
      p :| p <= |line| && CodePattern(line)(p) == FirstCode(line) && forall j: nat :: j < p ==> CodePattern(line)(j).None?;
    } else {
      p := 0;
    }
  }

  /** The lines of the file as the loop classifies them. */
  function Kinds(lines: seq<string>): (ks: seq<Kind>)
    ensures |ks| == |lines| && forall i :: 0 <= i < |lines| ==> ks[i] == KindOf(lines[i])
  {
    seq(|lines|, i requires 0 <= i < |lines| => KindOf(lines[i]))
  }

  // ---------------------------------------------------------------------------------------
  // the loop

  /**
   * The loop's variables: `recommendations`, `daily_recommendations` and the current date.
   * After a header, `daily` is the very dictionary stored under `date` in `recs`; updating it
   * updates that entry, which is written out here as a store into `recs`.
   */
  datatype Reading = Reading(recs: map<string, map<string, string>>, daily: map<string, string>, date: Option<string>)

  /** One pass of the loop body. */
  function Step(st: Reading, kind: Kind): Reading {
    match kind
    case Skip => st
    case Header(d) => Reading(st.recs[d := map[]], map[], Some(d))
    case Stock(code, line) =>
      if code in st.daily then st
      else
        var daily := st.daily[code := line];
        Reading(if st.date.Some? then st.recs[st.date.value := daily] else st.recs, daily, st.date)
  }

  /** The variables after the first `k` lines. */
  function ReadUpTo(ks: seq<Kind>, k: nat): Reading
    requires k <= |ks|
  {
    if k == 0 then Reading(map[], map[], None) else Step(ReadUpTo(ks, k - 1), ks[k - 1])
  }

  /** The dictionary of dates the loop leaves behind. */
  function Grouped(ks: seq<Kind>): map<string, map<string, string>> {
    ReadUpTo(ks, |ks|).recs
  }

  /** `read_xwlb_stock_file` on the lines of the file. */
  function ReadStocks(lines: seq<string>): map<string, map<string, string>> {
    Grouped(Kinds(lines))
  }

  /** The loop of `read_xwlb_stock_file`. */
  method ReadXwlbStockFile(lines: seq<string>) returns (recommendations: map<string, map<string, string>>)
    ensures recommendations == ReadStocks(lines)
  {
    var daily: map<string, string> := map[];
    var date: Option<string> := None;
    recommendations := map[];
    var i := 0;
    while i < |lines|
      invariant i <= |lines| && ReadUpTo(Kinds(lines), i) == Reading(recommendations, daily, date)
    {
      var line := Strip(lines[i]);
      i := i + 1;
      if |line| == 0 {
        continue;
      }
      if StartsWith(line, "20") && |line| == 8 {
        date := Some(line);
        daily := map[];
        recommendations := recommendations[line := daily];
      } else {
        var code := FirstCode(line);
        if code.None? {
          continue;
        }
        var stock := HfCode(code.value);
        if stock !in daily {
          daily := daily[stock := line];
          if date.Some? {
            recommendations := recommendations[date.value := daily];
          }
        }
      }
    }
  }

  // ---------------------------------------------------------------------------------------
  // sections: what the loop computes, stated without the loop

  /** The first line naming each stock among lines `lo` to `hi - 1`. */
  function FirstLines(ks: seq<Kind>, lo: nat, hi: nat): map<string, string>
    requires lo <= hi <= |ks|
    decreases hi
  {
    if hi == lo then map[]
    else
      var prev := FirstLines(ks, lo, hi - 1);
      match ks[hi - 1]
      case Stock(code, line) => if code in prev then prev else prev[code := line]
      case _ => prev
  }

  predicate Names(ks: seq<Kind>, i: nat, c: string)
    requires i < |ks|
  {
    ks[i].Stock? && ks[i].code == c
  }

  /** A stock is kept exactly when some line names it. */
  lemma {:induction false} FirstLinesKeys(ks: seq<Kind>, lo: nat, hi: nat, c: string)
    requires lo <= hi <= |ks|
    ensures c in FirstLines(ks, lo, hi) <==> exists i :: lo <= i < hi && Names(ks, i, c)
    decreases hi
  {
    if hi > lo {
      FirstLinesKeys(ks, lo, hi - 1, c);
      if c in FirstLines(ks, lo, hi) && c !in FirstLines(ks, lo, hi - 1) {
        assert Names(ks, hi - 1, c);
      }
    }
  }

  /** The line kept for a stock is the first line naming it. */
  lemma {:induction false} FirstLineKept(ks: seq<Kind>, lo: nat, hi: nat, i: nat, c: string)
    requires lo <= i < hi <= |ks| && Names(ks, i, c)
    requires forall j :: lo <= j < i ==> !Names(ks, j, c)
    ensures c in FirstLines(ks, lo, hi) && FirstLines(ks, lo, hi)[c] == ks[i].line
    decreases hi
  {
    if hi - 1 == i {
      FirstLinesKeys(ks, lo, i, c);
    } else {
      FirstLineKept(ks, lo, hi - 1, i, c);
    }
  }

  /** The last header among the first `k` lines. */
  function LastHeader(ks: seq<Kind>, k: nat): (r: Option<nat>)
    requires k <= |ks|
    ensures r.Some? ==> r.value < k && ks[r.value].Header?
  {
    if k == 0 then None else if ks[k - 1].Header? then Some(k - 1) else LastHeader(ks, k - 1)
  }

  /** The last header among the first `k` lines that reads `d`. */
  function LastHeaderOf(ks: seq<Kind>, d: string, k: nat): (r: Option<nat>)
    requires k <= |ks|
    ensures r.Some? ==> r.value < k && ks[r.value] == Header(d)
  {
    if k == 0 then None
    else if ks[k - 1] == Header(d) then Some(k - 1)
    else LastHeaderOf(ks, d, k - 1)
  }

  /** Where the section opened by the header at `j` ends among the first `k` lines: the next header, or `k`. */
  function SectionEnd(ks: seq<Kind>, j: nat, k: nat): (e: nat)
    requires j < k <= |ks|
    ensures j < e <= k
    decreases k
  {
    if k == j + 1 then k
    else
      var e := SectionEnd(ks, j, k - 1);
      if e == k - 1 && !ks[k - 1].Header? then k else e
  }

  /** The section end is the first header after `j`, or `k` when there is none. */
  lemma {:induction false} SectionEndFirst(ks: seq<Kind>, j: nat, k: nat)
    requires j < k <= |ks|
    ensures var e := SectionEnd(ks, j, k);
      (forall i :: j < i < e ==> !ks[i].Header?) && (e < k ==> ks[e].Header?)
    decreases k
  {
    if k > j + 1 {
      SectionEndFirst(ks, j, k - 1);
    }
  }

  /** The loop's current date and dictionary after `k` lines: those of the latest header. */
  ghost predicate Current(ks: seq<Kind>, k: nat)
    requires k <= |ks|
  {
    var st := ReadUpTo(ks, k);
    match LastHeader(ks, k)
    case None => st.recs == map[] && st.date.None?
    case Some(h) => st.date == Some(ks[h].date) && st.daily == FirstLines(ks, h + 1, k)
  }

  /** Date `d` is in the result after `k` lines exactly when a header opened it, with the section of its last header. */
  ghost predicate SectionOf(ks: seq<Kind>, k: nat, d: string)
    requires k <= |ks|
  {
    var st := ReadUpTo(ks, k);
    (d in st.recs <==> LastHeaderOf(ks, d, k).Some?)
    && (LastHeaderOf(ks, d, k).Some? ==>
          var j := LastHeaderOf(ks, d, k).value; d in st.recs && st.recs[d] == FirstLines(ks, j + 1, SectionEnd(ks, j, k)))
  }

  /** What the loop keeps about the first `k` lines. */
  ghost predicate Sections(ks: seq<Kind>, k: nat)
    requires k <= |ks|
  {
    Current(ks, k) && forall d :: SectionOf(ks, k, d)
  }

  /** Each pass of the loop keeps `Sections`. */
  lemma {:induction false} SectionsKept(ks: seq<Kind>, k: nat)
    requires k <= |ks|
    ensures Sections(ks, k)
    decreases k
  {
    if k > 0 {
      SectionsKept(ks, k - 1);
      if ks[k - 1].Header? {
        assert LastHeader(ks, k) == Some(k - 1);
        forall d ensures SectionOf(ks, k, d) {
          HeaderStep(ks, k - 1, d);
        }
      } else {
        LineStepDaily(ks, k - 1);
        forall d ensures SectionOf(ks, k, d) {
          LineStep(ks, k - 1, d);
        }
      }
    }
  }

  /** A header opens an empty section for its date and leaves every other date's section as it was. */
  lemma HeaderStep(ks: seq<Kind>, k: nat, d: string)
    requires k < |ks| && ks[k].Header? && SectionOf(ks, k, d)
    ensures SectionOf(ks, k + 1, d)
  {
    var st := ReadUpTo(ks, k);
    var st' := ReadUpTo(ks, k + 1);
    assert st' == Reading(st.recs[ks[k].date := map[]], map[], Some(ks[k].date));
    if d != ks[k].date {
      assert LastHeaderOf(ks, d, k + 1) == LastHeaderOf(ks, d, k);
      if LastHeaderOf(ks, d, k).Some? {
        var j := LastHeaderOf(ks, d, k).value;
        HeaderClosesSection(ks, j, k);
      }
    } else {
      assert LastHeaderOf(ks, d, k + 1) == Some(k);
    }
  }

  /** A header ends every section opened before it. */
  lemma HeaderClosesSection(ks: seq<Kind>, j: nat, k: nat)
    requires j < k < |ks| && ks[k].Header?
    ensures SectionEnd(ks, j, k + 1) == SectionEnd(ks, j, k)
  {
  }

  /** What a line that is not a header does to the loop's variables. */
  ghost predicate LineEffect(ks: seq<Kind>, k: nat)
    requires k < |ks|
  {
    var st := ReadUpTo(ks, k); var st' := ReadUpTo(ks, k + 1);
    st'.date == st.date
    && (st.date.None? ==> st'.recs == st.recs)
    && (st.date.Some? ==> st.date.value in st.recs && st'.recs == st.recs[st.date.value := st'.daily])
  }

  /** A line that is not a header extends the section of the current date only. */
  lemma LineStep(ks: seq<Kind>, k: nat, d: string)
    requires k < |ks| && !ks[k].Header? && Current(ks, k) && Current(ks, k + 1)
    requires LineEffect(ks, k) && SectionOf(ks, k, d)
    ensures SectionOf(ks, k + 1, d)
  {
    assert LastHeaderOf(ks, d, k + 1) == LastHeaderOf(ks, d, k);
    match LastHeader(ks, k)
    case None =>
    case Some(h) =>
      var cur := ks[h].date;
      LastHeaderIsLast(ks, k, cur);
      if LastHeaderOf(ks, d, k).Some? {
        var j := LastHeaderOf(ks, d, k).value;
        if d == cur {
          LatestSectionOpen(ks, h, k);
        } else {
          LastHeaderOfBefore(ks, d, k, h);
          EarlierSectionClosed(ks, j, h, k);
        }
      }
  }

  /** The loop's `daily` and `recs` after a line that is not a header. */
  lemma LineStepDaily(ks: seq<Kind>, k: nat)
    requires k < |ks| && !ks[k].Header? && Current(ks, k)
    requires ReadUpTo(ks, k).date.Some? ==> SectionOf(ks, k, ReadUpTo(ks, k).date.value)
    ensures Current(ks, k + 1) && LineEffect(ks, k)
  {
    var st := ReadUpTo(ks, k);
    assert LastHeader(ks, k + 1) == LastHeader(ks, k);
    if st.date.Some? {
      var h := LastHeader(ks, k).value;
      LastHeaderIsLast(ks, k, ks[h].date);
      assert st.recs[st.date.value] == st.daily by {
        LatestSectionAtK(ks, h, k);
      }
    }
  }

  /** The section of the latest header runs to `k`. */
  lemma LatestSectionAtK(ks: seq<Kind>, h: nat, k: nat)
    requires h < k <= |ks| && LastHeader(ks, k) == Some(h)
    ensures SectionEnd(ks, h, k) == k
  {
    NoHeaderAfterLast(ks, h, k);
    SectionEndOpen(ks, h, k);
  }

  /** The latest header is the latest one with its own date. */
  lemma {:induction false} LastHeaderIsLast(ks: seq<Kind>, k: nat, cur: string)
    requires k <= |ks| && LastHeader(ks, k).Some? && cur == ks[LastHeader(ks, k).value].date
    ensures LastHeaderOf(ks, cur, k) == LastHeader(ks, k)
    decreases k
  {
    if !ks[k - 1].Header? {
      LastHeaderIsLast(ks, k - 1, cur);
    }
  }

  /** Another date was last opened before the latest header. */
  lemma {:induction false} LastHeaderOfBefore(ks: seq<Kind>, d: string, k: nat, h: nat)
    requires k <= |ks| && LastHeader(ks, k) == Some(h) && d != ks[h].date && LastHeaderOf(ks, d, k).Some?
    ensures LastHeaderOf(ks, d, k).value < h
    decreases k
  {
    if k - 1 != h {
      LastHeaderOfBefore(ks, d, k - 1, h);
    }
  }

  /** No header follows the latest one, so its section reaches to the end. */
  lemma LatestSectionOpen(ks: seq<Kind>, h: nat, k: nat)
    requires h < k < |ks| && LastHeader(ks, k) == Some(h) && !ks[k].Header?
    ensures SectionEnd(ks, h, k + 1) == k + 1
  {
    NoHeaderAfterLast(ks, h, k);
    forall i | h < i < k + 1 ensures !ks[i].Header? {
      if i == k {
      }
    }
    SectionEndOpen(ks, h, k + 1);
  }

  lemma {:induction false} NoHeaderAfterLast(ks: seq<Kind>, h: nat, k: nat)
    requires h < k <= |ks| && LastHeader(ks, k) == Some(h)
    ensures forall i :: h < i < k ==> !ks[i].Header?
    decreases k
  {
    if k - 1 != h {
      NoHeaderAfterLast(ks, h, k - 1);
    }
  }

  lemma {:induction false} SectionEndOpen(ks: seq<Kind>, j: nat, k: nat)
    requires j < k <= |ks| && forall i :: j < i < k ==> !ks[i].Header?
    ensures SectionEnd(ks, j, k) == k
    decreases k
  {
    if k > j + 1 {
      SectionEndOpen(ks, j, k - 1);
    }
  }

  /** A section with a header after it ends at or before that header, whatever follows. */
  lemma {:induction false} EarlierSectionClosed(ks: seq<Kind>, j: nat, h: nat, k: nat)
    requires j < h < k < |ks| && ks[h].Header?
    ensures SectionEnd(ks, j, k + 1) == SectionEnd(ks, j, k) <= h
    decreases k
  {
    if k - 1 == h {
      SectionEndFirst(ks, j, k);
    } else {
      EarlierSectionClosed(ks, j, h, k - 1);
    }
  }

  // ---------------------------------------------------------------------------------------
  // what the file reads as

  /** The dates of the result are the headers of the file. */
  lemma DatesOfHeaders(ks: seq<Kind>, d: string)
    ensures d in Grouped(ks) <==> exists i :: 0 <= i < |ks| && ks[i] == Header(d)
  {
    SectionsKept(ks, |ks|);
    assert SectionOf(ks, |ks|, d);
    HeadersFound(ks, d, |ks|);
  }

  lemma {:induction false} HeadersFound(ks: seq<Kind>, d: string, k: nat)
    requires k <= |ks|
    ensures LastHeaderOf(ks, d, k).Some? <==> exists i :: 0 <= i < k && ks[i] == Header(d)
    decreases k
  {
    if k > 0 {
      HeadersFound(ks, d, k - 1);
    }
  }

  /**
   * The section of a date is made of the lines after the LAST header with that date, up to the next
   * header: a repeated date replaces the earlier section, and lines before the first header belong
   * to no date.
   */
  lemma SectionOfDate(ks: seq<Kind>, d: string) returns (j: nat, e: nat)
    requires d in Grouped(ks)
    ensures j < e <= |ks| && ks[j] == Header(d)
    ensures forall i :: j < i < |ks| ==> ks[i] != Header(d)
    ensures forall i :: j < i < e ==> !ks[i].Header?
    ensures e < |ks| ==> ks[e].Header?
    ensures Grouped(ks)[d] == FirstLines(ks, j + 1, e)
  {
    SectionsKept(ks, |ks|);
    assert SectionOf(ks, |ks|, d);
    j := LastHeaderOf(ks, d, |ks|).value;
    e := SectionEnd(ks, j, |ks|);
    SectionEndFirst(ks, j, |ks|);
    LastOfDate(ks, d, |ks|);
  }

  lemma {:induction false} LastOfDate(ks: seq<Kind>, d: string, k: nat)
    requires k <= |ks| && LastHeaderOf(ks, d, k).Some?
    ensures forall i :: LastHeaderOf(ks, d, k).value < i < k ==> ks[i] != Header(d)
    decreases k
  {
    if ks[k - 1] != Header(d) {
      LastOfDate(ks, d, k - 1);
    }
  }

  /**
   * Within a date, a stock is listed exactly when a line of its section names it, and the line
   * kept for it is the first such line.
   */
  lemma StockOfDate(ks: seq<Kind>, d: string, c: string) returns (j: nat, e: nat)
    requires d in Grouped(ks)
    ensures j < e <= |ks| && ks[j] == Header(d) && forall i :: j < i < e ==> !ks[i].Header?
    ensures c in Grouped(ks)[d] <==> exists i :: j < i < e && Names(ks, i, c)
    ensures forall i :: j < i < e && Names(ks, i, c) && (forall i' :: j < i' < i ==> !Names(ks, i', c)) ==>
              c in Grouped(ks)[d] && Grouped(ks)[d][c] == ks[i].line
  {
    j, e := DateSection(ks, d);
    SectionKeys(ks, Grouped(ks)[d], j, e, c);
    SectionFirst(ks, Grouped(ks)[d], j, e, c);
  }

  /** Code `c` is among the first lines of the section after `j` exactly when a line there names it. */
  lemma SectionKeys(ks: seq<Kind>, m: map<string, string>, j: nat, e: nat, c: string)
    requires j < e <= |ks| && m == FirstLines(ks, j + 1, e)
    ensures c in m <==> exists i :: j < i < e && Names(ks, i, c)
  {
    FirstLinesKeys(ks, j + 1, e, c);
  }

  /** The first line of the section after `j` that names `c` is the one kept. */
  lemma SectionFirst(ks: seq<Kind>, m: map<string, string>, j: nat, e: nat, c: string)
    requires j < e <= |ks| && m == FirstLines(ks, j + 1, e)
    ensures forall i :: j < i < e && Names(ks, i, c) && (forall i' :: j < i' < i ==> !Names(ks, i', c)) ==>
              c in m && m[c] == ks[i].line
  {
    FirstLinesFirst(ks, j + 1, e, c);
  }

  /** The section of `d`: its header at `j`, no header before `e`, and the date's stocks are its first lines. */
  lemma DateSection(ks: seq<Kind>, d: string) returns (j: nat, e: nat)
    requires d in Grouped(ks)
    ensures j < e <= |ks| && ks[j] == Header(d) && (forall i :: j < i < e ==> !ks[i].Header?)
    ensures Grouped(ks)[d] == FirstLines(ks, j + 1, e)
  {
    j, e := SectionOfDate(ks, d);
  }

  /** Every code's first line in `[lo, hi)` is the one kept. */
  lemma FirstLinesFirst(ks: seq<Kind>, lo: nat, hi: nat, c: string)
    requires lo <= hi <= |ks|
    ensures forall i :: lo <= i < hi && Names(ks, i, c) && (forall i' :: lo <= i' < i ==> !Names(ks, i', c)) ==>
              c in FirstLines(ks, lo, hi) && FirstLines(ks, lo, hi)[c] == ks[i].line
  {
    forall i | lo <= i < hi && Names(ks, i, c) && (forall i' :: lo <= i' < i ==> !Names(ks, i', c))
      ensures c in FirstLines(ks, lo, hi) && FirstLines(ks, lo, hi)[c] == ks[i].line
    {
      FirstLineKept(ks, lo, hi, i, c);
    }
  }

  /** Lines before the first header are dropped: with no header, the result is empty. */
  lemma NoHeaderNoDates(ks: seq<Kind>)
    requires forall i :: 0 <= i < |ks| ==> !ks[i].Header?
    ensures Grouped(ks) == map[]
  {
    SectionsKept(ks, |ks|);
    NoHeaderFound(ks, |ks|);
  }

  lemma {:induction false} NoHeaderFound(ks: seq<Kind>, k: nat)
    requires k <= |ks| && forall i :: 0 <= i < k ==> !ks[i].Header?
    ensures LastHeader(ks, k).None?
    decreases k
  {
    if k > 0 {
      NoHeaderFound(ks, k - 1);
    }
  }
}
