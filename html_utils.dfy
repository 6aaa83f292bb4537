/** The script-side copy of the duplicate-line remover; its three passes are those of the crawler's utilities. */
module HtmlUtils {
  import opened Wrappers
  import opened PyStr
  import WebUtils

  /**
   * `remove_duplicated_lines` of the scripts: the same assertion, the same index and count
   * pass, boilerplate filter and empty-run cut, so the same output on every input.
   */
  method RemoveDuplicatedLines(contents: string, threshold: int, prefixes: seq<string>) returns (r: Result<string>)
    ensures r == WebUtils.RemoveDuplicatedLinesSpec(contents, threshold, prefixes)
    ensures r.Err? <==> threshold <= 1
    ensures r.Ok? ==> WebUtils.NoThreeBlank(Split(r.value, '\n'))
  {
    if threshold <= 1 {
      return Err(AssertionError);
    }
    var lines, dup := WebUtils.IndexLines(contents);
    var kept := WebUtils.DropBoiler(lines, dup, threshold, prefixes);
    var out := WebUtils.CollapseBlankRuns(kept);
    r := Ok(Join(out, "\n"));
    WebUtils.OutputNoThreeBlank(contents, threshold, prefixes);
  }
}
