/**
 * Recovering the analysis object from the model's completion text:
 * `re.search(r'\{[\s\S]*\}', content)` followed by `json.loads` of the match.
 * The pattern needs a `{`, then any characters, then a `}`; the engine takes the
 * leftmost start, and the greedy `[\s\S]*` the rightmost end for it.
 */
module JsonSpan {
  import opened Wrappers
  import opened Records

  /** `content[i..j]` matches the pattern: it opens with `{` and closes with a later `}`. */
  predicate IsMatch(content: string, i: int, j: int) {
    0 <= i && i + 2 <= j <= |content| && content[i] == '{' && content[j - 1] == '}'
  }

  /** The position of the first `c` in `s`, if any. */
  function IndexOf(s: string, c: char): (r: Option<nat>)
    ensures r.Some? ==> r.value < |s| && s[r.value] == c
    ensures forall k :: 0 <= k < |s| && (r.None? || k < r.value) ==> s[k] != c
  {
    if s == [] then None
    else if s[0] == c then Some(0)
    else match IndexOf(s[1..], c)
      case None => None
      case Some(k) => Some(k + 1)
  }

  /** The position of the last `c` in `s`, if any. */
  function LastIndexOf(s: string, c: char): (r: Option<nat>)
    ensures r.Some? ==> r.value < |s| && s[r.value] == c
    ensures forall k :: 0 <= k < |s| && (r.None? || r.value < k) ==> s[k] != c
  {
    if s == [] then None
    else if s[|s| - 1] == c then Some(|s| - 1)
    else LastIndexOf(s[..|s| - 1], c)
  }

  /**
   * The text of the match, or `None` when the search fails: from the first `{`
   * to the last `}`, provided that `}` comes after that `{`.
   */
  function ExtractSpan(content: string): (span: Option<string>)
    ensures span.Some? <==> exists i, j :: IsMatch(content, i, j)
    ensures span.Some? ==> |span.value| >= 2 && span.value[0] == '{' && span.value[|span.value| - 1] == '}'
    ensures span.Some? ==> exists i, j :: IsMatch(content, i, j) && span.value == content[i..j] &&
                                          forall i', j' :: IsMatch(content, i', j') ==> i <= i' && j' <= j
  {
    match (IndexOf(content, '{'), LastIndexOf(content, '}'))
    case (Some(i), Some(j)) =>
      if i < j then
        assert IsMatch(content, i, j + 1);
        Some(content[i..j + 1])
      else
        None
    case _ => None
  }

  /**
   * `analyze_stock_with_perplexity` after the HTTP call: `reply` is the completion
   * text, or `None` when the request, the status or the response shape failed;
   * `decode` stands for `json.loads`, `None` when it raises.
   */
  function AnalysisOutcome(reply: Option<string>, decode: string -> Option<Analysis>): (r: Option<Analysis>)
    ensures reply.None? ==> r.None?
    ensures reply.Some? && ExtractSpan(reply.value).Some? ==> r == decode(ExtractSpan(reply.value).value)
    ensures reply.Some? && ExtractSpan(reply.value).None? ==> r.None?
  {
    match reply
    case None => None
    case Some(content) =>
      match ExtractSpan(content)
      case None => None
      case Some(span) => decode(span)
  }
}
