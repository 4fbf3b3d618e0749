/**
 * The values the analyzer stores: the decoded analysis object delivered by the
 * language model, and the cache entry that wraps it with the time it was made.
 */
module Records {
  import opened Wrappers

  /** One rubric item of an analysis (`{"value", "score", "reason"}`); every field may be missing. */
  datatype ScoreItem = ScoreItem(score: Option<int>, reason: Option<string>, value: Option<string>)

  /**
   * The decoded analysis object. Each field the application reads is optional,
   * because the object comes from free text written by the model; `otherFields`
   * holds the names of any further top-level keys, which the application never reads
   * but which still make the object non-empty. A decoded object keeps each read key
   * in its own field, so `otherFields` never holds one of them (`OtherFieldsUnread`).
   */
  datatype Analysis = Analysis(
    companyName: Option<string>,
    ticker: Option<string>,
    totalScore: Option<int>,
    summary: Option<string>,
    scores: Option<map<string, ScoreItem>>,
    otherFields: set<string>)
  {
    /** Python truthiness of a dict: true exactly when it has at least one key. */
    predicate IsTruthy() {
      companyName.Some? || ticker.Some? || totalScore.Some? || summary.Some? ||
      scores.Some? || otherFields != {}
    }

    /** `otherFields` holds none of the keys the application reads. */
    predicate OtherFieldsUnread() {
      ReadKeys !! otherFields
    }

    /** `analysis.get('scores', {})` */
    function ScoresOrEmpty(): map<string, ScoreItem> {
      scores.GetOr(map[])
    }
  }

  /** The top-level keys of an analysis that the application reads. */
  const ReadKeys: set<string> := {"company_name", "ticker", "total_score", "analysis_summary", "scores"}

  /** A cache entry: `{'timestamp': ..., 'data': ...}`, with the timestamp as an integer instant. */
  datatype Entry = Entry(timestamp: int, data: Analysis)

  predicate NoDuplicates(s: seq<string>) {
    forall i, j :: 0 <= i < j < |s| ==> s[i] != s[j]
  }

  /**
   * `order` is the iteration order of the cache dict: every key exactly once.
   * (A Python dict iterates in insertion order, and the JSON file preserves it.)
   */
  predicate OrderMatches(order: seq<string>, entries: map<string, Entry>) {
    NoDuplicates(order) &&
    (forall k :: k in order ==> k in entries) &&
    (forall k :: k in entries ==> k in order)
  }

  /** A duplicate-free sequence has as many distinct elements as it has positions. */
  lemma {:induction false} DistinctCount(s: seq<string>)
    requires NoDuplicates(s)
    ensures |set x | x in s| == |s|
  {
    if s != [] {
      var tail := s[1..];
      assert NoDuplicates(tail) by {
        forall i, j | 0 <= i < j < |tail| ensures tail[i] != tail[j] {
          assert tail[i] == s[i + 1] && tail[j] == s[j + 1];
        }
      }
      DistinctCount(tail);
      assert s[0] !in tail by {
        forall i | 0 <= i < |tail| ensures tail[i] != s[0] {
          assert tail[i] == s[i + 1];
        }
      }
      assert (set x | x in s) == (set x | x in tail) + {s[0]};
    }
  }

  /** A listing of the keys that `OrderMatches` has exactly one position per key. */
  lemma OrderLength(order: seq<string>, entries: map<string, Entry>)
    requires OrderMatches(order, entries)
    ensures |order| == |entries|
  {
    assert entries.Keys == set x | x in order;
    DistinctCount(order);
  }
}
