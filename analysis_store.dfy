/**
 * The analysis cache (`analyses`): a dict from normalised query to
 * `{timestamp, data}`, read before an analysis and written after a successful one.
 */
module Store {
  import opened Wrappers
  import opened Records
  import opened TickerKey
  import opened Freshness

  /** `if analysis_result:` — the call returned an object with at least one key. */
  predicate Succeeded(outcome: Option<Analysis>) {
    outcome.Some? && outcome.value.IsTruthy()
  }

  /** `existing` is present and `days_old < 7`: the entry is shown without a new analysis. */
  predicate ServedFromCache(entries: map<string, Entry>, key: string, now: int) {
    key in entries && IsFresh(entries[key].timestamp, now)
  }

  /**
   * The cache after an analysis under `key` finished at instant `at`: a successful
   * result replaces (or adds) the entry for `key` and nothing else; a failed one
   * leaves the cache as it was.
   */
  function Written(entries: map<string, Entry>, key: string, at: int, outcome: Option<Analysis>): (m: map<string, Entry>)
    ensures Succeeded(outcome) ==> key in m && m[key] == Entry(at, outcome.value)
    ensures !Succeeded(outcome) ==> m == entries
    ensures forall k :: k != key ==> (k in m <==> k in entries)
    ensures forall k :: k != key && k in m ==> m[k] == entries[k]
  {
    if Succeeded(outcome) then entries[key := Entry(at, outcome.value)] else entries
  }

  /**
   * The iteration order after the same write: a new key goes last, an overwritten
   * key keeps its place (Python dict semantics), and the order still lists every key once.
   */
  function WrittenOrder(order: seq<string>, entries: map<string, Entry>, key: string, outcome: Option<Analysis>): (r: seq<string>)
    requires OrderMatches(order, entries)
    ensures forall at :: OrderMatches(r, Written(entries, key, at, outcome))
    ensures |order| <= |r| && r[..|order|] == order
  {
    if Succeeded(outcome) && key !in entries then
      var r := order + [key];
      assert NoDuplicates(r) by {
        forall i, j | 0 <= i < j < |r| ensures r[i] != r[j] {
          if j == |order| {
            assert r[i] in order;
          }
        }
      }
      r
    else
      order
  }

  /** Once an analysis for a query is stored, any spelling of that query is served from the cache for seven days. */
  lemma ServedFromCacheForAWeek(entries: map<string, Entry>, input: string, again: string, at: int, outcome: Option<Analysis>, now: int)
    requires Succeeded(outcome)
    requires NormalizeKey(again) == NormalizeKey(input)
    requires now - at < MaxAgeDays * TicksPerDay
    ensures ServedFromCache(Written(entries, NormalizeKey(input), at, outcome), NormalizeKey(again), now)
    ensures Written(entries, NormalizeKey(input), at, outcome)[NormalizeKey(again)].data == outcome.value
  {
  }

  /** From seven full days after it was stored, an entry no longer spares a new analysis. */
  lemma RefreshedAfterAWeek(entries: map<string, Entry>, key: string, now: int)
    requires key in entries
    requires now - entries[key].timestamp >= MaxAgeDays * TicksPerDay
    ensures !ServedFromCache(entries, key, now)
  {
  }

  class AnalysisStore {
    /** The cached entries, by normalised query. */
    var entries: map<string, Entry>
    /** The keys of `entries` in the dict's iteration (insertion) order. */
    var order: seq<string>

    ghost predicate Valid()
      reads this
    {
      OrderMatches(order, entries)
    }

    /** An empty cache (`load_analyses()` when the file does not exist). */
    constructor()
      ensures Valid()
      ensures entries == map[] && order == []
    {
      entries := map[];
      order := [];
    }

    /**
     * The analyse action for the text typed by the user. `now` is the clock at the
     * freshness check, `savedAt` the clock when a new result is stored, and `analyze`
     * the language-model call, which gets the text as typed. Returns the analysis to
     * display (nothing is shown unless `Succeeded(shown)`: `None` or an empty
     * object shows nothing) and whether a new analysis was requested.
     */
    method Analyze(input: string, now: int, savedAt: int, analyze: string -> Option<Analysis>)
      returns (shown: Option<Analysis>, requested: bool)
      requires Valid()
      modifies this
      ensures Valid()
      ensures requested <==> input != [] && !ServedFromCache(old(entries), NormalizeKey(input), now)
      ensures input == [] ==> shown.None?
      ensures input != [] && !requested ==> shown == Some(old(entries)[NormalizeKey(input)].data)
      ensures requested ==> shown == analyze(input)
      ensures entries == if requested then Written(old(entries), NormalizeKey(input), savedAt, shown) else old(entries)
      ensures order == if requested then WrittenOrder(old(order), old(entries), NormalizeKey(input), shown) else old(order)
    {
      shown, requested := None, false;
      if input != [] {
        var key := NormalizeKey(input);
        if key in entries && IsFresh(entries[key].timestamp, now) {
          shown := Some(entries[key].data);
        } else {
          requested := true;
          shown := analyze(input);
          if shown.Some? && shown.value.IsTruthy() {
            if key !in entries {
              order := order + [key];
            }
            entries := entries[key := Entry(savedAt, shown.value)];
          }
        }
      }
    }
  }
}
