/**
 * The fixed table of the 13 scoring criteria shown in the detail view, and the
 * loop that lists the criteria the analysis actually scored.
 */
module Rubric {
  import opened Wrappers
  import opened Records

  /** One criterion: the title shown, the key in the analysis' `scores`, the maximum points. */
  datatype Criterion = Criterion(title: string, key: string, maxScore: nat)

  const Criteria: seq<Criterion> := [
    Criterion("1. Trailing PER", "1_trailing_per", 20),
    Criterion("2. 직전 분기 PBR", "2_pbr", 5),
    Criterion("3. 이익 지속 가능성", "3_profit_sustainability", 5),
    Criterion("4. 중복 상장 여부", "4_duplicate_listing", 5),
    Criterion("5. 배당수익률", "5_dividend_yield", 10),
    Criterion("6. 분기 배당 실시", "6_quarterly_dividend", 5),
    Criterion("7. 배당 연속 인상 연수", "7_dividend_increase_years", 5),
    Criterion("8. 자사주 매입 및 소각", "8_buyback_cancellation", 7),
    Criterion("9. 연간 소각 비율", "9_cancellation_ratio", 8),
    Criterion("10. 자사주 보유 비율", "10_treasury_stock", 5),
    Criterion("11. 미래 성장 잠재력", "11_growth_potential", 10),
    Criterion("12. 기업 경영", "12_management", 10),
    Criterion("13. 세계적 브랜드", "13_global_brand", 5)
  ]

  function SumMax(cs: seq<Criterion>): nat {
    if cs == [] then 0 else cs[0].maxScore + SumMax(cs[1..])
  }

  predicate DistinctKeys(cs: seq<Criterion>) {
    forall i, j :: 0 <= i < j < |cs| ==> cs[i].key != cs[j].key
  }

  /** The table has 13 criteria, and their maxima add up to 100 points. */
  lemma CriteriaTotal()
    ensures |Criteria| == 13
    ensures SumMax(Criteria) == 100
  {
    CriteriaMaxima();
    SumOfMaxima();
    SumMaxOfMaxima(Criteria, Maxima);
  }

  /** The maximum points of the criteria, in table order. */
  const Maxima: seq<nat> := [20, 5, 5, 5, 10, 5, 5, 7, 8, 5, 10, 10, 5]

  lemma CriteriaMaxima()
    ensures |Criteria| == |Maxima|
    ensures forall i :: 0 <= i < |Criteria| ==> Criteria[i].maxScore == Maxima[i]
  {
  }

  lemma SumOfMaxima()
    ensures Sum(Maxima) == 100
  {
  }

  function Sum(ns: seq<nat>): nat {
    if ns == [] then 0 else ns[0] + Sum(ns[1..])
  }

  lemma {:induction false} SumMaxOfMaxima(cs: seq<Criterion>, ms: seq<nat>)
    requires |cs| == |ms|
    requires forall i :: 0 <= i < |cs| ==> cs[i].maxScore == ms[i]
    ensures SumMax(cs) == Sum(ms)
  {
    if cs != [] {
      SumMaxOfMaxima(cs[1..], ms[1..]);
    }
  }

  /** No two criteria share a key, so each scored item is shown at most once. */
  lemma CriteriaKeysDistinct()
    ensures DistinctKeys(Criteria)
  {
  }

  /** One expander of the detail view: `"{title}: {score}/{max}"`, the value and the reason. */
  datatype DetailLine = DetailLine(title: string, key: string, score: int, maxScore: nat, value: string, reason: string)

  /**
   * The line for a criterion that was scored: the criterion's title, key and maximum,
   * and the item's score, value and reason; a missing score shows 0, a missing value
   * or reason the empty string.
   */
  function LineOf(c: Criterion, item: ScoreItem): (l: DetailLine)
    ensures l.title == c.title && l.key == c.key && l.maxScore == c.maxScore
    ensures item.score.Some? ==> l.score == item.score.value
    ensures item.score.None? ==> l.score == 0
    ensures item.value.Some? ==> l.value == item.value.value
    ensures item.value.None? ==> l.value == ""
    ensures item.reason.Some? ==> l.reason == item.reason.value
    ensures item.reason.None? ==> l.reason == ""
  {
    DetailLine(c.title, c.key, item.score.GetOr(0), c.maxScore, item.value.GetOr(""), item.reason.GetOr(""))
  }

  /** The lines for the criteria of `cs` whose key is present in `scores`, in table order. */
  function DetailOf(cs: seq<Criterion>, scores: map<string, ScoreItem>): (lines: seq<DetailLine>)
    ensures |lines| <= |cs|
  {
    if cs == [] then []
    else (if cs[0].key in scores then [LineOf(cs[0], scores[cs[0].key])] else []) + DetailOf(cs[1..], scores)
  }

  /**
   * A criterion gets a line exactly when its key was scored: every line belongs to a
   * scored criterion, and every scored criterion has its line.
   */
  lemma {:induction false} DetailOfListsScoredCriteria(cs: seq<Criterion>, scores: map<string, ScoreItem>)
    ensures forall c :: c in cs && c.key in scores ==> LineOf(c, scores[c.key]) in DetailOf(cs, scores)
    ensures forall l :: l in DetailOf(cs, scores) ==>
              l.key in scores && exists c :: c in cs && c.key in scores && l == LineOf(c, scores[c.key])
  {
    if cs != [] {
      DetailOfListsScoredCriteria(cs[1..], scores);
      forall c | c in cs[1..] ensures c in cs {
      }
    }
  }

  /** The positions in `cs` of the criteria whose key is in `scores`, in table order. */
  function ScoredPositions(cs: seq<Criterion>, scores: map<string, ScoreItem>): (ps: seq<nat>)
    ensures |ps| <= |cs|
    ensures forall i :: 0 <= i < |ps| ==> ps[i] < |cs| && cs[ps[i]].key in scores
  {
    if cs == [] then []
    else
      (if cs[0].key in scores then [0] else []) + Shift(ScoredPositions(cs[1..], scores))
  }

  /** Every position moved one place further down the table. */
  function Shift(ps: seq<nat>): (r: seq<nat>)
    ensures |r| == |ps|
    ensures forall i :: 0 <= i < |ps| ==> r[i] == ps[i] + 1
  {
    if ps == [] then [] else [ps[0] + 1] + Shift(ps[1..])
  }

  predicate Increasing(ps: seq<nat>) {
    forall i, j :: 0 <= i < j < |ps| ==> ps[i] < ps[j]
  }

  /** The scored positions strictly increase: they follow the table order. */
  lemma {:induction false} ScoredPositionsIncreasing(cs: seq<Criterion>, scores: map<string, ScoreItem>)
    ensures Increasing(ScoredPositions(cs, scores))
  {
    if cs != [] {
      ScoredPositionsIncreasing(cs[1..], scores);
      var shifted := Shift(ScoredPositions(cs[1..], scores));
      ShiftIncreasing(ScoredPositions(cs[1..], scores));
      if cs[0].key in scores {
        PrependIncreasing(0, shifted);
      } else {
        assert ScoredPositions(cs, scores) == shifted;
      }
    }
  }

  lemma ShiftIncreasing(ps: seq<nat>)
    requires Increasing(ps)
    ensures Increasing(Shift(ps))
    ensures forall i :: 0 <= i < |ps| ==> Shift(ps)[i] > 0
  {
  }

  lemma PrependIncreasing(x: nat, ps: seq<nat>)
    requires Increasing(ps)
    requires forall i :: 0 <= i < |ps| ==> ps[i] > x
    ensures Increasing([x] + ps)
  {
    var r := [x] + ps;
    forall i, j | 0 <= i < j < |r|
      ensures r[i] < r[j]
    {
      assert r[j] == ps[j - 1];
      if i > 0 {
        assert r[i] == ps[i - 1];
      }
    }
  }

  /** Every criterion whose key is in `scores` has its position among the scored positions. */
  lemma {:induction false} ScoredPositionsComplete(cs: seq<Criterion>, scores: map<string, ScoreItem>)
    ensures forall p :: 0 <= p < |cs| && cs[p].key in scores ==> p in ScoredPositions(cs, scores)
  {
    if cs != [] {
      ScoredPositionsComplete(cs[1..], scores);
      var rest := ScoredPositions(cs[1..], scores);
      var shifted := Shift(rest);
      var head: seq<nat> := if cs[0].key in scores then [0] else [];
      var ps := ScoredPositions(cs, scores);
      assert ps == head + shifted;
      forall p | 0 <= p < |cs| && cs[p].key in scores
        ensures p in ps
      {
        if p > 0 {
          assert cs[1..][p - 1] == cs[p];
          var k :| 0 <= k < |rest| && rest[k] == p - 1;
          assert ps[|head| + k] == p;
        }
      }
    }
  }

  /**
   * The detail lines follow the table: line i is the line of the criterion at the
   * i-th scored position. With `ScoredPositionsIncreasing` and
   * `ScoredPositionsComplete`, each scored criterion has
   * exactly one line, and the lines come in table order.
   */
  lemma {:induction false} DetailOfAtScoredPositions(cs: seq<Criterion>, scores: map<string, ScoreItem>)
    ensures LinesAt(cs, scores, ScoredPositions(cs, scores), DetailOf(cs, scores))
  {
    if cs != [] {
      DetailOfAtScoredPositions(cs[1..], scores);
      var rest := ScoredPositions(cs[1..], scores);
      var restLines := DetailOf(cs[1..], scores);
      if cs[0].key in scores {
        var hl := [LineOf(cs[0], scores[cs[0].key])];
        LinesAtShift(cs, scores, rest, restLines);
        LinesAtConcat(cs, scores, [0], hl, Shift(rest), restLines);
        assert ScoredPositions(cs, scores) == [0] + Shift(rest);
        assert DetailOf(cs, scores) == hl + restLines;
      } else {
        LinesAtShift(cs, scores, rest, restLines);
        assert ScoredPositions(cs, scores) == [] + Shift(rest);
        assert DetailOf(cs, scores) == [] + restLines;
      }
    }
  }

  /** Line i of `lines` is the line of the criterion at `ps[i]`. */
  predicate LinesAt(cs: seq<Criterion>, scores: map<string, ScoreItem>, ps: seq<nat>, lines: seq<DetailLine>) {
    |lines| == |ps| &&
    forall i :: 0 <= i < |ps| ==>
      ps[i] < |cs| && cs[ps[i]].key in scores && lines[i] == LineOf(cs[ps[i]], scores[cs[ps[i]].key])
  }

  /** Moving every position one place down matches the lines against the table with its head. */
  lemma LinesAtShift(cs: seq<Criterion>, scores: map<string, ScoreItem>, ps: seq<nat>, lines: seq<DetailLine>)
    requires cs != [] && LinesAt(cs[1..], scores, ps, lines)
    ensures LinesAt(cs, scores, Shift(ps), lines)
  {
    forall i | 0 <= i < |ps|
      ensures Shift(ps)[i] < |cs| && cs[Shift(ps)[i]] == cs[1..][ps[i]]
    {
    }
  }

  lemma LinesAtConcat(cs: seq<Criterion>, scores: map<string, ScoreItem>,
                      ps1: seq<nat>, lines1: seq<DetailLine>, ps2: seq<nat>, lines2: seq<DetailLine>)
    requires LinesAt(cs, scores, ps1, lines1) && LinesAt(cs, scores, ps2, lines2)
    ensures LinesAt(cs, scores, ps1 + ps2, lines1 + lines2)
  {
    var ps, lines := ps1 + ps2, lines1 + lines2;
    forall i | |ps1| <= i < |ps|
      ensures ps[i] == ps2[i - |ps1|] && lines[i] == lines2[i - |ps1|]
    {
    }
  }

  /** When the table's keys are distinct, no two detail lines share a key. */
  lemma DetailOfOneLinePerKey(cs: seq<Criterion>, scores: map<string, ScoreItem>)
    requires DistinctKeys(cs)
    ensures forall i, j :: 0 <= i < j < |DetailOf(cs, scores)| ==> DetailOf(cs, scores)[i].key != DetailOf(cs, scores)[j].key
  {
    ScoredPositionsIncreasing(cs, scores);
    DetailOfAtScoredPositions(cs, scores);
  }

  lemma DetailOfStep(cs: seq<Criterion>, scores: map<string, ScoreItem>, i: nat)
    requires i < |cs|
    ensures DetailOf(cs[i..], scores) ==
            (if cs[i].key in scores then [LineOf(cs[i], scores[cs[i].key])] else []) + DetailOf(cs[i + 1..], scores)
  {
    assert cs[i..][1..] == cs[i + 1..];
  }

  /** An analysis without scores shows no detail lines. */
  lemma {:induction false} DetailOfNoScores(cs: seq<Criterion>)
    ensures DetailOf(cs, map[]) == []
  {
    if cs != [] {
      DetailOfNoScores(cs[1..]);
    }
  }

  /**
   * The detail view: walk the criteria table in order and emit a line for each
   * criterion whose key the analysis' `scores` contains (`scores` defaults to `{}`).
   * The application passes `Criteria` as `table`.
   */
  method DetailView(table: seq<Criterion>, analysis: Analysis) returns (lines: seq<DetailLine>)
    ensures lines == DetailOf(table, analysis.ScoresOrEmpty())
    ensures |lines| <= |table|
    ensures analysis.scores.None? ==> lines == []
  {
    var scores := analysis.ScoresOrEmpty();
    lines := [];
    var i := 0;
    while i < |table|
      invariant 0 <= i <= |table|
      invariant lines + DetailOf(table[i..], scores) == DetailOf(table, scores)
    {
      var c := table[i];
      ghost var rest := DetailOf(table[i + 1..], scores);
      DetailOfStep(table, scores, i);
      if c.key in scores {
        var item := scores[c.key];
        assert lines + DetailOf(table[i..], scores) == (lines + [LineOf(c, item)]) + rest;
        lines := lines + [LineOf(c, item)];
      }
      i := i + 1;
    }
    assert table[i..] == [];
    DetailOfNoScores(table);
  }

  /** Scores are shown as delivered: nothing caps a score at its criterion's maximum. */
  lemma ShownScoreIsNotCapped(item: ScoreItem)
    requires item.score == Some(25)
    ensures DetailOf(Criteria, map["1_trailing_per" := item])[0].score == 25 > Criteria[0].maxScore
  {
  }
}
