/**
 Scoring a corpus: `WerReport.add` and `score` of packages/evals/src/uaagro_evals/wer.py, with what
 the per-condition grouping conserves and what a condition's rate can hide.
 */
module CorpusScoring {
  import opened WordAlignment

  datatype ConditionResult = ConditionResult(
    condition: string, utterances: nat, errors: nat, referenceWords: nat,
    substitutions: nat, deletions: nat, insertions: nat)
  {
    function Wer(): real {
      if referenceWords == 0 then 0.0 else errors as real / referenceWords as real
    }
  }

  type Results = map<string, ConditionResult>

  /** One corpus item with what the recogniser said. */
  datatype Scored<T(==)> = Scored(condition: string, reference: seq<T>, hypothesis: seq<T>) {
    function Outcome(): Alignment {
      AlignmentOf(reference, hypothesis)
    }
  }

  function EmptyResult(condition: string): ConditionResult {
    ConditionResult(condition, 0, 0, 0, 0, 0, 0)
  }

  function Counted(r: ConditionResult, a: Alignment): ConditionResult {
    ConditionResult(r.condition, r.utterances + 1, r.errors + a.Errors(), r.referenceWords + a.referenceLength,
                    r.substitutions + a.substitutions, r.deletions + a.deletions, r.insertions + a.insertions)
  }

  function Added(m: Results, condition: string, a: Alignment): Results {
    m[condition := Counted(if condition in m then m[condition] else EmptyResult(condition), a)]
  }

  class WerReport {
    var byCondition: Results

    constructor ()
      ensures byCondition == map[]
    {
      byCondition := map[];
    }

    method Add(condition: string, alignment: Alignment)
      modifies this
      ensures byCondition == Added(old(byCondition), condition, alignment)
    {
      if condition !in byCondition {
        byCondition := byCondition[condition := EmptyResult(condition)];
      }
      var result := byCondition[condition];
      result := result.(utterances := result.utterances + 1);
      result := result.(errors := result.errors + alignment.Errors());
      result := result.(referenceWords := result.referenceWords + alignment.referenceLength);
      result := result.(substitutions := result.substitutions + alignment.substitutions);
      result := result.(deletions := result.deletions + alignment.deletions);
      result := result.(insertions := result.insertions + alignment.insertions);
      byCondition := byCondition[condition := result];
    }
  }

  function ScoredBy<T(==)>(pairs: seq<Scored<T>>): Results {
    if pairs == [] then map[]
    else
      var last := pairs[|pairs| - 1];
      Added(ScoredBy(pairs[..|pairs| - 1]), last.condition, AlignmentOf(last.reference, last.hypothesis))
  }

  method Score<T(==, !new)>(pairs: seq<Scored<T>>) returns (report: WerReport)
    ensures fresh(report)
    ensures report.byCondition == ScoredBy(pairs)
  {
    report := new WerReport();
    for i := 0 to |pairs|
      invariant fresh(report)
      invariant report.byCondition == ScoredBy(pairs[..i])
    {
      var alignment := Align(pairs[i].reference, pairs[i].hypothesis);
      report.Add(pairs[i].condition, alignment);
      assert pairs[..i + 1][..i] == pairs[..i];
    }
    assert pairs[..|pairs|] == pairs;
  }

  // ----- what a report adds up to

  /** The rate of a condition is its errors per reference word, and zero where there is none. */
  lemma RateIsPerWord(r: ConditionResult)
    ensures r.referenceWords > 0 ==> r.Wer() * r.referenceWords as real == r.errors as real
    ensures r.referenceWords == 0 ==> r.Wer() == 0.0
  {
  }

  /** A figure added up over every condition, in no particular order. */
  ghost function Total(m: Results, figure: ConditionResult -> int): int {
    if m == map[] then 0
    else
      var k :| k in m;
      figure(m[k]) + Total(m - {k}, figure)
  }

  /** A figure added up over the corpus, item by item. */
  function OverCorpus<T>(pairs: seq<Scored<T>>, figure: Scored<T> -> int): int {
    if pairs == [] then 0
    else OverCorpus(pairs[..|pairs| - 1], figure) + figure(pairs[|pairs| - 1])
  }

  lemma {:induction false} TotalWithout(m: Results, k: string, figure: ConditionResult -> int)
    requires k in m
    ensures Total(m, figure) == figure(m[k]) + Total(m - {k}, figure)
    decreases |m|
  {
    var j :| j in m && Total(m, figure) == figure(m[j]) + Total(m - {j}, figure);
    if j != k {
      TotalWithout(m - {j}, k, figure);
      assert m - {j} - {k} == m - {k} - {j};
      TotalWithout(m - {k}, j, figure);
    }
  }

  lemma TotalAdded(m: Results, condition: string, a: Alignment, figure: ConditionResult -> int)
    ensures var before := if condition in m then m[condition] else EmptyResult(condition);
      figure(EmptyResult(condition)) == 0 ==>
        Total(Added(m, condition, a), figure) == Total(m, figure) + figure(Counted(before, a)) - figure(before)
  {
    var n := Added(m, condition, a);
    TotalWithout(n, condition, figure);
    assert n - {condition} == m - {condition};
    if condition in m {
      TotalWithout(m, condition, figure);
    } else {
      assert m - {condition} == m;
    }
  }

  /**
   However the corpus is split into conditions, the errors and the reference words of the whole
   report are those of the corpus: the overall rate does not depend on the grouping.
   */
  lemma {:induction false} GroupingConservesTotals<T>(pairs: seq<Scored<T>>)
    ensures Total(ScoredBy(pairs), (r: ConditionResult) => r.errors)
         == OverCorpus(pairs, (p: Scored<T>) => Distance(p.reference, p.hypothesis))
    ensures Total(ScoredBy(pairs), (r: ConditionResult) => r.referenceWords)
         == OverCorpus(pairs, (p: Scored<T>) => |p.reference|)
  {
    if pairs != [] {
      var last := pairs[|pairs| - 1];
      var before := ScoredBy(pairs[..|pairs| - 1]);
      var a := AlignmentOf(last.reference, last.hypothesis);
      GroupingConservesTotals(pairs[..|pairs| - 1]);
      TotalAdded(before, last.condition, a, (r: ConditionResult) => r.errors);
      TotalAdded(before, last.condition, a, (r: ConditionResult) => r.referenceWords);
    }
  }

  /** A figure added up over one condition's own items. */
  function OverCondition<T(==)>(pairs: seq<Scored<T>>, c: string, figure: Scored<T> -> int): int {
    if pairs == [] then 0
    else
      var last := pairs[|pairs| - 1];
      OverCondition(pairs[..|pairs| - 1], c, figure) + if last.condition == c then figure(last) else 0
  }

  /** `kept` counts in a result what `figure` says of each item. */
  ghost predicate Tallies<T(!new)>(figure: Scored<T> -> int, kept: ConditionResult -> int) {
    && (forall c :: kept(EmptyResult(c)) == 0)
    && (forall r, p: Scored<T> :: kept(Counted(r, p.Outcome())) == kept(r) + figure(p))
  }

  lemma {:induction false} ConditionFigure<T(!new)>(
    pairs: seq<Scored<T>>, c: string, figure: Scored<T> -> int, kept: ConditionResult -> int)
    requires Tallies(figure, kept)
    ensures c in ScoredBy(pairs) ==> kept(ScoredBy(pairs)[c]) == OverCondition(pairs, c, figure)
    ensures c !in ScoredBy(pairs) ==> OverCondition(pairs, c, figure) == 0
  {
    if pairs != [] {
      var last := pairs[|pairs| - 1];
      ConditionFigure(pairs[..|pairs| - 1], c, figure, kept);
      var m := ScoredBy(pairs[..|pairs| - 1]);
      var before := if last.condition in m then m[last.condition] else EmptyResult(last.condition);
      assert kept(EmptyResult(last.condition)) == 0;
      assert kept(Counted(before, last.Outcome())) == kept(before) + figure(last);
    }
  }

  /** Every figure of a condition is the sum over that condition's own items. */
  lemma ConditionSumsItsItems<T(!new)>(pairs: seq<Scored<T>>, c: string)
    requires c in ScoredBy(pairs)
    ensures var r := ScoredBy(pairs)[c];
      && r.utterances == OverCondition(pairs, c, (p: Scored<T>) => 1)
      && r.errors == OverCondition(pairs, c, (p: Scored<T>) => p.Outcome().Errors())
      && r.referenceWords == OverCondition(pairs, c, (p: Scored<T>) => |p.reference|)
      && r.substitutions == OverCondition(pairs, c, (p: Scored<T>) => p.Outcome().substitutions)
      && r.deletions == OverCondition(pairs, c, (p: Scored<T>) => p.Outcome().deletions)
      && r.insertions == OverCondition(pairs, c, (p: Scored<T>) => p.Outcome().insertions)
  {
    ConditionFigure(pairs, c, (p: Scored<T>) => 1, (r: ConditionResult) => r.utterances);
    ConditionFigure(pairs, c, (p: Scored<T>) => p.Outcome().Errors(), (r: ConditionResult) => r.errors);
    ConditionFigure(pairs, c, (p: Scored<T>) => |p.reference|, (r: ConditionResult) => r.referenceWords);
    ConditionFigure(pairs, c, (p: Scored<T>) => p.Outcome().substitutions, (r: ConditionResult) => r.substitutions);
    ConditionFigure(pairs, c, (p: Scored<T>) => p.Outcome().deletions, (r: ConditionResult) => r.deletions);
    ConditionFigure(pairs, c, (p: Scored<T>) => p.Outcome().insertions, (r: ConditionResult) => r.insertions);
  }

  ghost predicate Silent<T>(pairs: seq<Scored<T>>, condition: string) {
    forall p :: p in pairs && p.condition == condition ==> p.reference == []
  }

  ghost predicate Clean<T>(pairs: seq<Scored<T>>, condition: string) {
    forall p :: p in pairs && p.condition == condition ==> p.reference == p.hypothesis
  }

  ghost predicate Present<T>(pairs: seq<Scored<T>>, condition: string) {
    exists p :: p in pairs && p.condition == condition
  }

  ghost predicate Figures<T>(pairs: seq<Scored<T>>, condition: string, m: Results) {
    && (condition in m <==> Present(pairs, condition))
    && (condition in m ==>
         && (m[condition].referenceWords == 0 <==> Silent(pairs, condition))
         && (m[condition].errors == 0 <==> Clean(pairs, condition)))
  }

  lemma FiguresGrow<T>(pairs: seq<Scored<T>>, last: Scored<T>, condition: string, m: Results, a: Alignment)
    requires Figures(pairs, condition, m)
    requires a.referenceLength == |last.reference| && (a.Errors() == 0 <==> last.reference == last.hypothesis)
    ensures Figures(pairs + [last], condition, Added(m, last.condition, a))
  {
  }

  lemma ZeroErrorsMeansEqual<T(!new)>(a: seq<T>, b: seq<T>)
    ensures AlignmentOf(a, b).Errors() == 0 <==> a == b
  {
    DistanceIsMetric(a, b, []);
  }

  lemma {:induction false} ScoredFigures<T(!new)>(pairs: seq<Scored<T>>, condition: string)
    ensures Figures(pairs, condition, ScoredBy(pairs))
  {
    if pairs != [] {
      var n := |pairs| - 1;
      ScoredFigures(pairs[..n], condition);
      ZeroErrorsMeansEqual(pairs[n].reference, pairs[n].hypothesis);
      FiguresGrow(pairs[..n], pairs[n], condition, ScoredBy(pairs[..n]), pairs[n].Outcome());
      assert pairs == pairs[..n] + [pairs[n]];
    }
  }

  /**
   A condition's rate is zero with errors in it exactly when every reference of the condition is
   empty and some hypothesis is not: the guard against a hallucination on silence that one
   alignment's rate has is missing from the condition's rate.
   */
  lemma ZeroRateWithErrors<T(!new)>(pairs: seq<Scored<T>>, condition: string)
    requires condition in ScoredBy(pairs)
    ensures var r := ScoredBy(pairs)[condition];
      r.Wer() == 0.0 && r.errors > 0 <==> Silent(pairs, condition) && !Clean(pairs, condition)
  {
    ScoredFigures(pairs, condition);
    OnlySilence(ScoredBy(pairs)[condition], Silent(pairs, condition), Clean(pairs, condition));
  }

  lemma OnlySilence(r: ConditionResult, silent: bool, clean: bool)
    requires (r.referenceWords == 0 <==> silent) && (r.errors == 0 <==> clean)
    ensures r.Wer() == 0.0 && r.errors > 0 <==> silent && !clean
  {
  }

  /** One silent utterance in which something was heard: errors, and a rate of zero. */
  lemma SilenceHeardAsWords<T>(hypothesis: seq<T>)
    requires hypothesis != []
    ensures var m := ScoredBy([Scored("quiet", [], hypothesis)]);
      "quiet" in m && m["quiet"].errors == |hypothesis| && m["quiet"].Wer() == 0.0
  {
  }
}
