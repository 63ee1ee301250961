/**
 Evaluating one case and summarizing an experiment (evals/experiment.go). The target and the
 scorers are functions of what they are given, a scorer's name is fixed, scores are reals, and
 a time is a natural number with 0 for the zero time.
 */
module Experiment {
  import opened Wrappers
  import opened Rearranged

  datatype Case = Case(id: string, input: string)

  datatype Output = Output(status: string, body: string)

  /** What the target answers: an output, with an error message when it failed. */
  datatype Reply = Answered(output: Output) | Failed(output: Output, message: string)

  datatype Verdict = Judged(value: real, passed: bool, reason: string) | Errored(message: string) | Panicked(message: string)

  datatype Scorer = Scorer(name: string, judge: (Case, Output) -> Verdict)

  datatype Score = Score(scorer: string, caseId: string, value: real, passed: bool, reason: string)

  datatype ScorerFailure = ScorerFailure(scorer: string, caseId: string, message: string, panicked: bool)

  datatype CaseResult = CaseResult(
    caseId: string,
    index: nat,
    output: Output,
    status: string,
    failure: string,
    scores: seq<Score>,
    scorerFailures: seq<ScorerFailure>,
    started: nat,
    finished: nat)

  const ZERO_TIME: nat := 0

  function Or(status: string, other: string): string { if status == "" then other else status }

  function Names(scorers: seq<Scorer>): seq<string> { seq(|scorers|, i requires 0 <= i < |scorers| => scorers[i].name) }

  /** The names New accepts: at least one, none empty, no two the same. */
  predicate Acceptable(names: seq<string>) {
    |names| > 0 && (forall i :: 0 <= i < |names| ==> names[i] != "") && Distinct(names)
  }

  /** Every scorer is there. */
  predicate Present(scorers: seq<Option<Scorer>>) {
    forall i :: 0 <= i < |scorers| ==> scorers[i].Some?
  }

  function Given(scorers: seq<Option<Scorer>>): seq<Scorer>
    requires Present(scorers)
  {
    seq(|scorers|, i requires 0 <= i < |scorers| => scorers[i].value)
  }

  /** New's check of the scorers it is given; None stands for a nil scorer, typed or not. */
  method CheckScorers(scorers: seq<Option<Scorer>>) returns (ok: bool)
    ensures ok <==> Present(scorers) && Acceptable(Names(Given(scorers)))
  {
    if |scorers| == 0 { return false; }
    var seen: set<string> := {};
    for i := 0 to |scorers|
      invariant Present(scorers[..i])
      invariant seen == set j | 0 <= j < i :: scorers[j].value.name
      invariant forall j :: 0 <= j < i ==> scorers[j].value.name != ""
      invariant forall j, k :: 0 <= j < k < i ==> scorers[j].value.name != scorers[k].value.name
    {
      assert forall j :: 0 <= j < i ==> scorers[..i][j] == scorers[j];
      if scorers[i].None? { return false; }
      var name := scorers[i].value.name;
      if name == "" {
        assert Present(scorers) ==> Names(Given(scorers))[i] == "";
        return false;
      }
      if name in seen {
        var j :| 0 <= j < i && scorers[j].value.name == name;
        assert Present(scorers) ==> Names(Given(scorers))[j] == Names(Given(scorers))[i];
        return false;
      }
      seen := seen + {name};
    }
    assert scorers[..|scorers|] == scorers;
    assert forall j :: 0 <= j < |scorers| ==> Names(Given(scorers))[j] == scorers[j].value.name;
    return true;
  }

  // ----- One case -----

  /** safeScore: an error or a panic becomes a failure, and the configured name always wins. */
  function Rated(s: Scorer, c: Case, o: Output): seq<Score> {
    var v := s.judge(c, o);
    if v.Judged? then [Score(s.name, c.id, v.value, v.passed, v.reason)] else []
  }

  function Missed(s: Scorer, c: Case, o: Output): seq<ScorerFailure> {
    var v := s.judge(c, o);
    if v.Judged? then [] else [ScorerFailure(s.name, c.id, v.message, v.Panicked?)]
  }

  function Ratings(scorers: seq<Scorer>, c: Case, o: Output): seq<Score> {
    if scorers == [] then [] else Ratings(scorers[..|scorers| - 1], c, o) + Rated(scorers[|scorers| - 1], c, o)
  }

  function Misses(scorers: seq<Scorer>, c: Case, o: Output): seq<ScorerFailure> {
    if scorers == [] then [] else Misses(scorers[..|scorers| - 1], c, o) + Missed(scorers[|scorers| - 1], c, o)
  }

  function Evaluated(target: Case -> Reply, scorers: seq<Scorer>, index: nat, c: Case, started: nat, finished: nat): CaseResult {
    match target(c)
    case Failed(o, message) =>
      CaseResult(c.id, index, o, Or(o.status, "failed"), message, [], [], started, finished)
    case Answered(o) =>
      CaseResult(c.id, index, o, Or(o.status, "succeeded"), "", Ratings(scorers, c, o), Misses(scorers, c, o), started, finished)
  }

  /** evaluateCase: `started` and `finished` are its two clock readings. */
  method EvaluateCase(target: Case -> Reply, scorers: seq<Scorer>, index: nat, c: Case, started: nat, finished: nat)
    returns (r: CaseResult)
    ensures r == Evaluated(target, scorers, index, c, started, finished)
  {
    var reply := target(c);
    var output := reply.output;
    r := CaseResult(c.id, index, output, output.status, "", [], [], started, ZERO_TIME);
    if reply.Failed? {
      r := r.(failure := reply.message);
      if r.status == "" { r := r.(status := "failed"); }
      r := r.(finished := finished);
      return;
    }
    if r.status == "" { r := r.(status := "succeeded"); }
    ghost var before := r;
    for i := 0 to |scorers|
      invariant r == before.(scores := Ratings(scorers[..i], c, output), scorerFailures := Misses(scorers[..i], c, output))
    {
      assert scorers[..i + 1][..i] == scorers[..i];
      var verdict := scorers[i].judge(c, output);
      if verdict.Judged? {
        r := r.(scores := r.scores + [Score(scorers[i].name, c.id, verdict.value, verdict.passed, verdict.reason)]);
      } else {
        var failure := ScorerFailure(scorers[i].name, c.id, verdict.message, verdict.Panicked?);
        r := r.(scorerFailures := r.scorerFailures + [failure]);
      }
    }
    assert scorers[..|scorers|] == scorers;
    r := r.(finished := finished);
  }

  // ----- Summarizing -----

  datatype Tally = Tally(scored: nat, passed: nat, failures: nat, sum: real)

  function Add(a: Tally, b: Tally): Tally {
    Tally(a.scored + b.scored, a.passed + b.passed, a.failures + b.failures, a.sum + b.sum)
  }

  const NONE := Tally(0, 0, 0, 0.0)

  /** One entry of a result: a measurement or the lack of one. */
  datatype Mark = Measured(score: Score) | Unmeasured(failure: ScorerFailure)

  function Measures(scores: seq<Score>): seq<Mark> {
    if scores == [] then [] else Measures(scores[..|scores| - 1]) + [Measured(scores[|scores| - 1])]
  }

  function Lacks(fs: seq<ScorerFailure>): seq<Mark> {
    if fs == [] then [] else Lacks(fs[..|fs| - 1]) + [Unmeasured(fs[|fs| - 1])]
  }

  function Marks(r: CaseResult): seq<Mark> { Measures(r.scores) + Lacks(r.scorerFailures) }

  /** Every entry of a run's results, in order. */
  function AllMarks(rs: seq<CaseResult>): seq<Mark> {
    if rs == [] then [] else AllMarks(rs[..|rs| - 1]) + Marks(rs[|rs| - 1])
  }

  function OfMark(name: string, m: Mark): Tally {
    match m
    case Measured(s) => if s.scorer == name then Tally(1, if s.passed then 1 else 0, 0, s.value) else NONE
    case Unmeasured(f) => if f.scorer == name then Tally(0, 0, 1, 0.0) else NONE
  }

  /** What one scorer has among the entries. */
  function TallyOf(name: string, ms: seq<Mark>): Tally {
    if ms == [] then NONE else Add(TallyOf(name, ms[..|ms| - 1]), OfMark(name, ms[|ms| - 1]))
  }

  function TargetFailures(rs: seq<CaseResult>): nat {
    if rs == [] then 0
    else TargetFailures(rs[..|rs| - 1]) + if rs[|rs| - 1].failure != "" then 1 else 0
  }

  function AllFailures(rs: seq<CaseResult>): nat {
    if rs == [] then 0 else AllFailures(rs[..|rs| - 1]) + |rs[|rs| - 1].scorerFailures|
  }

  datatype Aggregate = Aggregate(scorer: string, scored: nat, passed: nat, failures: nat, mean: real, passRate: real)

  /** A running aggregate together with the sum kept beside it. */
  function Running(name: string, t: Tally): Aggregate { Aggregate(name, t.scored, t.passed, t.failures, 0.0, 0.0) }

  function Summed(name: string, t: Tally): Aggregate {
    if t.scored == 0 then Running(name, t)
    else Running(name, t).(mean := t.sum / t.scored as real, passRate := t.passed as real / t.scored as real)
  }

  function SumAt(sums: map<string, real>, name: string): real { if name in sums then sums[name] else 0.0 }

  /** The aggregates and the sums hold each scorer's tally of the entries so far. */
  ghost predicate Holds(names: seq<string>, aggregates: seq<Aggregate>, sums: map<string, real>, ms: seq<Mark>) {
    && |aggregates| == |names|
    && (forall k :: 0 <= k < |names| ==> aggregates[k] == Running(names[k], TallyOf(names[k], ms)))
    && (forall k :: 0 <= k < |names| ==> SumAt(sums, names[k]) == TallyOf(names[k], ms).sum)
  }

  /** The map from a name to its place, filled once per aggregate. */
  method Places(names: seq<string>) returns (totals: map<string, nat>)
    requires Distinct(names)
    ensures totals.Keys == set k | 0 <= k < |names| :: names[k]
    ensures forall k :: 0 <= k < |names| ==> names[k] in totals && totals[names[k]] == k
  {
    totals := map[];
    for i := 0 to |names|
      invariant totals.Keys == set k | 0 <= k < i :: names[k]
      invariant forall k :: 0 <= k < i ==> names[k] in totals && totals[names[k]] == k
    {
      totals := totals[names[i] := i];
    }
  }

  ghost predicate Placed(names: seq<string>, totals: map<string, nat>) {
    && Distinct(names)
    && totals.Keys == (set k | 0 <= k < |names| :: names[k])
    && forall k :: 0 <= k < |names| ==> names[k] in totals && totals[names[k]] == k
  }

  lemma PlacedAt(names: seq<string>, totals: map<string, nat>, name: string)
    requires Placed(names, totals)
    ensures name in totals ==> totals[name] < |names| && names[totals[name]] == name
    ensures forall k :: 0 <= k < |names| ==> (names[k] == name <==> name in totals && k == totals[name])
  {
    if name in totals {
      var k :| 0 <= k < |names| && names[k] == name;
    }
  }

  lemma {:induction false} TallyStep(name: string, ms: seq<Mark>, m: Mark)
    ensures TallyOf(name, ms + [m]) == Add(TallyOf(name, ms), OfMark(name, m))
  {
    assert (ms + [m])[..|ms|] == ms;
  }

  method AddScore(names: seq<string>, totals: map<string, nat>, aggregates: seq<Aggregate>, sums: map<string, real>,
                  s: Score, ghost ms: seq<Mark>)
    returns (out: seq<Aggregate>, outSums: map<string, real>)
    requires Placed(names, totals) && Holds(names, aggregates, sums, ms)
    ensures Holds(names, out, outSums, ms + [Measured(s)])
  {
    hide TallyOf, Placed;
    out, outSums := aggregates, sums;
    PlacedAt(names, totals, s.scorer);
    forall k | 0 <= k < |names| ensures TallyOf(names[k], ms + [Measured(s)]) == Add(TallyOf(names[k], ms), OfMark(names[k], Measured(s))) {
      TallyStep(names[k], ms, Measured(s));
    }
    if s.scorer in totals {
      var k := totals[s.scorer];
      var aggregate := out[k].(scored := out[k].scored + 1);
      if s.passed { aggregate := aggregate.(passed := aggregate.passed + 1); }
      out := out[k := aggregate];
      outSums := outSums[s.scorer := SumAt(outSums, s.scorer) + s.value];
    }
  }

  method AddFailure(names: seq<string>, totals: map<string, nat>, aggregates: seq<Aggregate>, ghost sums: map<string, real>,
                    f: ScorerFailure, ghost ms: seq<Mark>)
    returns (out: seq<Aggregate>)
    requires Placed(names, totals) && Holds(names, aggregates, sums, ms)
    ensures Holds(names, out, sums, ms + [Unmeasured(f)])
  {
    hide TallyOf, Placed;
    out := aggregates;
    PlacedAt(names, totals, f.scorer);
    forall k | 0 <= k < |names| ensures TallyOf(names[k], ms + [Unmeasured(f)]) == Add(TallyOf(names[k], ms), OfMark(names[k], Unmeasured(f))) {
      TallyStep(names[k], ms, Unmeasured(f));
    }
    if f.scorer in totals {
      var k := totals[f.scorer];
      out := out[k := out[k].(failures := out[k].failures + 1)];
    }
  }

  lemma MeasuresStep(ms: seq<Mark>, scores: seq<Score>, i: nat)
    requires i < |scores|
    ensures ms + Measures(scores[..i + 1]) == ms + Measures(scores[..i]) + [Measured(scores[i])]
  {
    assert scores[..i + 1][..i] == scores[..i];
  }

  lemma LacksStep(ms: seq<Mark>, fs: seq<ScorerFailure>, i: nat)
    requires i < |fs|
    ensures ms + Lacks(fs[..i + 1]) == ms + Lacks(fs[..i]) + [Unmeasured(fs[i])]
  {
    assert fs[..i + 1][..i] == fs[..i];
  }

  /** The scores, then the failures, of one result. */
  method AddResult(names: seq<string>, totals: map<string, nat>, aggregates: seq<Aggregate>, sums: map<string, real>,
                   r: CaseResult, ghost ms: seq<Mark>)
    returns (out: seq<Aggregate>, outSums: map<string, real>, failures: nat)
    requires Placed(names, totals) && Holds(names, aggregates, sums, ms)
    ensures Holds(names, out, outSums, ms + Marks(r))
    ensures failures == |r.scorerFailures|
  {
    hide Holds, Placed, TallyOf;
    out, outSums := aggregates, sums;
    failures := 0;
    assert ms + Measures(r.scores[..0]) == ms;
    for i := 0 to |r.scores|
      invariant Holds(names, out, outSums, ms + Measures(r.scores[..i]))
    {
      out, outSums := AddScore(names, totals, out, outSums, r.scores[i], ms + Measures(r.scores[..i]));
      MeasuresStep(ms, r.scores, i);
    }
    assert r.scores[..|r.scores|] == r.scores;
    ghost var done := ms + Measures(r.scores);
    assert done + Lacks(r.scorerFailures[..0]) == done;
    for i := 0 to |r.scorerFailures|
      invariant Holds(names, out, outSums, done + Lacks(r.scorerFailures[..i]))
      invariant failures == i
    {
      failures := failures + 1;
      out := AddFailure(names, totals, out, outSums, r.scorerFailures[i], done + Lacks(r.scorerFailures[..i]));
      LacksStep(done, r.scorerFailures, i);
    }
    assert r.scorerFailures[..|r.scorerFailures|] == r.scorerFailures;
    assert ms + Marks(r) == done + Lacks(r.scorerFailures);
  }

  lemma ResultsStep(rs: seq<CaseResult>, i: nat)
    requires i < |rs|
    ensures AllMarks(rs[..i + 1]) == AllMarks(rs[..i]) + Marks(rs[i])
    ensures TargetFailures(rs[..i + 1]) == TargetFailures(rs[..i]) + if rs[i].failure != "" then 1 else 0
    ensures AllFailures(rs[..i + 1]) == AllFailures(rs[..i]) + |rs[i].scorerFailures|
  {
    assert rs[..i + 1][..i] == rs[..i];
  }

  /** One aggregate per configured scorer, in order, with what that scorer has in the results. */
  function Aggregates(names: seq<string>, rs: seq<CaseResult>): seq<Aggregate> {
    seq(|names|, k requires 0 <= k < |names| => Summed(names[k], TallyOf(names[k], AllMarks(rs))))
  }

  /** summarize. */
  method Summarize(names: seq<string>, rs: seq<CaseResult>)
    returns (targetFailures: nat, scorerFailures: nat, aggregates: seq<Aggregate>)
    requires Distinct(names)
    ensures targetFailures == TargetFailures(rs) && scorerFailures == AllFailures(rs)
    ensures aggregates == Aggregates(names, rs)
  {
    aggregates := seq(|names|, k requires 0 <= k < |names| => Aggregate(names[k], 0, 0, 0, 0.0, 0.0));
    var totals := Places(names);
    assert Placed(names, totals);
    var sums: map<string, real> := map[];
    targetFailures, scorerFailures := 0, 0;
    assert rs[..0] == [];
    assert Holds(names, aggregates, sums, AllMarks([]));
    hide Placed, TallyOf, AllMarks, TargetFailures, AllFailures, Marks, Holds;
    NoResults();
    for i := 0 to |rs|
      invariant Holds(names, aggregates, sums, AllMarks(rs[..i]))
      invariant targetFailures == TargetFailures(rs[..i]) && scorerFailures == AllFailures(rs[..i])
    {
      if rs[i].failure != "" { targetFailures := targetFailures + 1; }
      var failures;
      aggregates, sums, failures := AddResult(names, totals, aggregates, sums, rs[i], AllMarks(rs[..i]));
      scorerFailures := scorerFailures + failures;
      ResultsStep(rs, i);
    }
    assert rs[..|rs|] == rs;
    aggregates := Average(names, aggregates, sums, AllMarks(rs));
  }

  lemma NoResults()
    ensures TargetFailures([]) == 0 && AllFailures([]) == 0
  {
  }

  /** The last loop of summarize: means and pass rates, for scorers that measured something. */
  method Average(names: seq<string>, aggregates: seq<Aggregate>, sums: map<string, real>, ghost ms: seq<Mark>)
    returns (out: seq<Aggregate>)
    requires Holds(names, aggregates, sums, ms)
    ensures |out| == |names| && forall k :: 0 <= k < |names| ==> out[k] == Summed(names[k], TallyOf(names[k], ms))
  {
    hide TallyOf;
    out := aggregates;
    for i := 0 to |out|
      invariant |out| == |names|
      invariant forall k :: i <= k < |names| ==> out[k] == Running(names[k], TallyOf(names[k], ms))
      invariant forall k :: 0 <= k < i ==> out[k] == Summed(names[k], TallyOf(names[k], ms))
    {
      var a := out[i];
      if a.scored > 0 {
        out := out[i := a.(mean := SumAt(sums, a.scorer) / a.scored as real, passRate := a.passed as real / a.scored as real)];
      }
    }
  }
}
