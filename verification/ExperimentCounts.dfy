/** Conservation of counts in an experiment's summary (evals/experiment.go). */
module ExperimentCounts {
  import opened Experiment
  import opened Rearranged

  /** A result without its clock readings. */
  function Untimed(r: CaseResult): CaseResult { r.(started := ZERO_TIME, finished := ZERO_TIME) }

  /** The results of evaluating the cases one after the other, whatever the clock said. */
  ghost predicate FromCases(target: Case -> Reply, scorers: seq<Scorer>, cases: seq<Case>, rs: seq<CaseResult>) {
    && |rs| == |cases|
    && forall i :: 0 <= i < |rs| ==> Untimed(rs[i]) == Evaluated(target, scorers, i, cases[i], ZERO_TIME, ZERO_TIME)
  }

  /** The target failed and its error has no text. */
  predicate Mute(target: Case -> Reply, c: Case) { target(c).Failed? && target(c).message == "" }

  function Mutes(target: Case -> Reply, cases: seq<Case>): nat {
    if cases == [] then 0
    else Mutes(target, cases[..|cases| - 1]) + if Mute(target, cases[|cases| - 1]) then 1 else 0
  }

  function Occurs(names: seq<string>, name: string): nat {
    if names == [] then 0
    else Occurs(names[..|names| - 1], name) + if names[|names| - 1] == name then 1 else 0
  }

  lemma {:induction false} OccursNever(names: seq<string>, name: string)
    requires name !in names
    ensures Occurs(names, name) == 0
    decreases |names|
  {
    if names != [] { OccursNever(names[..|names| - 1], name); }
  }

  lemma {:induction false} OccursOnce(names: seq<string>, k: nat)
    requires Distinct(names) && k < |names|
    ensures Occurs(names, names[k]) == 1
    decreases |names|
  {
    var n := |names| - 1;
    if k == n {
      OccursNever(names[..n], names[n]);
    } else {
      OccursOnce(names[..n], k);
    }
  }

  // ----- Tallies -----

  lemma {:induction false} TallyAppend(name: string, xs: seq<Mark>, ys: seq<Mark>)
    ensures TallyOf(name, xs + ys) == Add(TallyOf(name, xs), TallyOf(name, ys))
    decreases |ys|
  {
    if ys == [] {
      assert xs + ys == xs;
    } else {
      var n := |ys| - 1;
      assert xs + ys == (xs + ys[..n]) + [ys[n]];
      TallyStep(name, xs + ys[..n], ys[n]);
      TallyAppend(name, xs, ys[..n]);
    }
  }

  lemma {:induction false} PassedWithinScored(name: string, ms: seq<Mark>)
    ensures TallyOf(name, ms).passed <= TallyOf(name, ms).scored
    decreases |ms|
  {
    if ms != [] { PassedWithinScored(name, ms[..|ms| - 1]); }
  }

  /** The entries a scorer has, scored or not. */
  function Weight(name: string, ms: seq<Mark>): nat { TallyOf(name, ms).scored + TallyOf(name, ms).failures }

  predicate IsBy(m: Mark, name: string) { (if m.Measured? then m.score.scorer else m.failure.scorer) == name }

  lemma WeightStep(name: string, ms: seq<Mark>, m: Mark)
    ensures Weight(name, ms + [m]) == Weight(name, ms) + if IsBy(m, name) then 1 else 0
  {
    hide TallyOf;
    TallyStep(name, ms, m);
  }

  lemma WeightAppend(name: string, xs: seq<Mark>, ys: seq<Mark>)
    ensures Weight(name, xs + ys) == Weight(name, xs) + Weight(name, ys)
  {
    hide TallyOf;
    TallyAppend(name, xs, ys);
  }

  lemma {:induction false} MeasuresAppend(scores: seq<Score>, s: Score)
    ensures Measures(scores + [s]) == Measures(scores) + [Measured(s)]
  {
    assert (scores + [s])[..|scores|] == scores;
  }

  lemma {:induction false} LacksAppend(fs: seq<ScorerFailure>, f: ScorerFailure)
    ensures Lacks(fs + [f]) == Lacks(fs) + [Unmeasured(f)]
  {
    assert (fs + [f])[..|fs|] == fs;
  }

  lemma ScorerStep(scorers: seq<Scorer>, c: Case, o: Output, name: string)
    requires scorers != []
    ensures var rest, last := scorers[..|scorers| - 1], scorers[|scorers| - 1];
            && Ratings(scorers, c, o) == Ratings(rest, c, o) + Rated(last, c, o)
            && Misses(scorers, c, o) == Misses(rest, c, o) + Missed(last, c, o)
            && Occurs(Names(scorers), name) == Occurs(Names(rest), name) + if last.name == name then 1 else 0
  {
    assert Names(scorers)[..|scorers| - 1] == Names(scorers[..|scorers| - 1]);
  }

  lemma {:induction false} RatedWeight(s: Scorer, c: Case, o: Output, name: string, rated: seq<Score>, missed: seq<ScorerFailure>)
    ensures Weight(name, Measures(rated + Rated(s, c, o))) + Weight(name, Lacks(missed + Missed(s, c, o)))
         == Weight(name, Measures(rated)) + Weight(name, Lacks(missed)) + if s.name == name then 1 else 0
  {
    hide Weight, Measures, Lacks;
    if s.judge(c, o).Judged? {
      var score := Rated(s, c, o)[0];
      MeasuresAppend(rated, score);
      WeightStep(name, Measures(rated), Measured(score));
      assert missed + [] == missed;
    } else {
      var failure := Missed(s, c, o)[0];
      LacksAppend(missed, failure);
      WeightStep(name, Lacks(missed), Unmeasured(failure));
      assert rated + [] == rated;
    }
  }

  /** Each scorer leaves one entry on an answered case: a score or a failure. */
  lemma {:induction false} OneEntryEach(scorers: seq<Scorer>, c: Case, o: Output, name: string)
    ensures Weight(name, Measures(Ratings(scorers, c, o))) + Weight(name, Lacks(Misses(scorers, c, o)))
         == Occurs(Names(scorers), name)
    decreases |scorers|
  {
    if scorers == [] {
      EmptyTally(name);
    } else {
      hide Weight, Measures, Lacks, Ratings, Misses, Occurs, Names, Rated, Missed;
      var n := |scorers| - 1;
      OneEntryEach(scorers[..n], c, o, name);
      ScorerStep(scorers, c, o, name);
      RatedWeight(scorers[n], c, o, name, Ratings(scorers[..n], c, o), Misses(scorers[..n], c, o));
    }
  }

  /** On a failed case it leaves none. */
  lemma OneResult(target: Case -> Reply, scorers: seq<Scorer>, c: Case, r: CaseResult, i: nat, k: nat)
    requires Untimed(r) == Evaluated(target, scorers, i, c, ZERO_TIME, ZERO_TIME)
    requires Distinct(Names(scorers)) && k < |scorers|
    ensures Weight(Names(scorers)[k], Marks(r)) == if target(c).Answered? then 1 else 0
  {
    hide TallyOf, Measures, Lacks, Ratings, Misses, Occurs;
    var name := Names(scorers)[k];
    WeightAppend(name, Measures(r.scores), Lacks(r.scorerFailures));
    OneEntryEach(scorers, c, target(c).output, name);
    OccursOnce(Names(scorers), k);
    if target(c).Failed? { EmptyTally(name); }
  }

  lemma {:induction false} EmptyTally(name: string)
    ensures Measures([]) == [] && Lacks([]) == [] && TallyOf(name, []) == NONE
  {
  }

  lemma {:induction false} Entries(target: Case -> Reply, scorers: seq<Scorer>, cases: seq<Case>, rs: seq<CaseResult>, k: nat)
    requires FromCases(target, scorers, cases, rs) && Distinct(Names(scorers)) && k < |scorers|
    ensures Weight(Names(scorers)[k], AllMarks(rs)) + Mutes(target, cases) + TargetFailures(rs) == |cases|
    decreases |rs|
  {
    var name := Names(scorers)[k];
    hide Names, Marks, TallyOf, Weight;
    if rs == [] {
      EmptyWeight(name);
    } else {
      var n := |rs| - 1;
      Entries(target, scorers, cases[..n], rs[..n], k);
      WeightAppend(name, AllMarks(rs[..n]), Marks(rs[n]));
      OneResult(target, scorers, cases[n], rs[n], n, k);
    }
  }

  lemma EmptyWeight(name: string)
    ensures Weight(name, []) == 0
  {
  }

  // ----- Failures -----

  /** The failures of all the scorers together. */
  function FailureSum(names: seq<string>, ms: seq<Mark>): nat {
    if names == [] then 0
    else FailureSum(names[..|names| - 1], ms) + TallyOf(names[|names| - 1], ms).failures
  }

  lemma {:induction false} FailureSumStep(names: seq<string>, ms: seq<Mark>, m: Mark)
    ensures FailureSum(names, ms + [m])
         == FailureSum(names, ms) + if m.Unmeasured? then Occurs(names, m.failure.scorer) else 0
    decreases |names|
  {
    hide TallyOf;
    if names != [] {
      var n := |names| - 1;
      FailureSumStep(names[..n], ms, m);
      TallyStep(names[n], ms, m);
    }
  }

  lemma {:induction false} FailureSumNone(names: seq<string>)
    ensures FailureSum(names, []) == 0
    decreases |names|
  {
    if names != [] { FailureSumNone(names[..|names| - 1]); }
  }

  function Unmeasureds(ms: seq<Mark>): nat {
    if ms == [] then 0
    else Unmeasureds(ms[..|ms| - 1]) + if ms[|ms| - 1].Unmeasured? then 1 else 0
  }

  /** Every failure names one of the scorers. */
  ghost predicate Known(names: seq<string>, ms: seq<Mark>) {
    forall i :: 0 <= i < |ms| && ms[i].Unmeasured? ==> ms[i].failure.scorer in names
  }

  lemma {:induction false} FailuresAddUp(names: seq<string>, ms: seq<Mark>)
    requires Distinct(names) && Known(names, ms)
    ensures FailureSum(names, ms) == Unmeasureds(ms)
    decreases |ms|
  {
    hide FailureSum, Occurs;
    if ms == [] {
      FailureSumNone(names);
    } else {
      var n := |ms| - 1;
      var m := ms[n];
      FailuresAddUp(names, ms[..n]);
      assert ms[..n] + [m] == ms;
      FailureSumStep(names, ms[..n], m);
      if m.Unmeasured? {
        var k :| 0 <= k < |names| && names[k] == m.failure.scorer;
        OccursOnce(names, k);
      }
    }
  }

  lemma {:induction false} MeasuresAll(scores: seq<Score>)
    ensures |Measures(scores)| == |scores|
    ensures forall i :: 0 <= i < |scores| ==> Measures(scores)[i] == Measured(scores[i])
    decreases |scores|
  {
    if scores != [] { MeasuresAll(scores[..|scores| - 1]); }
  }

  lemma {:induction false} LacksAll(fs: seq<ScorerFailure>)
    ensures |Lacks(fs)| == |fs|
    ensures forall i :: 0 <= i < |fs| ==> Lacks(fs)[i] == Unmeasured(fs[i])
    decreases |fs|
  {
    if fs != [] { LacksAll(fs[..|fs| - 1]); }
  }

  lemma {:induction false} UnmeasuredsAppend(xs: seq<Mark>, ys: seq<Mark>)
    ensures Unmeasureds(xs + ys) == Unmeasureds(xs) + Unmeasureds(ys)
    decreases |ys|
  {
    if ys == [] {
      assert xs + ys == xs;
    } else {
      var n := |ys| - 1;
      assert (xs + ys)[..|xs| + n] == xs + ys[..n];
      UnmeasuredsAppend(xs, ys[..n]);
    }
  }

  lemma {:induction false} UnmeasuredsOf(ms: seq<Mark>, all: bool)
    requires forall i :: 0 <= i < |ms| ==> ms[i].Unmeasured? == all
    ensures Unmeasureds(ms) == if all then |ms| else 0
    decreases |ms|
  {
    if ms != [] { UnmeasuredsOf(ms[..|ms| - 1], all); }
  }

  lemma UnmeasuredsOfResult(r: CaseResult)
    ensures Unmeasureds(Marks(r)) == |r.scorerFailures|
  {
    hide Unmeasureds, Measures, Lacks;
    MeasuresAll(r.scores);
    LacksAll(r.scorerFailures);
    UnmeasuredsAppend(Measures(r.scores), Lacks(r.scorerFailures));
    UnmeasuredsOf(Measures(r.scores), false);
    UnmeasuredsOf(Lacks(r.scorerFailures), true);
  }

  lemma {:induction false} UnmeasuredsOfAll(rs: seq<CaseResult>)
    ensures Unmeasureds(AllMarks(rs)) == AllFailures(rs)
    decreases |rs|
  {
    hide Marks;
    if rs != [] {
      var n := |rs| - 1;
      UnmeasuredsOfAll(rs[..n]);
      UnmeasuredsAppend(AllMarks(rs[..n]), Marks(rs[n]));
      UnmeasuredsOfResult(rs[n]);
    }
  }

  lemma {:induction false} MissesKnown(scorers: seq<Scorer>, c: Case, o: Output)
    ensures forall i :: 0 <= i < |Misses(scorers, c, o)| ==> Misses(scorers, c, o)[i].scorer in Names(scorers)
    decreases |scorers|
  {
    if scorers != [] {
      var n := |scorers| - 1;
      MissesKnown(scorers[..n], c, o);
      assert Names(scorers) == Names(scorers[..n]) + [scorers[n].name];
    }
  }

  lemma ResultKnown(target: Case -> Reply, scorers: seq<Scorer>, c: Case, r: CaseResult, i: nat)
    requires Untimed(r) == Evaluated(target, scorers, i, c, ZERO_TIME, ZERO_TIME)
    ensures Known(Names(scorers), Marks(r))
  {
    hide Measures, Lacks, Misses, Ratings, Names;
    MeasuresAll(r.scores);
    LacksAll(r.scorerFailures);
    MissesKnown(scorers, c, target(c).output);
  }

  lemma {:induction false} AllKnown(target: Case -> Reply, scorers: seq<Scorer>, cases: seq<Case>, rs: seq<CaseResult>)
    requires FromCases(target, scorers, cases, rs)
    ensures Known(Names(scorers), AllMarks(rs))
    decreases |rs|
  {
    hide Names, Marks;
    if rs != [] {
      var n := |rs| - 1;
      AllKnown(target, scorers, cases[..n], rs[..n]);
      ResultKnown(target, scorers, cases[n], rs[n], n);
    }
  }

  // ----- What a result and an aggregate say -----

  /** The scores of one scorer. */
  function By(name: string, scores: seq<Score>): seq<Score> {
    if scores == [] then [] else By(name, scores[..|scores| - 1]) + if scores[|scores| - 1].scorer == name then [scores[|scores| - 1]] else []
  }

  /** The scores one scorer gave in a run. */
  function AllBy(name: string, rs: seq<CaseResult>): seq<Score> {
    if rs == [] then [] else AllBy(name, rs[..|rs| - 1]) + By(name, rs[|rs| - 1].scores)
  }

  function MissedBy(name: string, fs: seq<ScorerFailure>): nat {
    if fs == [] then 0 else MissedBy(name, fs[..|fs| - 1]) + if fs[|fs| - 1].scorer == name then 1 else 0
  }

  function AllMissedBy(name: string, rs: seq<CaseResult>): nat {
    if rs == [] then 0 else AllMissedBy(name, rs[..|rs| - 1]) + MissedBy(name, rs[|rs| - 1].scorerFailures)
  }

  function Passing(scores: seq<Score>): nat {
    if scores == [] then 0 else Passing(scores[..|scores| - 1]) + if scores[|scores| - 1].passed then 1 else 0
  }

  function ValueSum(scores: seq<Score>): real {
    if scores == [] then 0.0 else ValueSum(scores[..|scores| - 1]) + scores[|scores| - 1].value
  }

  lemma {:induction false} SumsAppend(xs: seq<Score>, ys: seq<Score>)
    ensures Passing(xs + ys) == Passing(xs) + Passing(ys) && ValueSum(xs + ys) == ValueSum(xs) + ValueSum(ys)
    decreases |ys|
  {
    if ys == [] {
      assert xs + ys == xs;
    } else {
      var n := |ys| - 1;
      assert (xs + ys)[..|xs| + n] == xs + ys[..n];
      SumsAppend(xs, ys[..n]);
    }
  }

  /** The tally of scores by one scorer, and of its failures. */
  function TallyBy(own: seq<Score>, failures: nat): Tally { Tally(|own|, Passing(own), failures, ValueSum(own)) }

  lemma {:induction false} TallyByMore(own: seq<Score>, name: string, s: Score)
    ensures TallyBy(own + if s.scorer == name then [s] else [], 0) == Add(TallyBy(own, 0), OfMark(name, Measured(s)))
  {
    if s.scorer == name {
      assert (own + [s])[..|own|] == own;
    } else {
      assert own + [] == own;
    }
  }

  lemma {:induction false} MeasuresTally(name: string, scores: seq<Score>)
    ensures TallyOf(name, Measures(scores)) == TallyBy(By(name, scores), 0)
    decreases |scores|
  {
    if scores != [] {
      hide TallyBy, TallyOf, Add, OfMark;
      var n := |scores| - 1;
      MeasuresTally(name, scores[..n]);
      TallyStep(name, Measures(scores[..n]), Measured(scores[n]));
      TallyByMore(By(name, scores[..n]), name, scores[n]);
    }
  }

  lemma {:induction false} LacksTally(name: string, fs: seq<ScorerFailure>)
    ensures TallyOf(name, Lacks(fs)) == Tally(0, 0, MissedBy(name, fs), 0.0)
    decreases |fs|
  {
    if fs != [] {
      LacksTally(name, fs[..|fs| - 1]);
      TallyStep(name, Lacks(fs[..|fs| - 1]), Unmeasured(fs[|fs| - 1]));
      hide TallyOf;
    }
  }

  lemma AddBy(own: seq<Score>, more: seq<Score>, f: nat, g: nat)
    ensures Add(TallyBy(own, f), TallyBy(more, g)) == TallyBy(own + more, f + g)
  {
    hide Passing, ValueSum;
    SumsAppend(own, more);
  }

  lemma {:induction false} ResultTally(name: string, r: CaseResult)
    ensures TallyOf(name, Marks(r)) == TallyBy(By(name, r.scores), MissedBy(name, r.scorerFailures))
  {
    hide TallyOf, By, MissedBy, Measures, Lacks, Passing, ValueSum;
    TallyAppend(name, Measures(r.scores), Lacks(r.scorerFailures));
    MeasuresTally(name, r.scores);
    LacksTally(name, r.scorerFailures);
  }

  lemma {:induction false} LastResult(name: string, rs: seq<CaseResult>)
    requires rs != []
    ensures var n := |rs| - 1;
            && AllMarks(rs) == AllMarks(rs[..n]) + Marks(rs[n])
            && AllBy(name, rs) == AllBy(name, rs[..n]) + By(name, rs[n].scores)
            && AllMissedBy(name, rs) == AllMissedBy(name, rs[..n]) + MissedBy(name, rs[n].scorerFailures)
  {
  }

  lemma {:induction false} TallySays(name: string, rs: seq<CaseResult>)
    ensures TallyOf(name, AllMarks(rs)) == TallyBy(AllBy(name, rs), AllMissedBy(name, rs))
    decreases |rs|
  {
    if rs != [] {
      hide *;
      var n := |rs| - 1;
      TallySays(name, rs[..n]);
      LastResult(name, rs);
      TallyAppend(name, AllMarks(rs[..n]), Marks(rs[n]));
      ResultTally(name, rs[n]);
      AddBy(AllBy(name, rs[..n]), By(name, rs[n].scores), AllMissedBy(name, rs[..n]), MissedBy(name, rs[n].scorerFailures));
    }
  }

  predicate Quotient(q: real, sum: real, n: nat) { n > 0 && q * n as real == sum }

  /**
   An aggregate counts the scores of its scorer, those of them that passed, and its failures; the
   mean is their sum of values over their number and the pass rate that of the passed ones.
   */
  lemma {:induction false} AggregateSays(names: seq<string>, rs: seq<CaseResult>, k: nat)
    requires k < |names|
    ensures var a, own := Aggregates(names, rs)[k], AllBy(names[k], rs);
            && a.scorer == names[k] && a.scored == |own| && a.passed == Passing(own) && a.failures == AllMissedBy(names[k], rs)
            && (own == [] ==> a.mean == 0.0 && a.passRate == 0.0)
            && (own != [] ==> Quotient(a.mean, ValueSum(own), |own|) && Quotient(a.passRate, Passing(own) as real, |own|))
  {
    TallySays(names[k], rs);
    hide TallyOf, AllMarks, AllBy, AllMissedBy, Summed, Passing, ValueSum, Quotient;
    SummedSays(names[k], TallyOf(names[k], AllMarks(rs)));
  }

  lemma SummedSays(name: string, t: Tally)
    ensures var a := Summed(name, t);
            && a.scorer == name && a.scored == t.scored && a.passed == t.passed && a.failures == t.failures
            && (t.scored == 0 ==> a.mean == 0.0 && a.passRate == 0.0)
            && (t.scored > 0 ==> Quotient(a.mean, t.sum, t.scored) && Quotient(a.passRate, t.passed as real, t.scored))
  {
    if t.scored > 0 {
      Divides(t.sum, t.scored as real);
      Divides(t.passed as real, t.scored as real);
    }
  }

  lemma Divides(x: real, n: real)
    requires n > 0.0
    ensures x / n * n == x
  {
  }

  /** The places of the scorers that judged, or of those that did not. */
  function Deciding(judged: bool, scorers: seq<Scorer>, c: Case, o: Output): seq<nat> {
    if scorers == [] then [] else
      var n := |scorers| - 1;
      Deciding(judged, scorers[..n], c, o) + if scorers[n].judge(c, o).Judged? == judged then [n] else []
  }

  lemma {:induction false} DecidingPlaces(judged: bool, scorers: seq<Scorer>, c: Case, o: Output)
    ensures var places := Deciding(judged, scorers, c, o);
            && (forall i :: 0 <= i < |places| ==> places[i] < |scorers|)
            && (forall i, j :: 0 <= i < j < |places| ==> places[i] < places[j])
            && (forall k :: 0 <= k < |scorers| ==> (k in places <==> scorers[k].judge(c, o).Judged? == judged))
    decreases |scorers|
  {
    if scorers != [] { DecidingPlaces(judged, scorers[..|scorers| - 1], c, o); }
  }

  /** The score is what the scorer judged of the case, under the scorer's own name. */
  predicate ScoreOf(s: Scorer, c: Case, o: Output, score: Score) {
    var v := s.judge(c, o);
    v.Judged? && score.scorer == s.name && score.caseId == c.id && score.value == v.value && score.passed == v.passed && score.reason == v.reason
  }

  predicate FailureOf(s: Scorer, c: Case, o: Output, f: ScorerFailure) {
    var v := s.judge(c, o);
    !v.Judged? && f.scorer == s.name && f.caseId == c.id && f.message == v.message && f.panicked == v.Panicked?
  }

  /** The scores are those of the scorers that judged, in their order, and the failures those of the others. */
  ghost predicate Judgement(scorers: seq<Scorer>, c: Case, o: Output, scores: seq<Score>, failures: seq<ScorerFailure>) {
    var good, bad := Deciding(true, scorers, c, o), Deciding(false, scorers, c, o);
    && |scores| == |good| && |failures| == |bad|
    && (forall i :: 0 <= i < |good| ==> good[i] < |scorers| && ScoreOf(scorers[good[i]], c, o, scores[i]))
    && (forall i :: 0 <= i < |bad| ==> bad[i] < |scorers| && FailureOf(scorers[bad[i]], c, o, failures[i]))
  }

  lemma {:induction false} LastPlaces(scorers: seq<Scorer>, c: Case, o: Output)
    requires scorers != []
    ensures var n := |scorers| - 1; var judged := scorers[n].judge(c, o).Judged?;
            && Deciding(true, scorers, c, o) == Deciding(true, scorers[..n], c, o) + (if judged then [n] else [])
            && Deciding(false, scorers, c, o) == Deciding(false, scorers[..n], c, o) + (if judged then [] else [n])
            && Ratings(scorers, c, o) == Ratings(scorers[..n], c, o) + Rated(scorers[n], c, o)
            && Misses(scorers, c, o) == Misses(scorers[..n], c, o) + Missed(scorers[n], c, o)
  {
  }

  lemma {:induction false} RatingsJudge(scorers: seq<Scorer>, c: Case, o: Output)
    ensures Judgement(scorers, c, o, Ratings(scorers, c, o), Misses(scorers, c, o))
    decreases |scorers|
  {
    if scorers != [] {
      hide ScoreOf, FailureOf, Deciding, Ratings, Misses, Rated, Missed;
      var n := |scorers| - 1;
      RatingsJudge(scorers[..n], c, o);
      LastPlaces(scorers, c, o);
      LastJudges(scorers[n], c, o);
      var good, bad := Deciding(true, scorers[..n], c, o), Deciding(false, scorers[..n], c, o);
      assert forall i :: 0 <= i < |good| ==> scorers[..n][good[i]] == scorers[good[i]];
      assert forall i :: 0 <= i < |bad| ==> scorers[..n][bad[i]] == scorers[bad[i]];
    }
  }

  lemma LastJudges(s: Scorer, c: Case, o: Output)
    ensures if s.judge(c, o).Judged? then |Rated(s, c, o)| == 1 && ScoreOf(s, c, o, Rated(s, c, o)[0]) && Missed(s, c, o) == []
            else |Missed(s, c, o)| == 1 && FailureOf(s, c, o, Missed(s, c, o)[0]) && Rated(s, c, o) == []
  {
  }

  /**
   The result of a case: its own identity and clock readings, the target's output, the target's error
   or none, a status even if the output has none, and, unless the target failed, the judgement of
   every scorer in order.
   */
  lemma {:induction false} ResultSays(target: Case -> Reply, scorers: seq<Scorer>, index: nat, c: Case, started: nat, finished: nat)
    ensures var r, reply := Evaluated(target, scorers, index, c, started, finished), target(c);
            && r.caseId == c.id && r.index == index && r.started == started && r.finished == finished
            && r.output == reply.output && r.failure == (if reply.Failed? then reply.message else "")
            && (reply.output.status != "" ==> r.status == reply.output.status)
            && (reply.output.status == "" ==> r.status == if reply.Failed? then "failed" else "succeeded")
            && (reply.Failed? ==> r.scores == [] && r.scorerFailures == [])
            && (reply.Answered? ==> Judgement(scorers, c, reply.output, r.scores, r.scorerFailures))
  {
    hide Judgement, Ratings, Misses;
    RatingsJudge(scorers, c, target(c).output);
  }

  // ----- The main results -----

  /**
   In a record of an uncancelled run every scorer accounts for each case it was asked about:
   scored or failed, the two numbers add up to the cases whose target succeeded. A target error
   with no text is the exception: it counts as a success and yet nothing was scored.
   */
  lemma {:induction false} Conservation(target: Case -> Reply, scorers: seq<Scorer>, cases: seq<Case>, rs: seq<CaseResult>, k: nat)
    requires FromCases(target, scorers, cases, rs) && Distinct(Names(scorers)) && k < |scorers|
    ensures var a := Aggregates(Names(scorers), rs)[k];
            && a.scorer == scorers[k].name
            && a.passed <= a.scored
            && a.scored + a.failures + Mutes(target, cases) + TargetFailures(rs) == |cases|
            && (a.scored + a.failures == |cases| - TargetFailures(rs)
                <==> forall i :: 0 <= i < |cases| ==> !Mute(target, cases[i]))
  {
    hide TallyOf, AllMarks, Mutes, TargetFailures, Mute;
    Entries(target, scorers, cases, rs, k);
    PassedWithinScored(Names(scorers)[k], AllMarks(rs));
    NoMutes(target, cases);
  }

  lemma {:induction false} NoMutes(target: Case -> Reply, cases: seq<Case>)
    ensures Mutes(target, cases) == 0 <==> forall i :: 0 <= i < |cases| ==> !Mute(target, cases[i])
    decreases |cases|
  {
    hide Mute;
    if cases != [] { NoMutes(target, cases[..|cases| - 1]); }
  }

  function SumOfFailures(aggregates: seq<Aggregate>): nat {
    if aggregates == [] then 0
    else SumOfFailures(aggregates[..|aggregates| - 1]) + aggregates[|aggregates| - 1].failures
  }

  lemma {:induction false} SumIsFailureSum(names: seq<string>, rs: seq<CaseResult>)
    ensures SumOfFailures(Aggregates(names, rs)) == FailureSum(names, AllMarks(rs))
    decreases |names|
  {
    hide TallyOf, AllMarks;
    if names != [] {
      var n := |names| - 1;
      assert Aggregates(names, rs)[..n] == Aggregates(names[..n], rs);
      SumIsFailureSum(names[..n], rs);
    }
  }

  /** The record's scorer failures are the sum of the scorers' own. */
  lemma {:induction false} FailuresConserved(target: Case -> Reply, scorers: seq<Scorer>, cases: seq<Case>, rs: seq<CaseResult>)
    requires FromCases(target, scorers, cases, rs) && Distinct(Names(scorers))
    ensures AllFailures(rs) == SumOfFailures(Aggregates(Names(scorers), rs))
  {
    hide AllMarks, Names, Aggregates, FailureSum, Unmeasureds, SumOfFailures, AllFailures;
    AllKnown(target, scorers, cases, rs);
    FailuresAddUp(Names(scorers), AllMarks(rs));
    UnmeasuredsOfAll(rs);
    SumIsFailureSum(Names(scorers), rs);
  }

  /** One case whose target fails without a message: nothing scored, nothing failed, no target failure. */
  lemma MuteUncounted(c: Case, s: Scorer)
    ensures var target := (d: Case) => Failed(Output("", ""), "");
            var rs := [Evaluated(target, [s], 0, c, ZERO_TIME, ZERO_TIME)];
            var a := Aggregates(Names([s]), rs)[0];
            FromCases(target, [s], [c], rs) && a.scored + a.failures != |[c]| - TargetFailures(rs)
  {
    hide Evaluated, Aggregates;
    var target := (d: Case) => Failed(Output("", ""), "");
    var rs := [Evaluated(target, [s], 0, c, ZERO_TIME, ZERO_TIME)];
    UntimedZero(target, [s], 0, c);
    Conservation(target, [s], [c], rs, 0);
    assert Mute(target, [c][0]);
  }

  lemma UntimedZero(target: Case -> Reply, scorers: seq<Scorer>, i: nat, c: Case)
    ensures Untimed(Evaluated(target, scorers, i, c, ZERO_TIME, ZERO_TIME)) == Evaluated(target, scorers, i, c, ZERO_TIME, ZERO_TIME)
  {
  }
}
