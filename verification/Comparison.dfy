/** Comparing two runs of one dataset (evals/compare.go). */
module Comparison {
  import opened Experiment
  import opened DeltaOrder
  import opened ExperimentCounts
  import opened Rearranged

  datatype Entry = Entry(key: Key, score: Score)

  function Tagged(caseId: string, scores: seq<Score>): seq<Entry> {
    seq(|scores|, i requires 0 <= i < |scores| => Entry(Key(caseId, scores[i].scorer), scores[i]))
  }

  /** The scores of a run with the case and scorer they belong to, in the order they are stored. */
  function Entries(rs: seq<CaseResult>): seq<Entry> {
    if rs == [] then [] else Entries(rs[..|rs| - 1]) + Tagged(rs[|rs| - 1].caseId, rs[|rs| - 1].scores)
  }

  /** The last score stored for each case and scorer. */
  function Table(es: seq<Entry>): map<Key, Score> {
    if es == [] then map[] else Table(es[..|es| - 1])[es[|es| - 1].key := es[|es| - 1].score]
  }

  function Delta(k: Key, b: Score, c: Score): CaseDelta {
    CaseDelta(k, b.value, c.value, c.value - b.value, b.passed, c.passed, c.reason)
  }

  /** The entry's pass state changed from `was`. */
  predicate Changed(table: map<Key, Score>, e: Entry, was: bool) {
    e.key in table && table[e.key].passed == was && e.score.passed == !was
  }

  /** The deltas of the entries whose pass state changed from `was`, in order. */
  function Changes(table: map<Key, Score>, es: seq<Entry>, was: bool): seq<CaseDelta> {
    if es == [] then []
    else
      var e := es[|es| - 1];
      Changes(table, es[..|es| - 1], was) + if Changed(table, e, was) then [Delta(e.key, table[e.key], e.score)] else []
  }

  function Regressions(base: seq<CaseResult>, cand: seq<CaseResult>): seq<CaseDelta> {
    Sort(Changes(Table(Entries(base)), Entries(cand), true))
  }

  function Improvements(base: seq<CaseResult>, cand: seq<CaseResult>): seq<CaseDelta> {
    Sort(Changes(Table(Entries(base)), Entries(cand), false))
  }

  // ----- compareCases -----

  lemma EntriesStep(rs: seq<CaseResult>, i: nat)
    requires i < |rs|
    ensures Entries(rs[..i + 1]) == Entries(rs[..i]) + Tagged(rs[i].caseId, rs[i].scores)
  {
    assert rs[..i + 1][..i] == rs[..i];
  }

  lemma TaggedStep(es: seq<Entry>, caseId: string, scores: seq<Score>, j: nat)
    requires j < |scores|
    ensures es + Tagged(caseId, scores[..j + 1]) == es + Tagged(caseId, scores[..j]) + [Entry(Key(caseId, scores[j].scorer), scores[j])]
  {
  }

  lemma {:induction false} TableStep(es: seq<Entry>, e: Entry)
    ensures Table(es + [e]) == Table(es)[e.key := e.score]
  {
    assert (es + [e])[..|es|] == es;
  }

  lemma {:induction false} ChangesStep(table: map<Key, Score>, es: seq<Entry>, e: Entry, was: bool)
    ensures Changes(table, es + [e], was)
         == Changes(table, es, was) + if Changed(table, e, was) then [Delta(e.key, table[e.key], e.score)] else []
  {
    assert (es + [e])[..|es|] == es;
  }

  method BaselineScores(rs: seq<CaseResult>) returns (table: map<Key, Score>)
    ensures table == Table(Entries(rs))
  {
    hide Table, Entries, Tagged;
    table := map[];
    NoEntries("");
    assert rs[..0] == [];
    for i := 0 to |rs|
      invariant table == Table(Entries(rs[..i]))
    {
      var r := rs[i];
      ghost var es := Entries(rs[..i]);
      NoEntries(r.caseId);
      assert r.scores[..0] == [] && es + [] == es;
      for j := 0 to |r.scores|
        invariant table == Table(es + Tagged(r.caseId, r.scores[..j]))
      {
        table := table[Key(r.caseId, r.scores[j].scorer) := r.scores[j]];
        TaggedStep(es, r.caseId, r.scores, j);
        TableStep(es + Tagged(r.caseId, r.scores[..j]), Entry(Key(r.caseId, r.scores[j].scorer), r.scores[j]));
      }
      assert r.scores[..|r.scores|] == r.scores;
      EntriesStep(rs, i);
    }
    assert rs[..|rs|] == rs;
  }

  lemma NoEntries(caseId: string)
    ensures Entries([]) == [] && Tagged(caseId, []) == [] && Table([]) == map[]
    ensures forall table, was :: Changes(table, [], was) == []
  {
  }

  method ChangedCases(table: map<Key, Score>, rs: seq<CaseResult>) returns (worse: seq<CaseDelta>, better: seq<CaseDelta>)
    ensures worse == Changes(table, Entries(rs), true) && better == Changes(table, Entries(rs), false)
  {
    hide Changes, Entries, Tagged;
    worse, better := [], [];
    NoEntries("");
    assert rs[..0] == [];
    for i := 0 to |rs|
      invariant worse == Changes(table, Entries(rs[..i]), true) && better == Changes(table, Entries(rs[..i]), false)
    {
      var r := rs[i];
      ghost var es := Entries(rs[..i]);
      NoEntries(r.caseId);
      assert r.scores[..0] == [] && es + [] == es;
      for j := 0 to |r.scores|
        invariant worse == Changes(table, es + Tagged(r.caseId, r.scores[..j]), true)
        invariant better == Changes(table, es + Tagged(r.caseId, r.scores[..j]), false)
      {
        var score := r.scores[j];
        var key := Key(r.caseId, score.scorer);
        ghost var sofar, e := es + Tagged(r.caseId, r.scores[..j]), Entry(key, score);
        TaggedStep(es, r.caseId, r.scores, j);
        ChangesStep(table, sofar, e, true);
        ChangesStep(table, sofar, e, false);
        if key !in table || table[key].passed == score.passed { continue; }
        var prior := table[key];
        var delta := CaseDelta(key, prior.value, score.value, score.value - prior.value, prior.passed, score.passed, score.reason);
        if prior.passed && !score.passed {
          worse := worse + [delta];
        } else {
          better := better + [delta];
        }
      }
      assert r.scores[..|r.scores|] == r.scores;
      EntriesStep(rs, i);
    }
    assert rs[..|rs|] == rs;
  }

  /** sortCaseDeltas applied to a slice. */
  method Arrange(xs: seq<CaseDelta>) returns (out: seq<CaseDelta>)
    ensures out == Sort(xs)
  {
    var a := new CaseDelta[|xs|](i requires 0 <= i < |xs| => xs[i]);
    assert a[..] == xs;
    SortCaseDeltas(a);
    out := a[..];
  }

  method CompareCases(base: seq<CaseResult>, cand: seq<CaseResult>) returns (regressions: seq<CaseDelta>, improvements: seq<CaseDelta>)
    ensures regressions == Regressions(base, cand) && improvements == Improvements(base, cand)
    ensures Comparable(base, cand) ==> ReportsScores(regressions, base, cand, true) && ReportsScores(improvements, base, cand, false)
  {
    hide Comparable, ReportsScores;
    if Comparable(base, cand) { ComparisonReports(base, cand); }
    if |base| == 0 || |cand| == 0 {
      NoneWithout(base, cand);
      return [], [];
    }
    var table := BaselineScores(base);
    var worse, better := ChangedCases(table, cand);
    regressions := Arrange(worse);
    improvements := Arrange(better);
  }

  lemma NoneWithout(base: seq<CaseResult>, cand: seq<CaseResult>)
    requires base == [] || cand == []
    ensures Regressions(base, cand) == [] && Improvements(base, cand) == []
  {
    hide Sort;
    NoChange(Entries(cand), true);
    NoChange(Entries(cand), false);
    SortElements([]);
    assert |multiset(Sort([]))| == 0;
  }

  lemma {:induction false} NoChange(es: seq<Entry>, was: bool)
    ensures Changes(map[], es, was) == []
    decreases |es|
  {
    if es != [] { NoChange(es[..|es| - 1], was); }
  }

  // ----- What the result says -----

  /** No case and scorer appear twice in a run. */
  ghost predicate Unique(es: seq<Entry>) { DistinctBy((e: Entry) => e.key, es) }

  /** The keys of deltas. */
  function Keys(ds: seq<CaseDelta>): seq<Key> { seq(|ds|, i requires 0 <= i < |ds| => ds[i].key) }

  predicate Flipped(base: map<Key, Score>, cand: map<Key, Score>, was: bool, k: Key) {
    k in base && k in cand && base[k].passed == was && cand[k].passed == !was
  }

  /** The delta holds the baseline's and the candidate's value and state, their difference, and the candidate's reason. */
  predicate Compares(d: CaseDelta, base: Score, cand: Score) {
    && d.baselineValue == base.value && d.candidateValue == cand.value && d.delta == cand.value - base.value
    && d.baselinePassed == base.passed && d.candidatePassed == cand.passed && d.reason == cand.reason
  }

  /** The run scored that case with that scorer, and this was the score. */
  ghost predicate Scored(rs: seq<CaseResult>, k: Key, s: Score) {
    exists i, j :: 0 <= i < |rs| && 0 <= j < |rs[i].scores| && rs[i].caseId == k.caseId && rs[i].scores[j] == s && s.scorer == k.scorer
  }

  /** `ds` are exactly the pairs of scores of the two runs whose pass state went from `was` to its opposite. */
  ghost predicate ReportsScores(ds: seq<CaseDelta>, base: seq<CaseResult>, cand: seq<CaseResult>, was: bool) {
    && (forall d :: d in ds ==> FromScores(d, base, cand, was))
    && (forall k, b, c :: Scored(base, k, b) && Scored(cand, k, c) && b.passed == was && c.passed == !was ==>
          exists d :: d in ds && d.key == k && Compares(d, b, c))
  }

  ghost predicate FromScores(d: CaseDelta, base: seq<CaseResult>, cand: seq<CaseResult>, was: bool) {
    exists b, c :: Scored(base, d.key, b) && Scored(cand, d.key, c) && b.passed == was && c.passed == !was && Compares(d, b, c)
  }

  lemma {:induction false} EntriesScored(rs: seq<CaseResult>, e: Entry)
    ensures e in Entries(rs) <==> Scored(rs, e.key, e.score)
    decreases |rs|
  {
    if rs != [] {
      var n := |rs| - 1;
      EntriesScored(rs[..n], e);
      if e in Tagged(rs[n].caseId, rs[n].scores) {
        var j :| 0 <= j < |rs[n].scores| && Tagged(rs[n].caseId, rs[n].scores)[j] == e;
        assert Scored(rs, e.key, e.score);
      }
      if Scored(rs[..n], e.key, e.score) {
        var i, j :| 0 <= i < n && 0 <= j < |rs[..n][i].scores| && rs[..n][i].caseId == e.key.caseId && rs[..n][i].scores[j] == e.score && e.score.scorer == e.key.scorer;
        assert rs[i] == rs[..n][i];
      }
      if Scored(rs, e.key, e.score) { ScoredLast(rs, e); }
    }
  }

  lemma ScoredLast(rs: seq<CaseResult>, e: Entry)
    requires rs != [] && Scored(rs, e.key, e.score)
    ensures var n := |rs| - 1; e in Tagged(rs[n].caseId, rs[n].scores) || Scored(rs[..n], e.key, e.score)
  {
    var n := |rs| - 1;
    var i, j :| 0 <= i < |rs| && 0 <= j < |rs[i].scores| && rs[i].caseId == e.key.caseId && rs[i].scores[j] == e.score && e.score.scorer == e.key.scorer;
    if i < n {
      assert rs[..n][i] == rs[i];
    } else {
      assert Tagged(rs[n].caseId, rs[n].scores)[j] == e;
    }
  }

  lemma {:induction false} TableScored(rs: seq<CaseResult>, k: Key, s: Score)
    requires Unique(Entries(rs))
    ensures k in Table(Entries(rs)) && Table(Entries(rs))[k] == s <==> Scored(rs, k, s)
  {
    hide Entries, Table, Scored;
    var es := Entries(rs);
    TableHas(es);
    EntriesScored(rs, Entry(k, s));
    if Entry(k, s) in es {
      var i :| 0 <= i < |es| && es[i] == Entry(k, s);
      assert es[i].key == k && es[i].score == s;
    }
  }

  lemma {:induction false} ReportedScores(ds: seq<CaseDelta>, base: seq<CaseResult>, cand: seq<CaseResult>, was: bool)
    requires Unique(Entries(base)) && Unique(Entries(cand)) && Reports(ds, Table(Entries(base)), Table(Entries(cand)), was)
    ensures ReportsScores(ds, base, cand, was)
  {
    hide Entries, Table, Scored, Compares, Unique, Increasing;
    var tb, tc := Table(Entries(base)), Table(Entries(cand));
    forall d | d in ds ensures FromScores(d, base, cand, was) {
      var i :| 0 <= i < |ds| && ds[i] == d;
      assert Keys(ds)[i] == d.key && d.key in Keys(ds) && Flipped(tb, tc, was, d.key);
      assert Compares(d, tb[d.key], tc[d.key]);
      TableScored(base, d.key, tb[d.key]);
      TableScored(cand, d.key, tc[d.key]);
    }
    forall k, b, c | Scored(base, k, b) && Scored(cand, k, c) && b.passed == was && c.passed == !was
      ensures exists d :: d in ds && d.key == k && Compares(d, b, c)
    {
      TableScored(base, k, b);
      TableScored(cand, k, c);
      assert k in Keys(ds);
      var i :| 0 <= i < |ds| && Keys(ds)[i] == k;
      assert ds[i] in ds && ds[i].key == k;
    }
  }

  /**
   `ds` reports the pairs whose pass state went from `was` to its opposite: each once, in
   increasing order of case and scorer, with both values, both states and the candidate's reason.
   */
  ghost predicate Reports(ds: seq<CaseDelta>, base: map<Key, Score>, cand: map<Key, Score>, was: bool) {
    && Increasing(Keys(ds))
    && (forall k :: k in Keys(ds) <==> Flipped(base, cand, was, k))
    && (forall i :: 0 <= i < |ds| ==> ds[i].key in base && ds[i].key in cand && Compares(ds[i], base[ds[i].key], cand[ds[i].key]))
  }

  lemma {:induction false} TableHas(es: seq<Entry>)
    requires Unique(es)
    ensures forall i :: 0 <= i < |es| ==> es[i].key in Table(es) && Table(es)[es[i].key] == es[i].score
    ensures forall k :: k in Table(es) ==> Entry(k, Table(es)[k]) in es
    decreases |es|
  {
    if es != [] {
      var n := |es| - 1;
      TableHas(es[..n]);
      assert es == es[..n] + [es[n]];
    }
  }

  ghost predicate Arises(table: map<Key, Score>, es: seq<Entry>, was: bool, d: CaseDelta) {
    exists e :: e in es && Changed(table, e, was) && d == Delta(e.key, table[e.key], e.score)
  }

  /** The changes of a table are those of its entries, in order. */
  lemma {:induction false} ChangesFrom(table: map<Key, Score>, es: seq<Entry>, was: bool)
    ensures forall e :: e in es && Changed(table, e, was) ==> Delta(e.key, table[e.key], e.score) in Changes(table, es, was)
    ensures forall d :: d in Changes(table, es, was) ==> Arises(table, es, was, d)
    decreases |es|
  {
    hide Changed, Delta;
    if es != [] {
      var n := |es| - 1;
      ChangesFrom(table, es[..n], was);
      assert es == es[..n] + [es[n]];
    }
  }

  lemma {:induction false} ChangesUnique(table: map<Key, Score>, es: seq<Entry>, was: bool)
    requires Unique(es)
    ensures forall i, j :: 0 <= i < j < |Changes(table, es, was)| ==> Changes(table, es, was)[i].key != Changes(table, es, was)[j].key
    decreases |es|
  {
    hide Changed;
    if es != [] {
      var n := |es| - 1;
      ChangesUnique(table, es[..n], was);
      var front := Changes(table, es[..n], was);
      ChangesFrom(table, es[..n], was);
      forall i | 0 <= i < |front| ensures front[i].key != es[n].key {
        assert front[i] in front;
        assert Arises(table, es[..n], was, front[i]);
      }
    }
  }

  /** No two keys of a list are the same. */
  ghost predicate DistinctKeys(ds: seq<CaseDelta>) { DistinctBy((d: CaseDelta) => d.key, ds) }

  lemma {:induction false} OnlyAtMostOne(k: Key, ds: seq<CaseDelta>)
    requires DistinctKeys(ds)
    ensures |Only(k, ds)| <= 1
    ensures (forall i :: 0 <= i < |ds| ==> ds[i].key != k) ==> Only(k, ds) == []
    decreases |ds|
  {
    if ds != [] { OnlyAtMostOne(k, ds[..|ds| - 1]); }
  }

  lemma {:induction false} OnlyTwo(k: Key, ds: seq<CaseDelta>, i: nat, j: nat)
    requires i < j < |ds| && ds[i].key == k == ds[j].key
    ensures |Only(k, ds)| >= 2
    decreases |ds|
  {
    var n := |ds| - 1;
    if j < n { OnlyTwo(k, ds[..n], i, j); } else { OnlyOne(k, ds[..n], i); }
  }

  lemma {:induction false} OnlyOne(k: Key, ds: seq<CaseDelta>, i: nat)
    requires i < |ds| && ds[i].key == k
    ensures |Only(k, ds)| >= 1
    decreases |ds|
  {
    if i < |ds| - 1 { OnlyOne(k, ds[..|ds| - 1], i); }
  }

  lemma {:induction false} SortIncreasing(ds: seq<CaseDelta>)
    requires DistinctKeys(ds)
    ensures Increasing(Keys(Sort(ds)))
  {
    hide Sort, Only, Before;
    var out := Sort(ds);
    SortOrdered(ds);
    forall i, j | 0 <= i < j < |out| ensures Before(out[i].key, out[j].key) {
      var k := out[i].key;
      SortStable(k, ds);
      OnlyAtMostOne(k, ds);
      BeforeTotal(out[i].key, out[j].key);
      if out[j].key == k { OnlyTwo(k, out, i, j); }
    }
  }

  lemma {:induction false} SortMembers(ds: seq<CaseDelta>)
    ensures forall d :: d in Sort(ds) <==> d in ds
  {
    hide Sort;
    SortElements(ds);
    forall d ensures d in Sort(ds) <==> d in ds {
      assert d in multiset(Sort(ds)) <==> d in multiset(ds);
    }
  }

  lemma {:induction false} MembersReport(base: map<Key, Score>, es: seq<Entry>, was: bool, d: CaseDelta)
    requires Unique(es) && Arises(base, es, was, d)
    ensures Flipped(base, Table(es), was, d.key) && Compares(d, base[d.key], Table(es)[d.key])
  {
    hide Table;
    TableHas(es);
    var e :| e in es && Changed(base, e, was) && d == Delta(e.key, base[e.key], e.score);
    var i :| 0 <= i < |es| && es[i] == e;
  }

  lemma {:induction false} FlippedReported(base: map<Key, Score>, es: seq<Entry>, was: bool, k: Key)
    requires Unique(es) && Flipped(base, Table(es), was, k)
    ensures k in Keys(Sort(Changes(base, es, was)))
  {
    hide Table, Changes, Sort;
    TableHas(es);
    var e := Entry(k, Table(es)[k]);
    assert e in es && Changed(base, e, was);
    ChangesFrom(base, es, was);
    var d := Delta(k, base[k], e.score);
    SortMembers(Changes(base, es, was));
    assert d in Sort(Changes(base, es, was));
    var i :| 0 <= i < |Sort(Changes(base, es, was))| && Sort(Changes(base, es, was))[i] == d;
    assert Keys(Sort(Changes(base, es, was)))[i] == k;
  }

  /** compareCases reports exactly the flipped pairs. */
  lemma {:induction false} SortedReports(base: map<Key, Score>, es: seq<Entry>, was: bool)
    requires Unique(es)
    ensures Reports(Sort(Changes(base, es, was)), base, Table(es), was)
  {
    hide Table, Changes, Sort, Flipped, Compares, Arises, Increasing;
    var ds := Sort(Changes(base, es, was));
    ChangesUnique(base, es, was);
    SortIncreasing(Changes(base, es, was));
    SortMembers(Changes(base, es, was));
    ChangesFrom(base, es, was);
    forall i | 0 <= i < |ds|
      ensures Flipped(base, Table(es), was, ds[i].key)
      ensures ds[i].key in base && ds[i].key in Table(es) && Compares(ds[i], base[ds[i].key], Table(es)[ds[i].key])
    {
      assert ds[i] in ds;
      MembersReport(base, es, was, ds[i]);
      FlippedBoth(base, Table(es), was, ds[i].key);
    }
    forall k ensures k in Keys(ds) <==> Flipped(base, Table(es), was, k) {
      if Flipped(base, Table(es), was, k) { FlippedReported(base, es, was, k); }
    }
  }

  lemma FlippedBoth(base: map<Key, Score>, cand: map<Key, Score>, was: bool, k: Key)
    ensures Flipped(base, cand, was, k) ==> k in base && k in cand
    ensures Flipped(base, cand, was, k) <==> Flipped(cand, base, !was, k)
    ensures !(Flipped(base, cand, true, k) && Flipped(base, cand, false, k))
    ensures !Flipped(base, base, was, k)
  {
  }

  /** Two runs with the same unique entries, in whatever order, have the same table. */
  lemma {:induction false} SameTable(es: seq<Entry>, fs: seq<Entry>)
    requires Unique(es) && multiset(es) == multiset(fs)
    ensures Unique(fs) && Table(es) == Table(fs)
  {
    hide Table;
    var key := (e: Entry) => e.key;
    assert DistinctBy(key, es);
    DistinctStays(key, es, fs);
    assert forall i, j :: 0 <= i < j < |fs| ==> key(fs[i]) != key(fs[j]);
    TableHas(es);
    TableHas(fs);
    assert forall e :: e in es <==> e in multiset(es);
    assert forall e :: e in fs <==> e in multiset(fs);
    forall k | k in Table(es) ensures k in Table(fs) && Table(fs)[k] == Table(es)[k] {
      assert Entry(k, Table(es)[k]) in fs;
    }
    forall k | k in Table(fs) ensures k in Table(es) {
      assert Entry(k, Table(fs)[k]) in es;
    }
    assert Table(es).Keys == Table(fs).Keys;
  }

  lemma ReportsUnique(ds: seq<CaseDelta>, xs: seq<CaseDelta>, base: map<Key, Score>, cand: map<Key, Score>, was: bool)
    requires Reports(ds, base, cand, was) && Reports(xs, base, cand, was)
    ensures ds == xs
  {
    hide Flipped, Increasing;
    IncreasingUnique(Keys(ds), Keys(xs));
    assert |ds| == |Keys(ds)| && |xs| == |Keys(xs)|;
    forall i | 0 <= i < |ds| ensures ds[i] == xs[i] {
      assert Keys(ds)[i] == ds[i].key && Keys(xs)[i] == xs[i].key;
    }
  }

  // ----- Runs have unique entries -----

  lemma {:induction false} EntryCases(rs: seq<CaseResult>, e: Entry)
    requires e in Entries(rs)
    ensures exists i :: 0 <= i < |rs| && rs[i].caseId == e.key.caseId
    decreases |rs|
  {
    var n := |rs| - 1;
    if e in Entries(rs[..n]) {
      EntryCases(rs[..n], e);
      var i :| 0 <= i < n && rs[..n][i].caseId == e.key.caseId;
      assert rs[i].caseId == e.key.caseId;
    }
  }

  /** The scores name scorers of the list, each at most once. */
  ghost predicate RatedBy(scores: seq<Score>, names: seq<string>) {
    && (forall i :: 0 <= i < |scores| ==> scores[i].scorer in names)
    && (forall i, j :: 0 <= i < j < |scores| ==> scores[i].scorer != scores[j].scorer)
  }

  lemma RatedByMore(scores: seq<Score>, more: seq<Score>, names: seq<string>, name: string)
    requires RatedBy(scores, names) && name !in names
    requires |more| <= 1 && (more != [] ==> more[0].scorer == name)
    ensures RatedBy(scores + more, names + [name])
  {
    var all := scores + more;
    forall i | 0 <= i < |all| ensures all[i].scorer in names + [name] {
      assert i < |scores| ==> scores[i].scorer in names;
    }
    forall i, j | 0 <= i < j < |all| ensures all[i].scorer != all[j].scorer {
      assert scores[i].scorer in names;
    }
  }

  lemma DistinctFront(names: seq<string>, name: string)
    requires Distinct(names + [name])
    ensures Distinct(names) && name !in names
  {
    var all := names + [name];
    assert forall i :: 0 <= i < |names| ==> all[i] == names[i];
    assert all[|names|] == name;
  }

  lemma {:induction false} RatingsDistinct(scorers: seq<Scorer>, c: Case, o: Output)
    requires Distinct(Names(scorers))
    ensures RatedBy(Ratings(scorers, c, o), Names(scorers))
    decreases |scorers|
  {
    if scorers != [] {
      var n := |scorers| - 1;
      var names := Names(scorers[..n]);
      assert Names(scorers) == names + [scorers[n].name];
      DistinctFront(names, scorers[n].name);
      RatingsDistinct(scorers[..n], c, o);
      RatedByMore(Ratings(scorers[..n], c, o), Rated(scorers[n], c, o), names, scorers[n].name);
    }
  }

  lemma TaggedUnique(caseId: string, scores: seq<Score>, names: seq<string>)
    requires RatedBy(scores, names)
    ensures Unique(Tagged(caseId, scores))
  {
  }

  lemma UniqueAppend(front: seq<Entry>, back: seq<Entry>)
    requires Unique(front) && Unique(back)
    requires forall e, f :: e in front && f in back ==> e.key != f.key
    ensures Unique(front + back)
  {
    forall i, j | 0 <= i < j < |front + back| ensures (front + back)[i].key != (front + back)[j].key {
      if i < |front| <= j { assert front[i] in front && back[j - |front|] in back; }
    }
  }

  /** Nothing stored for the earlier cases has the last case's key. */
  lemma {:induction false} EarlierCases(rs: seq<CaseResult>, e: Entry, caseId: string)
    requires e in Entries(rs) && forall i :: 0 <= i < |rs| ==> rs[i].caseId != caseId
    ensures e.key.caseId != caseId
  {
    EntryCases(rs, e);
  }

  lemma {:induction false} CaseIds(target: Case -> Reply, scorers: seq<Scorer>, cases: seq<Case>, rs: seq<CaseResult>, i: nat)
    requires FromCases(target, scorers, cases, rs) && i < |rs|
    ensures rs[i].caseId == cases[i].id
    ensures rs[i].scores == if target(cases[i]).Answered? then Ratings(scorers, cases[i], target(cases[i]).output) else []
  {
    hide Ratings, Misses;
    assert Untimed(rs[i]) == Evaluated(target, scorers, i, cases[i], ZERO_TIME, ZERO_TIME);
  }

  /** The results of any run of a dataset with distinct case IDs under distinctly named scorers are fit to compare. */
  lemma {:induction false} RunsAreUnique(target: Case -> Reply, scorers: seq<Scorer>, cases: seq<Case>, rs: seq<CaseResult>)
    requires FromCases(target, scorers, cases, rs) && Distinct(Names(scorers))
    requires forall i, j :: 0 <= i < j < |cases| ==> cases[i].id != cases[j].id
    ensures Unique(Entries(rs))
    decreases |rs|
  {
    hide Names, Distinct, Unique, Evaluated, Tagged, Ratings;
    if rs == [] {
      TaggedUnique("", [], []);
      NoEntries("");
    } else {
      var n := |rs| - 1;
      RunsAreUnique(target, scorers, cases[..n], rs[..n]);
      var front, back := Entries(rs[..n]), Tagged(rs[n].caseId, rs[n].scores);
      CaseIds(target, scorers, cases, rs, n);
      RatingsDistinct(scorers, cases[n], target(cases[n]).output);
      TaggedUnique(rs[n].caseId, rs[n].scores, Names(scorers));
      forall i | 0 <= i < n ensures rs[..n][i].caseId != rs[n].caseId { CaseIds(target, scorers, cases, rs, i); }
      forall e, f | e in front && f in back ensures e.key != f.key {
        EarlierCases(rs[..n], e, rs[n].caseId);
        TaggedCase(rs[n].caseId, rs[n].scores, f);
      }
      UniqueAppend(front, back);
    }
  }

  lemma TaggedCase(caseId: string, scores: seq<Score>, e: Entry)
    requires e in Tagged(caseId, scores)
    ensures e.key.caseId == caseId
  {
  }

  // ----- The main results -----

  /** The two runs pair up each case and scorer at most once. */
  ghost predicate Comparable(base: seq<CaseResult>, cand: seq<CaseResult>) {
    Unique(Entries(base)) && Unique(Entries(cand))
  }

  lemma {:induction false} ComparisonReports(base: seq<CaseResult>, cand: seq<CaseResult>)
    requires Comparable(base, cand)
    ensures Reports(Regressions(base, cand), Table(Entries(base)), Table(Entries(cand)), true)
    ensures Reports(Improvements(base, cand), Table(Entries(base)), Table(Entries(cand)), false)
    ensures ReportsScores(Regressions(base, cand), base, cand, true)
    ensures ReportsScores(Improvements(base, cand), base, cand, false)
  {
    hide Entries, Table, Changes, Sort, Reports, Unique, ReportsScores;
    SortedReports(Table(Entries(base)), Entries(cand), true);
    SortedReports(Table(Entries(base)), Entries(cand), false);
    ReportedScores(Regressions(base, cand), base, cand, true);
    ReportedScores(Improvements(base, cand), base, cand, false);
  }

  /** A comparison does not depend on the order results and scores are stored in. */
  lemma {:induction false} OrderIrrelevant(base: seq<CaseResult>, cand: seq<CaseResult>, base2: seq<CaseResult>, cand2: seq<CaseResult>)
    requires Comparable(base, cand)
    requires multiset(Entries(base)) == multiset(Entries(base2)) && multiset(Entries(cand)) == multiset(Entries(cand2))
    ensures Regressions(base, cand) == Regressions(base2, cand2) && Improvements(base, cand) == Improvements(base2, cand2)
  {
    hide Entries, Table, Reports, Unique, Regressions, Improvements;
    SameTable(Entries(base), Entries(base2));
    SameTable(Entries(cand), Entries(cand2));
    var b, c := Table(Entries(base)), Table(Entries(cand));
    ComparisonReports(base, cand);
    ComparisonReports(base2, cand2);
    ReportsUnique(Regressions(base, cand), Regressions(base2, cand2), b, c, true);
    ReportsUnique(Improvements(base, cand), Improvements(base2, cand2), b, c, false);
  }

  /** The same change seen from the other side: values and states change places, the delta changes sign. */
  ghost predicate Mirrors(d: CaseDelta, e: CaseDelta) {
    && e.key == d.key
    && e.baselineValue == d.candidateValue && e.candidateValue == d.baselineValue && e.delta == -d.delta
    && e.baselinePassed == d.candidatePassed && e.candidatePassed == d.baselinePassed
  }

  ghost predicate AllMirror(ds: seq<CaseDelta>, es: seq<CaseDelta>) {
    |ds| == |es| && forall i :: 0 <= i < |ds| ==> Mirrors(ds[i], es[i])
  }

  lemma ReportsMirror(ds: seq<CaseDelta>, es: seq<CaseDelta>, base: map<Key, Score>, cand: map<Key, Score>, was: bool)
    requires Reports(ds, base, cand, was) && Reports(es, cand, base, !was)
    ensures AllMirror(ds, es)
  {
    hide Flipped, Increasing;
    forall k ensures k in Keys(ds) <==> k in Keys(es) { FlippedBoth(base, cand, was, k); }
    IncreasingUnique(Keys(ds), Keys(es));
    assert |ds| == |Keys(ds)| && |es| == |Keys(es)|;
    forall i | 0 <= i < |ds| ensures Mirrors(ds[i], es[i]) {
      assert Keys(ds)[i] == ds[i].key && Keys(es)[i] == es[i].key;
    }
  }

  /** Swapping the two runs turns regressions into improvements, place by place, and the other way round. */
  lemma SwapMirrors(base: seq<CaseResult>, cand: seq<CaseResult>)
    requires Comparable(base, cand)
    ensures AllMirror(Regressions(base, cand), Improvements(cand, base))
    ensures AllMirror(Improvements(base, cand), Regressions(cand, base))
  {
    hide Entries, Table, Reports, Unique, Regressions, Improvements, AllMirror;
    ComparisonReports(base, cand);
    ComparisonReports(cand, base);
    var b, c := Table(Entries(base)), Table(Entries(cand));
    ReportsMirror(Regressions(base, cand), Improvements(cand, base), b, c, true);
    ReportsMirror(Improvements(base, cand), Regressions(cand, base), b, c, false);
  }

  /** No case and scorer is both a regression and an improvement. */
  lemma Disjoint(base: seq<CaseResult>, cand: seq<CaseResult>, k: Key)
    requires Comparable(base, cand)
    ensures !(k in Keys(Regressions(base, cand)) && k in Keys(Improvements(base, cand)))
  {
    hide Entries, Table, Unique, Regressions, Improvements, Flipped, Increasing;
    ComparisonReports(base, cand);
    FlippedBoth(Table(Entries(base)), Table(Entries(cand)), true, k);
  }

  /** A run compared with itself shows no change. */
  lemma {:induction false} SelfUnchanged(run: seq<CaseResult>)
    requires Unique(Entries(run))
    ensures Regressions(run, run) == [] && Improvements(run, run) == []
  {
    hide Entries, Table, Unique, Regressions, Improvements, Increasing, Flipped;
    ComparisonReports(run, run);
    var t := Table(Entries(run));
    forall was: bool, k ensures !Flipped(t, t, was, k) { FlippedBoth(t, t, was, k); }
    NoKeys(Regressions(run, run));
    NoKeys(Improvements(run, run));
  }

  lemma NoKeys(ds: seq<CaseDelta>)
    ensures ds == [] || ds[0].key in Keys(ds)
  {
    if ds != [] { assert Keys(ds)[0] == ds[0].key; }
  }
}
