/**
 Placing the provider's answers on the requested questions (decisions/openai.go, with the
 tolerance of decisions/systemone.go). Probabilities are reals and an error is None.
 */
module OpenAiAnswers {
  import opened Wrappers
  import opened Rearranged

  /** A raw JSON value, as far as decoding it into a string or an int tells values apart. */
  datatype Raw = Null | Text(text: string) | Whole(number: int) | OtherValue

  datatype Entry = Entry(value: Raw, probability: Option<real>)

  datatype Question = Predicate | Choice(options: set<string>) | Scale(levels: nat) | Unusable

  datatype RawAnswer = RawAnswer(
    kind: string,
    name: string,
    probability: Option<real>,
    choice: Option<Raw>,
    score: Option<real>,
    confidence: Option<real>,
    probabilities: seq<Entry>,
    reason: string)

  datatype Answer =
    | Refusal(why: string)
    | Noul(yes: real)
    | Chosen(option: string, options: map<string, real>, confidence: real)
    | Scored(expected: real, levels: map<int, real>, confidence: real)

  predicate IsProbability(p: real) { 0.0 <= p <= 1.0 }

  const EPSILON := 0.000000001

  function Tolerance(configured: real, count: nat): real {
    var rounding := 0.005 * count as real;
    (if rounding > configured then rounding else configured) + EPSILON
  }

  predicate AddsUp(total: real, outcomes: nat) {
    -Tolerance(0.0, outcomes) <= total - 1.0 <= Tolerance(0.0, outcomes)
  }

  // ----- Distributions -----

  /** A string, but not null, which would decode to the empty string. */
  function AsOption(v: Raw): Option<string> { if v.Text? then Some(v.text) else None }

  /** A whole number, but not null, which would decode to zero. */
  function AsLevel(v: Raw): Option<int> { if v.Whole? then Some(v.number) else None }

  /** An entry that can be placed: a requested outcome with a probability. */
  predicate Fits<K(==)>(read: Raw -> Option<K>, requested: set<K>, e: Entry) {
    && read(e.value).Some? && read(e.value).value in requested
    && e.probability.Some? && IsProbability(e.probability.value)
  }

  function Share(e: Entry): real { if e.probability.Some? then e.probability.value else 0.0 }

  function Total(es: seq<Entry>): real {
    if es == [] then 0.0 else Total(es[..|es| - 1]) + Share(es[|es| - 1])
  }

  ghost predicate AllFit<K(!new)>(read: Raw -> Option<K>, requested: set<K>, es: seq<Entry>) {
    && (forall i :: 0 <= i < |es| ==> Fits(read, requested, es[i]))
    && (forall i, j :: 0 <= i < j < |es| ==> read(es[i].value) != read(es[j].value))
  }

  /** Each requested outcome has exactly one entry, and the probabilities add up to one. */
  ghost predicate Distribution<K(!new)>(read: Raw -> Option<K>, requested: set<K>, es: seq<Entry>) {
    && requested != {}
    && AllFit(read, requested, es)
    && (forall k :: k in requested ==> exists i :: 0 <= i < |es| && read(es[i].value) == Some(k))
    && AddsUp(Total(es), |requested|)
  }

  ghost function Placed<K>(read: Raw -> Option<K>, es: seq<Entry>): map<K, real> {
    if es == [] then map[]
    else
      var e := es[|es| - 1];
      var before := Placed(read, es[..|es| - 1]);
      if read(e.value).Some? then before[read(e.value).value := Share(e)] else before
  }

  lemma {:induction false} PlacedHas<K(!new)>(read: Raw -> Option<K>, requested: set<K>, es: seq<Entry>)
    requires AllFit(read, requested, es)
    ensures forall i :: 0 <= i < |es| ==> read(es[i].value).value in Placed(read, es) && Placed(read, es)[read(es[i].value).value] == es[i].probability.value
    ensures forall k :: k in Placed(read, es) ==> exists i :: 0 <= i < |es| && read(es[i].value) == Some(k)
    decreases |es|
  {
    if es != [] {
      var n := |es| - 1;
      PlacedHas(read, requested, es[..n]);
      forall i | 0 <= i < n ensures read(es[i].value).value != read(es[n].value).value {}
      forall k | k in Placed(read, es) ensures exists i :: 0 <= i < |es| && read(es[i].value) == Some(k) {
        if k in Placed(read, es[..n]) {
          var i :| 0 <= i < n && read(es[..n][i].value) == Some(k);
          assert read(es[i].value) == Some(k);
        } else {
          assert read(es[n].value) == Some(k);
        }
      }
    }
  }

  /** The sum of a map's values, in whatever order they are taken. */
  ghost function MapSum<K(!new)>(m: map<K, real>): real {
    if m == map[] then 0.0 else var k :| k in m; m[k] + MapSum(m - {k})
  }

  lemma {:induction false} MapSumRemove<K(!new)>(m: map<K, real>, k: K)
    requires k in m
    ensures MapSum(m) == m[k] + MapSum(m - {k})
    decreases |m|
  {
    var c :| c in m && MapSum(m) == m[c] + MapSum(m - {c});
    if c != k {
      MapSumRemove(m - {c}, k);
      MapSumRemove(m - {k}, c);
      assert m - {c} - {k} == m - {k} - {c};
    }
  }

  lemma {:induction false} PlacedLast<K(!new)>(read: Raw -> Option<K>, requested: set<K>, es: seq<Entry>)
    requires AllFit(read, requested, es) && es != []
    ensures var n := |es| - 1; var before := Placed(read, es[..n]);
            && AllFit(read, requested, es[..n]) && Total(es) == Total(es[..n]) + Share(es[n])
            && read(es[n].value).Some? && read(es[n].value).value !in before
            && Placed(read, es) == before[read(es[n].value).value := Share(es[n])]
  {
    var n := |es| - 1;
    assert forall i :: 0 <= i < n ==> es[..n][i] == es[i];
    PlacedHas(read, requested, es[..n]);
    assert Fits(read, requested, es[n]);
  }

  lemma MapSumPut<K(!new)>(m: map<K, real>, k: K, v: real)
    requires k !in m
    ensures MapSum(m[k := v]) == MapSum(m) + v
  {
    hide MapSum;
    MapSumRemove(m[k := v], k);
    assert m[k := v] - {k} == m;
  }

  lemma {:induction false} PlacedSum<K(!new)>(read: Raw -> Option<K>, requested: set<K>, es: seq<Entry>)
    requires AllFit(read, requested, es)
    ensures MapSum(Placed(read, es)) == Total(es)
    decreases |es|
  {
    if es != [] {
      hide *;
      var n := |es| - 1;
      PlacedLast(read, requested, es);
      PlacedSum(read, requested, es[..n]);
      MapSumPut(Placed(read, es[..n]), read(es[n].value).value, Share(es[n]));
    }
  }

  /**
   A map that covers exactly the requested outcomes, with probabilities that add up to one
   within half a hundredth per outcome and the rounding of the sum.
   */
  ghost predicate Covers<K(!new)>(m: map<K, real>, requested: set<K>) {
    && requested != {} && m.Keys == requested
    && (forall k :: k in m ==> 0.0 <= m[k] <= 1.0)
    && -(0.005 * |requested| as real + 0.000000001) <= MapSum(m) - 1.0 <= 0.005 * |requested| as real + 0.000000001
  }

  lemma {:induction false} AcceptedDistribution<K(!new)>(read: Raw -> Option<K>, requested: set<K>, es: seq<Entry>)
    requires Distribution(read, requested, es)
    ensures Covers(Placed(read, es), requested)
  {
    var m := Placed(read, es);
    PlacedHas(read, requested, es);
    PlacedSum(read, requested, es);
    hide MapSum, Total, Placed;
    forall k ensures k in m.Keys <==> k in requested {
      if k in m {
        var i :| 0 <= i < |es| && read(es[i].value) == Some(k);
        assert Fits(read, requested, es[i]);
      }
    }
    forall k | k in m ensures IsProbability(m[k]) {
      var i :| 0 <= i < |es| && read(es[i].value) == Some(k);
      assert Fits(read, requested, es[i]);
    }
  }

  function OptionText(option: string): Raw { Text(option) }

  function LevelNumber(level: int): Raw { Whole(level) }

  /** The entry is `k`, written as `write` does, with the map's probability of it. */
  predicate EntryFor<K(==)>(write: K -> Raw, e: Entry, m: map<K, real>, k: K) { k in m && e == Entry(write(k), Some(m[k])) }

  ghost predicate ForSome<K(!new)>(write: K -> Raw, e: Entry, m: map<K, real>) { exists k :: EntryFor(write, e, m, k) }

  ghost predicate Listed<K(!new)>(write: K -> Raw, es: seq<Entry>, k: K) { exists i :: 0 <= i < |es| && es[i].value == write(k) }

  /** The entries report exactly the map: one entry for each outcome, with the map's probability. */
  ghost predicate Reported<K(!new)>(write: K -> Raw, es: seq<Entry>, m: map<K, real>) {
    && (forall i :: 0 <= i < |es| ==> ForSome(write, es[i], m))
    && (forall i, j :: 0 <= i < j < |es| ==> es[i].value != es[j].value)
    && (forall k :: k in m ==> Listed(write, es, k))
  }

  /** Reading undoes writing, and reads nothing else. */
  ghost predicate Reads<K(!new)>(read: Raw -> Option<K>, write: K -> Raw) {
    forall v, k :: read(v) == Some(k) <==> v == write(k)
  }

  /** A distribution is accepted, as `m`, exactly if the entries report `m` and it covers what was requested. */
  lemma {:induction false} DistributionExactly<K(!new)>(read: Raw -> Option<K>, write: K -> Raw, requested: set<K>, es: seq<Entry>, m: map<K, real>)
    requires Reads(read, write)
    ensures Distribution(read, requested, es) && m == Placed(read, es) <==> Reported(write, es, m) && Covers(m, requested)
  {
    if Distribution(read, requested, es) && m == Placed(read, es) {
      AcceptedDistribution(read, requested, es);
      PlacedReported(read, write, requested, es);
    }
    if Reported(write, es, m) && Covers(m, requested) { ReportedPlaced(read, write, requested, es, m); }
  }

  lemma {:induction false} PlacedReported<K(!new)>(read: Raw -> Option<K>, write: K -> Raw, requested: set<K>, es: seq<Entry>)
    requires Reads(read, write) && AllFit(read, requested, es)
    ensures Reported(write, es, Placed(read, es))
  {
    PlacedHas(read, requested, es);
    hide Placed;
    var m := Placed(read, es);
    forall i | 0 <= i < |es| ensures ForSome(write, es[i], m) {
      assert Fits(read, requested, es[i]);
      var k := read(es[i].value).value;
      assert read(es[i].value) == Some(k) && EntryFor(write, es[i], m, k);
    }
    forall i, j | 0 <= i < j < |es| ensures es[i].value != es[j].value { assert read(es[i].value) != read(es[j].value); }
    forall k | k in m ensures Listed(write, es, k) {
      var i :| 0 <= i < |es| && read(es[i].value) == Some(k);
      assert es[i].value == write(k);
    }
  }

  lemma {:induction false} ReportedFits<K(!new)>(read: Raw -> Option<K>, write: K -> Raw, requested: set<K>, es: seq<Entry>, m: map<K, real>)
    requires Reads(read, write) && Reported(write, es, m) && Covers(m, requested)
    ensures AllFit(read, requested, es)
    ensures forall i :: 0 <= i < |es| ==> read(es[i].value).Some? && read(es[i].value).value in m && es[i].probability == Some(m[read(es[i].value).value])
    ensures forall k :: k in m ==> exists i :: 0 <= i < |es| && read(es[i].value) == Some(k)
  {
    hide MapSum;
    forall i | 0 <= i < |es|
      ensures Fits(read, requested, es[i])
      ensures read(es[i].value).value in m && es[i].probability == Some(m[read(es[i].value).value])
    {
      assert ForSome(write, es[i], m);
      var k :| EntryFor(write, es[i], m, k);
      assert read(es[i].value) == Some(k);
    }
    forall i, j | 0 <= i < j < |es| ensures read(es[i].value) != read(es[j].value) {
      assert ForSome(write, es[i], m);
      var k :| EntryFor(write, es[i], m, k);
      assert read(es[i].value) == Some(k) && es[j].value != write(k);
    }
    forall k | k in m ensures exists i :: 0 <= i < |es| && read(es[i].value) == Some(k) {
      assert Listed(write, es, k);
      var i :| 0 <= i < |es| && es[i].value == write(k);
      assert read(es[i].value) == Some(k);
    }
  }

  lemma {:induction false} ReportedPlaced<K(!new)>(read: Raw -> Option<K>, write: K -> Raw, requested: set<K>, es: seq<Entry>, m: map<K, real>)
    requires Reads(read, write) && Reported(write, es, m) && Covers(m, requested)
    ensures Distribution(read, requested, es) && m == Placed(read, es)
  {
    hide MapSum, Placed, Total, Reads, Reported;
    ReportedFits(read, write, requested, es, m);
    PlacedHas(read, requested, es);
    var p := Placed(read, es);
    forall k ensures (k in m <==> k in p) && (k in m ==> m[k] == p[k]) {
      if k in m { var i :| 0 <= i < |es| && read(es[i].value) == Some(k); }
      if k in p { var i :| 0 <= i < |es| && read(es[i].value) == Some(k); }
    }
    assert p == m;
    PlacedSum(read, requested, es);
  }

  lemma TotalStep(es: seq<Entry>, i: nat)
    requires i < |es|
    ensures Total(es[..i + 1]) == Total(es[..i]) + Share(es[i])
  {
    assert es[..i + 1][..i] == es[..i];
  }

  lemma PlacedStep<K>(read: Raw -> Option<K>, es: seq<Entry>, i: nat)
    requires i < |es| && read(es[i].value).Some?
    ensures Placed(read, es[..i + 1]) == Placed(read, es[..i])[read(es[i].value).value := Share(es[i])]
  {
    assert es[..i + 1][..i] == es[..i];
  }

  lemma NotDistribution<K(!new)>(read: Raw -> Option<K>, requested: set<K>, es: seq<Entry>, i: nat)
    requires i < |es|
    ensures !Fits(read, requested, es[i]) ==> !Distribution(read, requested, es)
    ensures (exists j :: 0 <= j < i && read(es[j].value) == read(es[i].value)) ==> !Distribution(read, requested, es)
  {
  }

  /**
   The loop of mapOpenAIChoiceProbabilities and mapOpenAIScoreProbabilities, which differ in how
   an entry's value is read and in what was requested.
   */
  method MapDistribution<K(==, !new)>(read: Raw -> Option<K>, requested: set<K>, reported: seq<Entry>) returns (r: Option<map<K, real>>)
    ensures r.Some? <==> Distribution(read, requested, reported)
    ensures r.Some? ==> r.value == Placed(read, reported)
  {
    hide Total, Placed, AddsUp;
    if requested == {} { return None; }
    var probabilities: map<K, real> := map[];
    var total := 0.0;
    Nothing(read);
    assert reported[..0] == [];
    for i := 0 to |reported|
      invariant AllFit(read, requested, reported[..i])
      invariant probabilities == Placed(read, reported[..i]) && total == Total(reported[..i])
    {
      var e := reported[i];
      NotDistribution(read, requested, reported, i);
      PlacedHas(read, requested, reported[..i]);
      var outcome := read(e.value);
      if outcome.None? || outcome.value !in requested { return None; }
      if e.probability.None? || !IsProbability(e.probability.value) { return None; }
      if outcome.value in probabilities {
        var j :| 0 <= j < i && read(reported[..i][j].value) == Some(outcome.value);
        assert read(reported[j].value) == read(reported[i].value);
        return None;
      }
      probabilities := probabilities[outcome.value := e.probability.value];
      total := total + e.probability.value;
      TotalStep(reported, i);
      PlacedStep(read, reported, i);
      assert forall j :: 0 <= j < i ==> reported[..i][j] == reported[j] == reported[..i + 1][j];
    }
    assert reported[..|reported|] == reported;
    PlacedHas(read, requested, reported);
    if !(requested <= probabilities.Keys) {
      var k :| k in requested && k !in probabilities;
      assert forall i :: 0 <= i < |reported| ==> read(reported[i].value) != Some(k);
      return None;
    }
    if !AddsUp(total, |requested|) { return None; }
    return Some(probabilities);
  }

  lemma Nothing<K>(read: Raw -> Option<K>)
    ensures Total([]) == 0.0 && Placed(read, []) == map[]
  {
  }

  // ----- One answer -----

  /** The level indexes 0 to n - 1. */
  function Levels(n: nat): (r: set<int>)
    ensures |r| == n && forall k :: k in r <==> 0 <= k < n
  {
    if n == 0 then {} else Levels(n - 1) + {n - 1}
  }

  ghost function DistributionOf<K(!new)>(read: Raw -> Option<K>, requested: set<K>, es: seq<Entry>): Option<map<K, real>> {
    if Distribution(read, requested, es) then Some(Placed(read, es)) else None
  }

  predicate Confident(c: Option<real>) { c.Some? && IsProbability(c.value) }

  /** The option an answer selects: a string that is not empty and was requested. */
  predicate Selects(options: set<string>, raw: RawAnswer) {
    raw.choice.Some? && raw.choice.value.Text? && raw.choice.value.text != "" && raw.choice.value.text in options
  }

  /** What an answer means for a question, or None when it cannot be an answer to it. */
  ghost function AnswerOf(q: Question, raw: RawAnswer): Option<Answer> {
    if raw.kind == "refusal" then Some(Refusal(raw.reason)) else
      match q
      case Predicate =>
        if raw.kind == "predicate" && Confident(raw.probability) && raw.confidence.None? then Some(Noul(raw.probability.value)) else None
      case Choice(options) =>
        var d := DistributionOf(AsOption, options, raw.probabilities);
        if raw.kind == "choice" && Selects(options, raw) && d.Some? && Confident(raw.confidence)
        then Some(Chosen(raw.choice.value.text, d.value, raw.confidence.value)) else None
      case Scale(levels) =>
        var d := DistributionOf(AsLevel, Levels(levels), raw.probabilities);
        if raw.kind == "score" && raw.score.Some? && 0.0 <= raw.score.value <= levels as real - 1.0 && d.Some? && Confident(raw.confidence)
        then Some(Scored(raw.score.value, d.value, raw.confidence.value)) else None
      case Unusable => None
  }

  /**
   `a` is an answer to the question, and says what the provider reported: the refusal's reason; the
   probability of a predicate, which has no confidence; or the option, or the score within the
   levels, with the reported confidence and a distribution over exactly what was asked.
   */
  ghost predicate IsAnswer(q: Question, raw: RawAnswer, a: Answer) {
    match a
    case Refusal(why) => raw.kind == "refusal" && why == raw.reason
    case Noul(yes) =>
      q.Predicate? && raw.kind == "predicate" && raw.probability == Some(yes) && 0.0 <= yes <= 1.0 && raw.confidence == None
    case Chosen(option, m, confidence) =>
      && q.Choice? && raw.kind == "choice" && raw.choice == Some(Text(option)) && option != "" && option in q.options
      && raw.confidence == Some(confidence) && 0.0 <= confidence <= 1.0
      && Reported(OptionText, raw.probabilities, m) && Covers(m, q.options)
    case Scored(expected, m, confidence) =>
      && q.Scale? && raw.kind == "score" && raw.score == Some(expected) && 0.0 <= expected <= q.levels as real - 1.0
      && raw.confidence == Some(confidence) && 0.0 <= confidence <= 1.0
      && Reported(LevelNumber, raw.probabilities, m) && Covers(m, Levels(q.levels))
      && |m| == q.levels && (forall k :: k in m <==> 0 <= k < q.levels)
  }

  /** An answer is accepted, as `a`, exactly if `a` says what the provider reported and answers the question. */
  lemma AcceptedAnswer(q: Question, raw: RawAnswer, a: Answer)
    ensures AnswerOf(q, raw) == Some(a) <==> IsAnswer(q, raw, a)
  {
    hide Distribution, Placed, Reported, Covers;
    match a
    case Chosen(_, m, _) => if q.Choice? { DistributionExactly(AsOption, OptionText, q.options, raw.probabilities, m); }
    case Scored(_, m, _) =>
      if q.Scale? {
        DistributionExactly(AsLevel, LevelNumber, Levels(q.levels), raw.probabilities, m);
        if Covers(m, Levels(q.levels)) { CoversLevels(m, q.levels); }
      }
    case _ =>
  }

  lemma {:induction false} CoversLevels(m: map<int, real>, levels: nat)
    requires Covers(m, Levels(levels))
    ensures |m| == levels && forall k :: k in m <==> 0 <= k < levels
  {
    assert |m| == |m.Keys|;
  }

  /** mapOpenAIChoice. */
  method MapChoice(options: set<string>, raw: RawAnswer) returns (r: Option<Answer>)
    requires raw.kind != "refusal"
    ensures r == AnswerOf(Choice(options), raw)
  {
    hide Distribution, Placed;
    if raw.kind != "choice" { return None; }
    if raw.choice.None? { return None; }
    if !raw.choice.value.Text? && !raw.choice.value.Null? { return None; }
    var selected := if raw.choice.value.Text? then raw.choice.value.text else "";
    if selected == "" { return None; }
    if selected !in options { return None; }
    var probabilities := MapDistribution(AsOption, options, raw.probabilities);
    if probabilities.None? { return None; }
    if raw.confidence.None? || !IsProbability(raw.confidence.value) { return None; }
    return Some(Chosen(selected, probabilities.value, raw.confidence.value));
  }

  /** mapOpenAIScore. */
  method MapScore(levels: nat, raw: RawAnswer) returns (r: Option<Answer>)
    requires raw.kind != "refusal"
    ensures r == AnswerOf(Scale(levels), raw)
  {
    hide Distribution, Placed;
    if raw.kind != "score" { return None; }
    if raw.score.None? { return None; }
    if raw.score.value < 0.0 || raw.score.value > (levels - 1) as real { return None; }
    var probabilities := MapDistribution(AsLevel, Levels(levels), raw.probabilities);
    if probabilities.None? { return None; }
    if raw.confidence.None? || !IsProbability(raw.confidence.value) { return None; }
    return Some(Scored(raw.score.value, probabilities.value, raw.confidence.value));
  }

  /** mapOpenAIAnswer. */
  method MapAnswer(q: Question, raw: RawAnswer) returns (r: Option<Answer>)
    ensures r == AnswerOf(q, raw)
  {
    hide Distribution, Placed;
    if raw.kind == "refusal" { return Some(Refusal(raw.reason)); }
    match q {
      case Predicate =>
        if raw.kind != "predicate" { return None; }
        if raw.probability.None? || !IsProbability(raw.probability.value) { return None; }
        if raw.confidence.Some? { return None; }
        return Some(Noul(raw.probability.value));
      case Choice(options) => r := MapChoice(options, raw);
      case Scale(levels) => r := MapScore(levels, raw);
      case Unusable => return None;
    }
  }

  // ----- All answers -----

  /** An answer that has a question and answers it. */
  ghost predicate Answers(questions: map<string, Question>, raw: RawAnswer) {
    raw.name != "" && raw.name in questions && AnswerOf(questions[raw.name], raw).Some?
  }

  ghost predicate AllAnswer(questions: map<string, Question>, wire: seq<RawAnswer>) {
    && (forall i :: 0 <= i < |wire| ==> Answers(questions, wire[i]))
    && (forall i, j :: 0 <= i < j < |wire| ==> wire[i].name != wire[j].name)
  }

  /** The names of the answers are exactly the question IDs, each once, and each answer is one to its question. */
  ghost predicate Complete(questions: map<string, Question>, wire: seq<RawAnswer>) {
    && AllAnswer(questions, wire)
    && (forall id :: id in questions ==> exists i :: 0 <= i < |wire| && wire[i].name == id)
  }

  ghost predicate Gets(questions: map<string, Question>, raw: RawAnswer, answers: map<string, Answer>) {
    raw.name in questions && raw.name in answers && AnswerOf(questions[raw.name], raw) == Some(answers[raw.name])
  }

  /** The answers by name: what each raw answer means, and nothing else. */
  ghost predicate ByName(questions: map<string, Question>, wire: seq<RawAnswer>, answers: map<string, Answer>) {
    && (forall i :: 0 <= i < |wire| ==> Gets(questions, wire[i], answers))
    && (forall id :: id in answers ==> exists i :: 0 <= i < |wire| && wire[i].name == id)
  }

  lemma NotComplete(questions: map<string, Question>, wire: seq<RawAnswer>, i: nat)
    requires i < |wire|
    ensures !Answers(questions, wire[i]) ==> !Complete(questions, wire)
    ensures (exists j :: 0 <= j < i && wire[j].name == wire[i].name) ==> !Complete(questions, wire)
  {
  }

  lemma AllAnswerStep(questions: map<string, Question>, xs: seq<RawAnswer>, raw: RawAnswer)
    requires AllAnswer(questions, xs) && Answers(questions, raw) && forall i :: 0 <= i < |xs| ==> xs[i].name != raw.name
    ensures AllAnswer(questions, xs + [raw])
  {
    hide Answers;
  }

  lemma ByNameStep(questions: map<string, Question>, xs: seq<RawAnswer>, raw: RawAnswer, answers: map<string, Answer>, a: Answer)
    requires raw.name in questions && AnswerOf(questions[raw.name], raw) == Some(a)
    requires raw.name !in answers && ByName(questions, xs, answers)
    ensures ByName(questions, xs + [raw], answers[raw.name := a])
  {
    hide AnswerOf;
    var next, ys := answers[raw.name := a], xs + [raw];
    assert Gets(questions, raw, next);
    forall i | 0 <= i < |ys| ensures Gets(questions, ys[i], next) {
      if i < |xs| { assert Gets(questions, xs[i], answers); }
    }
    forall id | id in next ensures exists i :: 0 <= i < |ys| && ys[i].name == id {
      if id == raw.name {
        assert ys[|xs|].name == id;
      } else {
        var j :| 0 <= j < |xs| && xs[j].name == id;
        assert ys[j].name == id;
      }
    }
  }

  lemma GetsNamed(questions: map<string, Question>, wire: seq<RawAnswer>, answers: map<string, Answer>)
    requires ByName(questions, wire, answers)
    ensures forall i :: 0 <= i < |wire| ==> wire[i].name in answers
  {
    forall i | 0 <= i < |wire| ensures wire[i].name in answers {
      assert Gets(questions, wire[i], answers);
    }
  }

  /** mapOpenAIAnswers. */
  method MapAnswers(questions: map<string, Question>, wire: seq<RawAnswer>) returns (r: Option<map<string, Answer>>)
    ensures r.Some? <==> Complete(questions, wire)
    ensures r.Some? ==> ByName(questions, wire, r.value) && r.value.Keys == questions.Keys
  {
    hide AnswerOf, Gets;
    var answers: map<string, Answer> := map[];
    for i := 0 to |wire|
      invariant ByName(questions, wire[..i], answers) && AllAnswer(questions, wire[..i])
    {
      var raw := wire[i];
      NotComplete(questions, wire, i);
      if raw.name == "" { return None; }
      if raw.name in answers {
        var j :| 0 <= j < |wire[..i]| && wire[..i][j].name == raw.name;
        assert wire[j].name == raw.name;
        return None;
      }
      if raw.name !in questions { return None; }
      var mapped := MapAnswer(questions[raw.name], raw);
      if mapped.None? { return None; }
      assert wire[..i + 1] == wire[..i] + [raw];
      GetsNamed(questions, wire[..i], answers);
      AllAnswerStep(questions, wire[..i], raw);
      ByNameStep(questions, wire[..i], raw, answers, mapped.value);
      answers := answers[raw.name := mapped.value];
    }
    assert wire[..|wire|] == wire;
    if !(questions.Keys <= answers.Keys) {
      var id :| id in questions && id !in answers;
      GetsNamed(questions, wire, answers);
      assert forall i :: 0 <= i < |wire| ==> wire[i].name != id;
      return None;
    }
    AnswersQuestions(questions, wire, answers);
    return Some(answers);
  }

  lemma AnswersQuestions(questions: map<string, Question>, wire: seq<RawAnswer>, answers: map<string, Answer>)
    requires ByName(questions, wire, answers)
    ensures answers.Keys <= questions.Keys
  {
    hide AnswerOf;
    forall id | id in answers ensures id in questions {
      var i :| 0 <= i < |wire| && wire[i].name == id;
      assert Gets(questions, wire[i], answers);
    }
  }

  // ----- Order does not matter -----

  lemma {:induction false} CompleteReordered(questions: map<string, Question>, wire: seq<RawAnswer>, other: seq<RawAnswer>)
    requires Complete(questions, wire) && multiset(wire) == multiset(other)
    ensures Complete(questions, other)
  {
    hide Answers;
    var name := (raw: RawAnswer) => raw.name;
    assert DistinctBy(name, wire);
    DistinctStays(name, wire, other);
    assert forall i, j :: 0 <= i < j < |other| ==> name(other[i]) != name(other[j]);
    forall i | 0 <= i < |other| ensures Answers(questions, other[i]) {
      assert other[i] in other;
      Members(wire, other, other[i]);
    }
    forall id | id in questions ensures exists i :: 0 <= i < |other| && other[i].name == id {
      var i :| 0 <= i < |wire| && wire[i].name == id;
      assert wire[i] in wire;
      Members(wire, other, wire[i]);
    }
  }

  /**
   Answers are placed by name: rearranging them neither turns success into failure, nor failure
   into success, nor changes the answer any question gets.
   */
  lemma Reordered(questions: map<string, Question>, wire: seq<RawAnswer>, other: seq<RawAnswer>,
                  answers: map<string, Answer>, otherAnswers: map<string, Answer>)
    requires multiset(wire) == multiset(other)
    ensures Complete(questions, wire) <==> Complete(questions, other)
    ensures Complete(questions, wire) && ByName(questions, wire, answers) && ByName(questions, other, otherAnswers)
        ==> answers == otherAnswers
  {
    hide AnswerOf;
    if Complete(questions, wire) { CompleteReordered(questions, wire, other); }
    if Complete(questions, other) { CompleteReordered(questions, other, wire); }
    if Complete(questions, wire) && ByName(questions, wire, answers) && ByName(questions, other, otherAnswers) {
      SameAnswers(questions, wire, other, answers, otherAnswers);
      SameAnswers(questions, other, wire, otherAnswers, answers);
      assert answers.Keys == otherAnswers.Keys;
    }
  }

  lemma SameAnswers(questions: map<string, Question>, wire: seq<RawAnswer>, other: seq<RawAnswer>,
                    answers: map<string, Answer>, otherAnswers: map<string, Answer>)
    requires multiset(wire) == multiset(other) && ByName(questions, wire, answers) && ByName(questions, other, otherAnswers)
    ensures forall id :: id in answers ==> id in otherAnswers && answers[id] == otherAnswers[id]
  {
    hide AnswerOf;
    forall id | id in answers ensures id in otherAnswers && answers[id] == otherAnswers[id] {
      var i :| 0 <= i < |wire| && wire[i].name == id;
      assert wire[i] in wire;
      Members(wire, other, wire[i]);
      var j :| 0 <= j < |other| && other[j] == wire[i];
      assert Gets(questions, wire[i], answers) && Gets(questions, other[j], otherAnswers);
    }
  }
}
