/**
 The worker pool of an experiment (evals/experiment.go): a dispatcher hands indexes to workers
 over an unbuffered channel, and each worker writes its result into the slot of its index.
 Every schedule is a sequence of moves; a move that is not enabled leaves the pool as it is.
 */
module ExperimentPool {
  import opened Experiment
  import opened ExperimentCounts
  import opened Rearranged

  datatype Worker = Idle | Busy(index: nat, started: nat) | Gone

  /**
   What a run is given. Once the context is cancelled a call may notice, and then answers as
   `cutTarget` and `cutScorers` do.
   */
  datatype Setup = Setup(
    cases: seq<Case>,
    target: Case -> Reply,
    scorers: seq<Scorer>,
    cutTarget: Case -> Reply,
    cutScorers: seq<Scorer>,
    concurrency: nat)

  datatype Pool = Pool(
    next: nat,
    closed: bool,
    cancelled: bool,
    workers: seq<Worker>,
    results: seq<CaseResult>,
    evaluated: seq<nat>)

  datatype Move =
    | Hand(worker: nat, started: nat)                   // the dispatcher gives the next index to an idle worker
    | Finish(worker: nat, finished: nat, noticed: bool) // a worker writes its result and asks again
    | Close                                             // the dispatcher closes the channel
    | Leave(worker: nat)                                // a worker finds the channel closed
    | Cancel                                            // the caller cancels the context

  const BLANK := CaseResult("", 0, Output("", ""), "", "", [], [], ZERO_TIME, ZERO_TIME)

  function Min(a: nat, b: nat): nat { if a < b then a else b }

  function Init(s: Setup): Pool {
    Pool(0, false, false, seq(Min(s.concurrency, |s.cases|), _ => Idle), seq(|s.cases|, _ => BLANK), [])
  }

  function Outcome(s: Setup, cut: bool, i: nat, started: nat, finished: nat): CaseResult
    requires i < |s.cases|
  {
    if cut then Evaluated(s.cutTarget, s.cutScorers, i, s.cases[i], started, finished)
    else Evaluated(s.target, s.scorers, i, s.cases[i], started, finished)
  }

  function Step(s: Setup, p: Pool, m: Move): Pool {
    match m
    case Hand(w, started) =>
      if w < |p.workers| && p.workers[w].Idle? && !p.closed && p.next < |s.cases|
      then p.(workers := p.workers[w := Busy(p.next, started)], next := p.next + 1) else p
    case Finish(w, finished, noticed) =>
      if w < |p.workers| && p.workers[w].Busy? && p.workers[w].index < |s.cases| && p.workers[w].index < |p.results| then
        var i := p.workers[w].index;
        var r := Outcome(s, p.cancelled && noticed, i, p.workers[w].started, finished);
        p.(workers := p.workers[w := Idle], results := p.results[i := r], evaluated := p.evaluated + [i])
      else p
    case Close => if !p.closed && (p.next >= |s.cases| || p.cancelled) then p.(closed := true) else p
    case Leave(w) =>
      if w < |p.workers| && p.workers[w].Idle? && p.closed then p.(workers := p.workers[w := Gone]) else p
    case Cancel => p.(cancelled := true)
  }

  function Exec(s: Setup, p: Pool, moves: seq<Move>): Pool
    decreases |moves|
  {
    if moves == [] then p else Exec(s, Step(s, p, moves[0]), moves[1..])
  }

  /** The wait is over: the channel is closed and every worker has left. */
  predicate Over(p: Pool) { p.closed && forall w :: 0 <= w < |p.workers| ==> p.workers[w].Gone? }

  // ----- What every schedule keeps -----

  ghost predicate Holding(p: Pool, i: nat) { exists w :: 0 <= w < |p.workers| && p.workers[w].Busy? && p.workers[w].index == i }

  /** Each index handed out so far is with exactly one worker or has been evaluated once. */
  ghost predicate Shared(p: Pool) {
    && Distinct(p.evaluated)
    && (forall i :: i in p.evaluated ==> i < p.next)
    && (forall w :: 0 <= w < |p.workers| && p.workers[w].Busy? ==> p.workers[w].index < p.next && p.workers[w].index !in p.evaluated)
    && (forall v, w :: 0 <= v < w < |p.workers| && p.workers[v].Busy? && p.workers[w].Busy? ==> p.workers[v].index != p.workers[w].index)
    && (forall i :: 0 <= i < p.next ==> i in p.evaluated || Holding(p, i))
  }

  /** A slot holds what its case evaluates to, under a context cancelled or not. */
  ghost predicate Right(s: Setup, cancelled: bool, i: nat, r: CaseResult)
    requires i < |s.cases|
  {
    || r == Outcome(s, false, i, r.started, r.finished)
    || (cancelled && r == Outcome(s, true, i, r.started, r.finished))
  }

  ghost predicate Filled(s: Setup, p: Pool) {
    && |p.results| == |s.cases|
    && (forall i :: 0 <= i < |s.cases| ==> if i in p.evaluated then Right(s, p.cancelled, i, p.results[i]) else p.results[i] == BLANK)
  }

  ghost predicate Inv(s: Setup, p: Pool) {
    && p.next <= |s.cases|
    && |p.workers| == Min(s.concurrency, |s.cases|)
    && (p.closed ==> p.next == |s.cases| || p.cancelled)
    && (!p.closed ==> forall w :: 0 <= w < |p.workers| ==> !p.workers[w].Gone?)
    && Shared(p)
    && Filled(s, p)
  }

  lemma HandShared(s: Setup, p: Pool, w: nat, started: nat)
    requires Shared(p)
    ensures Shared(Step(s, p, Hand(w, started)))
  {
    var q := Step(s, p, Hand(w, started));
    if q != p {
      forall i | 0 <= i < q.next ensures i in q.evaluated || Holding(q, i) {
        if i == p.next {
          assert q.workers[w].Busy? && q.workers[w].index == i;
        } else if i !in p.evaluated {
          assert Holding(p, i);
          var v :| 0 <= v < |p.workers| && p.workers[v].Busy? && p.workers[v].index == i;
          assert q.workers[v] == p.workers[v];
        }
      }
    }
  }

  lemma FinishShared(s: Setup, p: Pool, w: nat, finished: nat, noticed: bool)
    requires Shared(p)
    ensures Shared(Step(s, p, Finish(w, finished, noticed)))
  {
    hide Outcome;
    var q := Step(s, p, Finish(w, finished, noticed));
    if q != p {
      forall i | 0 <= i < q.next ensures i in q.evaluated || Holding(q, i) {
        if i == p.workers[w].index {
          assert q.evaluated[|p.evaluated|] == i;
        } else if i !in p.evaluated {
          assert Holding(p, i);
          var v :| 0 <= v < |p.workers| && p.workers[v].Busy? && p.workers[v].index == i;
          assert q.workers[v] == p.workers[v];
        } else {
          var k :| 0 <= k < |p.evaluated| && p.evaluated[k] == i;
          assert q.evaluated[k] == i;
        }
      }
    }
  }

  lemma LeaveShared(s: Setup, p: Pool, w: nat)
    requires Shared(p)
    ensures Shared(Step(s, p, Leave(w)))
  {
    var q := Step(s, p, Leave(w));
    if q != p {
      forall i | 0 <= i < q.next ensures i in q.evaluated || Holding(q, i) {
        if i !in p.evaluated {
          assert Holding(p, i);
          var v :| 0 <= v < |p.workers| && p.workers[v].Busy? && p.workers[v].index == i;
          assert q.workers[v] == p.workers[v];
        }
      }
    }
  }

  lemma FinishFilled(s: Setup, p: Pool, w: nat, finished: nat, noticed: bool)
    requires Filled(s, p)
    ensures Filled(s, Step(s, p, Finish(w, finished, noticed)))
  {
    hide Evaluated;
    if w < |p.workers| && p.workers[w].Busy? && p.workers[w].index < |s.cases| {
      var at := p.workers[w].index;
      var cut := p.cancelled && noticed;
      OutcomeTimes(s, cut, at, p.workers[w].started, finished);
      var q := Step(s, p, Finish(w, finished, noticed));
      assert q.evaluated[|p.evaluated|] == at;
      assert forall i :: i in q.evaluated <==> i in p.evaluated || i == at;
    }
  }

  lemma OutcomeTimes(s: Setup, cut: bool, i: nat, started: nat, finished: nat)
    requires i < |s.cases|
    ensures Outcome(s, cut, i, started, finished).started == started
    ensures Outcome(s, cut, i, started, finished).finished == finished
  {
  }

  lemma StepKeeps(s: Setup, p: Pool, m: Move)
    requires Inv(s, p)
    ensures Inv(s, Step(s, p, m))
  {
    hide Outcome;
    match m
    case Hand(w, started) =>
      HandShared(s, p, w, started);
      hide Shared;
    case Finish(w, finished, noticed) =>
      FinishShared(s, p, w, finished, noticed);
      FinishFilled(s, p, w, finished, noticed);
      hide Shared, Filled;
    case Leave(w) =>
      LeaveShared(s, p, w);
      hide Shared;
    case Close => SharedSame(p, Step(s, p, m)); hide Shared;
    case Cancel => SharedSame(p, Step(s, p, m)); hide Shared;
  }

  lemma SharedSame(p: Pool, q: Pool)
    requires Shared(p) && q.next == p.next && q.workers == p.workers && q.evaluated == p.evaluated
    ensures Shared(q)
  {
    forall i | 0 <= i < q.next && i !in q.evaluated ensures Holding(q, i) {
      assert Holding(p, i);
    }
  }

  lemma InitInv(s: Setup)
    ensures Inv(s, Init(s))
  {
  }

  lemma {:induction false} ExecKeeps(s: Setup, p: Pool, moves: seq<Move>)
    requires Inv(s, p)
    ensures Inv(s, Exec(s, p, moves))
    decreases |moves|
  {
    hide Step, Inv;
    if moves != [] {
      StepKeeps(s, p, moves[0]);
      ExecKeeps(s, Step(s, p, moves[0]), moves[1..]);
    }
  }

  // ----- After the wait -----

  /** A slot that was never written gets its identity and the run's start time. */
  function Stamp(c: Case, i: nat, r: CaseResult, startedAt: nat): CaseResult {
    if r.started == ZERO_TIME then r.(caseId := c.id, index := i, started := startedAt, finished := startedAt) else r
  }

  /** The last loop of evaluateCases. */
  method StampMissing(results: array<CaseResult>, cases: seq<Case>, startedAt: nat)
    requires results.Length == |cases|
    modifies results
    ensures forall i :: 0 <= i < |cases| ==> results[i] == Stamp(cases[i], i, old(results[i]), startedAt)
  {
    for i := 0 to results.Length
      invariant forall k :: 0 <= k < i ==> results[k] == Stamp(cases[k], k, old(results[k]), startedAt)
      invariant forall k :: i <= k < results.Length ==> results[k] == old(results[k])
    {
      if results[i].started == ZERO_TIME {
        results[i] := results[i].(caseId := cases[i].id, index := i, started := startedAt, finished := startedAt);
      }
    }
  }

  function Stamped(s: Setup, rs: seq<CaseResult>, startedAt: nat): seq<CaseResult>
    requires |rs| == |s.cases|
  {
    seq(|rs|, i requires 0 <= i < |rs| => Stamp(s.cases[i], i, rs[i], startedAt))
  }

  /** A result that depends on the clock only in its two times. */
  lemma UntimedOutcome(s: Setup, i: nat, r: CaseResult, startedAt: nat)
    requires i < |s.cases| && r == Outcome(s, false, i, r.started, r.finished)
    ensures Untimed(Stamp(s.cases[i], i, r, startedAt)) == Evaluated(s.target, s.scorers, i, s.cases[i], ZERO_TIME, ZERO_TIME)
  {
    hide Ratings, Misses;
  }

  lemma OverInv(s: Setup, p: Pool)
    requires Inv(s, p) && Over(p)
    ensures Distinct(p.evaluated) && forall i :: 0 <= i ==> (i in p.evaluated <==> i < p.next)
    ensures p.next == |s.cases| || p.cancelled
  {
    forall i | 0 <= i < p.next ensures i in p.evaluated {
      assert !Holding(p, i);
    }
  }

  /**
   Schedule independence. However dispatcher and workers interleave, when the wait is over each
   case handed out was evaluated exactly once, and if the context was not cancelled the stamped
   results are those of evaluating the cases one after the other in dataset order.
   */
  lemma {:induction false} EverySchedule(s: Setup, moves: seq<Move>, startedAt: nat)
    requires Over(Exec(s, Init(s), moves))
    ensures var p := Exec(s, Init(s), moves);
            && Distinct(p.evaluated) && (forall i :: 0 <= i ==> (i in p.evaluated <==> i < p.next))
            && |p.results| == |s.cases|
            && (!p.cancelled ==> p.next == |s.cases| && FromCases(s.target, s.scorers, s.cases, Stamped(s, p.results, startedAt)))
  {
    hide Exec, Evaluated;
    InitInv(s);
    ExecKeeps(s, Init(s), moves);
    var p := Exec(s, Init(s), moves);
    hide Init;
    OverInv(s, p);
    if !p.cancelled {
      forall i | 0 <= i < |s.cases|
        ensures Untimed(Stamped(s, p.results, startedAt)[i]) == Evaluated(s.target, s.scorers, i, s.cases[i], ZERO_TIME, ZERO_TIME)
      {
        assert Right(s, false, i, p.results[i]);
        UntimedOutcome(s, i, p.results[i], startedAt);
      }
    }
  }

  lemma {:induction false} SameSummary(rs: seq<CaseResult>, qs: seq<CaseResult>)
    requires |rs| == |qs| && forall i :: 0 <= i < |rs| ==> Untimed(rs[i]) == Untimed(qs[i])
    ensures AllMarks(rs) == AllMarks(qs) && TargetFailures(rs) == TargetFailures(qs) && AllFailures(rs) == AllFailures(qs)
    decreases |rs|
  {
    if rs != [] {
      var n := |rs| - 1;
      SameSummary(rs[..n], qs[..n]);
      assert Untimed(rs[n]) == Untimed(qs[n]);
    }
  }

  /** Any two schedules of one experiment give the same counts, means and pass rates. */
  lemma {:induction false} SameRecord(s: Setup, moves: seq<Move>, startedAt: nat, others: seq<Move>, otherStart: nat)
    requires Over(Exec(s, Init(s), moves)) && !Exec(s, Init(s), moves).cancelled
    requires Over(Exec(s, Init(s), others)) && !Exec(s, Init(s), others).cancelled
    ensures var rs, qs := Exec(s, Init(s), moves).results, Exec(s, Init(s), others).results;
            && |rs| == |s.cases| == |qs|
            && var a, b := Stamped(s, rs, startedAt), Stamped(s, qs, otherStart);
            && Aggregates(Names(s.scorers), a) == Aggregates(Names(s.scorers), b)
            && TargetFailures(a) == TargetFailures(b) && AllFailures(a) == AllFailures(b)
  {
    hide Exec, Init, Stamped, Over, AllMarks, TargetFailures, AllFailures, Evaluated;
    EverySchedule(s, moves, startedAt);
    EverySchedule(s, others, otherStart);
    SameSummary(Stamped(s, Exec(s, Init(s), moves).results, startedAt), Stamped(s, Exec(s, Init(s), others).results, otherStart));
  }

  function Untouched(c: Case, i: nat, startedAt: nat): CaseResult {
    BLANK.(caseId := c.id, index := i, started := startedAt, finished := startedAt)
  }

  /** A cancelled run's results describe themselves: a case never handed out has only its identity and the start time. */
  lemma {:induction false} CancelledRun(s: Setup, moves: seq<Move>, startedAt: nat, i: nat)
    requires Over(Exec(s, Init(s), moves)) && i < |s.cases|
    ensures var p := Exec(s, Init(s), moves);
            && |p.results| == |s.cases|
            && Stamped(s, p.results, startedAt)[i].caseId == s.cases[i].id
            && Stamped(s, p.results, startedAt)[i].index == i
            && (i < p.next ==> Right(s, p.cancelled, i, p.results[i]))
            && (i >= p.next ==> Stamped(s, p.results, startedAt)[i] == Untouched(s.cases[i], i, startedAt))
  {
    hide Exec, Ratings, Misses;
    InitInv(s);
    ExecKeeps(s, Init(s), moves);
    var p := Exec(s, Init(s), moves);
    hide Init;
    OverInv(s, p);
    assert i in p.evaluated <==> i < p.next;
  }

  // ----- Termination -----

  function Load(w: Worker): nat { match w case Gone => 0 case Idle => 1 case Busy(_, _) => 2 }

  function Loads(ws: seq<Worker>): nat {
    if ws == [] then 0 else Loads(ws[..|ws| - 1]) + Load(ws[|ws| - 1])
  }

  /** What is left to do. */
  function Rank(s: Setup, p: Pool): int {
    2 * (|s.cases| - p.next) + (if p.closed then 0 else 1) + Loads(p.workers)
  }

  lemma {:induction false} LoadsUpdate(ws: seq<Worker>, w: nat, x: Worker)
    requires w < |ws|
    ensures Loads(ws[w := x]) == Loads(ws) - Load(ws[w]) + Load(x)
    decreases |ws|
  {
    var n := |ws| - 1;
    if w < n {
      assert ws[w := x][..n] == ws[..n][w := x];
      LoadsUpdate(ws[..n], w, x);
    } else {
      assert ws[w := x][..n] == ws[..n];
    }
  }

  /** Every move that does something, other than a cancellation, leaves less to do. */
  lemma StepShrinks(s: Setup, p: Pool, m: Move)
    requires !m.Cancel? && Step(s, p, m) != p
    ensures Rank(s, Step(s, p, m)) == Rank(s, p) - 1
  {
    hide Outcome, Loads;
    match m
    case Hand(w, started) => LoadsUpdate(p.workers, w, Busy(p.next, started));
    case Finish(w, _, _) => LoadsUpdate(p.workers, w, Idle);
    case Close =>
    case Leave(w) => LoadsUpdate(p.workers, w, Gone);
  }

  /** And until the wait is over there is such a move: no schedule gets stuck. */
  lemma NeverStuck(s: Setup, p: Pool) returns (m: Move)
    requires Inv(s, p) && s.concurrency > 0 && !Over(p)
    ensures !m.Cancel? && Step(s, p, m) != p
  {
    hide Outcome, Right;
    if !p.closed && p.next == |s.cases| {
      m := Close;
    } else if !p.closed {
      if p.workers[0].Idle? { m := Hand(0, 0); } else { m := Finish(0, 0, false); }
    } else {
      var w :| 0 <= w < |p.workers| && !p.workers[w].Gone?;
      if p.workers[w].Idle? { m := Leave(w); } else { m := Finish(w, 0, false); }
    }
    if m.Finish? { assert Step(s, p, m).workers[m.worker] == Idle; }
    if m.Hand? { assert Step(s, p, m).next == p.next + 1; }
    if m.Leave? { assert Step(s, p, m).workers[m.worker] == Gone; }
  }
}
