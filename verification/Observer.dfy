/**
 The observer's span queue (obsv/observer.go): any number of emitting goroutines, one
 draining goroutine and Close. A sequence of moves is one interleaving of their steps; a
 move that does not apply changes nothing. Exporters, log and metric derivation are
 reduced to the batch they are handed.
 */
module Observer {
  import opened Wrappers

  type Pid = nat

  /** A span; only its identity matters here. */
  datatype Span = Span(id: string)

  /** `capacity`: the channel's; `batchSize`: zero or negative means unbounded. */
  datatype Config = Config(capacity: nat, batchSize: int, synchronous: bool, hasDestination: bool)

  /** One call of onSpanEnd. */
  datatype Emitter =
    | Started(span: Span)      // about to filter
    | Waiting(span: Span)      // about to take the emission lock
    | Holding(span: Span)      // has the lock, about to look at `closed`
    | Sending(span: Span)      // has the lock and saw the observer open
    | Dropping                 // saw it closed, released the lock, about to count
    | Exporting(span: Span)    // synchronous: released the lock, about to export
    | Returned

  /** The draining goroutine; `flushing` after it has seen `done`. */
  datatype Drainer =
    | Selecting(flushing: bool)
    | Collecting(batch: seq<Span>, flushing: bool)
    | Stopped

  datatype Closer = Open | Locked | Closed

  datatype Holder = Nobody | Emitting(pid: Pid) | Closing

  datatype System = System(
    emitters: map<Pid, Emitter>,
    queue: seq<Span>,
    lock: Holder,
    closer: Closer,
    drainer: Drainer,
    filtered: nat,
    dropped: nat,
    exported: nat,
    enqueued: seq<Span>,        // every span sent to the queue, in order
    batches: seq<seq<Span>>,    // every batch the drainer exported, in order
    direct: nat)                // spans exported by their own emitters

  datatype Move =
    | Begin(pid: Pid, span: Span)
    | Filter(pid: Pid, kept: Option<Span>)
    | Acquire(pid: Pid)
    | Check(pid: Pid)
    | Send(pid: Pid)
    | CountDrop(pid: Pid)
    | ExportOwn(pid: Pid)
    | CloseLock
    | CloseMark
    | Take
    | ObserveDone
    | More
    | Export
    | Stop

  predicate In(s: System, pid: Pid) { pid in s.emitters }

  function Put(s: System, pid: Pid, e: Emitter): System {
    s.(emitters := s.emitters[pid := e])
  }

  /** Spans counted as exported: those handed to at least one destination. */
  function Counted(cfg: Config, n: nat): nat { if cfg.hasDestination then n else 0 }

  predicate Full(cfg: Config, batch: seq<Span>) { 0 < cfg.batchSize <= |batch| }

  function Step(cfg: Config, s: System, m: Move): System {
    match m
    case Begin(pid, span) => if In(s, pid) then s else Put(s, pid, Started(span))
    case Filter(pid, kept) =>
      if !In(s, pid) || !s.emitters[pid].Started? then s
      else if kept.None? then Put(s, pid, Returned).(filtered := s.filtered + 1)
      else Put(s, pid, Waiting(kept.value))
    case Acquire(pid) =>
      if !In(s, pid) || !s.emitters[pid].Waiting? || s.lock != Nobody then s
      else Put(s, pid, Holding(s.emitters[pid].span)).(lock := Emitting(pid))
    case Check(pid) =>
      if !In(s, pid) || !s.emitters[pid].Holding? then s
      else if s.closer == Closed then Put(s, pid, Dropping).(lock := Nobody)
      else if cfg.synchronous then Put(s, pid, Exporting(s.emitters[pid].span)).(lock := Nobody)
      else Put(s, pid, Sending(s.emitters[pid].span))
    case Send(pid) =>
      if !In(s, pid) || !s.emitters[pid].Sending? then s
      else if |s.queue| < cfg.capacity then
        var span := s.emitters[pid].span;
        Put(s, pid, Returned).(lock := Nobody, queue := s.queue + [span], enqueued := s.enqueued + [span])
      else Put(s, pid, Returned).(lock := Nobody, dropped := s.dropped + 1)
    case CountDrop(pid) =>
      if !In(s, pid) || s.emitters[pid] != Dropping then s else Put(s, pid, Returned).(dropped := s.dropped + 1)
    case ExportOwn(pid) =>
      if !In(s, pid) || !s.emitters[pid].Exporting? then s
      else Put(s, pid, Returned).(exported := s.exported + Counted(cfg, 1), direct := s.direct + 1)
    case CloseLock => if s.closer != Open || s.lock != Nobody then s else s.(lock := Closing, closer := Locked)
    case CloseMark => if s.closer != Locked then s else s.(lock := Nobody, closer := Closed)
    case Take =>
      if cfg.synchronous || !s.drainer.Selecting? || s.queue == [] then s
      else s.(drainer := Collecting([s.queue[0]], s.drainer.flushing), queue := s.queue[1..])
    case ObserveDone =>
      if cfg.synchronous || s.drainer != Selecting(false) || s.closer != Closed then s else s.(drainer := Selecting(true))
    case More =>
      if !s.drainer.Collecting? || Full(cfg, s.drainer.batch) || s.queue == [] then s
      else s.(drainer := s.drainer.(batch := s.drainer.batch + [s.queue[0]]), queue := s.queue[1..])
    case Export =>
      if !s.drainer.Collecting? || !(Full(cfg, s.drainer.batch) || s.queue == []) then s
      else s.(drainer := Selecting(s.drainer.flushing), batches := s.batches + [s.drainer.batch],
              exported := s.exported + Counted(cfg, |s.drainer.batch|))
    case Stop => if s.drainer != Selecting(true) || s.queue != [] then s else s.(drainer := Stopped)
  }

  function Exec(cfg: Config, s: System, moves: seq<Move>): System
    decreases |moves|
  {
    if moves == [] then s else Exec(cfg, Step(cfg, s, moves[0]), moves[1..])
  }

  function Start(): System {
    System(map[], [], Nobody, Open, Selecting(false), 0, 0, 0, [], [], 0)
  }

  // ----- Invariant -----

  function Flatten(batches: seq<seq<Span>>): seq<Span> {
    if batches == [] then [] else Flatten(batches[..|batches| - 1]) + batches[|batches| - 1]
  }

  /** The calls of onSpanEnd that have not returned. */
  function Active(emitters: map<Pid, Emitter>): set<Pid> {
    set pid | pid in emitters && emitters[pid] != Returned
  }

  function Held(s: System): seq<Span> {
    if s.drainer.Collecting? then s.drainer.batch else []
  }

  /** An emitter holds the lock exactly while it looks or sends, and sends only into an open observer. */
  predicate LockOk(s: System, pid: Pid) {
    In(s, pid) ==>
      && (s.emitters[pid].Holding? || s.emitters[pid].Sending? ==> s.lock == Emitting(pid))
      && (s.emitters[pid].Sending? ==> s.closer == Open)
  }

  predicate BatchOk(cfg: Config, batch: seq<Span>) {
    |batch| >= 1 && (cfg.batchSize > 0 ==> |batch| <= cfg.batchSize)
  }

  ghost predicate LockInv(s: System) {
    && (forall pid :: LockOk(s, pid))
    && (s.closer == Locked ==> s.lock == Closing)
  }

  /** Batches, the batch in hand and the queue are the queued spans, in order. */
  ghost predicate OrderInv(cfg: Config, s: System) {
    && Flatten(s.batches) + Held(s) + s.queue == s.enqueued
    && (forall i :: 0 <= i < |s.batches| ==> BatchOk(cfg, s.batches[i]))
    && (s.drainer.Collecting? ==> BatchOk(cfg, s.drainer.batch))
    && |s.queue| <= cfg.capacity
  }

  /** The drainer stops only after Close, with nothing left; a synchronous observer queues nothing. */
  ghost predicate ModeInv(cfg: Config, s: System) {
    && (s.drainer == Stopped ==> s.queue == [] && s.closer == Closed)
    && (s.drainer != Stopped && s.drainer.flushing ==> s.closer == Closed)
    && (cfg.synchronous ==> s.enqueued == [] && s.batches == [] && !s.drainer.Collecting?)
    && (cfg.synchronous ==> forall pid :: In(s, pid) ==> !s.emitters[pid].Sending?)
  }

  predicate CountInv(cfg: Config, s: System) {
    && |s.emitters| == s.filtered + s.dropped + |s.enqueued| + s.direct + |Active(s.emitters)|
    && s.exported == Counted(cfg, |Flatten(s.batches)| + s.direct)
  }

  ghost predicate Inv(cfg: Config, s: System) {
    LockInv(s) && OrderInv(cfg, s) && ModeInv(cfg, s) && CountInv(cfg, s)
  }

  // ----- One step -----

  predicate EmitterMove(m: Move) {
    m.Begin? || m.Filter? || m.Acquire? || m.Check? || m.Send? || m.CountDrop? || m.ExportOwn?
  }

  lemma Joins(emitters: map<Pid, Emitter>, pid: Pid, e: Emitter)
    requires pid !in emitters && e != Returned
    ensures |Active(emitters[pid := e])| == |Active(emitters)| + 1 && |emitters[pid := e]| == |emitters| + 1
  {
    assert Active(emitters[pid := e]) == Active(emitters) + {pid};
  }

  lemma Moves(emitters: map<Pid, Emitter>, pid: Pid, e: Emitter)
    requires pid in emitters && emitters[pid] != Returned && e != Returned
    ensures |Active(emitters[pid := e])| == |Active(emitters)| && |emitters[pid := e]| == |emitters|
  {
    assert Active(emitters[pid := e]) == Active(emitters);
    assert emitters[pid := e].Keys == emitters.Keys;
  }

  lemma Leaves(emitters: map<Pid, Emitter>, pid: Pid)
    requires pid in emitters && emitters[pid] != Returned
    ensures |Active(emitters[pid := Returned])| == |Active(emitters)| - 1 && |emitters[pid := Returned]| == |emitters|
  {
    assert Active(emitters[pid := Returned]) == Active(emitters) - {pid};
    assert emitters[pid := Returned].Keys == emitters.Keys;
  }

  lemma LockKeeps(cfg: Config, s: System, m: Move)
    requires LockInv(s)
    ensures LockInv(Step(cfg, s, m))
  {
    var s' := Step(cfg, s, m);
    if EmitterMove(m) { assert LockOk(s, m.pid); }
    forall pid
      ensures LockOk(s', pid)
    {
      assert LockOk(s, pid);
    }
  }

  lemma EmitterCounts(cfg: Config, s: System, m: Move)
    requires CountInv(cfg, s) && EmitterMove(m)
    ensures CountInv(cfg, Step(cfg, s, m))
  {
    hide Active, Flatten;
    var s' := Step(cfg, s, m);
    if s' != s {
      var e := s'.emitters[m.pid];
      if m.Begin? {
        Joins(s.emitters, m.pid, e);
      } else if e == Returned {
        Leaves(s.emitters, m.pid);
      } else {
        Moves(s.emitters, m.pid, e);
      }
    }
  }

  lemma {:induction false} FlattenLast(batches: seq<seq<Span>>, batch: seq<Span>)
    ensures Flatten(batches + [batch]) == Flatten(batches) + batch
  {
    assert (batches + [batch])[..|batches + [batch]| - 1] == batches;
  }

  lemma SendOrder(cfg: Config, s: System, m: Move)
    requires OrderInv(cfg, s) && EmitterMove(m)
    ensures OrderInv(cfg, Step(cfg, s, m))
  {
    hide Flatten, BatchOk;
  }

  lemma DrainOrder(cfg: Config, s: System, m: Move)
    requires OrderInv(cfg, s) && !EmitterMove(m)
    ensures OrderInv(cfg, Step(cfg, s, m))
  {
    hide Flatten;
    var s' := Step(cfg, s, m);
    var done := Flatten(s.batches);
    if s' != s && (m.Take? || m.More?) {
      assert done + Held(s) + s.queue == done + (Held(s) + [s.queue[0]]) + s.queue[1..];
    } else if s' != s && m.Export? {
      FlattenLast(s.batches, s.drainer.batch);
      assert done + Held(s) == done + Held(s) + [];
    }
  }

  lemma ModeKeeps(cfg: Config, s: System, m: Move)
    requires ModeInv(cfg, s) && LockInv(s)
    ensures ModeInv(cfg, Step(cfg, s, m))
  {
    if EmitterMove(m) { assert LockOk(s, m.pid); }
  }

  lemma OtherCounts(cfg: Config, s: System, m: Move)
    requires CountInv(cfg, s) && !EmitterMove(m)
    ensures CountInv(cfg, Step(cfg, s, m))
  {
    hide Active, Flatten;
    if s.drainer.Collecting? {
      FlattenLast(s.batches, s.drainer.batch);
    }
  }

  lemma {:induction false} ExecKeeps(cfg: Config, s: System, moves: seq<Move>)
    requires Inv(cfg, s)
    ensures Inv(cfg, Exec(cfg, s, moves))
    decreases |moves|
  {
    if moves != [] {
      hide Step, LockInv, OrderInv, ModeInv, CountInv;
      var m := moves[0];
      LockKeeps(cfg, s, m);
      ModeKeeps(cfg, s, m);
      if EmitterMove(m) {
        SendOrder(cfg, s, m);
        EmitterCounts(cfg, s, m);
      } else {
        DrainOrder(cfg, s, m);
        OtherCounts(cfg, s, m);
      }
      ExecKeeps(cfg, Step(cfg, s, m), moves[1..]);
    }
  }

  /** Close has returned: the drainer, if there is one, has stopped. */
  predicate HasClosed(cfg: Config, s: System) {
    s.closer == Closed && (cfg.synchronous || s.drainer == Stopped)
  }

  // ----- Close returns -----

  predicate DrainerMove(m: Move) { m.Take? || m.ObserveDone? || m.More? || m.Export? || m.Stop? }

  function Phase(d: Drainer): nat {
    match d
    case Stopped => 0
    case Selecting(flushing) => if flushing then 1 else 2
    case Collecting(_, flushing) => if flushing then 2 else 3
  }

  /** What the drainer has left to do. */
  function DrainRank(s: System): nat { 2 * |s.queue| + Phase(s.drainer) }

  /** Once the observer is marked closed, until the drainer has stopped, one of its moves is enabled. */
  lemma DrainerNeverStuck(cfg: Config, s: System) returns (m: Move)
    requires Inv(cfg, s) && !cfg.synchronous && s.closer == Closed && s.drainer != Stopped
    ensures DrainerMove(m) && Step(cfg, s, m) != s
  {
    hide LockInv, OrderInv, CountInv;
    if s.drainer.Collecting? {
      m := if Full(cfg, s.drainer.batch) || s.queue == [] then Export else More;
      if m.Export? { assert Step(cfg, s, m).drainer.Selecting?; } else { assert |Step(cfg, s, m).queue| < |s.queue|; }
    } else if s.queue != [] {
      m := Take;
      assert |Step(cfg, s, m).queue| < |s.queue|;
    } else {
      m := if s.drainer.flushing then Stop else ObserveDone;
    }
  }

  /** Each of them leaves less to do, and nobody else adds to it: so the drainer stops, and Close returns. */
  lemma DrainerShrinks(cfg: Config, s: System, m: Move)
    requires Inv(cfg, s) && s.closer == Closed
    ensures Step(cfg, s, m).closer == Closed
    ensures DrainerMove(m) && Step(cfg, s, m) != s ==> DrainRank(Step(cfg, s, m)) < DrainRank(s)
    ensures !DrainerMove(m) ==> DrainRank(Step(cfg, s, m)) == DrainRank(s)
  {
    hide OrderInv, CountInv, ModeInv;
    if EmitterMove(m) { assert LockOk(s, m.pid); }
  }

  lemma StartInv(cfg: Config)
    ensures Inv(cfg, Start())
  {
  }

  /** At every instant of every run: batches respect the bound, and what was exported is what was queued first. */
  lemma {:induction false} BatchesInOrder(cfg: Config, moves: seq<Move>)
    ensures var s := Exec(cfg, Start(), moves);
            && Flatten(s.batches) <= s.enqueued
            && (forall i :: 0 <= i < |s.batches| ==> BatchOk(cfg, s.batches[i]))
            && |s.queue| <= cfg.capacity
  {
    hide Exec, Start, Flatten, Held, BatchOk, LockInv, ModeInv, CountInv;
    var s := Exec(cfg, Start(), moves);
    StartInv(cfg);
    ExecKeeps(cfg, Start(), moves);
    assert s.enqueued == Flatten(s.batches) + (Held(s) + s.queue);
  }

  /**
   collect: drains what is buffered alongside `first`, up to the batch bound, while
   `arrivals[k]` is what emitters queue before the k-th look at the channel. It stops
   only at the bound or on an empty channel, and takes from the front.
   */
  method Collect(cfg: Config, first: Span, buffered: seq<Span>, arrivals: seq<seq<Span>>)
    returns (batch: seq<Span>, queue: seq<Span>, polls: nat)
    ensures polls <= |arrivals| && BatchOk(cfg, batch)
    ensures batch + queue == [first] + buffered + Flatten(arrivals[..polls])
    ensures Full(cfg, batch) || queue == []
  {
    batch, queue, polls := [first], buffered, 0;
    while cfg.batchSize <= 0 || |batch| < cfg.batchSize
      invariant polls <= |arrivals| && BatchOk(cfg, batch)
      invariant batch + queue == [first] + buffered + Flatten(arrivals[..polls])
      decreases |arrivals| - polls, |queue|
    {
      hide Flatten;
      if polls < |arrivals| {
        ghost var all, new_ := batch + queue, arrivals[polls];
        FlattenLast(arrivals[..polls], new_);
        assert arrivals[..polls + 1] == arrivals[..polls] + [new_];
        assert batch + (queue + new_) == all + new_;
        assert all + new_ == [first] + buffered + (Flatten(arrivals[..polls]) + new_);
        queue := queue + arrivals[polls];
        polls := polls + 1;
      }
      if queue == [] {
        return;
      }
      ghost var taken := batch + queue;
      batch, queue := batch + [queue[0]], queue[1..];
      assert batch + queue == taken;
    }
  }

  /** One span of an observer that has nowhere to send it: ended, but neither filtered, dropped nor exported. */
  lemma NowhereToGo(span: Span)
    ensures var cfg := Config(1, 1, true, false);
            var s := Exec(cfg, Start(), [Begin(0, span), Filter(0, Some(span)), Acquire(0), Check(0), ExportOwn(0), CloseLock, CloseMark]);
            HasClosed(cfg, s) && s.emitters == map[0 := Returned] && |s.emitters| != s.filtered + s.dropped + s.exported
  {
    var cfg := Config(1, 1, true, false);
    var moves := [Begin(0, span), Filter(0, Some(span)), Acquire(0), Check(0), ExportOwn(0), CloseLock, CloseMark];
    var s0 := Start();
    var s1 := Step(cfg, s0, moves[0]);
    var s2 := Step(cfg, s1, moves[1]);
    var s3 := Step(cfg, s2, moves[2]);
    var s4 := Step(cfg, s3, moves[3]);
    var s5 := Step(cfg, s4, moves[4]);
    var s6 := Step(cfg, s5, moves[5]);
    var s7 := Step(cfg, s6, moves[6]);
    assert s7.closer == Closed && s7.emitters == map[0 := Returned] && s7.filtered + s7.dropped + s7.exported == 0;
    hide Step;
    Unfold(cfg, s0, moves);
    Unfold(cfg, s1, moves[1..]);
    Unfold(cfg, s2, moves[2..]);
    Unfold(cfg, s3, moves[3..]);
    Unfold(cfg, s4, moves[4..]);
    Unfold(cfg, s5, moves[5..]);
    Unfold(cfg, s6, moves[6..]);
  }

  lemma {:induction false} Unfold(cfg: Config, s: System, moves: seq<Move>)
    requires moves != []
    ensures Exec(cfg, s, moves) == Exec(cfg, Step(cfg, s, moves[0]), moves[1..])
  {
  }
}
