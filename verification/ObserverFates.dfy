/**
 What becomes of every span (obsv/observer.go): which are filtered, queued, exported by their own
 emitter or dropped, and why, read off the moves of a run.
 */
module ObserverFates {
  import opened Wrappers
  import opened Observer
  import opened Rearranged

  /**
   The calls of onSpanEnd in a run: those whose span the filter removed, the spans it kept, the calls
   that put theirs into the queue, in order, those that met a full queue, those that saw the observer
   closed, and those that exported their own.
   */
  datatype Story = Story(
    filtered: set<Pid>, kept: map<Pid, Span>, queued: seq<Pid>, crowded: set<Pid>, late: set<Pid>, own: set<Pid>)

  const BEGINNING := Story({}, map[], [], {}, {}, {})

  function Tell(cfg: Config, s: System, m: Move, t: Story): Story {
    match m
    case Filter(pid, kept) =>
      if !In(s, pid) || !s.emitters[pid].Started? then t
      else if kept.None? then t.(filtered := t.filtered + {pid}) else t.(kept := t.kept[pid := kept.value])
    case Check(pid) =>
      if !In(s, pid) || !s.emitters[pid].Holding? then t
      else if s.closer == Closed then t.(late := t.late + {pid})
      else if cfg.synchronous then t.(own := t.own + {pid})
      else t
    case Send(pid) =>
      if !In(s, pid) || !s.emitters[pid].Sending? then t
      else if |s.queue| >= cfg.capacity then t.(crowded := t.crowded + {pid})
      else t.(queued := t.queued + [pid])
    case _ => t
  }

  function TellAll(cfg: Config, s: System, moves: seq<Move>, t: Story): Story
    decreases |moves|
  {
    if moves == [] then t else TellAll(cfg, Step(cfg, s, moves[0]), moves[1..], Tell(cfg, s, moves[0], t))
  }

  /** The story of a whole run. */
  function StoryOf(cfg: Config, moves: seq<Move>): Story { TellAll(cfg, Start(), moves, BEGINNING) }

  /** The call's span has met its end. */
  predicate Met(t: Story, pid: Pid) { pid in t.queued || pid in t.crowded || pid in t.late || pid in t.own }

  /** Where one call stands. */
  predicate Stands(t: Story, pid: Pid, e: Emitter) {
    match e
    case Started(_) => pid !in t.kept && pid !in t.filtered
    case Waiting(span) => pid in t.kept && t.kept[pid] == span && !Met(t, pid)
    case Holding(span) => pid in t.kept && t.kept[pid] == span && !Met(t, pid)
    case Sending(span) => pid in t.kept && t.kept[pid] == span && !Met(t, pid)
    case Dropping => pid in t.kept && pid in t.late
    case Exporting(span) => pid in t.kept && t.kept[pid] == span && pid in t.own
    case Returned => pid in t.filtered || (pid in t.kept && Met(t, pid))
  }

  /** No call has two fates. */
  predicate OneFate(t: Story, pid: Pid) {
    && (pid in t.filtered ==> pid !in t.kept)
    && (Met(t, pid) ==> pid in t.kept)
    && (pid in t.queued ==> pid !in t.crowded && pid !in t.late && pid !in t.own)
    && (pid in t.crowded ==> pid !in t.late && pid !in t.own)
    && (pid in t.late ==> pid !in t.own)
  }

  ghost predicate Standing(s: System, t: Story) {
    && (forall pid :: In(s, pid) ==> Stands(t, pid, s.emitters[pid]))
    && (forall pid :: pid in t.kept || pid in t.filtered ==> In(s, pid))
    && (forall pid :: OneFate(t, pid))
    && Distinct(t.queued)
  }

  /** The queue received, in order, what the filter kept for the calls that queued. */
  predicate QueueTold(s: System, t: Story) {
    && |s.enqueued| == |t.queued|
    && forall i :: 0 <= i < |t.queued| ==> t.queued[i] in t.kept && s.enqueued[i] == t.kept[t.queued[i]]
  }

  function Droppers(emitters: map<Pid, Emitter>): set<Pid> { set pid | pid in emitters && emitters[pid] == Dropping }

  function Exporters(emitters: map<Pid, Emitter>): set<Pid> { set pid | pid in emitters && emitters[pid].Exporting? }

  /** The counters count the calls of their kind, less those that are about to count. */
  predicate CountersTold(s: System, t: Story) {
    && s.filtered == |t.filtered|
    && s.dropped == |t.crowded| + |t.late - Droppers(s.emitters)|
    && s.direct == |t.own - Exporters(s.emitters)|
  }

  // ----- One step -----

  /** The story of a step changes for its own call only. */
  predicate SameFor(t: Story, t': Story, pid: Pid) {
    && (pid in t'.filtered <==> pid in t.filtered) && (pid in t'.kept <==> pid in t.kept)
    && (pid in t.kept && pid in t'.kept ==> t'.kept[pid] == t.kept[pid])
    && (pid in t'.queued <==> pid in t.queued) && (pid in t'.crowded <==> pid in t.crowded)
    && (pid in t'.late <==> pid in t.late) && (pid in t'.own <==> pid in t.own)
  }

  lemma OthersSame(cfg: Config, s: System, m: Move, t: Story, pid: Pid)
    requires EmitterMove(m) ==> m.pid != pid
    ensures SameFor(t, Tell(cfg, s, m, t), pid)
    ensures In(Step(cfg, s, m), pid) <==> In(s, pid)
    ensures In(s, pid) ==> Step(cfg, s, m).emitters[pid] == s.emitters[pid]
  {
  }

  lemma MoverStands(cfg: Config, s: System, m: Move, t: Story)
    requires EmitterMove(m) && OneFate(t, m.pid) && (In(s, m.pid) ==> Stands(t, m.pid, s.emitters[m.pid]))
    requires !In(s, m.pid) ==> m.pid !in t.kept && m.pid !in t.filtered
    ensures var s', t' := Step(cfg, s, m), Tell(cfg, s, m, t);
            && OneFate(t', m.pid)
            && if In(s', m.pid) then Stands(t', m.pid, s'.emitters[m.pid]) else m.pid !in t'.kept && m.pid !in t'.filtered
  {
  }

  lemma StandingStep(cfg: Config, s: System, m: Move, t: Story)
    requires Standing(s, t)
    ensures Standing(Step(cfg, s, m), Tell(cfg, s, m, t))
  {
    var s', t' := Step(cfg, s, m), Tell(cfg, s, m, t);
    QueuedOnce(cfg, s, m, t);
    hide Step, Tell;
    forall pid
      ensures if In(s', pid) then Stands(t', pid, s'.emitters[pid]) else pid !in t'.kept && pid !in t'.filtered
      ensures OneFate(t', pid)
    {
      assert OneFate(t, pid) && (In(s, pid) ==> Stands(t, pid, s.emitters[pid]));
      if EmitterMove(m) && m.pid == pid { MoverStands(cfg, s, m, t); } else { OthersSame(cfg, s, m, t, pid); }
    }
  }

  lemma QueuedOnce(cfg: Config, s: System, m: Move, t: Story)
    requires Standing(s, t)
    ensures Distinct(Tell(cfg, s, m, t).queued)
  {
    if m.Send? && In(s, m.pid) && s.emitters[m.pid].Sending? { assert Stands(t, m.pid, s.emitters[m.pid]); }
  }

  lemma QueueStep(cfg: Config, s: System, m: Move, t: Story)
    requires Standing(s, t) && QueueTold(s, t)
    ensures QueueTold(Step(cfg, s, m), Tell(cfg, s, m, t))
  {
    if EmitterMove(m) && In(s, m.pid) { assert Stands(t, m.pid, s.emitters[m.pid]); }
  }

  /** A call joins those about to count, or leaves them by counting. */
  lemma SetsCount(all: set<Pid>, all': set<Pid>, about: set<Pid>, about': set<Pid>, pid: Pid)
    requires all' == all + if pid !in about && pid in about' then {pid} else {}
    requires about' == if pid in about' then about + {pid} else about - {pid}
    requires pid in about ==> pid in all
    requires pid !in about && pid in about' ==> pid !in all
    ensures |all' - about'| == |all - about| + if pid in about && pid !in about' then 1 else 0
  {
    if pid in about && pid !in about' {
      assert all' - about' == (all - about) + {pid};
    } else {
      assert all' - about' == all - about;
    }
  }

  predicate Is(s: System, pid: Pid, e: Emitter) { In(s, pid) && s.emitters[pid] == e }

  predicate ExportsOwn(s: System, pid: Pid) { In(s, pid) && s.emitters[pid].Exporting? }

  predicate MeetsFull(cfg: Config, s: System, m: Move) {
    m.Send? && In(s, m.pid) && s.emitters[m.pid].Sending? && |s.queue| >= cfg.capacity
  }

  predicate Removes(s: System, m: Move) { m.Filter? && In(s, m.pid) && s.emitters[m.pid].Started? && m.kept.None? }

  /** What a step counts, and what the story makes of it. */
  lemma Effect(cfg: Config, s: System, m: Move, t: Story)
    requires EmitterMove(m)
    ensures var s', t', pid := Step(cfg, s, m), Tell(cfg, s, m, t), m.pid;
            && s'.filtered == s.filtered + (if Removes(s, m) then 1 else 0)
            && t'.filtered == t.filtered + (if Removes(s, m) then {pid} else {})
            && t'.crowded == t.crowded + (if MeetsFull(cfg, s, m) then {pid} else {})
            && t'.late == t.late + (if !Is(s, pid, Dropping) && Is(s', pid, Dropping) then {pid} else {})
            && t'.own == t.own + (if !ExportsOwn(s, pid) && ExportsOwn(s', pid) then {pid} else {})
            && s'.dropped == s.dropped + (if MeetsFull(cfg, s, m) then 1 else 0)
                             + (if Is(s, pid, Dropping) && !Is(s', pid, Dropping) then 1 else 0)
            && s'.direct == s.direct + (if ExportsOwn(s, pid) && !ExportsOwn(s', pid) then 1 else 0)
            && (s'.emitters == s.emitters || (In(s', pid) && s'.emitters == s.emitters[pid := s'.emitters[pid]]))
  {
  }

  lemma OthersCount(cfg: Config, s: System, m: Move, t: Story)
    requires !EmitterMove(m)
    ensures var s' := Step(cfg, s, m);
            Tell(cfg, s, m, t) == t && s'.emitters == s.emitters && s'.filtered == s.filtered
            && s'.dropped == s.dropped && s'.direct == s.direct
  {
  }

  lemma SetsMove(emitters: map<Pid, Emitter>, emitters': map<Pid, Emitter>, pid: Pid)
    requires emitters' == emitters || (pid in emitters' && emitters' == emitters[pid := emitters'[pid]])
    ensures Droppers(emitters') == if pid in emitters' && emitters'[pid] == Dropping then Droppers(emitters) + {pid} else Droppers(emitters) - {pid}
    ensures Exporters(emitters') == if pid in emitters' && emitters'[pid].Exporting? then Exporters(emitters) + {pid} else Exporters(emitters) - {pid}
    ensures pid in Droppers(emitters) <==> pid in emitters && emitters[pid] == Dropping
    ensures pid in Exporters(emitters) <==> pid in emitters && emitters[pid].Exporting?
  {
  }

  /** Where the call of a step stands before and after it. */
  lemma MoverBefore(s: System, t: Story, pid: Pid)
    requires Standing(s, t)
    ensures Is(s, pid, Dropping) ==> pid in t.late
    ensures ExportsOwn(s, pid) ==> pid in t.own
    ensures pid in t.late ==> Is(s, pid, Dropping) || Is(s, pid, Returned)
    ensures pid in t.own ==> ExportsOwn(s, pid) || Is(s, pid, Returned)
  {
    assert OneFate(t, pid) && (In(s, pid) ==> Stands(t, pid, s.emitters[pid]));
  }

  lemma ReturnedStays(cfg: Config, s: System, m: Move, pid: Pid)
    requires Is(s, pid, Returned)
    ensures Is(Step(cfg, s, m), pid, Returned)
  {
  }

  /** Those that are late, less those about to count it, grow by the calls that count. */
  lemma LateStep(cfg: Config, s: System, m: Move, t: Story)
    requires Standing(s, t) && EmitterMove(m)
    ensures var s', t', pid := Step(cfg, s, m), Tell(cfg, s, m, t), m.pid;
            |t'.late - Droppers(s'.emitters)|
            == |t.late - Droppers(s.emitters)| + (if Is(s, pid, Dropping) && !Is(s', pid, Dropping) then 1 else 0)
  {
    hide Step, Tell, Droppers, Exporters, MeetsFull, Removes, Standing;
    var s', t', pid := Step(cfg, s, m), Tell(cfg, s, m, t), m.pid;
    MoverBefore(s, t, pid);
    if Is(s, pid, Returned) { ReturnedStays(cfg, s, m, pid); }
    Effect(cfg, s, m, t);
    SetsMove(s.emitters, s'.emitters, pid);
    SetsMove(s'.emitters, s'.emitters, pid);
    SetsCount(t.late, t'.late, Droppers(s.emitters), Droppers(s'.emitters), pid);
  }

  /** Likewise those that export their own. */
  lemma OwnStep(cfg: Config, s: System, m: Move, t: Story)
    requires Standing(s, t) && EmitterMove(m)
    ensures var s', t', pid := Step(cfg, s, m), Tell(cfg, s, m, t), m.pid;
            |t'.own - Exporters(s'.emitters)|
            == |t.own - Exporters(s.emitters)| + (if ExportsOwn(s, pid) && !ExportsOwn(s', pid) then 1 else 0)
  {
    hide Step, Tell, Droppers, Exporters, MeetsFull, Removes, Standing;
    var s', t', pid := Step(cfg, s, m), Tell(cfg, s, m, t), m.pid;
    MoverBefore(s, t, pid);
    if Is(s, pid, Returned) { ReturnedStays(cfg, s, m, pid); }
    Effect(cfg, s, m, t);
    SetsMove(s.emitters, s'.emitters, pid);
    SetsMove(s'.emitters, s'.emitters, pid);
    SetsCount(t.own, t'.own, Exporters(s.emitters), Exporters(s'.emitters), pid);
  }

  lemma NewFate(cfg: Config, s: System, m: Move, t: Story)
    requires Standing(s, t) && EmitterMove(m)
    ensures MeetsFull(cfg, s, m) ==> m.pid !in t.crowded
    ensures Removes(s, m) ==> m.pid !in t.filtered
  {
    if In(s, m.pid) { assert Stands(t, m.pid, s.emitters[m.pid]); }
  }

  lemma OneMore(all: set<Pid>, pid: Pid, more: bool)
    requires more ==> pid !in all
    ensures |all + if more then {pid} else {}| == |all| + if more then 1 else 0
  {
    assert all + {} == all;
  }

  lemma CountersStep(cfg: Config, s: System, m: Move, t: Story)
    requires Standing(s, t) && CountersTold(s, t)
    ensures CountersTold(Step(cfg, s, m), Tell(cfg, s, m, t))
  {
    hide Step, Tell, Droppers, Exporters, Is, ExportsOwn, Standing, MeetsFull, Removes;
    if EmitterMove(m) {
      NewFate(cfg, s, m, t);
      LateStep(cfg, s, m, t);
      OwnStep(cfg, s, m, t);
      Effect(cfg, s, m, t);
      OneMore(t.crowded, m.pid, MeetsFull(cfg, s, m));
      OneMore(t.filtered, m.pid, Removes(s, m));
    } else {
      OthersCount(cfg, s, m, t);
    }
  }

  /** A synchronous observer queues nothing; any other lets nobody export its own span. */
  predicate ModeTold(cfg: Config, t: Story) {
    if cfg.synchronous then t.queued == [] && t.crowded == {} else t.own == {}
  }

  lemma ModeStep(cfg: Config, s: System, m: Move, t: Story)
    requires ModeInv(cfg, s) && ModeTold(cfg, t)
    ensures ModeTold(cfg, Tell(cfg, s, m, t))
  {
  }

  // ----- Every run -----

  ghost predicate Told(cfg: Config, s: System, t: Story) {
    Standing(s, t) && QueueTold(s, t) && CountersTold(s, t) && ModeTold(cfg, t)
  }

  lemma {:induction false} ToldAll(cfg: Config, s: System, moves: seq<Move>, t: Story)
    requires Inv(cfg, s) && Told(cfg, s, t)
    ensures Told(cfg, Exec(cfg, s, moves), TellAll(cfg, s, moves, t))
    decreases |moves|
  {
    if moves != [] {
      var m := moves[0];
      ExecKeeps(cfg, s, [m]);
      assert Exec(cfg, s, [m]) == Exec(cfg, Step(cfg, s, m), [m][1..]) == Step(cfg, s, m);
      assert Inv(cfg, Step(cfg, s, m));
      StandingStep(cfg, s, m, t);
      QueueStep(cfg, s, m, t);
      CountersStep(cfg, s, m, t);
      ModeStep(cfg, s, m, t);
      hide Step, Tell, Inv, Standing, QueueTold, CountersTold, ModeTold;
      ToldAll(cfg, Step(cfg, s, m), moves[1..], Tell(cfg, s, m, t));
    }
  }

  /**
   At every instant of every run: spans are dropped only by calls that met a full queue and by calls
   that saw the observer closed, each of them drops exactly one, and the queue has received, in
   order, the spans of all other calls that got to send.
   */
  lemma {:induction false} Fates(cfg: Config, moves: seq<Move>)
    ensures var s, t := Exec(cfg, Start(), moves), StoryOf(cfg, moves);
            && s.dropped == |t.crowded| + |t.late - Droppers(s.emitters)|
            && s.filtered == |t.filtered|
            && QueueTold(s, t) && Distinct(t.queued)
            && (forall pid :: OneFate(t, pid))
  {
    hide Exec, TellAll, Inv;
    StartTold(cfg);
    ToldAll(cfg, Start(), moves, BEGINNING);
  }

  lemma StartTold(cfg: Config)
    ensures Inv(cfg, Start()) && Told(cfg, Start(), BEGINNING)
  {
    StartInv(cfg);
    assert Droppers(map[]) == {} && Exporters(map[]) == {};
  }

  /** Everything is out, and counted. */
  lemma Balanced(cfg: Config, s: System)
    requires Inv(cfg, s) && HasClosed(cfg, s) && forall pid :: In(s, pid) ==> s.emitters[pid] == Returned
    ensures Flatten(s.batches) == s.enqueued
    ensures |s.emitters| == s.filtered + s.dropped + s.exported <==> cfg.hasDestination || (s.enqueued == [] && s.direct == 0)
  {
    assert Active(s.emitters) == {};
  }

  lemma AllCounted(s: System, t: Story)
    requires CountersTold(s, t) && forall pid :: In(s, pid) ==> s.emitters[pid] == Returned
    ensures s.dropped == |t.crowded| + |t.late| && s.direct == |t.own|
  {
    assert Droppers(s.emitters) == {} && Exporters(s.emitters) == {};
    assert t.late - {} == t.late && t.own - {} == t.own;
  }

  /**
   For every interleaving of any number of emitters, the drainer and Close, once Close
   and all emitters have returned. The batches handed to the destinations are, joined
   together, exactly the queued spans in the order they were queued. Every span
   that ended is counted exactly once, as filtered, dropped or exported; this accounting
   fails only for an observer without any destination that let a span through. Dropped were exactly
   the spans of the calls that met a full queue or a closed observer. If there were none, nothing is
   dropped, and the batches hold every span the filter kept, each once, or, in a synchronous
   observer, every call exported its own.
   */
  lemma {:induction false} NothingLost(cfg: Config, moves: seq<Move>)
    requires var s := Exec(cfg, Start(), moves);
             HasClosed(cfg, s) && forall pid :: In(s, pid) ==> s.emitters[pid] == Returned
    ensures var s, t := Exec(cfg, Start(), moves), StoryOf(cfg, moves);
            && Flatten(s.batches) == s.enqueued
            && (|s.emitters| == s.filtered + s.dropped + s.exported <==>
                  cfg.hasDestination || (s.enqueued == [] && s.direct == 0))
            && s.dropped == |t.crowded| + |t.late|
            && |Flatten(s.batches)| == |t.queued|
            && (forall i :: 0 <= i < |t.queued| ==> t.queued[i] in t.kept && Flatten(s.batches)[i] == t.kept[t.queued[i]])
            && Distinct(t.queued)
            && (t.crowded == {} && t.late == {} ==>
                  && s.dropped == 0
                  && if cfg.synchronous then t.kept.Keys == t.own && s.direct == |t.own|
                     else forall pid :: pid in t.kept <==> pid in t.queued)
  {
    hide Exec, TellAll, Inv, Standing, CountersTold, ModeTold, HasClosed, Flatten;
    var s, t := Exec(cfg, Start(), moves), StoryOf(cfg, moves);
    StartTold(cfg);
    ExecKeeps(cfg, Start(), moves);
    ToldAll(cfg, Start(), moves, BEGINNING);
    Balanced(cfg, s);
    AllCounted(s, t);
    OnceQueued(s, t);
    if t.crowded == {} && t.late == {} { AllMet(cfg, s, t); }
  }

  lemma OnceQueued(s: System, t: Story)
    requires Standing(s, t)
    ensures Distinct(t.queued)
  {
  }

  lemma AllMet(cfg: Config, s: System, t: Story)
    requires Standing(s, t) && ModeTold(cfg, t) && t.crowded == {} && t.late == {}
    requires forall pid :: In(s, pid) ==> s.emitters[pid] == Returned
    ensures if cfg.synchronous then t.kept.Keys == t.own else forall pid :: pid in t.kept <==> pid in t.queued
  {
    forall pid ensures pid in t.kept <==> Met(t, pid) {
      assert OneFate(t, pid);
      if pid in t.kept { assert In(s, pid) && Stands(t, pid, s.emitters[pid]); }
    }
    if cfg.synchronous {
      forall pid ensures pid in t.kept.Keys <==> pid in t.own { assert pid in t.kept <==> Met(t, pid); }
    }
  }
}
