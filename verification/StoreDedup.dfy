/**
 The store-backed deduplicator and its callers (channels/dedup.go, channels/handler.go).

 A webhook delivery and a dispatch worker do the same: a message without a provider ID
 runs at once, any other message asks the deduplicator, whose get, create and second get
 are separate store calls that may interleave with those of any other caller. A sequence
 of moves is one such interleaving; a move that does not apply changes nothing.
 */
module StoreDedup {
  import opened Wrappers
  import opened LengthPrefix

  /** A provider message on one route; `namespace` is that of the deduplicator asked. */
  datatype Message = Message(namespace: string, agent: string, platform: string, id: string)

  const MARKER_PREFIX := "chdedup-"

  /** The key of a message on its route (dedupKey), inside the deduplicator's namespace (markerID). */
  function Key(m: Message): string {
    Encoded([m.namespace, Encoded([m.agent, m.platform, m.id])])
  }

  /** `hash` stands for the hexadecimal SHA-256 digest. */
  function Marker(hash: string -> string, m: Message): string {
    MARKER_PREFIX + hash(Key(m))
  }

  ghost predicate CollisionFree(hash: string -> string) {
    forall x, y :: hash(x) == hash(y) ==> x == y
  }

  lemma KeyInjective(m: Message, n: Message)
    requires Key(m) == Key(n)
    ensures m == n
  {
    Injective([m.namespace, Encoded([m.agent, m.platform, m.id])], [n.namespace, Encoded([n.agent, n.platform, n.id])]);
    assert [m.namespace, Encoded([m.agent, m.platform, m.id])][1] == [n.namespace, Encoded([n.agent, n.platform, n.id])][1];
    Injective([m.agent, m.platform, m.id], [n.agent, n.platform, n.id]);
    assert [m.agent, m.platform, m.id][1] == [n.agent, n.platform, n.id][1];
    assert [m.agent, m.platform, m.id][2] == [n.agent, n.platform, n.id][2];
  }

  /** Different messages, on whatever routes and in whatever namespaces, have different markers, which a prefix tells from other threads. */
  lemma MarkersDistinct(hash: string -> string, m: Message, n: Message)
    requires CollisionFree(hash)
    ensures Marker(hash, m) == Marker(hash, n) <==> m == n
    ensures "chdedup-" <= Marker(hash, m)
  {
    if Marker(hash, m) == Marker(hash, n) {
      assert hash(Key(m)) == Marker(hash, m)[|MARKER_PREFIX|..];
      assert hash(Key(n)) == Marker(hash, n)[|MARKER_PREFIX|..];
      KeyInjective(m, n);
    }
  }

  /** The marker of every message; the protocol below depends on it only through this function. */
  type Marking = Message -> string

  function Marks(hash: string -> string): Marking {
    m => Marker(hash, m)
  }

  datatype Phase =
    | Unkeyed        // no provider ID: runs without asking
    | Getting        // about to read the marker
    | Creating       // the marker was absent
    | Rechecking     // the create failed
    | Entered        // not seen: the caller runs the agent
    | Dropped        // seen: acknowledged as a duplicate
    | Errored        // the store failed

  datatype Caller = Caller(message: Message, phase: Phase)

  type Pid = nat

  /** The thread records of the store, by ID, and the callers. */
  datatype System = System(threads: set<string>, callers: map<Pid, Caller>)

  datatype CreateFault = NoFault | Refused | LostReply

  datatype Move =
    | Arrive(pid: Pid, message: Message)
    | Get(pid: Pid, unreadable: bool)
    | Create(pid: Pid, fault: CreateFault)
    | Recheck(pid: Pid, unreadable: bool)
    | OtherThread(id: string)                 // a conversation's own thread

  predicate At(s: System, pid: Pid, phase: Phase) {
    pid in s.callers && s.callers[pid].phase == phase
  }

  function Go(s: System, pid: Pid, phase: Phase): System
    requires pid in s.callers
  {
    s.(callers := s.callers[pid := s.callers[pid].(phase := phase)])
  }

  function AfterGet(present: bool, unreadable: bool): Phase {
    if unreadable then Errored else if present then Dropped else Creating
  }

  predicate Creates(present: bool, fault: CreateFault) {
    !present && fault != Refused
  }

  function AfterCreate(present: bool, fault: CreateFault): Phase {
    if !present && fault == NoFault then Entered else Rechecking
  }

  function AfterRecheck(present: bool, unreadable: bool): Phase {
    if !unreadable && present then Dropped else Errored
  }

  function Step(mark: Marking, s: System, m: Move): System {
    match m
    case Arrive(pid, message) =>
      if pid in s.callers then s
      else s.(callers := s.callers[pid := Caller(message, if message.id == "" then Unkeyed else Getting)])
    case Get(pid, unreadable) =>
      if !At(s, pid, Getting) then s
      else Go(s, pid, AfterGet(mark(s.callers[pid].message) in s.threads, unreadable))
    case Create(pid, fault) =>
      if !At(s, pid, Creating) then s else
        var marker := mark(s.callers[pid].message);
        var present := marker in s.threads;
        Go(s, pid, AfterCreate(present, fault)).(threads := s.threads + if Creates(present, fault) then {marker} else {})
    case Recheck(pid, unreadable) =>
      if !At(s, pid, Rechecking) then s
      else Go(s, pid, AfterRecheck(mark(s.callers[pid].message) in s.threads, unreadable))
    case OtherThread(id) => s.(threads := s.threads + {id})
  }

  function Exec(mark: Marking, s: System, moves: seq<Move>): System
    decreases |moves|
  {
    if moves == [] then s else Exec(mark, Step(mark, s, moves[0]), moves[1..])
  }

  // ----- At most one, whatever fails -----

  /** Whoever runs has its marker in the store, and no two of them run for one message. */
  ghost predicate Exclusive(mark: Marking, s: System) {
    && (forall p :: At(s, p, Entered) ==> mark(s.callers[p].message) in s.threads)
    && (forall p, q :: At(s, p, Entered) && At(s, q, Entered) && p != q ==> s.callers[p].message != s.callers[q].message)
  }

  lemma StepExclusive(mark: Marking, s: System, m: Move)
    requires Exclusive(mark, s)
    ensures Exclusive(mark, Step(mark, s, m))
  {
    var s' := Step(mark, s, m);
    forall p | At(s', p, Entered)
      ensures p in s.callers && s'.callers[p].message == s.callers[p].message && mark(s.callers[p].message) in s'.threads
      ensures !At(s, p, Entered) ==> m == Create(p, NoFault) && mark(s.callers[p].message) !in s.threads
    {
      if At(s, p, Entered) { assert s'.callers[p] == s.callers[p]; }
    }
  }

  /** No two callers run for one message, in any state some run leads to. */
  lemma {:induction false} ExecExclusive(mark: Marking, s: System, moves: seq<Move>)
    requires Exclusive(mark, s)
    ensures Exclusive(mark, Exec(mark, s, moves))
    decreases |moves|
  {
    if moves != [] {
      StepExclusive(mark, s, moves[0]);
      ExecExclusive(mark, Step(mark, s, moves[0]), moves[1..]);
    }
  }

  /**
   In every interleaving, with any store failures, no two callers are told "not seen"
   for one message ID of one agent and platform.
   */
  lemma {:induction false} AtMostOneRuns(mark: Marking, s: System, moves: seq<Move>, p: Pid, q: Pid)
    requires Exclusive(mark, s)
    requires var s' := Exec(mark, s, moves); At(s', p, Entered) && At(s', q, Entered) && p != q
    ensures var s' := Exec(mark, s, moves); s'.callers[p].message != s'.callers[q].message
  {
    hide Exec;
    ExecExclusive(mark, s, moves);
  }

  // ----- Who runs a message, and when nobody does -----

  /** Some caller runs the agent for the message. */
  ghost predicate Runs(s: System, message: Message) {
    exists p :: At(s, p, Entered) && s.callers[p].message == message
  }

  /** How a marker came to be in the store. */
  datatype Origin = Unborn | Earlier | OtherHand | LostCreate | ByRunner

  function MadeBy(m: Move): Origin {
    match m
    case Create(_, fault) => if fault == NoFault then ByRunner else LostCreate
    case _ => OtherHand
  }

  function OriginOf(mark: Marking, s: System, moves: seq<Move>, message: Message): Origin
    decreases |moves|
  {
    if mark(message) in s.threads then Earlier
    else if moves == [] then Unborn
    else
      var s' := Step(mark, s, moves[0]);
      if mark(message) in s'.threads then MadeBy(moves[0]) else OriginOf(mark, s', moves[1..], message)
  }

  /** Different messages have different markers. */
  ghost predicate Faithful(mark: Marking) {
    forall m, n :: mark(m) == mark(n) ==> m == n
  }

  /** Whoever runs a message, or was told "seen", can point at its marker. */
  ghost predicate Founded(mark: Marking, s: System, message: Message) {
    forall p :: (At(s, p, Entered) || At(s, p, Dropped)) && s.callers[p].message == message ==> mark(message) in s.threads
  }

  lemma FoundedStep(mark: Marking, s: System, m: Move, message: Message)
    requires Founded(mark, s, message)
    ensures Founded(mark, Step(mark, s, m), message)
  {
    var s' := Step(mark, s, m);
    forall p | (At(s', p, Entered) || At(s', p, Dropped)) && s'.callers[p].message == message
      ensures mark(message) in s'.threads
    {
      assert p in s.callers && s.callers[p].message == message;
      if At(s, p, Entered) || At(s, p, Dropped) { assert mark(message) in s.threads; }
    }
  }

  /** While a marker is there nobody starts to run its message. */
  lemma RunsStays(mark: Marking, s: System, m: Move, message: Message)
    ensures Runs(s, message) ==> Runs(Step(mark, s, m), message)
    ensures mark(message) in s.threads && Runs(Step(mark, s, m), message) ==> Runs(s, message)
  {
    var s' := Step(mark, s, m);
    if p :| At(s, p, Entered) && s.callers[p].message == message {
      assert At(s', p, Entered) && s'.callers[p].message == message;
    }
    if p :| mark(message) in s.threads && At(s', p, Entered) && s'.callers[p].message == message {
      assert At(s, p, Entered) && s.callers[p].message == message;
    }
  }

  /** The step that brings the marker makes its caller run the message, exactly if it is a create that was answered. */
  lemma RunsFirst(mark: Marking, s: System, m: Move, message: Message)
    requires Faithful(mark) && mark(message) !in s.threads && !Runs(s, message)
    ensures var s' := Step(mark, s, m);
            if mark(message) in s'.threads then Runs(s', message) <==> MadeBy(m) == ByRunner else !Runs(s', message)
  {
    var s' := Step(mark, s, m);
    if m.Create? && mark(message) in s'.threads {
      assert s.callers[m.pid].message == message;
      if m.fault == NoFault { assert At(s', m.pid, Entered) && s'.callers[m.pid].message == message; }
    }
    if p :| At(s', p, Entered) && s'.callers[p].message == message {
      assert !At(s, p, Entered);
      assert m == Create(p, NoFault) && mark(message) in s'.threads;
    }
  }

  lemma {:induction false} OriginDecides(mark: Marking, s: System, moves: seq<Move>, message: Message)
    requires Faithful(mark) && Founded(mark, s, message)
    ensures var s' := Exec(mark, s, moves);
            && Founded(mark, s', message)
            && (OriginOf(mark, s, moves, message) == Unborn <==> mark(message) !in s'.threads)
            && (OriginOf(mark, s, moves, message) == Earlier <==> mark(message) in s.threads)
            && (Runs(s', message) <==> if mark(message) in s.threads then Runs(s, message) else OriginOf(mark, s, moves, message) == ByRunner)
    decreases |moves|
  {
    hide Step, Faithful;
    if mark(message) !in s.threads { NobodyYet(mark, s, message); }
    hide Founded, Runs;
    if moves != [] {
      var s1 := Step(mark, s, moves[0]);
      FoundedStep(mark, s, moves[0], message);
      RunsStays(mark, s, moves[0], message);
      ThreadsGrow(mark, s, moves[0], message);
      if mark(message) !in s.threads { RunsFirst(mark, s, moves[0], message); }
      OriginDecides(mark, s1, moves[1..], message);
    }
  }

  lemma NobodyYet(mark: Marking, s: System, message: Message)
    requires Founded(mark, s, message) && mark(message) !in s.threads
    ensures !Runs(s, message)
  {
  }

  lemma ThreadsGrow(mark: Marking, s: System, m: Move, message: Message)
    ensures mark(message) in s.threads ==> mark(message) in Step(mark, s, m).threads
  {
  }

  /** A store without callers yet. */
  function Idle(threads: set<string>): System {
    System(threads, map[])
  }

  /**
   In every interleaving with any store failures, somebody runs a message exactly if its marker came
   from a create that was answered. So a caller is told "seen" of a message that nobody runs exactly
   if the marker was there before, another thread has its name, or a create of it landed and lost
   its reply.
   */
  lemma {:induction false} RunByOrigin(mark: Marking, threads: set<string>, moves: seq<Move>, message: Message)
    requires Faithful(mark)
    ensures var s, origin := Exec(mark, Idle(threads), moves), OriginOf(mark, Idle(threads), moves, message);
            && (Runs(s, message) <==> origin == ByRunner)
            && (forall p :: At(s, p, Dropped) && s.callers[p].message == message ==>
                  (!Runs(s, message) <==> origin == Earlier || origin == OtherHand || origin == LostCreate))
  {
    OriginDecides(mark, Idle(threads), moves, message);
    NobodyIdle(threads, message);
    hide Exec, OriginOf, Runs, Faithful;
  }

  lemma NobodyIdle(threads: set<string>, message: Message)
    ensures !Runs(Idle(threads), message)
  {
  }

  // ----- A store that cannot be read -----

  /** A caller that never got an answer to its first read neither runs nor is told "seen". */
  predicate Blind(s: System, pid: Pid) {
    pid in s.callers ==> var p := s.callers[pid].phase; p == Unkeyed || p == Getting || p == Errored
  }

  lemma {:induction false} UnreadableErrs(mark: Marking, s: System, moves: seq<Move>, pid: Pid)
    requires Blind(s, pid) && forall i :: 0 <= i < |moves| && moves[i].Get? && moves[i].pid == pid ==> moves[i].unreadable
    ensures Blind(Exec(mark, s, moves), pid)
    decreases |moves|
  {
    if moves != [] {
      BlindStep(mark, s, moves[0], pid);
      hide Step, Blind;
      UnreadableErrs(mark, Step(mark, s, moves[0]), moves[1..], pid);
    }
  }

  lemma BlindStep(mark: Marking, s: System, m: Move, pid: Pid)
    requires Blind(s, pid) && (m.Get? && m.pid == pid ==> m.unreadable)
    ensures Blind(Step(mark, s, m), pid)
  {
  }

  /** Likewise a caller that never got an answer to its second read. */
  predicate Unsure(s: System, pid: Pid) { At(s, pid, Rechecking) || At(s, pid, Errored) }

  lemma {:induction false} UnconfirmedErrs(mark: Marking, s: System, moves: seq<Move>, pid: Pid)
    requires Unsure(s, pid) && forall i :: 0 <= i < |moves| && moves[i].Recheck? && moves[i].pid == pid ==> moves[i].unreadable
    ensures Unsure(Exec(mark, s, moves), pid)
    decreases |moves|
  {
    if moves != [] {
      assert Unsure(Step(mark, s, moves[0]), pid);
      hide Step, Unsure;
      UnconfirmedErrs(mark, Step(mark, s, moves[0]), moves[1..], pid);
    }
  }

  // ----- A reply that got lost -----

  /** One caller whose create lands and loses its reply: it is told "seen", and nobody runs the message. */
  lemma LostReplyDrops(mark: Marking, message: Message)
    requires message.id != ""
    ensures var s := Exec(mark, Idle({}), [Arrive(0, message), Get(0, false), Create(0, LostReply), Recheck(0, false)]);
            At(s, 0, Dropped) && s.callers[0].message == message && !Runs(s, message)
  {
    var moves := [Arrive(0, message), Get(0, false), Create(0, LostReply), Recheck(0, false)];
    var s0 := Idle({});
    var s1 := Step(mark, s0, moves[0]);
    var s2 := Step(mark, s1, moves[1]);
    var s3 := Step(mark, s2, moves[2]);
    var s4 := Step(mark, s3, moves[3]);
    assert moves[1..][1..] == moves[2..] && moves[2..][1..] == moves[3..] && moves[3..][1..] == [];
    assert Exec(mark, s0, moves) == Exec(mark, s1, moves[1..]) == Exec(mark, s2, moves[2..]);
    assert Exec(mark, s2, moves[2..]) == Exec(mark, s3, moves[3..]) == s4;
    assert forall p :: p in s4.callers ==> p == 0;
  }

  // ----- Exactly one, when the store only reports uniqueness errors -----

  predicate Of(s: System, pid: Pid, message: Message) { pid in s.callers && s.callers[pid].message == message }

  /** No store call for `message` fails but by "already exists", and no other thread takes its marker's name. */
  predicate Reliable(mark: Marking, s: System, message: Message, m: Move) {
    match m
    case Arrive(_, _) => true
    case Get(pid, unreadable) => Of(s, pid, message) ==> !unreadable
    case Create(pid, fault) => Of(s, pid, message) ==> fault == NoFault
    case Recheck(pid, unreadable) => Of(s, pid, message) ==> !unreadable
    case OtherThread(id) => id != mark(message)
  }

  predicate Steady(mark: Marking, s: System, message: Message, moves: seq<Move>)
    decreases |moves|
  {
    moves == [] || (Reliable(mark, s, message, moves[0]) && Steady(mark, Step(mark, s, moves[0]), message, moves[1..]))
  }

  /** No caller of the message fails, and whoever checks again has a marker to find. */
  ghost predicate Honest(mark: Marking, s: System, message: Message) {
    forall p :: Of(s, p, message) ==> !At(s, p, Errored) && (At(s, p, Rechecking) ==> mark(message) in s.threads)
  }

  lemma HonestStep(mark: Marking, s: System, message: Message, m: Move)
    requires Honest(mark, s, message) && Reliable(mark, s, message, m)
    ensures Honest(mark, Step(mark, s, m), message)
  {
    var s' := Step(mark, s, m);
    forall p | Of(s', p, message)
      ensures !At(s', p, Errored) && (At(s', p, Rechecking) ==> mark(message) in s'.threads)
    {
      assert Of(s, p, message) || m == Arrive(p, message);
    }
  }

  lemma {:induction false} SteadyHonest(mark: Marking, s: System, message: Message, moves: seq<Move>)
    requires Faithful(mark) && Honest(mark, s, message) && Steady(mark, s, message, moves)
    ensures Honest(mark, Exec(mark, s, moves), message)
    ensures var origin := OriginOf(mark, s, moves, message); origin == Unborn || origin == Earlier || origin == ByRunner
    decreases |moves|
  {
    hide Honest, Faithful;
    if moves != [] {
      HonestStep(mark, s, message, moves[0]);
      BornWell(mark, s, message, moves[0]);
      hide Step, Reliable;
      var s1 := Step(mark, s, moves[0]);
      SteadyHonest(mark, s1, message, moves[1..]);
    }
  }

  lemma BornWell(mark: Marking, s: System, message: Message, m: Move)
    requires Faithful(mark) && Reliable(mark, s, message, m)
    ensures mark(message) !in s.threads && mark(message) in Step(mark, s, m).threads ==> MadeBy(m) == ByRunner
  {
  }

  predicate Answered(s: System, p: Pid, message: Message) {
    (At(s, p, Entered) || At(s, p, Dropped) || At(s, p, Errored)) && s.callers[p].message == message
  }

  lemma MarksFaithful(hash: string -> string)
    requires CollisionFree(hash)
    ensures Faithful(Marks(hash))
  {
    var mark := Marks(hash);
    forall m, n | mark(m) == mark(n)
      ensures m == n
    {
      MarkersDistinct(hash, m, n);
    }
  }

  /** Exactly one caller of `message` runs; the others that have their answer were told "seen". */
  ghost predicate Elected(s: System, message: Message) {
    exists winner :: At(s, winner, Entered) && s.callers[winner].message == message
      && forall q :: Answered(s, q, message) && q != winner ==> At(s, q, Dropped)
  }

  lemma {:induction false} OneElected(mark: Marking, threads: set<string>, moves: seq<Move>, message: Message, p: Pid)
    requires Faithful(mark) && mark(message) !in threads && Steady(mark, Idle(threads), message, moves)
    requires Answered(Exec(mark, Idle(threads), moves), p, message)
    ensures Elected(Exec(mark, Idle(threads), moves), message)
  {
    var s := Exec(mark, Idle(threads), moves);
    SteadyHonest(mark, Idle(threads), message, moves);
    OriginDecides(mark, Idle(threads), moves, message);
    hide Exec, OriginOf, Steady, Faithful;
    assert Of(s, p, message);
    assert mark(message) in s.threads && Runs(s, message);
    var winner :| At(s, winner, Entered) && s.callers[winner].message == message;
    forall q | Answered(s, q, message) && q != winner
      ensures At(s, q, Dropped)
    {
      assert Of(s, q, message);
      if At(s, q, Entered) { AtMostOneRuns(mark, Idle(threads), moves, q, winner); }
    }
  }

  /**
   For every message whose marker was absent at first, under a collision-free hash: if the store
   calls for that message fail at most by uniqueness errors and no other thread takes its marker's
   name, then as soon as one caller of that message has its answer, exactly one caller of it runs
   the agent, and every other caller that has its answer was told "seen". What the store does for
   other messages does not matter.
   */
  lemma {:induction false} ExactlyOneRuns(hash: string -> string, threads: set<string>, moves: seq<Move>, message: Message, p: Pid)
    requires CollisionFree(hash)
    requires Marker(hash, message) !in threads
    requires Steady(Marks(hash), Idle(threads), message, moves)
    requires Answered(Exec(Marks(hash), Idle(threads), moves), p, message)
    ensures Elected(Exec(Marks(hash), Idle(threads), moves), message)
  {
    MarksFaithful(hash);
    OneElected(Marks(hash), threads, moves, message, p);
  }
}
