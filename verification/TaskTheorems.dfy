/**
 The guarantees of the task protocol over whole runs: every theorem quantifies over
 all sequences of moves, that is, over all interleavings of any number of calls by
 any number of instances, with any store failures and any clock advances.
 */
module TaskTheorems {
  import opened Wrappers
  import opened TaskProtocol
  import opened TaskSafety

  lemma {:induction false} ExecKeeps(cfg: Config, s: System, moves: seq<Move>)
    requires Inv(cfg, s)
    ensures Inv(cfg, Exec(cfg, s, moves)) && StoreDescends(s.store, Exec(cfg, s, moves).store)
    ensures s.clock <= Exec(cfg, s, moves).clock
    decreases |moves|
  {
    if moves != [] {
      var s1 := Step(cfg, s, moves[0]);
      StepKeeps(cfg, s, moves[0]);
      ExecKeeps(cfg, s1, moves[1..]);
      var s2 := Exec(cfg, s1, moves[1..]);
      forall id | id in s.store
        ensures id in s2.store && Descends(s.store[id], s2.store[id])
      {
        assert Descends(s.store[id], s1.store[id]) && Descends(s1.store[id], s2.store[id]);
      }
    }
  }

  lemma {:induction false} ExecAppend(cfg: Config, s: System, pre: seq<Move>, post: seq<Move>)
    ensures Exec(cfg, s, pre + post) == Exec(cfg, Exec(cfg, s, pre), post)
    decreases |pre|
  {
    if pre == [] {
      assert pre + post == post;
    } else {
      assert (pre + post)[0] == pre[0] && (pre + post)[1..] == pre[1..] + post;
      ExecAppend(cfg, Step(cfg, s, pre[0]), pre[1..], post);
    }
  }

  /**
   Between any two instants of any run: a stored record stays stored, its origin is
   fixed, it leaves the working state at most once, and a terminal record never
   changes again; its time stamp never moves backwards, nor, while it is working, its
   deadline. At every
   instant results and failures belong to their own end states and a terminal record
   holds no lease. Hence expiry is permanent.
   */
  lemma {:induction false} RecordHistory(cfg: Config, clock: nat, pre: seq<Move>, post: seq<Move>, id: string)
    requires id in Exec(cfg, Start(clock), pre).store
    ensures var s := Exec(cfg, Start(clock), pre);
            var s' := Exec(cfg, Start(clock), pre + post);
            && id in s'.store
            && var r, r' := s.store[id], s'.store[id];
            && SameOrigin(r, r') && WellFormed(r) && WellFormed(r')
            && (r' != r ==> r.status == Working && r.version < r'.version)
            && (Terminal(r.status) ==> r' == r)
            && (r'.status == Working ==> r.status == Working && r.leaseUntil <= r'.leaseUntil)
            && r.createdAt <= r.lastUpdatedAt <= r'.lastUpdatedAt <= s'.clock
            && (Expired(r, s.clock) ==> Expired(r', s'.clock))
  {
    ExecAppend(cfg, Start(clock), pre, post);
    ExecKeeps(cfg, Start(clock), pre);
    var s := Exec(cfg, Start(clock), pre);
    ExecKeeps(cfg, s, post);
    var s' := Exec(cfg, s, post);
    assert Descends(s.store[id], s'.store[id]);
    assert RecordOk(cfg, s.clock, id, s.store[id]) && RecordOk(cfg, s'.clock, id, s'.store[id]);
  }

  /** A claim that wins was computed no earlier than the deadline stored before its write. */
  lemma WinStep(cfg: Config, s: System, m: Move, i: nat)
    requires Inv(cfg, s) && |s.wins| <= i < |Step(cfg, s, m).wins|
    ensures var w := Step(cfg, s, m).wins[i];
            w.id in s.store && s.store[w.id].status == Working && w.at >= s.store[w.id].leaseUntil
  {
    var c := s.calls[m.pid];
    InvCall(cfg, s, m.pid);
    hide Inv;
    WriteStore(cfg, s.clock, s.store, c, m.fault);
  }

  lemma WinsGrow(cfg: Config, s: System, m: Move)
    ensures s.wins <= Step(cfg, s, m).wins
  {
  }

  lemma {:induction false} WinsAfter(cfg: Config, s: System, moves: seq<Move>, id: string, deadline: nat, i: nat)
    requires Inv(cfg, s) && id in s.store && (s.store[id].status == Working ==> s.store[id].leaseUntil >= deadline)
    requires |s.wins| <= i < |Exec(cfg, s, moves).wins| && Exec(cfg, s, moves).wins[i].id == id
    ensures Exec(cfg, s, moves).wins[i].at >= deadline
    decreases |moves|
  {
    hide Inv, Step;
    if moves != [] {
      var s1 := Step(cfg, s, moves[0]);
      StepKeeps(cfg, s, moves[0]);
      assert Descends(s.store[id], s1.store[id]);
      if |s1.wins| <= i {
        WinsAfter(cfg, s1, moves[1..], id, deadline, i);
      } else {
        WinStep(cfg, s, moves[0], i);
        WinsOnlyGrow(cfg, s1, moves[1..]);
      }
    }
  }

  lemma {:induction false} WinsOnlyGrow(cfg: Config, s: System, moves: seq<Move>)
    ensures s.wins <= Exec(cfg, s, moves).wins
    decreases |moves|
  {
    hide Step;
    if moves != [] {
      WinsGrow(cfg, s, moves[0]);
      WinsOnlyGrow(cfg, Step(cfg, s, moves[0]), moves[1..]);
    }
  }

  /**
   What a lease protects, whether a claim or a renewal wrote it: at any instant of any run, a claim
   of the record that wins later was computed no earlier than the deadline stored at that instant.
   */
  lemma {:induction false} DeadlineProtects(cfg: Config, clock: nat, pre: seq<Move>, post: seq<Move>, id: string, i: nat)
    requires id in Exec(cfg, Start(clock), pre).store
    requires |Exec(cfg, Start(clock), pre).wins| <= i < |Exec(cfg, Start(clock), pre + post).wins|
    requires Exec(cfg, Start(clock), pre + post).wins[i].id == id
    ensures Exec(cfg, Start(clock), pre + post).wins[i].at >= Exec(cfg, Start(clock), pre).store[id].leaseUntil
  {
    ExecKeeps(cfg, Start(clock), pre);
    ExecAppend(cfg, Start(clock), pre, post);
    hide Inv;
    var s := Exec(cfg, Start(clock), pre);
    WinsAfter(cfg, s, post, id, s.store[id].leaseUntil, i);
  }

  /** Any two won claims of one record were computed at least one lease apart on the clock. */
  lemma {:induction false} ClaimsSpaced(cfg: Config, clock: nat, moves: seq<Move>, i: nat, j: nat)
    requires var wins := Exec(cfg, Start(clock), moves).wins; i < j < |wins| && wins[i].id == wins[j].id
    ensures var wins := Exec(cfg, Start(clock), moves).wins; wins[j].at >= wins[i].at + if cfg.lease > 0 then cfg.lease else 30_000_000_000
  {
    ExecKeeps(cfg, Start(clock), moves);
  }

  /** Two calls that both returned true for one record are one lease apart, in one order or the other. */
  lemma {:induction false} WinnersSpaced(cfg: Config, clock: nat, moves: seq<Move>, p: Pid, q: Pid)
    requires var s := Exec(cfg, Start(clock), moves);
             && p in s.calls && q in s.calls && p != q && s.calls[p].id == s.calls[q].id
             && WonBy(s, p) && WonBy(s, q)
    ensures var s := Exec(cfg, Start(clock), moves);
            var a, b := s.calls[p].phase.reply.at, s.calls[q].phase.reply.at;
            (a >= b + Lease(cfg) || b >= a + Lease(cfg)) && a <= s.clock && b <= s.clock
  {
    ExecKeeps(cfg, Start(clock), moves);
    SpacedReplies(cfg, Exec(cfg, Start(clock), moves), p, q);
  }

  predicate WonBy(s: System, pid: Pid) {
    pid in s.calls && s.calls[pid].phase.Returned? && s.calls[pid].phase.reply.Won?
  }

  lemma SpacedReplies(cfg: Config, s: System, p: Pid, q: Pid)
    requires Inv(cfg, s) && WonBy(s, p) && WonBy(s, q) && p != q && s.calls[p].id == s.calls[q].id
    ensures var a, b := s.calls[p].phase.reply.at, s.calls[q].phase.reply.at;
            (a >= b + Lease(cfg) || b >= a + Lease(cfg)) && a <= s.clock && b <= s.clock
  {
    hide CallOk, RecordOk;
    assert Logged(p, s.calls[p], s.wins) && Logged(q, s.calls[q], s.wins);
    var i :| 0 <= i < |s.wins| && s.wins[i] == Win(p, s.calls[p].id, s.calls[p].phase.reply.at);
    var j :| 0 <= j < |s.wins| && s.wins[j] == Win(q, s.calls[q].id, s.calls[q].phase.reply.at);
    assert WinOk(cfg, s.clock, s.store, s.wins[i]) && WinOk(cfg, s.clock, s.store, s.wins[j]);
  }

  /** A cancel that is acknowledged leaves a terminal record behind, for good, and came before it expired. */
  lemma {:induction false} AcknowledgedIsTerminal(cfg: Config, clock: nat, moves: seq<Move>, pid: Pid)
    requires var s := Exec(cfg, Start(clock), moves);
             pid in s.calls && s.calls[pid].phase.Returned? && s.calls[pid].phase.reply == Acknowledged
    ensures var s := Exec(cfg, Start(clock), moves);
            && s.calls[pid].kind == Cancelling && s.calls[pid].id in s.store && Terminal(s.store[s.calls[pid].id].status)
            && !Outlived(s.store[s.calls[pid].id], s.calls[pid].begun)
  {
    ExecKeeps(cfg, Start(clock), moves);
    var s := Exec(cfg, Start(clock), moves);
    assert CallOk(cfg, s.clock, s.store, s.calls[pid]);
  }

  /**
   A returned finish, by how it returned. A persisted one left the record ended the
   way the run ended. `written` is the number of versions the
   record gained while it ran; a finish that did not persist wrote none of them
   itself, so with at most two foreign writes a finish that blames no store call
   leaves the record terminal. Otherwise the completion was reported, exactly once
   when a hook is configured; only a failed read returns silently. TaskProgress says
   when no store call is to blame.
   */
  lemma {:induction false} FinishOutcome(cfg: Config, clock: nat, moves: seq<Move>, pid: Pid)
    requires var s := Exec(cfg, Start(clock), moves);
             pid in s.calls && s.calls[pid].kind.Finishing? && s.calls[pid].phase.Returned?
    ensures var s := Exec(cfg, Start(clock), moves);
            var c := s.calls[pid];
            var reply, written := c.phase.reply, c.phase.at - c.since;
            && (reply == Persisted || reply == AlreadyTerminal ==>
                  c.id in s.store && Terminal(s.store[c.id].status) && c.alerts == 0)
            && (reply == Persisted ==> EndedAs(s.store[c.id], c.kind.end))
            && (reply == ReadFailed ==> c.alerts == 0)
            && (reply == WriteFailed || reply == Exhausted ==> c.alerts == if cfg.hasOnConflict then 1 else 0)
            && (reply != ReadFailed && reply != WriteFailed && written <= 2 ==>
                  c.id in s.store && Terminal(s.store[c.id].status))
            && RepliesOf(c.kind, reply)
  {
    ExecKeeps(cfg, Start(clock), moves);
    var s := Exec(cfg, Start(clock), moves);
    assert CallOk(cfg, s.clock, s.store, s.calls[pid]);
  }

  // ----- Where records and calls come from -----

  /** The stored record is what that `Create` was given, created at that moment. */
  predicate CreatedBy(m: Move, now: nat, r: Record) {
    && m.Create? && m.id == r.id && m.entryId == r.entryId && m.arguments == r.arguments && m.identity == r.identity
    && m.ttlMs == r.ttlMs && m.pollMs == r.pollIntervalMs && r.createdAt == now
  }

  lemma {:induction false} ExecLast(cfg: Config, s: System, moves: seq<Move>)
    requires moves != []
    ensures Exec(cfg, s, moves) == Step(cfg, Exec(cfg, s, moves[..|moves| - 1]), moves[|moves| - 1])
  {
    var n := |moves| - 1;
    assert moves == moves[..n] + [moves[n]];
    ExecAppend(cfg, s, moves[..n], [moves[n]]);
    assert [moves[n]][1..] == [];
  }

  lemma CreateStep(cfg: Config, s: System, m: Move, id: string)
    requires Inv(cfg, s) && id !in s.store
    ensures id in Step(cfg, s, m).store ==>
      var r := Step(cfg, s, m).store[id];
      m.Create? && CreatedBy(m, s.clock, r) && r.status == Working && r.leaseUntil == 0 && r.version == 1
    ensures m.Create? && m.id == id ==> id in Step(cfg, s, m).store
  {
    if m.Write? && m.pid in s.calls && s.calls[m.pid].phase.Writing? {
      InvCall(cfg, s, m.pid);
      WritesOwn(cfg, s.clock, s.store, s.calls[m.pid]);
    }
    hide Inv, AfterWrite, AfterStamp, AfterDecide, AfterRead;
  }

  /**
   Every record of every run, however often it was written since, is what some `Create` of the run
   was given, at the moment it was made; until then nobody else had its ID.
   */
  lemma {:induction false} RecordOrigin(cfg: Config, clock: nat, moves: seq<Move>, id: string) returns (i: nat)
    requires id in Exec(cfg, Start(clock), moves).store
    ensures i < |moves| && id !in Exec(cfg, Start(clock), moves[..i]).store
    ensures CreatedBy(moves[i], Exec(cfg, Start(clock), moves[..i]).clock, Exec(cfg, Start(clock), moves).store[id])
    decreases |moves|
  {
    hide Inv, Step;
    var n := |moves| - 1;
    ExecLast(cfg, Start(clock), moves);
    ExecKeeps(cfg, Start(clock), moves[..n]);
    var s := Exec(cfg, Start(clock), moves[..n]);
    if id in s.store {
      i := RecordOrigin(cfg, clock, moves[..n], id);
      assert moves[..n][..i] == moves[..i];
      StepKeeps(cfg, s, moves[n]);
      assert Descends(s.store[id], Step(cfg, s, moves[n]).store[id]);
    } else {
      i := n;
      CreateStep(cfg, s, moves[n], id);
    }
  }

  predicate SameBegin(c: Call, c': Call) {
    c'.kind == c.kind && c'.id == c.id && c'.since == c.since && c'.begun == c.begun && c'.found == c.found
  }

  /** Nothing a call does changes what it was begun with. */
  lemma BeginStays(cfg: Config, s: System, m: Move, pid: Pid)
    requires pid in s.calls
    ensures pid in Step(cfg, s, m).calls
    ensures SameBegin(s.calls[pid], Step(cfg, s, m).calls[pid])
  {
    if !m.Tick? && !m.Create? && m.pid == pid {
      var c := s.calls[pid];
      if m.Read? && c.phase.Reading? { ReadSame(cfg, c, Stored(if m.unreadable then map[] else s.store, c.id), m.contextDone, VersionOf(s.store, c.id)); }
      if m.Write? && c.phase.Writing? {
        var store := Updated(s.store, c.phase.next, m.fault);
        WriteSame(cfg, c, AnswerOf(s.store, c.phase.next, m.fault), m.hookFails, VersionOf(store, c.id));
      }
    }
    hide AfterRead, AfterWrite, Stamped, Updated, AnswerOf;
  }

  lemma ReadSame(cfg: Config, c: Call, got: Option<Record>, contextDone: bool, version: nat)
    ensures SameBegin(c, AfterRead(cfg, c, got, contextDone, version))
  {
  }

  lemma WriteSame(cfg: Config, c: Call, answer: Answer, hookFails: bool, version: nat)
    requires c.phase.Writing?
    ensures SameBegin(c, AfterWrite(cfg, c, answer, hookFails, version))
  {
  }

  lemma {:induction false} BeginKept(cfg: Config, s: System, moves: seq<Move>, pid: Pid)
    requires pid in s.calls
    ensures pid in Exec(cfg, s, moves).calls && SameBegin(s.calls[pid], Exec(cfg, s, moves).calls[pid])
    decreases |moves|
  {
    hide Step;
    if moves != [] {
      BeginStays(cfg, s, moves[0], pid);
      BeginKept(cfg, Step(cfg, s, moves[0]), moves[1..], pid);
    }
  }

  /** A call begun at some instant of a run carries the clock and the record of that instant. */
  lemma {:induction false} BeginIs(cfg: Config, clock: nat, pre: seq<Move>, post: seq<Move>, pid: Pid, kind: Kind, id: string)
    requires pid !in Exec(cfg, Start(clock), pre).calls
    ensures var s0, s := Exec(cfg, Start(clock), pre), Exec(cfg, Start(clock), pre + [Begin(pid, kind, id)] + post);
            && pid in s.calls && s.calls[pid].kind == kind && s.calls[pid].id == id && s.calls[pid].begun == s0.clock
            && s.calls[pid].found == (if id in s0.store then Some(s0.store[id]) else None)
            && s.calls[pid].since == if id in s0.store then s0.store[id].version else 0
  {
    var s0 := Exec(cfg, Start(clock), pre);
    var m := Begin(pid, kind, id);
    ExecAppend(cfg, Start(clock), pre, [m]);
    ExecAppend(cfg, Start(clock), pre + [m], post);
    assert Exec(cfg, s0, [m]) == Exec(cfg, Step(cfg, s0, m), [m][1..]) == Step(cfg, s0, m);
    hide Exec;
    BeginKept(cfg, Step(cfg, s0, m), post, pid);
  }

  // ----- Contention for one record -----

  predicate On(s: System, pid: Pid, id: string) {
    pid in s.calls && s.calls[pid].id == id
  }

  /**
   What may happen while the record `id` is contended for: new calls on it are claims, and its
   store calls fail with nothing but version conflicts. Traffic on all other records is free.
   */
  predicate Contending(s: System, id: string, m: Move) {
    match m
    case Begin(pid, kind, other) => pid !in s.calls && other == id ==> kind == Claiming
    case Read(pid, unreadable, _) => On(s, pid, id) ==> !unreadable
    case Write(pid, fault, _) => On(s, pid, id) ==> fault == NoFault
    case Tick(_) => true
    case Create(_, _, _, _, _, _) => true
    case Decide(_, _) => true
    case Stamp(_, _) => true
  }

  predicate Contest(cfg: Config, s: System, id: string, moves: seq<Move>)
    decreases |moves|
  {
    moves == [] || (Contending(s, id, moves[0]) && Contest(cfg, Step(cfg, s, moves[0]), id, moves[1..]))
  }

  predicate Claimable(s: System, id: string) {
    id in s.store && s.store[id].status == Working && s.store[id].leaseUntil <= s.clock
  }

  /** A contender for `id`: a call on it that was not there when the contest began. */
  predicate Contender(s: System, past: set<Pid>, id: string, pid: Pid) {
    On(s, pid, id) && pid !in past
  }

  /** A contender that has not returned, holding the untouched record if it holds one. */
  predicate Racing(r: Record, c: Call) {
    && c.kind == Claiming
    && match c.phase
       case Reading => true
       case Deciding(seen) => seen == r
       case Stamping(seen) => seen == r
       case Writing(seen, next) => seen == r && next.id == r.id && next.version == r.version
       case Returned(_, _) => false
  }

  /** A contender replies true or false, never with a failure. */
  predicate CleanCall(c: Call) {
    c.kind == Claiming && (c.phase.Returned? ==> c.phase.reply.Won? || c.phase.reply == Lost)
  }

  /** Calls on `id` from before the contest have returned; those since are claims without a failure. */
  ghost predicate Clean(s: System, past: set<Pid>, id: string) {
    && id in s.store
    && (forall pid :: pid in past ==> pid in s.calls)
    && (forall pid :: On(s, pid, id) && pid in past ==> s.calls[pid].phase.Returned?)
    && (forall pid :: Contender(s, past, id, pid) ==> CleanCall(s.calls[pid]))
  }

  /** Until somebody wins the record is untouched and no contender has returned. */
  ghost predicate Undecided(s: System, past: set<Pid>, id: string, r: Record) {
    && Claimable(s, id) && s.store[id] == r && r.id == id
    && (forall pid :: Contender(s, past, id, pid) ==> Racing(r, s.calls[pid]))
  }

  ghost predicate Decided(s: System, past: set<Pid>, id: string) {
    exists pid :: Contender(s, past, id, pid) && WonBy(s, pid)
  }

  /** A returned call never moves again. */
  lemma ReturnedStays(cfg: Config, s: System, m: Move, pid: Pid)
    requires pid in s.calls && s.calls[pid].phase.Returned?
    ensures pid in Step(cfg, s, m).calls && Step(cfg, s, m).calls[pid] == s.calls[pid]
  {
  }

  /** Calls keep their record and their kind, and a new call is one just begun. */
  lemma CallStays(cfg: Config, s: System, m: Move, pid: Pid)
    ensures pid in s.calls ==>
      && pid in Step(cfg, s, m).calls
      && Step(cfg, s, m).calls[pid].id == s.calls[pid].id && Step(cfg, s, m).calls[pid].kind == s.calls[pid].kind
    ensures pid !in s.calls && pid in Step(cfg, s, m).calls ==>
      m.Begin? && m.pid == pid && Step(cfg, s, m).calls[pid].phase.Reading?
      && Step(cfg, s, m).calls[pid].id == m.id && Step(cfg, s, m).calls[pid].kind == m.kind
  {
  }

  lemma CleanMover(cfg: Config, s: System, m: Move, id: string, pid: Pid)
    requires Inv(cfg, s) && Contending(s, id, m) && id in s.store && On(s, pid, id) && CleanCall(s.calls[pid])
    ensures pid in Step(cfg, s, m).calls && CleanCall(Step(cfg, s, m).calls[pid])
  {
    if s.calls[pid].phase.Writing? {
      InvCall(cfg, s, pid);
      WritesOwn(cfg, s.clock, s.store, s.calls[pid]);
    }
    hide Inv;
  }

  lemma CleanStep(cfg: Config, s: System, past: set<Pid>, m: Move, id: string)
    requires Inv(cfg, s) && Clean(s, past, id) && Contending(s, id, m)
    ensures Clean(Step(cfg, s, m), past, id)
  {
    hide Inv, Contending, CleanCall;
    var s' := Step(cfg, s, m);
    StepKeeps(cfg, s, m);
    assert id in s'.store;
    hide Step;
    forall pid | pid in past ensures pid in s'.calls { CallStays(cfg, s, m, pid); }
    forall pid | On(s', pid, id) && pid in past ensures s'.calls[pid].phase.Returned? {
      CallStays(cfg, s, m, pid);
      ReturnedStays(cfg, s, m, pid);
    }
    forall pid | Contender(s', past, id, pid) ensures CleanCall(s'.calls[pid]) {
      CallStays(cfg, s, m, pid);
      if pid in s.calls { CleanMover(cfg, s, m, id, pid); } else { NewcomerClean(cfg, s, m, id, pid); }
    }
  }

  lemma NewcomerClean(cfg: Config, s: System, m: Move, id: string, pid: Pid)
    requires Contending(s, id, m) && pid !in s.calls && On(Step(cfg, s, m), pid, id)
    ensures CleanCall(Step(cfg, s, m).calls[pid])
    ensures Step(cfg, s, m).calls[pid].phase.Reading?
  {
  }

  /** The first landing write of a contender decides the contest. */
  lemma FirstWrite(cfg: Config, s: System, past: set<Pid>, m: Move, id: string, r: Record)
    requires Undecided(s, past, id, r) && Contending(s, id, m)
    requires m.Write? && Contender(s, past, id, m.pid) && s.calls[m.pid].phase.Writing?
    ensures Decided(Step(cfg, s, m), past, id)
  {
    assert Racing(r, s.calls[m.pid]);
    var s' := Step(cfg, s, m);
    assert Contender(s', past, id, m.pid) && WonBy(s', m.pid);
  }

  /** Any other step leaves the record as it was. */
  lemma RecordStays(cfg: Config, s: System, past: set<Pid>, m: Move, id: string)
    requires Inv(cfg, s) && Clean(s, past, id)
    requires !(m.Write? && Contender(s, past, id, m.pid) && s.calls[m.pid].phase.Writing?)
    ensures id in Step(cfg, s, m).store && Step(cfg, s, m).store[id] == s.store[id]
    ensures s.clock <= Step(cfg, s, m).clock
  {
    if m.Write? && m.pid in s.calls && s.calls[m.pid].phase.Writing? {
      InvCall(cfg, s, m.pid);
      WritesOwn(cfg, s.clock, s.store, s.calls[m.pid]);
      assert s.calls[m.pid].id != id;
    }
    hide Inv, AfterWrite, AfterStamp, AfterDecide, AfterRead;
  }

  lemma RacingStays(cfg: Config, s: System, m: Move, id: string, r: Record, pid: Pid)
    requires Contending(s, id, m) && Claimable(s, id) && s.store[id] == r && r.id == id
    requires On(s, pid, id) && Racing(r, s.calls[pid]) && !(m.Write? && m.pid == pid && s.calls[pid].phase.Writing?)
    ensures pid in Step(cfg, s, m).calls && Racing(r, Step(cfg, s, m).calls[pid])
  {
  }

  lemma RaceStep(cfg: Config, s: System, past: set<Pid>, m: Move, id: string, r: Record)
    requires Inv(cfg, s) && Clean(s, past, id) && Undecided(s, past, id, r) && Contending(s, id, m)
    ensures Undecided(Step(cfg, s, m), past, id, r) || Decided(Step(cfg, s, m), past, id)
  {
    hide Inv, Racing;
    if m.Write? && Contender(s, past, id, m.pid) && s.calls[m.pid].phase.Writing? {
      FirstWrite(cfg, s, past, m, id, r);
    } else {
      var s' := Step(cfg, s, m);
      RecordStays(cfg, s, past, m, id);
      hide Step;
      forall pid | Contender(s', past, id, pid) ensures Racing(r, s'.calls[pid]) {
        CallStays(cfg, s, m, pid);
        if pid in s.calls { RacingStays(cfg, s, m, id, r, pid); } else { NewcomerRaces(cfg, s, m, id, r, pid); }
      }
    }
  }

  lemma NewcomerRaces(cfg: Config, s: System, m: Move, id: string, r: Record, pid: Pid)
    requires Contending(s, id, m) && pid !in s.calls && On(Step(cfg, s, m), pid, id)
    ensures Racing(r, Step(cfg, s, m).calls[pid])
  {
    NewcomerClean(cfg, s, m, id, pid);
  }

  lemma {:induction false} Race(cfg: Config, s: System, past: set<Pid>, moves: seq<Move>, id: string, r: Record)
    requires Inv(cfg, s) && Clean(s, past, id) && Contest(cfg, s, id, moves)
    requires Undecided(s, past, id, r) || Decided(s, past, id)
    ensures var s' := Exec(cfg, s, moves);
            Inv(cfg, s') && Clean(s', past, id) && (Undecided(s', past, id, r) || Decided(s', past, id))
    decreases |moves|
  {
    hide Inv, Clean, Undecided, Contending, Step;
    if moves != [] {
      var m := moves[0];
      StepKeeps(cfg, s, m);
      CleanStep(cfg, s, past, m, id);
      if Undecided(s, past, id, r) {
        RaceStep(cfg, s, past, m, id, r);
      } else {
        var pid :| Contender(s, past, id, pid) && WonBy(s, pid);
        ReturnedStays(cfg, s, m, pid);
        assert Contender(Step(cfg, s, m), past, id, pid) && WonBy(Step(cfg, s, m), pid);
      }
      Race(cfg, Step(cfg, s, m), past, moves[1..], id, r);
    }
  }

  /** The contest is over: some contender came, all of them have returned, and no winner's deadline has passed. */
  ghost predicate Over(cfg: Config, s: System, past: set<Pid>, id: string) {
    && (exists pid :: Contender(s, past, id, pid))
    && (forall pid :: Contender(s, past, id, pid) ==> s.calls[pid].phase.Returned?)
    && (forall pid :: Contender(s, past, id, pid) && WonBy(s, pid) ==> s.clock < s.calls[pid].phase.reply.at + Lease(cfg))
  }

  lemma OverIsDecided(cfg: Config, s: System, past: set<Pid>, id: string, r: Record)
    requires Over(cfg, s, past, id)
    ensures !Undecided(s, past, id, r)
  {
    var pid :| Contender(s, past, id, pid);
    assert !Racing(r, s.calls[pid]);
  }

  /**
   At any instant of any run, let the deadline of a working record be past, or never set, and all calls on it have returned.
   Then any number of instances contend for it: new calls on it are claims, its store calls fail
   with nothing but version conflicts, and calls on all other records go on as they like. Once every
   contender has returned, and while the clock has not passed a winner's deadline, exactly one of
   them returned true and all others returned false: the cap of three attempts never loses the
   election.
   */
  lemma {:induction false} OneClaimWins(cfg: Config, clock: nat, pre: seq<Move>, race: seq<Move>, id: string)
    requires var s := Exec(cfg, Start(clock), pre);
             && Claimable(s, id)
             && (forall pid :: On(s, pid, id) ==> s.calls[pid].phase.Returned?)
             && Contest(cfg, s, id, race)
    requires Over(cfg, Exec(cfg, Start(clock), pre + race), Exec(cfg, Start(clock), pre).calls.Keys, id)
    ensures var past := Exec(cfg, Start(clock), pre).calls.Keys;
            var s := Exec(cfg, Start(clock), pre + race);
            exists winner :: Contender(s, past, id, winner) && WonBy(s, winner)
              && forall pid :: Contender(s, past, id, pid) && pid != winner ==> s.calls[pid].phase.reply == Lost
  {
    var s0 := Exec(cfg, Start(clock), pre);
    var past := s0.calls.Keys;
    ExecKeeps(cfg, Start(clock), pre);
    ExecAppend(cfg, Start(clock), pre, race);
    hide Exec;
    var r := s0.store[id];
    assert RecordOk(cfg, s0.clock, id, r);
    assert Clean(s0, past, id);
    hide Inv;
    Race(cfg, s0, past, race, id, r);
    var s := Exec(cfg, s0, race);
    OverIsDecided(cfg, s, past, id, r);
    var winner :| Contender(s, past, id, winner) && WonBy(s, winner);
    forall pid | Contender(s, past, id, pid) && pid != winner
      ensures s.calls[pid].phase.reply == Lost
    {
      if WonBy(s, pid) {
        SpacedReplies(cfg, s, pid, winner);
        assert false;
      }
    }
  }
}
