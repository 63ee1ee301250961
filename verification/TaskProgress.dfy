/**
 What a call achieves when its own store calls do not fail (mcp/tasks.go): claim, finish, cancel and
 extendLease come through unless other instances write the record in between.
 */
module TaskProgress {
  import opened Wrappers
  import opened TaskProtocol
  import opened TaskSafety
  import opened TaskTheorems

  /** No store call of `pid` fails, other than by a version conflict. */
  predicate Smooth(pid: Pid, m: Move) {
    && (m.Read? && m.pid == pid ==> !m.unreadable)
    && (m.Write? && m.pid == pid ==> m.fault == NoFault)
  }

  /** A cancel by `pid` is authorized and its hook does not fail. */
  predicate Welcome(pid: Pid, m: Move) {
    && (m.Decide? && m.pid == pid ==> m.authorized)
    && (m.Write? && m.pid == pid ==> !m.hookFails)
  }

  /** Replies of a loop that used up its attempts. */
  predicate OutOfAttempts(reply: Reply) { reply == Exhausted || reply == Unreachable || reply == Conflicted }

  /** Replies that blame the store. */
  predicate BlamesStore(reply: Reply) { reply == ReadFailed || reply == WriteFailed || reply == ClaimFailed }

  /** There is nothing to claim: the record is not working, or its deadline is to come. */
  predicate Taken(r: Record, now: nat) { r.status != Working || now < r.leaseUntil }

  /**
   A call on a record that existed when it began, none of whose store calls failed: each attempt so
   far was lost to a write by somebody else, and it blames nobody but them.
   */
  predicate OnCourse(clock: nat, store: map<string, Record>, c: Call, welcome: bool) {
    && c.id in store && c.found.Some? && c.found.value.version == c.since && Descends(c.found.value, store[c.id])
    && match c.phase
       case Reading => c.since + c.attempts <= store[c.id].version
       case Deciding(seen) => c.since + c.attempts <= seen.version && Descends(c.found.value, seen)
       case Stamping(seen) => c.since + c.attempts <= seen.version
       case Writing(seen, _) => c.since + c.attempts <= seen.version
       case Returned(reply, at) =>
         && !BlamesStore(reply)
         && (OutOfAttempts(reply) ==> at >= c.since + MAX_ATTEMPTS)
         && (reply == Refused && welcome ==> Outlived(store[c.id], clock))
         && (reply == Lost ==> at >= c.since + MAX_ATTEMPTS || Taken(store[c.id], c.begun))
         && (reply == Lost && at <= c.since ==> Taken(c.found.value, c.begun))
  }

  predicate Coursing(s: System, pid: Pid, welcome: bool) {
    pid in s.calls && s.calls[pid].since >= 1 ==> OnCourse(s.clock, s.store, s.calls[pid], welcome)
  }

  lemma ReadCourse(cfg: Config, s: System, c: Call, welcome: bool, contextDone: bool)
    requires OnCourse(s.clock, s.store, c, welcome) && c.phase.Reading?
    ensures OnCourse(s.clock, s.store, AfterRead(cfg, c, Some(s.store[c.id]), contextDone, VersionOf(s.store, c.id)), welcome)
  {
  }

  /** What a call knows of the copy it holds. */
  lemma CopyKnown(cfg: Config, s: System, c: Call)
    requires CallOk(cfg, s.clock, s.store, c) && (c.phase.Deciding? || c.phase.Writing?)
    ensures c.begun <= s.clock && c.id in s.store && Descends(c.phase.seen, s.store[c.id])
    ensures c.phase.Writing? ==> c.phase.next.id == c.id && c.phase.next.version == c.phase.seen.version
  {
  }

  lemma DecideCourse(cfg: Config, s: System, c: Call, welcome: bool, authorized: bool)
    requires CallOk(cfg, s.clock, s.store, c)
    requires OnCourse(s.clock, s.store, c, welcome) && c.phase.Deciding? && (welcome ==> authorized)
    ensures OnCourse(s.clock, s.store, AfterDecide(c, s.clock, authorized, VersionOf(s.store, c.id)), welcome)
  {
    CopyKnown(cfg, s, c);
    hide CallOk;
    if c.kind == Claiming {
      ClaimDecides(s, c, welcome, authorized);
      hide AfterDecide, OnCourse;
    }
  }

  lemma ClaimDecides(s: System, c: Call, welcome: bool, authorized: bool)
    requires OnCourse(s.clock, s.store, c, welcome) && c.phase.Deciding? && c.kind == Claiming
    requires c.begun <= s.clock && Descends(c.phase.seen, s.store[c.id])
    ensures OnCourse(s.clock, s.store, AfterDecide(c, s.clock, authorized, VersionOf(s.store, c.id)), welcome)
  {
  }

  lemma StampCourse(cfg: Config, s: System, c: Call, welcome: bool, lag: nat)
    requires OnCourse(s.clock, s.store, c, welcome) && c.phase.Stamping?
    ensures OnCourse(s.clock + lag, s.store, AfterStamp(cfg, c, s.clock, s.clock + lag), welcome)
  {
  }

  lemma ConflictCourse(cfg: Config, s: System, c: Call, welcome: bool)
    requires OnCourse(s.clock, s.store, c, welcome) && c.phase.Writing? && s.store[c.id].version > c.phase.seen.version
    ensures OnCourse(s.clock, s.store, Retry(cfg, c, VersionOf(s.store, c.id)), welcome)
  {
  }

  lemma LandedCourse(cfg: Config, s: System, store: map<string, Record>, c: Call, welcome: bool, hookFails: bool)
    requires OnCourse(s.clock, s.store, c, welcome) && c.phase.Writing? && (welcome ==> !hookFails)
    requires c.id in store && Descends(s.store[c.id], store[c.id])
    ensures OnCourse(s.clock, store, AfterWrite(cfg, c, Ok, hookFails, VersionOf(store, c.id)), welcome)
  {
    assert Descends(c.found.value, store[c.id]);
    hide Descends, SameOrigin;
  }

  lemma WriteCourse(cfg: Config, s: System, c: Call, welcome: bool, hookFails: bool)
    requires CallOk(cfg, s.clock, s.store, c)
    requires OnCourse(s.clock, s.store, c, welcome) && c.phase.Writing? && (welcome ==> !hookFails)
    ensures var store := Updated(s.store, c.phase.next, NoFault);
            OnCourse(s.clock, store, AfterWrite(cfg, c, AnswerOf(s.store, c.phase.next, NoFault), hookFails, VersionOf(store, c.id)), welcome)
  {
    CopyKnown(cfg, s, c);
    WriteStore(cfg, s.clock, s.store, c, NoFault);
    hide CallOk, OnCourse, Retry;
    var store := Updated(s.store, c.phase.next, NoFault);
    if AnswerOf(s.store, c.phase.next, NoFault) == Ok {
      assert Descends(s.store[c.id], store[c.id]);
      LandedCourse(cfg, s, store, c, welcome, hookFails);
      hide AfterWrite;
    } else {
      ConflictCourse(cfg, s, c, welcome);
    }
  }

  /** What is known of a call survives everything others do. */
  lemma CourseSurvives(clock: nat, clock': nat, store: map<string, Record>, store': map<string, Record>, c: Call, welcome: bool)
    requires OnCourse(clock, store, c, welcome) && clock <= clock' && StoreDescends(store, store')
    ensures OnCourse(clock', store', c, welcome)
  {
    assert Descends(store[c.id], store'[c.id]);
  }

  lemma StepCourse(cfg: Config, s: System, m: Move, pid: Pid, welcome: bool)
    requires Inv(cfg, s) && Coursing(s, pid, welcome) && Smooth(pid, m) && (welcome ==> Welcome(pid, m))
    ensures Coursing(Step(cfg, s, m), pid, welcome)
  {
    hide OnCourse, AfterRead, AfterDecide, AfterStamp, AfterWrite, Inv, Updated, AnswerOf, CallOk, StoreDescends;
    var s' := Step(cfg, s, m);
    StepKeeps(cfg, s, m);
    if pid in s.calls && s.calls[pid].since >= 1 {
      var c := s.calls[pid];
      InvCall(cfg, s, pid);
      if s'.calls[pid] == c {
        CourseSurvives(s.clock, s'.clock, s.store, s'.store, c, welcome);
      } else {
        CourseStored(s.clock, s.store, c, welcome);
        match m
        case Read(_, _, contextDone) => ReadCourse(cfg, s, c, welcome, contextDone);
        case Decide(_, authorized) => DecideCourse(cfg, s, c, welcome, authorized);
        case Stamp(_, lag) => StampCourse(cfg, s, c, welcome, lag);
        case Write(_, _, hookFails) => WriteCourse(cfg, s, c, welcome, hookFails);
      }
    } else if pid in s'.calls && s'.calls[pid].since >= 1 {
      Fresh(cfg, s, m, pid, welcome);
    }
  }

  lemma CourseStored(clock: nat, store: map<string, Record>, c: Call, welcome: bool)
    requires OnCourse(clock, store, c, welcome)
    ensures c.id in store
  {
  }

  lemma Fresh(cfg: Config, s: System, m: Move, pid: Pid, welcome: bool)
    requires Inv(cfg, s)
    requires pid in Step(cfg, s, m).calls && Step(cfg, s, m).calls[pid].since >= 1
    requires !(pid in s.calls && s.calls[pid].since >= 1)
    ensures OnCourse(Step(cfg, s, m).clock, Step(cfg, s, m).store, Step(cfg, s, m).calls[pid], welcome)
  {
    BeginNew(cfg, s, m, pid);
    hide Step, Inv;
  }

  lemma BeginNew(cfg: Config, s: System, m: Move, pid: Pid)
    requires pid in Step(cfg, s, m).calls && Step(cfg, s, m).calls[pid].since >= 1
    requires !(pid in s.calls && s.calls[pid].since >= 1)
    ensures m.Begin? && m.pid == pid && Step(cfg, s, m) == Set(s, pid, NewCall(s, m.kind, m.id))
  {
    hide VersionOf;
    if pid in s.calls { BeginStays(cfg, s, m, pid); }
    hide AfterRead, AfterDecide, AfterStamp, AfterWrite;
  }

  lemma {:induction false} ExecCourse(cfg: Config, s: System, moves: seq<Move>, pid: Pid, welcome: bool)
    requires Inv(cfg, s) && Coursing(s, pid, welcome)
    requires forall i :: 0 <= i < |moves| ==> Smooth(pid, moves[i]) && (welcome ==> Welcome(pid, moves[i]))
    ensures Coursing(Exec(cfg, s, moves), pid, welcome)
    decreases |moves|
  {
    hide Step, Inv, Coursing, Smooth, Welcome;
    if moves != [] {
      StepKeeps(cfg, s, moves[0]);
      StepCourse(cfg, s, moves[0], pid, welcome);
      ExecCourse(cfg, Step(cfg, s, moves[0]), moves[1..], pid, welcome);
    }
  }

  /** A call that has returned in a run in which none of its store calls failed, on a record that existed when it began. */
  predicate Returns(cfg: Config, clock: nat, moves: seq<Move>, pid: Pid) {
    var s := Exec(cfg, Start(clock), moves);
    pid in s.calls && s.calls[pid].phase.Returned? && s.calls[pid].since >= 1
  }

  lemma {:induction false} ReturnsOnCourse(cfg: Config, clock: nat, moves: seq<Move>, pid: Pid, welcome: bool)
    requires Returns(cfg, clock, moves, pid)
    requires forall i :: 0 <= i < |moves| ==> Smooth(pid, moves[i]) && (welcome ==> Welcome(pid, moves[i]))
    ensures var s := Exec(cfg, Start(clock), moves);
            OnCourse(s.clock, s.store, s.calls[pid], welcome) && CallOk(cfg, s.clock, s.store, s.calls[pid])
  {
    hide OnCourse, CallOk;
    ExecKeeps(cfg, Start(clock), moves);
    ExecCourse(cfg, Start(clock), moves, pid, welcome);
  }

  /**
   finish, if its reads succeed and its writes fail at most by a version conflict: the record is
   terminal on return if at most two foreign writes landed while it ran. With more the record is
   terminal all the same, or the completion was reported, once when a hook is configured.
   */
  lemma {:induction false} FinishSucceeds(cfg: Config, clock: nat, moves: seq<Move>, pid: Pid)
    requires Returns(cfg, clock, moves, pid) && Exec(cfg, Start(clock), moves).calls[pid].kind.Finishing?
    requires forall i :: 0 <= i < |moves| ==> Smooth(pid, moves[i])
    ensures var s := Exec(cfg, Start(clock), moves);
            var c := s.calls[pid];
            && c.id in s.store
            && (c.phase.at - c.since <= 2 ==> Terminal(s.store[c.id].status))
            && ((Terminal(s.store[c.id].status) && c.alerts == 0) || c.alerts == if cfg.hasOnConflict then 1 else 0)
            && (c.phase.reply == Persisted || c.phase.reply == AlreadyTerminal || c.phase.reply == Exhausted)
            && (c.phase.reply == Persisted ==> EndedAs(s.store[c.id], c.kind.end))
  {
    ReturnsOnCourse(cfg, clock, moves, pid, false);
  }

  /** cancel, if moreover it is authorized and its hook does not fail: acknowledged, unless the record has expired or was written three times. */
  lemma {:induction false} CancelSucceeds(cfg: Config, clock: nat, moves: seq<Move>, pid: Pid)
    requires Returns(cfg, clock, moves, pid) && Exec(cfg, Start(clock), moves).calls[pid].kind == Cancelling
    requires forall i :: 0 <= i < |moves| ==> Smooth(pid, moves[i]) && Welcome(pid, moves[i])
    ensures var s := Exec(cfg, Start(clock), moves);
            var c := s.calls[pid];
            && c.id in s.store
            && (c.phase.at - c.since <= 2 && !Outlived(s.store[c.id], s.clock) ==> c.phase.reply == Acknowledged)
  {
    ReturnsOnCourse(cfg, clock, moves, pid, true);
  }

  /**
   extendLease, begun at some instant. Whatever the store did, a renewed lease lasts until one lease
   after that instant at least, as long as the record is working. If no store call of it failed, on
   a record that existed, it is renewed, or the record is terminal, or others wrote it three times.
   */
  lemma {:induction false} RenewalSucceeds(cfg: Config, clock: nat, pre: seq<Move>, post: seq<Move>, pid: Pid, id: string)
    requires Returned(cfg, clock, pre, post, pid, Extending, id)
    ensures var s0, s := Exec(cfg, Start(clock), pre), After(cfg, clock, pre, post, pid, Extending, id);
            var Returned(reply, at) := s.calls[pid].phase;
            var lease := if cfg.lease > 0 then cfg.lease else 30_000_000_000;
            && (reply == Renewed ==>
                  && id in s.store && s.store[id].lastUpdatedAt >= s0.clock
                  && (s.store[id].version == at ==> s.store[id].status == Working)
                  && (s.store[id].status == Working ==> s.store[id].leaseUntil >= s0.clock + lease))
            && (id in s0.store && (forall i :: 0 <= i < |post| ==> Smooth(pid, post[i])) ==>
                  && id in s.store
                  && (at - s0.store[id].version <= 2 ==>
                        reply == Renewed || (reply == LeaseTerminal && Terminal(s.store[id].status))))
  {
    hide Exec, Inv, CallOk;
    BeginIs(cfg, clock, pre, post, pid, Extending, id);
    ReturnedWell(cfg, clock, pre, post, pid, Extending, id);
  }

  /**
   claim, begun at some instant. Whatever the store did, one that wins read the clock after that
   instant, and its lease lasts until one lease later at least. If no store call of it failed, on a
   record that existed, it wins or loses; it loses only if the record is over or its deadline is
   later than that instant, or after three writes by others; and if the record was working then
   with its deadline past or never set, it loses only to a write by somebody else.
   */
  lemma {:induction false} ClaimSucceeds(cfg: Config, clock: nat, pre: seq<Move>, post: seq<Move>, pid: Pid, id: string)
    requires Returned(cfg, clock, pre, post, pid, Claiming, id)
    ensures var s0, s := Exec(cfg, Start(clock), pre), After(cfg, clock, pre, post, pid, Claiming, id);
            var Returned(reply, at) := s.calls[pid].phase;
            var lease := if cfg.lease > 0 then cfg.lease else 30_000_000_000;
            && (reply.Won? ==>
                  && reply.at >= s0.clock && id in s.store && s.store[id].lastUpdatedAt >= s0.clock
                  && (s.store[id].status == Working ==> s.store[id].leaseUntil >= s0.clock + lease))
            && (id in s0.store && (forall i :: 0 <= i < |post| ==> Smooth(pid, post[i])) ==>
                  && id in s.store && (reply.Won? || reply == Lost)
                  && (reply == Lost ==>
                        || s.store[id].status != Working || s0.clock < s.store[id].leaseUntil
                        || at >= s0.store[id].version + 3)
                  && (s0.store[id].status == Working && s0.store[id].leaseUntil <= s0.clock && reply == Lost ==>
                        at > s0.store[id].version))
  {
    hide Exec, Inv, CallOk;
    BeginIs(cfg, clock, pre, post, pid, Claiming, id);
    ReturnedWell(cfg, clock, pre, post, pid, Claiming, id);
  }

  /** A run in which `pid` begins a call after `pre`. */
  function After(cfg: Config, clock: nat, pre: seq<Move>, post: seq<Move>, pid: Pid, kind: Kind, id: string): System {
    Exec(cfg, Start(clock), pre + [Begin(pid, kind, id)] + post)
  }

  /** The call is new, and has returned. */
  predicate Returned(cfg: Config, clock: nat, pre: seq<Move>, post: seq<Move>, pid: Pid, kind: Kind, id: string) {
    var s := After(cfg, clock, pre, post, pid, kind, id);
    pid !in Exec(cfg, Start(clock), pre).calls && pid in s.calls && s.calls[pid].phase.Returned?
  }

  lemma {:induction false} ReturnedWell(cfg: Config, clock: nat, pre: seq<Move>, post: seq<Move>, pid: Pid, kind: Kind, id: string)
    requires Returned(cfg, clock, pre, post, pid, kind, id)
    ensures var s0, s := Exec(cfg, Start(clock), pre), After(cfg, clock, pre, post, pid, kind, id);
            var c := s.calls[pid];
            && RepliesOf(c.kind, c.phase.reply) && ReplyOk(cfg, s.store, c, c.phase.reply, c.phase.at)
            && (id in s0.store && (forall i :: 0 <= i < |post| ==> Smooth(pid, post[i])) ==>
                  OnCourse(s.clock, s.store, c, false))
  {
    var s0, m := Exec(cfg, Start(clock), pre), Begin(pid, kind, id);
    var s1 := Step(cfg, s0, m);
    ExecAppend(cfg, Start(clock), pre, [m]);
    ExecAppend(cfg, Start(clock), pre + [m], post);
    assert Exec(cfg, s0, [m]) == Exec(cfg, s1, [m][1..]) == s1;
    ExecKeeps(cfg, Start(clock), pre);
    hide Exec, OnCourse;
    StepKeeps(cfg, s0, m);
    ExecKeeps(cfg, s1, post);
    InvCall(cfg, Exec(cfg, s1, post), pid);
    if id in s0.store && forall i :: 0 <= i < |post| ==> Smooth(pid, post[i]) {
      assert RecordOk(cfg, s0.clock, id, s0.store[id]);
      Fresh(cfg, s0, m, pid, false);
      hide Step, Inv;
      BeginKept(cfg, s1, post, pid);
      ExecCourse(cfg, s1, post, pid, false);
    }
  }

  // ----- A cancel without authority -----

  /** A cancel that was never authorized is not acknowledged, and writes nothing. */
  predicate Barred(s: System, pid: Pid) {
    pid in s.calls && s.calls[pid].kind == Cancelling ==>
      var p := s.calls[pid].phase;
      p.Reading? || p.Deciding? || (p.Returned? && p.reply != Acknowledged)
  }

  lemma BarredStep(cfg: Config, s: System, m: Move, pid: Pid)
    requires Barred(s, pid) && !(m.Decide? && m.pid == pid && m.authorized)
    ensures Barred(Step(cfg, s, m), pid)
  {
  }

  lemma {:induction false} BarredCancel(cfg: Config, s: System, moves: seq<Move>, pid: Pid)
    requires Barred(s, pid) && forall i :: 0 <= i < |moves| ==> !(moves[i].Decide? && moves[i].pid == pid && moves[i].authorized)
    ensures Barred(Exec(cfg, s, moves), pid)
    decreases |moves|
  {
    hide Step, Barred;
    if moves != [] {
      BarredStep(cfg, s, moves[0], pid);
      BarredCancel(cfg, Step(cfg, s, moves[0]), moves[1..], pid);
    }
  }

  // ----- A cancel whose hook fails -----

  /** A cancel that alone writes the working record, and whose hook fails, is not acknowledged. */
  predicate Unhooked(s: System, pid: Pid, id: string, r: Record) {
    && pid in s.calls && s.calls[pid].kind == Cancelling && s.calls[pid].id == id && r.id == id && r.status == Working
    && match s.calls[pid].phase
       case Reading => id in s.store && s.store[id] == r
       case Deciding(seen) => seen == r && id in s.store && s.store[id] == r
       case Stamping(seen) => seen == r && id in s.store && s.store[id] == r
       case Writing(seen, next) => id in s.store && s.store[id] == r && next.id == id && next.version == r.version
       case Returned(reply, _) => reply != Acknowledged
  }

  /** Nobody else writes, and the hook of `pid` fails. */
  predicate Alone(pid: Pid, m: Move) { m.Write? ==> m.pid == pid && m.hookFails }

  lemma UnhookedStep(cfg: Config, s: System, m: Move, pid: Pid, id: string, r: Record)
    requires Unhooked(s, pid, id, r) && Alone(pid, m)
    ensures Unhooked(Step(cfg, s, m), pid, id, r)
  {
  }

  lemma {:induction false} UnhookedAll(cfg: Config, s: System, moves: seq<Move>, pid: Pid, id: string, r: Record)
    requires Unhooked(s, pid, id, r) && forall i :: 0 <= i < |moves| ==> Alone(pid, moves[i])
    ensures Unhooked(Exec(cfg, s, moves), pid, id, r)
    decreases |moves|
  {
    hide Step, Unhooked, Alone;
    if moves != [] {
      UnhookedStep(cfg, s, moves[0], pid, id, r);
      UnhookedAll(cfg, Step(cfg, s, moves[0]), moves[1..], pid, id, r);
    }
  }

  /** A cancel of a working record that nobody else writes is not acknowledged if its hook fails. */
  lemma {:induction false} FailingHookRefuses(cfg: Config, clock: nat, pre: seq<Move>, post: seq<Move>, pid: Pid, id: string)
    requires Returned(cfg, clock, pre, post, pid, Cancelling, id)
    requires var s0 := Exec(cfg, Start(clock), pre); id in s0.store && s0.store[id].status == Working
    requires forall i :: 0 <= i < |post| ==> Alone(pid, post[i])
    ensures After(cfg, clock, pre, post, pid, Cancelling, id).calls[pid].phase.reply != Acknowledged
  {
    var s0, m := Exec(cfg, Start(clock), pre), Begin(pid, Cancelling, id);
    ExecKeeps(cfg, Start(clock), pre);
    assert RecordOk(cfg, s0.clock, id, s0.store[id]);
    ExecAppend(cfg, Start(clock), pre, [m]);
    ExecAppend(cfg, Start(clock), pre + [m], post);
    assert Exec(cfg, s0, [m]) == Exec(cfg, Step(cfg, s0, m), [m][1..]) == Step(cfg, s0, m);
    hide Exec, Inv;
    UnhookedAll(cfg, Step(cfg, s0, m), post, pid, id, s0.store[id]);
  }
}
