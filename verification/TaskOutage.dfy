/**
 What calls reply while the store fails (mcp/tasks.go): none of them claims success, and each fails
 in its own way.
 */
module TaskOutage {
  import opened Wrappers
  import opened TaskProtocol
  import opened TaskSafety
  import opened TaskTheorems
  import opened TaskProgress

  // ----- A store that cannot be read -----

  /** No read of `pid` succeeds; `done` tells whether its context is done. */
  predicate Unread(pid: Pid, done: bool, m: Move) {
    m.Read? && m.pid == pid ==> m.unreadable && m.contextDone == done
  }

  /** Claim fails after its last attempt, or gives up with its context; a renewal is unreachable; finish returns silently; cancel is refused. */
  function ReadOutage(kind: Kind, done: bool): Reply {
    match kind
    case Claiming => if done then Lost else ClaimFailed
    case Extending => Unreachable
    case Finishing(_) => ReadFailed
    case Cancelling => Refused
  }

  /** The call has not got past its reads. */
  predicate Blinded(s: System, pid: Pid, done: bool) {
    pid in s.calls ==>
      var c := s.calls[pid];
      && c.attempts < 3 && c.alerts == 0 && (done ==> c.attempts == 0)
      && (c.phase == Reading || (c.phase.Returned? && c.phase.reply == ReadOutage(c.kind, done)))
  }

  lemma BlindedStep(cfg: Config, s: System, m: Move, pid: Pid, done: bool)
    requires Blinded(s, pid, done) && Unread(pid, done, m)
    ensures Blinded(Step(cfg, s, m), pid, done)
  {
  }

  /** In every run in which a call can read nothing, it writes nothing, reports nothing and replies accordingly. */
  lemma {:induction false} UnreadableStore(cfg: Config, s: System, moves: seq<Move>, pid: Pid, done: bool)
    requires Blinded(s, pid, done) && forall i :: 0 <= i < |moves| ==> Unread(pid, done, moves[i])
    ensures Blinded(Exec(cfg, s, moves), pid, done)
    decreases |moves|
  {
    hide Step, Blinded, Unread;
    if moves != [] {
      BlindedStep(cfg, s, moves[0], pid, done);
      UnreadableStore(cfg, Step(cfg, s, moves[0]), moves[1..], pid, done);
    }
  }

  // ----- A store that cannot be written -----

  /** The reads of `pid` succeed, and no write of it is answered without an error. */
  predicate Unwritten(pid: Pid, m: Move) {
    && (m.Read? && m.pid == pid ==> !m.unreadable)
    && (m.Write? && m.pid == pid ==> m.fault != NoFault)
  }

  /** The reply of a call whose write failed, or that found nothing to write. */
  predicate WriteOutage(cfg: Config, store: map<string, Record>, c: Call, reply: Reply)
    requires c.id in store
  {
    match c.kind
    case Claiming => reply == ClaimFailed || (reply == Lost && Taken(store[c.id], c.begun))
    case Extending => reply == Unreachable || reply == LeaseTerminal
    case Finishing(_) =>
      || (reply == WriteFailed && c.alerts == if cfg.hasOnConflict then 1 else 0)
      || (reply == AlreadyTerminal && c.alerts == 0)
    case Cancelling => reply == Refused || reply == Acknowledged
  }

  predicate Thwarted(cfg: Config, s: System, pid: Pid) {
    pid in s.calls && s.calls[pid].since >= 1 ==>
      var c := s.calls[pid];
      && c.attempts == 0 && c.id in s.store
      && (c.phase.Returned? ==> WriteOutage(cfg, s.store, c, c.phase.reply))
  }

  lemma ThwartedMover(cfg: Config, s: System, m: Move, pid: Pid)
    requires Inv(cfg, s) && Thwarted(cfg, s, pid) && Unwritten(pid, m) && pid in s.calls && s.calls[pid].since >= 1
    requires Step(cfg, s, m).calls[pid] != s.calls[pid]
    ensures Thwarted(cfg, Step(cfg, s, m), pid)
  {
    InvCall(cfg, s, pid);
    hide Inv, Stamped, Updated, AnswerOf, AfterDecide, AfterWrite, CallOk, WriteOutage;
    var c := s.calls[pid];
    match m
    case Read(_, _, _) =>
    case Decide(_, authorized) => DecideThwarted(cfg, s, c, authorized);
    case Stamp(_, _) =>
    case Write(_, fault, hookFails) => WriteThwarted(cfg, s, c, fault, hookFails);
  }

  lemma DecideThwarted(cfg: Config, s: System, c: Call, authorized: bool)
    requires CallOk(cfg, s.clock, s.store, c) && c.phase.Deciding? && c.attempts == 0
    ensures var c' := AfterDecide(c, s.clock, authorized, VersionOf(s.store, c.id));
            c.id in s.store && c'.attempts == 0 && c'.id == c.id && c'.since == c.since
            && (c'.phase.Returned? ==> WriteOutage(cfg, s.store, c', c'.phase.reply))
  {
  }

  lemma WriteThwarted(cfg: Config, s: System, c: Call, fault: WriteFault, hookFails: bool)
    requires CallOk(cfg, s.clock, s.store, c) && c.phase.Writing? && c.attempts == 0 && fault != NoFault
    ensures var store := Updated(s.store, c.phase.next, fault);
            var c' := AfterWrite(cfg, c, AnswerOf(s.store, c.phase.next, fault), hookFails, VersionOf(store, c.id));
            c.id in store && c'.attempts == 0 && c'.id == c.id && c'.since == c.since && c'.phase.Returned?
            && WriteOutage(cfg, store, c', c'.phase.reply)
  {
  }

  lemma ThwartedStays(cfg: Config, s: System, m: Move, pid: Pid)
    requires Inv(cfg, s) && Thwarted(cfg, s, pid) && pid in s.calls && s.calls[pid].since >= 1
    requires pid in Step(cfg, s, m).calls && Step(cfg, s, m).calls[pid] == s.calls[pid]
    ensures Thwarted(cfg, Step(cfg, s, m), pid)
  {
    StepKeeps(cfg, s, m);
    hide Inv, Step;
    assert Descends(s.store[s.calls[pid].id], Step(cfg, s, m).store[s.calls[pid].id]);
  }

  lemma ThwartedStep(cfg: Config, s: System, m: Move, pid: Pid)
    requires Inv(cfg, s) && Thwarted(cfg, s, pid) && Unwritten(pid, m)
    ensures Thwarted(cfg, Step(cfg, s, m), pid)
  {
    hide Inv, Unwritten;
    if pid in s.calls {
      BeginStays(cfg, s, m, pid);
      if s.calls[pid].since >= 1 {
        hide Step, Thwarted;
        if Step(cfg, s, m).calls[pid] == s.calls[pid] {
          ThwartedStays(cfg, s, m, pid);
        } else {
          ThwartedMover(cfg, s, m, pid);
        }
      } else {
        hide Step;
      }
    } else if pid in Step(cfg, s, m).calls && Step(cfg, s, m).calls[pid].since >= 1 {
      BeginNew(cfg, s, m, pid);
    }
  }

  /**
   In every run in which the writes of a call fail, on a record that existed when it began: it tries
   once. A claim fails, or loses to a record that is over or leased; a renewal is unreachable or finds
   the record terminal; a finish is reported, once with a hook, or finds the record terminal; a cancel
   is refused, or acknowledges a record it found terminal. None of them wins, renews or persists.
   */
  lemma {:induction false} UnwritableStore(cfg: Config, s: System, moves: seq<Move>, pid: Pid)
    requires Inv(cfg, s) && Thwarted(cfg, s, pid) && forall i :: 0 <= i < |moves| ==> Unwritten(pid, moves[i])
    ensures Thwarted(cfg, Exec(cfg, s, moves), pid)
    decreases |moves|
  {
    hide Step, Thwarted, Unwritten, Inv;
    if moves != [] {
      StepKeeps(cfg, s, moves[0]);
      ThwartedStep(cfg, s, moves[0], pid);
      UnwritableStore(cfg, Step(cfg, s, moves[0]), moves[1..], pid);
    }
  }
}
