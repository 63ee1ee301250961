/**
 The retry loops of mcp/tasks.go as they are written, running against a store, a clock
 and other instances that move between any two of their steps. Each loop is proved to
 be an execution of the protocol of `TaskProtocol`, so the theorems about all
 interleavings hold of it; what they mean for the caller is stated on each method.
 */
module TaskService {
  import opened Wrappers
  import opened TaskProtocol
  import opened TaskSafety
  import opened TaskTheorems
  import opened TaskProgress

  /** What happens around the steps of one call; every field is an arbitrary oracle. */
  datatype Environment = Environment(
    others: nat -> seq<Move>,
    unreadable: nat -> bool,
    contextDone: nat -> bool,
    authorized: nat -> bool,
    lag: nat -> nat,
    fault: nat -> WriteFault,
    hookFails: bool)

  /** A move of somebody else. */
  predicate Foreign(pid: Pid, m: Move) {
    m.Tick? || m.Create? || m.pid != pid
  }

  ghost predicate Fair(pid: Pid, env: Environment) {
    forall k: nat, i :: 0 <= i < |env.others(k)| ==> Foreign(pid, env.others(k)[i])
  }

  /** The store answers every call, with a version conflict at worst. */
  ghost predicate Tame(env: Environment) {
    forall k: nat :: !env.unreadable(k) && env.fault(k) == NoFault
  }

  /** Every cancel is authorized and no hook fails. */
  ghost predicate Welcoming(env: Environment) {
    (forall k: nat :: env.authorized(k)) && !env.hookFails
  }

  lemma {:induction false} ForeignMoves(cfg: Config, s: System, moves: seq<Move>, pid: Pid)
    requires pid in s.calls
    requires forall i :: 0 <= i < |moves| ==> Foreign(pid, moves[i])
    ensures pid in Exec(cfg, s, moves).calls && Exec(cfg, s, moves).calls[pid] == s.calls[pid]
    decreases |moves|
  {
    if moves != [] {
      ForeignMoves(cfg, Step(cfg, s, moves[0]), moves[1..], pid);
    }
  }

  lemma {:induction false} ExecOne(cfg: Config, s: System, others: seq<Move>, m: Move)
    ensures Exec(cfg, s, others + [m]) == Step(cfg, Exec(cfg, s, others), m)
  {
    ExecAppend(cfg, s, others, [m]);
    assert Exec(cfg, Step(cfg, Exec(cfg, s, others), m), [m][1..]) == Step(cfg, Exec(cfg, s, others), m);
  }

  /** A call stays on course through the moves of others and a step of its own. */
  lemma {:induction false} CourseKept(cfg: Config, clock: nat, trace: seq<Move>, others: seq<Move>, m: Move, pid: Pid, welcome: bool)
    requires Coursing(Exec(cfg, Start(clock), trace), pid, welcome)
    requires forall i :: 0 <= i < |others| ==> Foreign(pid, others[i])
    requires Smooth(pid, m) && (welcome ==> Welcome(pid, m))
    ensures Coursing(Step(cfg, Exec(cfg, Exec(cfg, Start(clock), trace), others), m), pid, welcome)
  {
    hide Exec, Coursing, Inv;
    ExecKeeps(cfg, Start(clock), trace);
    var s := Exec(cfg, Start(clock), trace);
    ExecKeeps(cfg, s, others);
    ExecCourse(cfg, s, others, pid, welcome);
    StepCourse(cfg, Exec(cfg, s, others), m, pid, welcome);
  }

  lemma {:induction false} StoredVersion(cfg: Config, clock: nat, trace: seq<Move>, id: string)
    requires id in Exec(cfg, Start(clock), trace).store
    ensures VersionOf(Exec(cfg, Start(clock), trace).store, id) >= 1
  {
    ExecKeeps(cfg, Start(clock), trace);
    var s := Exec(cfg, Start(clock), trace);
    assert RecordOk(cfg, s.clock, id, s.store[id]);
  }

  /** What a call that is on course has to say when it returns. */
  lemma SaysOnCourse(s: System, pid: Pid, welcome: bool)
    requires Coursing(s, pid, welcome) && pid in s.calls && s.calls[pid].since >= 1 && s.calls[pid].phase.Returned?
    ensures var c := s.calls[pid];
            && c.id in s.store && !BlamesStore(c.phase.reply)
            && (OutOfAttempts(c.phase.reply) ==> c.phase.at >= c.since + MAX_ATTEMPTS)
            && (c.phase.reply == Refused && welcome ==> Outlived(s.store[c.id], s.clock))
            && (c.phase.reply == Lost ==> c.phase.at >= c.since + MAX_ATTEMPTS || Taken(s.store[c.id], c.begun))
            && (c.phase.reply == Lost && c.phase.at <= c.since ==> c.found.Some? && Taken(c.found.value, c.begun))
  {
  }

  lemma BeginCourse(cfg: Config, s: System, kind: Kind, id: string, pid: Pid, welcome: bool)
    requires Inv(cfg, s) && pid !in s.calls
    ensures Coursing(Step(cfg, s, Begin(pid, kind, id)), pid, welcome)
  {
  }

  /** A returned call replied as its kind does, and truthfully about the record. */
  lemma {:induction false} ReplyKinds(cfg: Config, clock: nat, moves: seq<Move>, pid: Pid)
    requires var s := Exec(cfg, Start(clock), moves); pid in s.calls && s.calls[pid].phase.Returned?
    ensures var s := Exec(cfg, Start(clock), moves);
            var c := s.calls[pid];
            RepliesOf(c.kind, c.phase.reply) && ReplyOk(cfg, s.store, c, c.phase.reply, c.phase.at)
  {
    ExecKeeps(cfg, Start(clock), moves);
    var s := Exec(cfg, Start(clock), moves);
    assert CallOk(cfg, s.clock, s.store, s.calls[pid]);
  }

  class Deployment {
    const cfg: Config
    var state: System
    ghost const began: nat
    ghost var trace: seq<Move>

    ghost predicate Valid()
      reads this
    {
      state == Exec(cfg, Start(began), trace)
    }

    constructor (cfg: Config, clock: nat)
      ensures Valid() && state == Start(clock)
    {
      this.cfg := cfg;
      this.began := clock;
      state := Start(clock);
      trace := [];
    }

    /** Other instances move, then the call `pid` takes the step `m`. */
    method Take(others: seq<Move>, m: Move, pid: Pid)
      requires Valid()
      requires forall i :: 0 <= i < |others| ==> Foreign(pid, others[i])
      modifies this
      ensures Valid() && trace == old(trace) + others + [m]
      ensures state == Step(cfg, Exec(cfg, old(state), others), m)
      ensures old(pid in state.calls) ==>
        var s := Exec(cfg, old(state), others); pid in s.calls && s.calls[pid] == old(state).calls[pid]
    {
      for i := 0 to |others|
        invariant Exec(cfg, state, others[i..]) == Exec(cfg, old(state), others)
        invariant trace == old(trace)
      {
        state := Step(cfg, state, others[i]);
        assert others[i..][1..] == others[i + 1..];
      }
      state := Step(cfg, state, m);
      trace := trace + others + [m];
      if pid in old(state).calls {
        ForeignMoves(cfg, old(state), others, pid);
      }
      ExecAppend(cfg, Start(began), old(trace), others + [m]);
      ExecOne(cfg, old(state), others, m);
      assert old(trace) + others + [m] == old(trace) + (others + [m]);
    }

    /** While the store answers, the call blames nobody but other writers. */
    ghost predicate Well(pid: Pid, env: Environment)
      reads this
    {
      Tame(env) ==> Coursing(state, pid, Welcoming(env))
    }

    /** The call `pid`, once begun. */
    ghost function Mine(pid: Pid): Call
      requires pid in state.calls
      reads this
    {
      state.calls[pid]
    }

    /** At the head of the retry loop: attempt `n`, or the reply of a loop that ran out. */
    ghost predicate AtAttempt(pid: Pid, first: Call, n: nat, exhausted: Reply)
      reads this
    {
      && Valid() && pid in state.calls
      && var c := state.calls[pid];
      && SameBegin(first, c)
      && if n < MAX_ATTEMPTS
         then c.attempts == n && c.phase == Reading
         else c.phase == Returned(exhausted, VersionOf(state.store, first.id))
    }

    /** The call begun as `first` has returned `reply`, with the record at its present version. */
    ghost predicate Answered(pid: Pid, first: Call, reply: Reply)
      reads this
    {
      && Valid() && pid in state.calls
      && var c := state.calls[pid];
      && SameBegin(first, c)
      && c.phase == Returned(reply, VersionOf(state.store, first.id))
    }

    method GetTask(pid: Pid, id: string, env: Environment, k: nat, attempt: nat) returns (got: Option<Record>)
      requires Valid() && Fair(pid, env) && Well(pid, env)
      requires pid in state.calls && Mine(pid).phase.Reading? && Mine(pid).id == id
      modifies this
      ensures Valid() && Well(pid, env) && old(trace) <= trace && pid in state.calls
      ensures Mine(pid) == AfterRead(cfg, old(Mine(pid)), got, env.contextDone(attempt), VersionOf(state.store, id))
    {
      ghost var s := Exec(cfg, state, env.others(k));
      ghost var m := Read(pid, env.unreadable(attempt), env.contextDone(attempt));
      if Tame(env) { CourseKept(cfg, began, trace, env.others(k), m, pid, Welcoming(env)); }
      Take(env.others(k), Read(pid, env.unreadable(attempt), env.contextDone(attempt)), pid);
      assert state.store == s.store;
      got := if env.unreadable(attempt) || id !in state.store then None else Some(state.store[id]);
    }

    /** Reads the clock (and, for cancel, asks for authorization) after the record was read. */
    method Look(pid: Pid, env: Environment, k: nat, attempt: nat) returns (now: nat)
      requires Valid() && Fair(pid, env) && Well(pid, env) && pid in state.calls && Mine(pid).phase.Deciding?
      modifies this
      ensures Valid() && Well(pid, env) && old(trace) <= trace && pid in state.calls
      ensures Mine(pid) == AfterDecide(old(Mine(pid)), now, env.authorized(attempt), VersionOf(state.store, old(Mine(pid)).id))
    {
      if Tame(env) { CourseKept(cfg, began, trace, env.others(k), Decide(pid, env.authorized(attempt)), pid, Welcoming(env)); }
      Take(env.others(k), Decide(pid, env.authorized(attempt)), pid);
      now := state.clock;
    }

    /** Reads the clock for the fields about to be written. */
    method Touch(pid: Pid, env: Environment, k: nat, attempt: nat) returns (now: nat)
      requires Valid() && Fair(pid, env) && Well(pid, env) && pid in state.calls && Mine(pid).phase.Stamping?
      modifies this
      ensures Valid() && Well(pid, env) && old(trace) <= trace && pid in state.calls
      ensures Mine(pid) == AfterStamp(cfg, old(Mine(pid)), now, now + env.lag(attempt))
    {
      ghost var s := Exec(cfg, state, env.others(k));
      if Tame(env) { CourseKept(cfg, began, trace, env.others(k), Stamp(pid, env.lag(attempt)), pid, Welcoming(env)); }
      Take(env.others(k), Stamp(pid, env.lag(attempt)), pid);
      now := state.clock - env.lag(attempt);
    }

    method UpdateTask(pid: Pid, next: Record, env: Environment, k: nat, attempt: nat) returns (answer: Answer)
      requires Valid() && Fair(pid, env) && Well(pid, env) && pid in state.calls
      requires Mine(pid).phase.Writing? && Mine(pid).phase.next == next
      modifies this
      ensures Valid() && Well(pid, env) && old(trace) <= trace && pid in state.calls
      ensures Mine(pid) == AfterWrite(cfg, old(Mine(pid)), answer, env.hookFails, VersionOf(state.store, old(Mine(pid)).id))
    {
      ghost var s := Exec(cfg, state, env.others(k));
      if Tame(env) { CourseKept(cfg, began, trace, env.others(k), Tick(0), pid, Welcoming(env)); }
      Take(env.others(k), Tick(0), pid);
      assert state == s;
      ghost var m := Write(pid, env.fault(attempt), env.hookFails);
      if Tame(env) { CourseKept(cfg, began, trace, [], m, pid, Welcoming(env)); }
      answer := AnswerOf(state.store, next, env.fault(attempt));
      Take([], Write(pid, env.fault(attempt), env.hookFails), pid);
    }

    /** The call begins. */
    method Enter(pid: Pid, kind: Kind, id: string, env: Environment)
      requires Valid() && pid !in state.calls
      modifies this
      ensures Valid() && Well(pid, env) && old(trace) <= trace && pid in state.calls
      ensures Mine(pid) == NewCall(old(state), kind, id)
    {
      hide Coursing, Inv;
      ExecKeeps(cfg, Start(began), trace);
      BeginCourse(cfg, state, kind, id, pid, Welcoming(env));
      Take([], Begin(pid, kind, id), pid);
    }

    /** One attempt of claim; None asks for the next attempt. */
    method ClaimOnce(pid: Pid, id: string, env: Environment, attempts: nat, ghost first: Call) returns (reply: Option<Reply>)
      requires first.kind == Claiming && first.id == id
      requires attempts < MAX_ATTEMPTS && AtAttempt(pid, first, attempts, Lost) && Fair(pid, env) && Well(pid, env)
      modifies this
      ensures old(trace) <= trace && Well(pid, env)
      ensures reply.None? ==> AtAttempt(pid, first, attempts + 1, Lost)
      ensures reply.Some? ==> Answered(pid, first, reply.value)
    {
      hide Coursing, Exec, Step, Tame, Welcoming, Fair;
      var got := GetTask(pid, id, env, 4 * attempts, attempts);
      if got.None? {
        if attempts == MAX_ATTEMPTS - 1 { return Some(ClaimFailed); }
        if env.contextDone(attempts) { return Some(Lost); }
        return None;
      }
      var current := got.value;
      var now := Look(pid, env, 4 * attempts + 1, attempts);
      if current.status != Working || LeaseHeld(current, now) { return Some(Lost); }
      now := Touch(pid, env, 4 * attempts + 2, attempts);
      current := current.(leaseUntil := now + Lease(cfg), lastUpdatedAt := now + env.lag(attempts));
      var answer := UpdateTask(pid, current, env, 4 * attempts + 3, attempts);
      if answer == Ok { return Some(Won(now)); }
      if answer != Conflict { return Some(ClaimFailed); }
      return None;
    }

    /**
     claim: true when this instance may launch the task, whose lease then lasts one lease from the
     beginning of the call at least. If no store call fails, a working record whose deadline is past
     or was never set is lost only to a write by somebody else.
     */
    method Claim(pid: Pid, id: string, env: Environment) returns (won: bool, err: bool)
      requires Valid() && pid !in state.calls && Fair(pid, env)
      modifies this
      ensures Valid() && old(trace) <= trace && pid in state.calls
      ensures won == WonBy(state, pid)
      ensures err <==> Mine(pid).phase == Returned(ClaimFailed, VersionOf(state.store, id))
      ensures !won && !err <==> Mine(pid).phase == Returned(Lost, VersionOf(state.store, id))
      ensures won ==>
        && id in state.store && state.store[id].status == Working && state.store[id].leaseUntil >= old(state).clock + Lease(cfg)
        && state.store[id].lastUpdatedAt >= old(state).clock && Mine(pid).phase.reply.at >= old(state).clock
      ensures Tame(env) && id in old(state).store ==>
        && !err && id in state.store
        && (!won ==> state.store[id].status != Working || old(state).clock < state.store[id].leaseUntil
                     || VersionOf(state.store, id) >= VersionOf(old(state).store, id) + 3)
        && (!won && old(state).store[id].status == Working && old(state).store[id].leaseUntil <= old(state).clock ==>
              VersionOf(state.store, id) > VersionOf(old(state).store, id))
    {
      hide Coursing, Exec, Step, ReplyOk, Tame, Welcoming, Fair;
      ghost var first := NewCall(state, Claiming, id);
      if id in state.store { StoredVersion(cfg, began, trace, id); }
      Enter(pid, Claiming, id, env);
      for attempts := 0 to MAX_ATTEMPTS
        invariant AtAttempt(pid, first, attempts, Lost) && old(trace) <= trace && Well(pid, env)
      {
        var reply := ClaimOnce(pid, id, env, attempts, first);
        if reply.Some? {
          Truthful(pid, first, reply.value);
          Conclude(pid, first, reply.value, env);
          return reply.value.Won?, reply.value == ClaimFailed;
        }
      }
      Conclude(pid, first, Lost, env);
      return false, false;
    }

    method ExtendOnce(pid: Pid, id: string, env: Environment, attempts: nat, ghost first: Call) returns (reply: Option<Reply>)
      requires first.kind == Extending && first.id == id
      requires attempts < MAX_ATTEMPTS && AtAttempt(pid, first, attempts, Unreachable) && Fair(pid, env) && Well(pid, env)
      modifies this
      ensures old(trace) <= trace && Well(pid, env)
      ensures reply.None? ==> AtAttempt(pid, first, attempts + 1, Unreachable)
      ensures reply.Some? ==> Answered(pid, first, reply.value)
    {
      hide Coursing, Exec, Step, Tame, Welcoming, Fair;
      var got := GetTask(pid, id, env, 4 * attempts, attempts);
      if got.None? {
        if env.contextDone(attempts) { return Some(Unreachable); }
        return None;
      }
      var current := got.value;
      var now := Look(pid, env, 4 * attempts + 1, attempts);
      if current.status != Working { return Some(LeaseTerminal); }
      now := Touch(pid, env, 4 * attempts + 2, attempts);
      current := current.(leaseUntil := now + Lease(cfg), lastUpdatedAt := now + env.lag(attempts));
      var answer := UpdateTask(pid, current, env, 4 * attempts + 3, attempts);
      if answer == Conflict { return None; }
      if answer != Ok { return Some(Unreachable); }
      return Some(Renewed);
    }

    /**
     extendLease: a renewed lease lasts one lease from the beginning of the call at least; terminal is
     only ever reported of a record that is terminal; if no store call fails and at most two writes of
     others land while it runs, the lease is renewed or the record terminal.
     */
    method ExtendLease(pid: Pid, id: string, env: Environment) returns (reply: Reply)
      requires Valid() && pid !in state.calls && Fair(pid, env)
      modifies this
      ensures Valid() && old(trace) <= trace
      ensures Answered(pid, NewCall(old(state), Extending, id), reply)
      ensures reply == Renewed || reply == LeaseTerminal || reply == Unreachable
      ensures reply == LeaseTerminal ==> id in state.store && Terminal(state.store[id].status)
      ensures reply == Renewed ==>
        && id in state.store && state.store[id].status == Working && state.store[id].leaseUntil >= old(state).clock + Lease(cfg)
        && state.store[id].lastUpdatedAt >= old(state).clock
      ensures Tame(env) && id in old(state).store && VersionOf(state.store, id) <= VersionOf(old(state).store, id) + 2 ==>
        reply == Renewed || reply == LeaseTerminal
    {
      hide Coursing, Exec, Step, ReplyOk, Tame, Welcoming, Fair;
      ghost var first := NewCall(state, Extending, id);
      if id in state.store { StoredVersion(cfg, began, trace, id); }
      Enter(pid, Extending, id, env);
      for attempts := 0 to MAX_ATTEMPTS
        invariant AtAttempt(pid, first, attempts, Unreachable) && old(trace) <= trace && Well(pid, env)
      {
        var r := ExtendOnce(pid, id, env, attempts, first);
        if r.Some? {
          Truthful(pid, first, r.value);
          Conclude(pid, first, r.value, env);
          return r.value;
        }
      }
      Conclude(pid, first, Unreachable, env);
      return Unreachable;
    }

    method FinishOnce(pid: Pid, id: string, end: RunEnd, env: Environment, attempts: nat, ghost first: Call)
      returns (reply: Option<Reply>)
      requires first.kind == Finishing(end) && first.id == id
      requires attempts < MAX_ATTEMPTS && AtAttempt(pid, first, attempts, Exhausted) && Fair(pid, env) && Well(pid, env)
      modifies this
      ensures old(trace) <= trace && Well(pid, env)
      ensures reply.None? ==> AtAttempt(pid, first, attempts + 1, Exhausted)
      ensures reply.Some? ==> Answered(pid, first, reply.value)
    {
      hide Coursing, Exec, Step, Tame, Welcoming, Fair;
      var got := GetTask(pid, id, env, 4 * attempts, attempts);
      if got.None? { return Some(ReadFailed); }
      var current := got.value;
      var now := Look(pid, env, 4 * attempts + 1, attempts);
      if Terminal(current.status) { return Some(AlreadyTerminal); }
      now := Touch(pid, env, 4 * attempts + 2, attempts);
      current := current.(lastUpdatedAt := now, leaseUntil := 0);
      match end {
        case Interrupted => current := current.(status := Cancelled, statusMessage := "cancelled");
        case Errored(message) => current := current.(status := Failed, statusMessage := message, failure := Some(message));
        case Succeeded(result) => current := current.(status := Completed, result := result);
      }
      var answer := UpdateTask(pid, current, env, 4 * attempts + 3, attempts);
      if answer == Ok { return Some(Persisted); }
      if answer != Conflict { return Some(WriteFailed); }
      return None;
    }

    /**
     finish: if no store call fails and at most two writes of others land while it
     runs, the record is terminal on return; a completion that is not persisted is
     reported once when a hook is configured, and nothing else is reported.
     */
    method Finish(pid: Pid, id: string, end: RunEnd, env: Environment) returns (reply: Reply, alerts: nat)
      requires Valid() && pid !in state.calls && Fair(pid, env)
      modifies this
      ensures old(trace) <= trace
      ensures Answered(pid, NewCall(old(state), Finishing(end), id), reply)
      ensures RepliesOf(Finishing(end), reply)
      ensures alerts == if (reply == WriteFailed || reply == Exhausted) && cfg.hasOnConflict then 1 else 0
      ensures alerts == Mine(pid).alerts
      ensures reply == Persisted ==>
        id in state.store && EndedAs(state.store[id], end) && state.store[id].lastUpdatedAt >= old(state).clock
      ensures reply == Persisted || reply == AlreadyTerminal ==> id in state.store && Terminal(state.store[id].status)
      ensures reply != ReadFailed && reply != WriteFailed
              && VersionOf(state.store, id) <= VersionOf(old(state).store, id) + 2 ==>
        id in state.store && Terminal(state.store[id].status)
      ensures Tame(env) && id in old(state).store ==>
        && reply != ReadFailed && reply != WriteFailed && id in state.store
        && (VersionOf(state.store, id) <= VersionOf(old(state).store, id) + 2 ==> Terminal(state.store[id].status))
        && (Terminal(state.store[id].status) || alerts == if cfg.hasOnConflict then 1 else 0)
    {
      hide Coursing, Exec, Step, ReplyOk, Tame, Welcoming, Fair, EndedAs;
      ghost var first := NewCall(state, Finishing(end), id);
      if id in state.store { StoredVersion(cfg, began, trace, id); }
      Enter(pid, Finishing(end), id, env);
      reply := Exhausted;
      var attempts, returned := 0, false;
      while attempts < MAX_ATTEMPTS && !returned
        invariant attempts <= MAX_ATTEMPTS && old(trace) <= trace && Well(pid, env)
        invariant !returned ==> AtAttempt(pid, first, attempts, Exhausted) && reply == Exhausted
        invariant returned ==> Answered(pid, first, reply)
        decreases MAX_ATTEMPTS - attempts, !returned
      {
        var r := FinishOnce(pid, id, end, env, attempts, first);
        if r.Some? {
          reply, returned := r.value, true;
        } else {
          attempts := attempts + 1;
        }
      }
      Truthful(pid, first, reply);
      Conclude(pid, first, reply, env);
      alerts := 0;
      if (reply == WriteFailed || reply == Exhausted) && cfg.hasOnConflict {
        alerts := alerts + 1;
      }
    }

    /** A returned call replied as its kind does, and truthfully about the record. */
    lemma Truthful(pid: Pid, first: Call, reply: Reply)
      requires Answered(pid, first, reply)
      ensures RepliesOf(first.kind, reply)
      ensures reply == Acknowledged || reply == Persisted || reply == AlreadyTerminal || reply == LeaseTerminal ==>
        first.id in state.store && Terminal(state.store[first.id].status)
      ensures reply == Acknowledged ==> !Outlived(state.store[first.id], first.begun)
      ensures reply == Persisted ==> first.kind.Finishing? && first.id in state.store && EndedAs(state.store[first.id], first.kind.end)
      ensures reply.Won? || reply == Renewed || reply == Persisted ==>
        first.id in state.store && state.store[first.id].lastUpdatedAt >= first.begun
      ensures reply.Won? || reply == Renewed ==>
        state.store[first.id].status == Working && state.store[first.id].leaseUntil >= first.begun + Lease(cfg)
      ensures reply.Won? ==> reply.at >= first.begun
      ensures reply == Exhausted ==> VersionOf(state.store, first.id) >= first.since + MAX_ATTEMPTS
      ensures Mine(pid).alerts == if (reply == Exhausted || reply == WriteFailed) && cfg.hasOnConflict then 1 else 0
    {
      ReplyKinds(cfg, began, trace, pid);
    }

    /** The reply of a call that has returned, while the store answered. */
    lemma {:induction false} Conclude(pid: Pid, first: Call, reply: Reply, env: Environment)
      requires Answered(pid, first, reply) && Well(pid, env)
      ensures Tame(env) && first.since >= 1 ==>
        var id, since := first.id, first.since;
        && id in state.store && !BlamesStore(reply)
        && (OutOfAttempts(reply) ==> VersionOf(state.store, id) >= since + MAX_ATTEMPTS)
        && (reply == Refused && Welcoming(env) ==> Outlived(state.store[id], state.clock))
        && (reply == Lost ==> VersionOf(state.store, id) >= since + MAX_ATTEMPTS || Taken(state.store[id], first.begun))
        && (reply == Lost && VersionOf(state.store, id) <= since ==> first.found.Some? && Taken(first.found.value, first.begun))
    {
      hide Coursing, Exec;
      if Tame(env) && first.since >= 1 {
        SaysOnCourse(state, pid, Welcoming(env));
      }
    }

    method CancelOnce(pid: Pid, id: string, env: Environment, attempts: nat, ghost first: Call) returns (reply: Option<Reply>)
      requires first.kind == Cancelling && first.id == id
      requires attempts < MAX_ATTEMPTS && AtAttempt(pid, first, attempts, Conflicted) && Fair(pid, env) && Well(pid, env)
      modifies this
      ensures old(trace) <= trace && Well(pid, env)
      ensures reply.None? ==> AtAttempt(pid, first, attempts + 1, Conflicted)
      ensures reply.Some? ==> Answered(pid, first, reply.value)
    {
      hide Coursing, Exec, Step, Tame, Welcoming, Fair;
      var got := GetTask(pid, id, env, 4 * attempts, attempts);
      if got.None? { return Some(Refused); }
      var current := got.value;
      var now := Look(pid, env, 4 * attempts + 1, attempts);
      if Expired(current, now) || !env.authorized(attempts) { return Some(Refused); }
      if Terminal(current.status) { return Some(Acknowledged); }
      now := Touch(pid, env, 4 * attempts + 2, attempts);
      current := current.(status := Cancelled, statusMessage := "cancelled", lastUpdatedAt := now, leaseUntil := 0);
      var answer := UpdateTask(pid, current, env, 4 * attempts + 3, attempts);
      if answer == Conflict { return None; }
      if answer != Ok || env.hookFails { return Some(Refused); }
      return Some(Acknowledged);
    }

    /**
     cancel: an acknowledgement is only given for a record that is terminal; if no store call fails,
     the cancel is authorized, its hook does not fail and at most two writes of others land while it
     runs, it is given unless the record has expired.
     */
    method Cancel(pid: Pid, id: string, env: Environment) returns (reply: Reply)
      requires Valid() && pid !in state.calls && Fair(pid, env)
      modifies this
      ensures Valid() && old(trace) <= trace
      ensures Answered(pid, NewCall(old(state), Cancelling, id), reply)
      ensures reply == Acknowledged || reply == Refused || reply == Conflicted
      ensures reply == Acknowledged ==>
        id in state.store && Terminal(state.store[id].status) && !Outlived(state.store[id], old(state).clock)
      ensures Tame(env) && Welcoming(env) && id in old(state).store ==>
        && id in state.store
        && (VersionOf(state.store, id) <= VersionOf(old(state).store, id) + 2 && !Outlived(state.store[id], state.clock) ==>
              reply == Acknowledged)
    {
      hide Coursing, Exec, Step, ReplyOk, Tame, Welcoming, Fair;
      ghost var first := NewCall(state, Cancelling, id);
      if id in state.store { StoredVersion(cfg, began, trace, id); }
      Enter(pid, Cancelling, id, env);
      for attempts := 0 to MAX_ATTEMPTS
        invariant AtAttempt(pid, first, attempts, Conflicted) && old(trace) <= trace && Well(pid, env)
      {
        var r := CancelOnce(pid, id, env, attempts, first);
        if r.Some? {
          Truthful(pid, first, r.value);
          Conclude(pid, first, r.value, env);
          return r.value;
        }
      }
      Conclude(pid, first, Conflicted, env);
      return Conflicted;
    }
  }
}
