/**
 The deduplicate-then-run path of the channel handlers (channels/handler.go) and
 `StoreDeduplicator.Seen` (channels/dedup.go) as they are written, with other callers
 moving between any two of their store calls. Each call is proved to be an execution of
 the protocol of `StoreDedup`.
 */
module ChannelHandler {
  import opened StoreDedup

  /** What happens around the three store calls of one caller; every field is arbitrary. */
  datatype Environment = Environment(others: nat -> seq<Move>, unreadable: nat -> bool, fault: CreateFault)

  predicate Foreign(pid: Pid, m: Move) {
    m.OtherThread? || m.pid != pid
  }

  ghost predicate Fair(pid: Pid, env: Environment) {
    forall k: nat, i :: 0 <= i < |env.others(k)| ==> Foreign(pid, env.others(k)[i])
  }

  lemma {:induction false} ExecAppend(mark: Marking, s: System, pre: seq<Move>, post: seq<Move>)
    ensures Exec(mark, s, pre + post) == Exec(mark, Exec(mark, s, pre), post)
    decreases |pre|
  {
    if pre == [] {
      assert pre + post == post;
    } else {
      assert (pre + post)[0] == pre[0] && (pre + post)[1..] == pre[1..] + post;
      ExecAppend(mark, Step(mark, s, pre[0]), pre[1..], post);
    }
  }

  lemma {:induction false} ForeignMoves(mark: Marking, s: System, moves: seq<Move>, pid: Pid)
    requires forall i :: 0 <= i < |moves| ==> Foreign(pid, moves[i])
    ensures pid in s.callers ==>
      pid in Exec(mark, s, moves).callers && Exec(mark, s, moves).callers[pid] == s.callers[pid]
    decreases |moves|
  {
    if moves != [] {
      ForeignMoves(mark, Step(mark, s, moves[0]), moves[1..], pid);
    }
  }

  class Channel {
    const mark: Marking
    var state: System
    ghost const began: set<string>
    ghost var trace: seq<Move>

    ghost predicate Valid()
      reads this
    {
      state == Exec(mark, Idle(began), trace)
    }

    constructor (mark: Marking, threads: set<string>)
      ensures Valid() && state == Idle(threads) && this.mark == mark
    {
      this.mark, this.began := mark, threads;
      state, trace := Idle(threads), [];
    }

    /** Other callers move; the caller `pid` stays where it is. */
    method Interfere(others: seq<Move>, pid: Pid)
      requires Valid() && forall i :: 0 <= i < |others| ==> Foreign(pid, others[i])
      modifies this
      ensures Valid() && trace == old(trace) + others
      ensures old(pid in state.callers) ==> pid in state.callers && state.callers[pid] == old(state).callers[pid]
    {
      for i := 0 to |others|
        invariant Exec(mark, state, others[i..]) == Exec(mark, old(state), others)
        invariant trace == old(trace)
      {
        state := Step(mark, state, others[i]);
        assert others[i..][1..] == others[i + 1..];
      }
      ForeignMoves(mark, old(state), others, pid);
      ExecAppend(mark, Idle(began), trace, others);
      trace := trace + others;
    }

    method Do(m: Move)
      requires Valid()
      modifies this
      ensures Valid() && trace == old(trace) + [m] && state == Step(mark, old(state), m)
    {
      ExecAppend(mark, Idle(began), trace, [m]);
      state := Step(mark, state, m);
      trace := trace + [m];
      assert Exec(mark, state, [m][1..]) == state;
    }

    /** StoreDeduplicator.Seen: get, create, and after a failed create get again. */
    method Seen(pid: Pid, message: Message, env: Environment) returns (duplicate: bool, err: bool)
      requires Valid() && Fair(pid, env) && At(state, pid, Getting) && state.callers[pid].message == message
      modifies this
      ensures Valid() && old(trace) <= trace
      ensures pid in state.callers && state.callers[pid].message == message
      ensures At(state, pid, if err then Errored else if duplicate then Dropped else Entered)
    {
      var marker := mark(message);
      Interfere(env.others(0), pid);
      var present := marker in state.threads;
      Do(Get(pid, env.unreadable(0)));
      if env.unreadable(0) { return false, true; }
      if present { return true, false; }
      Interfere(env.others(1), pid);
      present := marker in state.threads;
      Do(Create(pid, env.fault));
      if !present && env.fault == NoFault { return false, false; }
      Interfere(env.others(2), pid);
      present := marker in state.threads;
      Do(Recheck(pid, env.unreadable(2)));
      if !env.unreadable(2) && present { return true, false; }
      return false, true;
    }

    /**
     One webhook delivery or one dispatched job, up to the point where it runs the
     agent. A message without a provider ID always runs; for any other message a
     caller that runs is the only one.
     */
    method Deliver(pid: Pid, message: Message, env: Environment) returns (runs: bool, err: bool)
      requires Valid() && Fair(pid, env) && pid !in state.callers
      modifies this
      ensures Valid() && old(trace) <= trace && pid in state.callers && state.callers[pid].message == message
      ensures message.id == "" ==> runs && !err && At(state, pid, Unkeyed)
      ensures message.id != "" ==> At(state, pid, if err then Errored else if runs then Entered else Dropped)
      ensures runs && message.id != "" ==>
        forall q :: At(state, q, Entered) && q != pid ==> state.callers[q].message != message
    {
      Do(Arrive(pid, message));
      if message.id != "" {
        var duplicate, failed := Seen(pid, message, env);
        ExecExclusive(mark, Idle(began), trace);
        if failed { return false, true; }
        if duplicate { return false, false; }
      }
      return true, false;
    }
  }
}
