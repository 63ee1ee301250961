/**
 What every interleaving of claims, renewals, finishes and cancels keeps.
 */
module TaskSafety {
  import opened Wrappers
  import opened TaskProtocol

  /** The fields that creation fixes. */
  predicate SameOrigin(r: Record, q: Record) {
    && q.id == r.id && q.entryId == r.entryId && q.arguments == r.arguments && q.identity == r.identity
    && q.createdAt == r.createdAt && q.ttlMs == r.ttlMs && q.pollIntervalMs == r.pollIntervalMs
  }

  /** Terminal records carry no lease; results and failures belong to their own end states. */
  predicate WellFormed(r: Record) {
    && (Terminal(r.status) ==> r.leaseUntil == 0)
    && (r.result.Some? ==> r.status == Completed)
    && (r.failure.Some? <==> r.status == Failed)
  }

  /** The record tells how the run ended. */
  predicate EndedAs(r: Record, end: RunEnd) {
    match end
    case Succeeded(result) => r.status == Completed && r.result == result && r.failure == None
    case Interrupted => r.status == Cancelled && r.result == None && r.failure == None && r.statusMessage == "cancelled"
    case Errored(message) => r.status == Failed && r.result == None && r.failure == Some(message) && r.statusMessage == message
  }

  /** `q` is `r` or a later version of it: only a working record changes, its deadline only grows and its time stamp never goes back. */
  predicate Descends(r: Record, q: Record) {
    || q == r
    || (&& r.status == Working && SameOrigin(r, q) && r.version < q.version && r.lastUpdatedAt <= q.lastUpdatedAt
        && (q.status == Working ==> r.leaseUntil <= q.leaseUntil))
  }

  predicate StoreDescends(before: map<string, Record>, after: map<string, Record>) {
    forall id :: id in before ==> id in after && Descends(before[id], after[id])
  }

  predicate RecordOk(cfg: Config, clock: nat, id: string, r: Record) {
    && r.id == id && r.version >= 1 && WellFormed(r)
    && r.leaseUntil <= clock + Lease(cfg) && r.createdAt <= r.lastUpdatedAt <= clock
  }

  /** The copy a call holds is a former state of the stored record. */
  predicate CopyOk(cfg: Config, clock: nat, store: map<string, Record>, id: string, seen: Record) {
    && id in store && Descends(seen, store[id]) && RecordOk(cfg, clock, id, seen)
  }

  /** The write a call is about to make, against the copy it was computed from. */
  predicate WriteOk(cfg: Config, clock: nat, kind: Kind, begun: nat, seen: Record, next: Record) {
    && seen.status == Working && SameOrigin(seen, next) && next.version == seen.version && WellFormed(next)
    && next.leaseUntil <= clock + Lease(cfg)
    && begun <= next.lastUpdatedAt <= clock && seen.lastUpdatedAt <= next.lastUpdatedAt
    && (kind == Claiming || kind == Extending ==>
          next.status == Working && seen.leaseUntil <= next.leaseUntil && begun + Lease(cfg) <= next.leaseUntil)
    && (kind == Claiming ==> next.leaseUntil >= seen.leaseUntil + Lease(cfg))
    && (kind.Finishing? ==> EndedAs(next, kind.end))
    && (kind == Cancelling ==> next.status == Cancelled && next.statusMessage == "cancelled")
  }

  /** The record has a lease from after the call began, or is over since. */
  predicate Leased(cfg: Config, store: map<string, Record>, c: Call, at: nat) {
    && c.id in store
    && (store[c.id].version == at ==> store[c.id].status == Working)
    && (store[c.id].status == Working ==> store[c.id].leaseUntil >= c.begun + Lease(cfg))
  }

  /** The time to live ended before the call began. */
  predicate Outlived(r: Record, begun: nat) {
    r.ttlMs.Some? && begun > r.createdAt + r.ttlMs.value * 1_000_000
  }

  predicate ReplyOk(cfg: Config, store: map<string, Record>, c: Call, reply: Reply, at: nat) {
    && (reply == Acknowledged || reply == Persisted || reply == AlreadyTerminal || reply == LeaseTerminal ==>
          c.id in store && Terminal(store[c.id].status))
    && (reply == Persisted ==> c.kind.Finishing? && EndedAs(store[c.id], c.kind.end))
    && (reply == Acknowledged ==> !Outlived(store[c.id], c.begun))
    && (reply.Won? || reply == Renewed ==> Leased(cfg, store, c, at))
    && (reply.Won? ==> reply.at >= c.begun)
    && (reply.Won? || reply == Renewed || reply == Persisted ==> c.id in store && store[c.id].lastUpdatedAt >= c.begun)
    && (reply == Exhausted ==> at >= c.since + MAX_ATTEMPTS)
    && at <= VersionOf(store, c.id)
    && c.alerts == if (reply == Exhausted || reply == WriteFailed) && cfg.hasOnConflict then 1 else 0
  }

  predicate RepliesOf(kind: Kind, reply: Reply) {
    match kind
    case Claiming => reply.Won? || reply == Lost || reply == ClaimFailed
    case Extending => reply == Renewed || reply == LeaseTerminal || reply == Unreachable
    case Finishing(_) =>
      reply == Persisted || reply == AlreadyTerminal || reply == ReadFailed || reply == WriteFailed || reply == Exhausted
    case Cancelling => reply == Acknowledged || reply == Refused || reply == Conflicted
  }

  predicate CallOk(cfg: Config, clock: nat, store: map<string, Record>, c: Call) {
    && c.attempts < 3 && c.begun <= clock
    && (!c.phase.Returned? ==> c.alerts == 0)
    && match c.phase
       case Reading => c.kind.Finishing? ==> c.since + c.attempts <= VersionOf(store, c.id)
       case Deciding(seen) =>
         && CopyOk(cfg, clock, store, c.id, seen)
         && (c.kind.Finishing? ==> c.since + c.attempts <= seen.version)
       case Stamping(seen) =>
         && CopyOk(cfg, clock, store, c.id, seen) && seen.status == Working
         && (c.kind == Cancelling ==> !Outlived(seen, c.begun))
         && (c.kind == Claiming ==> seen.leaseUntil <= clock)
         && (c.kind.Finishing? ==> c.since + c.attempts <= seen.version)
       case Writing(seen, next) =>
         && CopyOk(cfg, clock, store, c.id, seen) && WriteOk(cfg, clock, c.kind, c.begun, seen, next)
         && (c.kind == Cancelling ==> !Outlived(seen, c.begun))
         && (c.kind.Finishing? ==> c.since + c.attempts <= seen.version)
       case Returned(reply, at) => RepliesOf(c.kind, reply) && ReplyOk(cfg, store, c, reply, at)
  }

  /** A won claim is remembered by the stored deadline until the record leaves the working state. */
  predicate WinOk(cfg: Config, clock: nat, store: map<string, Record>, w: Win) {
    && w.at <= clock
    && w.id in store
    && (store[w.id].status == Working ==> store[w.id].leaseUntil >= w.at + Lease(cfg))
  }

  predicate Spaced(cfg: Config, wins: seq<Win>) {
    forall i, j :: 0 <= i < j < |wins| && wins[i].id == wins[j].id ==> wins[j].at >= wins[i].at + Lease(cfg)
  }

  /** Every claim that returned true is among the wins. */
  predicate Logged(pid: Pid, c: Call, wins: seq<Win>) {
    c.phase.Returned? && c.phase.reply.Won? ==> Win(pid, c.id, c.phase.reply.at) in wins
  }

  ghost predicate Inv(cfg: Config, s: System) {
    && (forall id :: id in s.store ==> RecordOk(cfg, s.clock, id, s.store[id]))
    && (forall pid :: pid in s.calls ==> CallOk(cfg, s.clock, s.store, s.calls[pid]))
    && (forall pid :: pid in s.calls ==> Logged(pid, s.calls[pid], s.wins))
    && (forall i :: 0 <= i < |s.wins| ==> WinOk(cfg, s.clock, s.store, s.wins[i]))
    && Spaced(cfg, s.wins)
  }

  // ----- One step -----

  /** A call's own facts survive everything the rest of the system does. */
  lemma CallSurvives(cfg: Config, clock: nat, clock': nat, store: map<string, Record>, store': map<string, Record>, c: Call)
    requires CallOk(cfg, clock, store, c)
    requires clock <= clock' && StoreDescends(store, store')
    ensures CallOk(cfg, clock', store', c)
  {
    if c.id in store {
      assert Descends(store[c.id], store'[c.id]);
    }
  }

  lemma WinSurvives(cfg: Config, clock: nat, clock': nat, store: map<string, Record>, store': map<string, Record>, w: Win)
    requires WinOk(cfg, clock, store, w)
    requires clock <= clock' && StoreDescends(store, store')
    ensures WinOk(cfg, clock', store', w)
  {
    assert Descends(store[w.id], store'[w.id]);
  }

  /** The invariant of a successor state, from what is new in it. */
  lemma RestSurvives(cfg: Config, s: System, s': System)
    requires Inv(cfg, s)
    requires s.clock <= s'.clock && StoreDescends(s.store, s'.store)
    requires forall id :: id in s'.store ==> RecordOk(cfg, s'.clock, id, s'.store[id])
    requires forall pid :: pid in s'.calls ==>
      || (pid in s.calls && s'.calls[pid] == s.calls[pid])
      || (CallOk(cfg, s'.clock, s'.store, s'.calls[pid]) && Logged(pid, s'.calls[pid], s'.wins))
    requires s.wins <= s'.wins
    requires forall i :: |s.wins| <= i < |s'.wins| ==> WinOk(cfg, s'.clock, s'.store, s'.wins[i])
    requires Spaced(cfg, s'.wins)
    ensures Inv(cfg, s')
  {
    forall pid | pid in s'.calls
      ensures CallOk(cfg, s'.clock, s'.store, s'.calls[pid]) && Logged(pid, s'.calls[pid], s'.wins)
    {
      if pid in s.calls && s'.calls[pid] == s.calls[pid] {
        assert Logged(pid, s.calls[pid], s.wins);
        CallSurvives(cfg, s.clock, s'.clock, s.store, s'.store, s.calls[pid]);
      }
    }
    forall i | 0 <= i < |s.wins|
      ensures WinOk(cfg, s'.clock, s'.store, s'.wins[i])
    {
      WinSurvives(cfg, s.clock, s'.clock, s.store, s'.store, s.wins[i]);
    }
  }

  /** A step that only replaces one call and advances the clock. */
  lemma CallKeeps(cfg: Config, s: System, pid: Pid, c: Call, clock: nat)
    requires Inv(cfg, s) && s.clock <= clock
    requires CallOk(cfg, clock, s.store, c)
    requires !(c.phase.Returned? && c.phase.reply.Won?)
    ensures Inv(cfg, Set(s, pid, c).(clock := clock))
  {
    RestSurvives(cfg, s, Set(s, pid, c).(clock := clock));
  }

  lemma ReadCall(cfg: Config, clock: nat, store: map<string, Record>, c: Call, got: Option<Record>, contextDone: bool)
    requires CallOk(cfg, clock, store, c) && c.phase.Reading?
    requires got.Some? ==> c.id in store && got.value == store[c.id] && RecordOk(cfg, clock, c.id, got.value)
    ensures CallOk(cfg, clock, store, AfterRead(cfg, c, got, contextDone, VersionOf(store, c.id)))
  {
  }

  lemma DecideCall(cfg: Config, clock: nat, store: map<string, Record>, c: Call, authorized: bool)
    requires CallOk(cfg, clock, store, c) && c.phase.Deciding?
    ensures CallOk(cfg, clock, store, AfterDecide(c, clock, authorized, VersionOf(store, c.id)))
  {
  }

  lemma StampCall(cfg: Config, clock: nat, store: map<string, Record>, c: Call, lag: nat)
    requires CallOk(cfg, clock, store, c) && c.phase.Stamping?
    ensures CallOk(cfg, clock + lag, store, AfterStamp(cfg, c, clock, clock + lag))
    ensures AfterStamp(cfg, c, clock, clock + lag).phase.Writing?
  {
  }

  /** A write that lands replaces exactly the copy it was computed from. */
  lemma WriteStore(cfg: Config, clock: nat, store: map<string, Record>, c: Call, fault: WriteFault)
    requires CallOk(cfg, clock, store, c) && c.phase.Writing?
    ensures StoreDescends(store, Updated(store, c.phase.next, fault))
    ensures forall id :: id in Updated(store, c.phase.next, fault) ==> id in store
    ensures Lands(store, c.phase.next, fault) ==> store[c.id] == c.phase.seen
    ensures RecordOk(cfg, clock, c.id, c.phase.next.(version := c.phase.next.version + 1))
  {
  }

  /** A conflict: somebody else wrote since this attempt read. */
  lemma ConflictCall(cfg: Config, clock: nat, store: map<string, Record>, c: Call)
    requires CallOk(cfg, clock, store, c) && c.phase.Writing? && AnswerOf(store, c.phase.next, NoFault) == Conflict
    ensures CallOk(cfg, clock, store, Retry(cfg, c, VersionOf(store, c.id)))
  {
  }

  lemma ErrorCall(cfg: Config, clock: nat, store: map<string, Record>, store': map<string, Record>, c: Call, hookFails: bool)
    requires CallOk(cfg, clock, store, c) && c.phase.Writing? && StoreDescends(store, store')
    ensures CallOk(cfg, clock, store', AfterWrite(cfg, c, StoreError, hookFails, VersionOf(store', c.id)))
  {
  }

  lemma LandedCall(cfg: Config, clock: nat, store: map<string, Record>, c: Call, hookFails: bool)
    requires CallOk(cfg, clock, store, c) && c.phase.Writing?
    ensures var store' := store[c.id := c.phase.next.(version := c.phase.next.version + 1)];
            CallOk(cfg, clock, store', AfterWrite(cfg, c, Ok, hookFails, VersionOf(store', c.id)))
  {
  }

  lemma WritesOwn(cfg: Config, clock: nat, store: map<string, Record>, c: Call)
    requires CallOk(cfg, clock, store, c) && c.phase.Writing?
    ensures c.phase.next.id == c.id
  {
  }

  lemma WriteCall(cfg: Config, clock: nat, store: map<string, Record>, c: Call, fault: WriteFault, hookFails: bool)
    requires CallOk(cfg, clock, store, c) && c.phase.Writing?
    ensures var store' := Updated(store, c.phase.next, fault);
            CallOk(cfg, clock, store',
                   AfterWrite(cfg, c, AnswerOf(store, c.phase.next, fault), hookFails, VersionOf(store', c.id)))
  {
    WritesOwn(cfg, clock, store, c);
    hide CallOk, Retry;
    match AnswerOf(store, c.phase.next, fault)
    case Conflict =>
      ConflictCall(cfg, clock, store, c);
    case StoreError =>
      WriteStore(cfg, clock, store, c, fault);
      hide StoreDescends;
      ErrorCall(cfg, clock, store, Updated(store, c.phase.next, fault), c, hookFails);
      hide AfterWrite;
    case Ok =>
      LandedCall(cfg, clock, store, c, hookFails);
      hide AfterWrite;
  }

  /** The claim rule: a claim that wins was computed after every earlier winner's deadline. */
  lemma NewWin(cfg: Config, s: System, pid: Pid)
    requires Inv(cfg, s) && pid in s.calls
    requires var c := s.calls[pid]; c.kind == Claiming && c.phase.Writing? && Lands(s.store, c.phase.next, NoFault)
    ensures var c := s.calls[pid];
            var w := Win(pid, c.id, DeadlineBase(cfg, c.phase.next));
            && Spaced(cfg, s.wins + [w])
            && WinOk(cfg, s.clock, Updated(s.store, c.phase.next, NoFault), w)
  {
    var c := s.calls[pid];
    assert CallOk(cfg, s.clock, s.store, c);
    WriteStore(cfg, s.clock, s.store, c, NoFault);
    var w := Win(pid, c.id, DeadlineBase(cfg, c.phase.next));
    forall i | 0 <= i < |s.wins| && s.wins[i].id == w.id
      ensures w.at >= s.wins[i].at + Lease(cfg)
    {
      assert WinOk(cfg, s.clock, s.store, s.wins[i]);
    }
  }

  /** A write adds to the invariant at most the replaced record, the call's reply and a win. */
  lemma WrittenKeeps(cfg: Config, s: System, pid: Pid, fault: WriteFault, c': Call, wins: seq<Win>)
    requires Inv(cfg, s) && pid in s.calls && s.calls[pid].phase.Writing?
    requires var store := Updated(s.store, s.calls[pid].phase.next, fault);
             && CallOk(cfg, s.clock, store, c') && Logged(pid, c', wins)
             && (wins == s.wins || (exists w :: wins == s.wins + [w] && WinOk(cfg, s.clock, store, w)))
             && Spaced(cfg, wins)
    ensures var store := Updated(s.store, s.calls[pid].phase.next, fault);
            Inv(cfg, System(s.clock, store, s.calls[pid := c'], wins)) && StoreDescends(s.store, store)
  {
    var c := s.calls[pid];
    assert CallOk(cfg, s.clock, s.store, c);
    WriteStore(cfg, s.clock, s.store, c, fault);
    RestSurvives(cfg, s, System(s.clock, Updated(s.store, c.phase.next, fault), s.calls[pid := c'], wins));
  }

  lemma WriteKeeps(cfg: Config, s: System, m: Move)
    requires Inv(cfg, s) && m.Write? && m.pid in s.calls && s.calls[m.pid].phase.Writing?
    ensures Inv(cfg, Step(cfg, s, m)) && StoreDescends(s.store, Step(cfg, s, m).store)
  {
    hide CallOk, WinOk, RecordOk;
    InvCall(cfg, s, m.pid);
    var c := s.calls[m.pid];
    var store := Updated(s.store, c.phase.next, m.fault);
    var answer := AnswerOf(s.store, c.phase.next, m.fault);
    var c' := AfterWrite(cfg, c, answer, m.hookFails, VersionOf(store, c.id));
    WriteCall(cfg, s.clock, s.store, c, m.fault, m.hookFails);
    if c.kind == Claiming && answer == Ok {
      NewWin(cfg, s, m.pid);
      WrittenKeeps(cfg, s, m.pid, m.fault, c', s.wins + [Win(m.pid, c.id, c'.phase.reply.at)]);
    } else {
      WrittenKeeps(cfg, s, m.pid, m.fault, c', s.wins);
    }
  }

  lemma CreateKeeps(cfg: Config, s: System, m: Move)
    requires Inv(cfg, s) && m.Create?
    ensures Inv(cfg, Step(cfg, s, m)) && StoreDescends(s.store, Step(cfg, s, m).store)
  {
    RestSurvives(cfg, s, Step(cfg, s, m));
  }

  lemma ReadKeeps(cfg: Config, s: System, m: Move)
    requires Inv(cfg, s) && m.Read? && m.pid in s.calls && s.calls[m.pid].phase.Reading?
    ensures Inv(cfg, Step(cfg, s, m))
  {
    var c := s.calls[m.pid];
    var got := if m.unreadable || c.id !in s.store then None else Some(s.store[c.id]);
    ReadCall(cfg, s.clock, s.store, c, got, m.contextDone);
    CallKeeps(cfg, s, m.pid, AfterRead(cfg, c, got, m.contextDone, VersionOf(s.store, c.id)), s.clock);
  }

  lemma DecideKeeps(cfg: Config, s: System, m: Move)
    requires Inv(cfg, s) && m.Decide? && m.pid in s.calls && s.calls[m.pid].phase.Deciding?
    ensures Inv(cfg, Step(cfg, s, m))
  {
    var c := s.calls[m.pid];
    DecideCall(cfg, s.clock, s.store, c, m.authorized);
    CallKeeps(cfg, s, m.pid, AfterDecide(c, s.clock, m.authorized, VersionOf(s.store, c.id)), s.clock);
  }

  lemma InvCall(cfg: Config, s: System, pid: Pid)
    requires Inv(cfg, s) && pid in s.calls
    ensures CallOk(cfg, s.clock, s.store, s.calls[pid])
  {
  }

  lemma StampedKeeps(cfg: Config, s: System, pid: Pid, lag: nat, c': Call)
    requires Inv(cfg, s) && pid in s.calls && s.calls[pid].phase.Stamping?
    requires c' == AfterStamp(cfg, s.calls[pid], s.clock, s.clock + lag)
    ensures Inv(cfg, Set(s, pid, c').(clock := s.clock + lag))
  {
    hide AfterStamp, Inv, CallOk;
    InvCall(cfg, s, pid);
    StampCall(cfg, s.clock, s.store, s.calls[pid], lag);
    CallKeeps(cfg, s, pid, c', s.clock + lag);
  }

  lemma StampKeeps(cfg: Config, s: System, m: Move)
    requires Inv(cfg, s) && m.Stamp? && m.pid in s.calls && s.calls[m.pid].phase.Stamping?
    ensures Inv(cfg, Step(cfg, s, m))
  {
    hide Inv, AfterStamp;
    StampedKeeps(cfg, s, m.pid, m.lag, AfterStamp(cfg, s.calls[m.pid], s.clock, s.clock + m.lag));
  }

  lemma BeginKeeps(cfg: Config, s: System, m: Move)
    requires Inv(cfg, s) && m.Begin? && m.pid !in s.calls
    ensures Inv(cfg, Step(cfg, s, m))
  {
    CallKeeps(cfg, s, m.pid, NewCall(s, m.kind, m.id), s.clock);
  }

  lemma StepKeeps(cfg: Config, s: System, m: Move)
    requires Inv(cfg, s)
    ensures Inv(cfg, Step(cfg, s, m)) && StoreDescends(s.store, Step(cfg, s, m).store)
    ensures s.clock <= Step(cfg, s, m).clock
  {
    match m
    case Tick(_) => RestSurvives(cfg, s, Step(cfg, s, m));
    case Create(_, _, _, _, _, _) => CreateKeeps(cfg, s, m);
    case Begin(pid, _, _) => if pid !in s.calls { BeginKeeps(cfg, s, m); }
    case Read(pid, _, _) => if pid in s.calls && s.calls[pid].phase.Reading? { ReadKeeps(cfg, s, m); }
    case Decide(pid, _) => if pid in s.calls && s.calls[pid].phase.Deciding? { DecideKeeps(cfg, s, m); }
    case Stamp(pid, _) => if pid in s.calls && s.calls[pid].phase.Stamping? { StampKeeps(cfg, s, m); }
    case Write(pid, _, _) => if pid in s.calls && s.calls[pid].phase.Writing? { WriteKeeps(cfg, s, m); }
  }
}
