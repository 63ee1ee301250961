/**
 The durable task records of the MCP server and the steps that server instances
 take on them (mcp/tasks.go).

 Any number of instances share one store. Each call of claim, extendLease, finish
 or cancel is a retry loop of at most three attempts; one attempt reads a record,
 looks at it, looks at the clock and writes the record back under a version check.
 `Step` performs one of these steps of one call, so a sequence of moves is one
 interleaving of any number of calls, store failures and clock advances. A move that
 does not apply to the present state changes nothing.
 */
module TaskProtocol {
  import opened Wrappers

  datatype Status = Working | Completed | Cancelled | Failed

  predicate Terminal(s: Status) {
    s == Completed || s == Cancelled || s == Failed
  }

  /** Times are nanoseconds since Go's zero time, so `leaseUntil == 0` is the unclaimed lease. */
  datatype Record = Record(
    id: string,
    entryId: string,
    arguments: string,
    identity: string,
    createdAt: nat,
    ttlMs: Option<nat>,
    pollIntervalMs: nat,
    status: Status,
    statusMessage: string,
    result: Option<string>,
    failure: Option<string>,
    lastUpdatedAt: nat,
    leaseUntil: nat,
    version: nat)

  /** `lease` is the configured value; zero selects the default of thirty seconds. */
  datatype Config = Config(lease: nat, hasOnConflict: bool)

  function Lease(cfg: Config): (l: nat)
    ensures l > 0
  {
    if cfg.lease > 0 then cfg.lease else 30_000_000_000
  }

  predicate LeaseHeld(r: Record, now: nat) {
    r.leaseUntil != 0 && now < r.leaseUntil
  }

  predicate Expired(r: Record, now: nat) {
    r.ttlMs.Some? && now > r.createdAt + r.ttlMs.value * 1_000_000
  }

  /** How the run of a task ended, as handed to finish. */
  datatype RunEnd = Succeeded(result: Option<string>) | Interrupted | Errored(message: string)

  datatype Kind = Claiming | Extending | Finishing(end: RunEnd) | Cancelling

  datatype Reply =
    // claim
    | Won(at: nat) | Lost | ClaimFailed
    // extendLease
    | Renewed | LeaseTerminal | Unreachable
    // finish: written, found terminal, read failed (silent return), or reported as not persisted
    | Persisted | AlreadyTerminal | ReadFailed | WriteFailed | Exhausted
    // cancel: acknowledged, refused with an error, or ErrTaskConflict
    | Acknowledged | Refused | Conflicted

  datatype Phase =
    | Reading                                // about to call GetTask
    | Deciding(seen: Record)                 // GetTask answered
    | Stamping(seen: Record)                 // the record is to be changed
    | Writing(seen: Record, next: Record)    // about to call UpdateTask(next)
    | Returned(reply: Reply, at: nat)        // `at`: the record's version on return

  /**
   `since` is the record's version when the call began, `found` the record itself and `begun` the
   clock at that moment; `alerts` counts OnConflict calls.
   */
  datatype Call = Call(
    kind: Kind, id: string, attempts: nat, phase: Phase, since: nat, alerts: nat, begun: nat, found: Option<Record>)

  type Pid = nat

  /** A claim that returned true; `at` is the clock reading its deadline was computed from. */
  datatype Win = Win(pid: Pid, id: string, at: nat)

  datatype System = System(clock: nat, store: map<string, Record>, calls: map<Pid, Call>, wins: seq<Win>)

  /** The store's own failures: none, refused without effect, or applied but reported as failed. */
  datatype WriteFault = NoFault | Down | LostReply

  datatype Move =
    | Tick(elapsed: nat)
    | Create(id: string, entryId: string, arguments: string, identity: string, ttlMs: Option<nat>, pollMs: nat)
    | Begin(pid: Pid, kind: Kind, id: string)
    | Read(pid: Pid, unreadable: bool, contextDone: bool)
    | Decide(pid: Pid, authorized: bool)
    | Stamp(pid: Pid, lag: nat)
    | Write(pid: Pid, fault: WriteFault, hookFails: bool)

  const MAX_ATTEMPTS := 3

  function VersionOf(store: map<string, Record>, id: string): nat {
    if id in store then store[id].version else 0
  }

  function Stored(store: map<string, Record>, id: string): Option<Record> {
    if id in store then Some(store[id]) else None
  }

  function NewRecord(m: Move, now: nat): Record
    requires m.Create?
  {
    Record(m.id, m.entryId, m.arguments, m.identity, now, m.ttlMs, m.pollMs,
           Working, "", None, None, now, 0, 1)
  }

  function Return(c: Call, reply: Reply, version: nat): Call {
    c.(phase := Returned(reply, version))
  }

  /** finish's last lines: the completion is reported as not persisted. */
  function Report(cfg: Config, c: Call, reply: Reply, version: nat): Call {
    Return(c, reply, version).(alerts := c.alerts + if cfg.hasOnConflict then 1 else 0)
  }

  /** The end of one attempt: the next one, or the reply for a loop that ran out. */
  function Retry(cfg: Config, c: Call, version: nat): Call {
    if c.attempts + 1 < MAX_ATTEMPTS then c.(attempts := c.attempts + 1, phase := Reading)
    else
      match c.kind
      case Claiming => Return(c, Lost, version)
      case Extending => Return(c, Unreachable, version)
      case Finishing(_) => Report(cfg, c, Exhausted, version)
      case Cancelling => Return(c, Conflicted, version)
  }

  function AfterRead(cfg: Config, c: Call, got: Option<Record>, contextDone: bool, version: nat): Call {
    match got
    case Some(r) => c.(phase := Deciding(r))
    case None =>
      match c.kind
      case Claiming =>
        if c.attempts + 1 == MAX_ATTEMPTS then Return(c, ClaimFailed, version)
        else if contextDone then Return(c, Lost, version)
        else Retry(cfg, c, version)
      case Extending => if contextDone then Return(c, Unreachable, version) else Retry(cfg, c, version)
      case Finishing(_) => Return(c, ReadFailed, version)
      case Cancelling => Return(c, Refused, version)
  }

  function AfterDecide(c: Call, now: nat, authorized: bool, version: nat): Call
    requires c.phase.Deciding?
  {
    var seen := c.phase.seen;
    match c.kind
    case Claiming =>
      if seen.status != Working || LeaseHeld(seen, now) then Return(c, Lost, version)
      else c.(phase := Stamping(seen))
    case Extending =>
      if seen.status != Working then Return(c, LeaseTerminal, version) else c.(phase := Stamping(seen))
    case Finishing(_) =>
      if Terminal(seen.status) then Return(c, AlreadyTerminal, version) else c.(phase := Stamping(seen))
    case Cancelling =>
      if Expired(seen, now) || !authorized then Return(c, Refused, version)
      else if Terminal(seen.status) then Return(c, Acknowledged, version)
      else c.(phase := Stamping(seen))
  }

  /** The record a call is about to write: `now` is its first clock reading, `later` its second. */
  function Stamped(cfg: Config, kind: Kind, r: Record, now: nat, later: nat): Record {
    match kind
    case Claiming => r.(leaseUntil := now + Lease(cfg), lastUpdatedAt := later)
    case Extending => r.(leaseUntil := now + Lease(cfg), lastUpdatedAt := later)
    case Finishing(Succeeded(result)) =>
      r.(lastUpdatedAt := now, leaseUntil := 0, status := Completed, result := result)
    case Finishing(Interrupted) =>
      r.(lastUpdatedAt := now, leaseUntil := 0, status := Cancelled, statusMessage := "cancelled")
    case Finishing(Errored(message)) =>
      r.(lastUpdatedAt := now, leaseUntil := 0, status := Failed, statusMessage := message, failure := Some(message))
    case Cancelling =>
      r.(status := Cancelled, statusMessage := "cancelled", lastUpdatedAt := now, leaseUntil := 0)
  }

  function AfterStamp(cfg: Config, c: Call, now: nat, later: nat): Call
    requires c.phase.Stamping?
  {
    c.(phase := Writing(c.phase.seen, Stamped(cfg, c.kind, c.phase.seen, now, later)))
  }

  datatype Answer = Ok | Conflict | StoreError

  function AfterWrite(cfg: Config, c: Call, answer: Answer, hookFails: bool, version: nat): Call
    requires c.phase.Writing?
  {
    match answer
    case Conflict => Retry(cfg, c, version)
    case StoreError =>
      (match c.kind
       case Claiming => Return(c, ClaimFailed, version)
       case Extending => Return(c, Unreachable, version)
       case Finishing(_) => Report(cfg, c, WriteFailed, version)
       case Cancelling => Return(c, Refused, version))
    case Ok =>
      match c.kind
      case Claiming => Return(c, Won(DeadlineBase(cfg, c.phase.next)), version)
      case Extending => Return(c, Renewed, version)
      case Finishing(_) => Return(c, Persisted, version)
      case Cancelling => Return(c, if hookFails then Refused else Acknowledged, version)
  }

  /** The clock reading a stamped deadline was computed from. */
  function DeadlineBase(cfg: Config, r: Record): nat {
    if r.leaseUntil >= Lease(cfg) then r.leaseUntil - Lease(cfg) else 0
  }

  /** UpdateTask: the version check decides whether the record is replaced. */
  predicate Lands(store: map<string, Record>, next: Record, fault: WriteFault) {
    next.id in store && store[next.id].version == next.version && fault != Down
  }

  function Updated(store: map<string, Record>, next: Record, fault: WriteFault): map<string, Record> {
    if Lands(store, next, fault) then store[next.id := next.(version := next.version + 1)] else store
  }

  function AnswerOf(store: map<string, Record>, next: Record, fault: WriteFault): Answer {
    if fault != NoFault || next.id !in store then StoreError
    else if store[next.id].version != next.version then Conflict
    else Ok
  }

  function NewCall(s: System, kind: Kind, id: string): Call {
    Call(kind, id, 0, Reading, VersionOf(s.store, id), 0, s.clock, Stored(s.store, id))
  }

  function Set(s: System, pid: Pid, c: Call): System {
    s.(calls := s.calls[pid := c])
  }

  function Step(cfg: Config, s: System, m: Move): System {
    match m
    case Tick(elapsed) => s.(clock := s.clock + elapsed)
    case Create(id, _, _, _, _, _) =>
      if id in s.store then s else s.(store := s.store[id := NewRecord(m, s.clock)])
    case Begin(pid, kind, id) =>
      if pid in s.calls then s else Set(s, pid, NewCall(s, kind, id))
    case Read(pid, unreadable, contextDone) =>
      if pid !in s.calls || !s.calls[pid].phase.Reading? then s else
        var c := s.calls[pid];
        var got := if unreadable || c.id !in s.store then None else Some(s.store[c.id]);
        Set(s, pid, AfterRead(cfg, c, got, contextDone, VersionOf(s.store, c.id)))
    case Decide(pid, authorized) =>
      if pid !in s.calls || !s.calls[pid].phase.Deciding? then s else
        var c := s.calls[pid];
        Set(s, pid, AfterDecide(c, s.clock, authorized, VersionOf(s.store, c.id)))
    case Stamp(pid, lag) =>
      if pid !in s.calls || !s.calls[pid].phase.Stamping? then s else
        var c := s.calls[pid];
        Set(s, pid, AfterStamp(cfg, c, s.clock, s.clock + lag)).(clock := s.clock + lag)
    case Write(pid, fault, hookFails) =>
      if pid !in s.calls || !s.calls[pid].phase.Writing? then s else
        var c := s.calls[pid];
        var next := c.phase.next;
        var store := Updated(s.store, next, fault);
        var answer := AnswerOf(s.store, next, fault);
        var c' := AfterWrite(cfg, c, answer, hookFails, VersionOf(store, c.id));
        System(s.clock, store, s.calls[pid := c'],
               if c.kind == Claiming && answer == Ok then s.wins + [Win(pid, c.id, c'.phase.reply.at)] else s.wins)
  }

  function Exec(cfg: Config, s: System, moves: seq<Move>): System
    decreases |moves|
  {
    if moves == [] then s else Exec(cfg, Step(cfg, s, moves[0]), moves[1..])
  }

  /** No records, no calls: where every deployment starts. */
  function Start(clock: nat): System {
    System(clock, map[], map[], [])
  }
}
