/**
 The Redis job queue, as a state machine. Handlers interleave at every round
 trip to Redis, and any of them may stop anywhere; a MULTI block or a Lua
 script is one step. Clients, the delayed mover, the reclaimer and the orphan
 sweep take steps of their own.

 The stream is never trimmed, live hashes never expire, and HINCRBY on the
 attempts field succeeds or the handler stops. A job id names one message.
 */
module Queue {
  import opened Text

  const ORPHAN_GRACE_MS: int := 600_000

  /** `gate` is the prefix check of `handle_claimed`: Http.ValidPrefix. */
  datatype Settings = Settings(maxAttempts: int, lockTtlMs: int, gate: string -> bool)

  datatype Msg = Msg(job: string, pipeline: string, prefix: string, configVersion: Option<int>,
                     cleanRun: bool, trigger: string, enqueuedAt: int)

  /** What `serde_json` makes of the payload of a stream entry. */
  datatype Payload = Parsed(msg: Msg) | Garbage

  datatype Status = Queued | Running | Completed | FailedStatus | Abandoned

  predicate Terminal(status: Status) {
    status.Completed? || status.FailedStatus? || status.Abandoned?
  }

  /** The fields of a live hash the queue acts on; HINCRBY reads absence as 0. */
  datatype Live = Live(status: Option<Status>, attempts: int, enqueuedAt: Option<int>)

  /** The value of a lock key is `Fence(job, attempt)`; the scripts compare
      values, and by FenceInjective that is comparing the pairs. */
  datatype Lease = Lease(job: string, attempt: int, expiry: int)

  function Fence(job: string, attempt: int): string {
    job + ":" + DecInt(attempt)
  }

  /** Which round trip a handler makes next. */
  datatype Pc =
    | Fresh
    | SeenTerminal
    | Cleared
    | Counted(attempt: int)
    | Busy(attempt: int)
    | Deferring(fireAt: int)
    | Locked(attempt: int)
    | Executing(attempt: int, cancelled: bool)
    | Backoff(attempt: int)
    | Requeue(attempt: int)
    | Finishing(attempt: int, status: Status)
    | Recording(attempt: int, status: Status)
    | Releasing(attempt: int)
    | Acking

  /** A call of `handle_claimed` for a stream entry. `leasedAt` is when its
      last successful lock or renew took effect. */
  datatype Handler = Handler(entry: nat, msg: Msg, pc: Pc, leasedAt: int)

  /** An orphan sweep: the jobs its XRANGE saw, and those it decided to mark. */
  datatype Sweep = Sweep(listed: set<string>, startedAt: int, doomed: set<string>)

  datatype Grant = Grant(job: string, attempt: int)

  /** What has happened so far; nothing in the worker reads it. */
  datatype Audit = Audit(messages: map<string, Msg>, finished: set<string>, entered: multiset<string>,
                         grants: seq<Grant>, abandoned: set<string>)

  datatype State = State(
    now: int,
    stream: seq<Payload>, cursor: nat, pel: set<nat>,
    delayed: map<Msg, int>,
    locks: map<string, Lease>,
    live: map<string, Live>,
    handlers: map<nat, Handler>, nextId: nat,
    sweeps: map<nat, Sweep>,
    audit: Audit)

  ghost predicate Init(s: State) {
    && s.stream == [] && s.cursor == 0 && s.pel == {} && s.delayed == map[] && s.locks == map[]
    && s.live == map[] && s.handlers == map[] && s.sweeps == map[]
    && s.audit == Audit(map[], {}, multiset{}, [], {})
  }

  // Redis as the queue uses it

  function LiveOf(s: State, job: string): Live {
    if job in s.live then s.live[job] else Live(None, 0, None)
  }

  function Attempts(s: State, job: string): int {
    LiveOf(s, job).attempts
  }

  /** The lease on a pipeline; a key with a TTL is gone once its expiry has passed. */
  function LeaseOn(s: State, pipeline: string): Option<Lease> {
    if pipeline in s.locks && s.now <= s.locks[pipeline].expiry then Some(s.locks[pipeline]) else None
  }

  /** The test both lock scripts make before they act. */
  predicate Holds(lease: Option<Lease>, job: string, attempt: int) {
    lease.Some? && lease.value.job == job && lease.value.attempt == attempt
  }

  /** A delivery of an entry starts a handler. */
  function Claim(s: State, entry: nat): State
    requires entry < |s.stream| && s.stream[entry].Parsed?
  {
    s.(handlers := s.handlers[s.nextId := Handler(entry, s.stream[entry].msg, Fresh, 0)], nextId := s.nextId + 1)
  }

  function JobsListed(stream: seq<Payload>): set<string> {
    set i | 0 <= i < |stream| && stream[i].Parsed? :: stream[i].msg.job
  }

  // Steps

  /** One step each. `failed` on a request whose error the code ignores means
      it had no effect; any other failed request ends its handler, as does a
      crash: both are `Crash`. */
  datatype Event =
    | Tick(ms: nat)
    | Enqueue(msg: Msg)
    | ForeignEntry
    | Deliver
    | Reclaim(entry: nat)
    | AckGarbage(entry: nat)
    | MoveDue(due: seq<Msg>)
    | SweepList(w: nat)
    | SweepRead(w: nat, job: string, asOf: int)
    | SweepMark(w: nat, job: string)
    | SweepEnd(w: nat)
    | RejectPrefix(h: nat)
    | ReadStatus(h: nat, failed: bool)
    | AckTerminal(h: nat)
    | Increment(h: nat)
    | GiveUp(h: nat)
    | TryLock(h: nat)
    | UndoIncrement(h: nat, failed: bool, fireAt: int)
    | Defer(h: nat)
    | StartRun(h: nat, failed: bool)
    | Renew(h: nat)
    | EndRun(h: nat, status: Status)
    | StopCancelled(h: nat)
    | ConfigUnreadable(h: nat)
    | BackoffRelease(h: nat, failed: bool)
    | MarkQueued(h: nat, failed: bool, fireAt: int)
    | CheckFence(h: nat)
    | Record(h: nat)
    | ReleaseOwn(h: nat)
    | Ack(h: nat, failed: bool)
    | Crash(h: nat)

  predicate ServerEnabled(s: State, e: Event) {
    match e
    case Tick(ms) => true
    case Enqueue(msg) => msg.job in s.audit.messages ==> s.audit.messages[msg.job] == msg
    case ForeignEntry => true
    case Deliver => s.cursor < |s.stream|
    case Reclaim(entry) => entry in s.pel && entry < |s.stream| && s.stream[entry].Parsed?
    case AckGarbage(entry) => entry in s.pel && entry < |s.stream| && s.stream[entry].Garbage?
    case MoveDue(due) =>
      |due| <= 10 && (forall m | m in due :: m in s.delayed && s.delayed[m] <= s.now)
      && forall i, j | 0 <= i < j < |due| :: due[i] != due[j]
    case SweepList(w) => w !in s.sweeps && Garbage !in s.stream
    case SweepRead(w, job, asOf) =>
      w in s.sweeps && job in s.live && job !in s.sweeps[w].listed
      && s.sweeps[w].startedAt <= asOf <= s.now
      && s.live[job].status.Some? && !Terminal(s.live[job].status.value)
      && s.live[job].enqueuedAt.Some? && s.live[job].enqueuedAt.value <= asOf - ORPHAN_GRACE_MS
    case SweepMark(w, job) => w in s.sweeps && job in s.sweeps[w].doomed
    case SweepEnd(w) => w in s.sweeps
    case _ => false
  }

  function ServerNext(s: State, e: Event): State
    requires ServerEnabled(s, e)
  {
    match e
    case Tick(ms) => s.(now := s.now + ms)
    case Enqueue(msg) =>
      s.(stream := s.stream + [Parsed(msg)],
         live := s.live[msg.job := LiveOf(s, msg.job).(status := Some(Queued), enqueuedAt := Some(msg.enqueuedAt))],
         audit := s.audit.(messages := s.audit.messages[msg.job := msg]))
    case ForeignEntry => s.(stream := s.stream + [Garbage])
    case Deliver =>
      var t := s.(cursor := s.cursor + 1, pel := s.pel + {s.cursor});
      if s.stream[s.cursor].Parsed? then Claim(t, s.cursor) else t
    case Reclaim(entry) => Claim(s, entry)
    case AckGarbage(entry) => s.(pel := s.pel - {entry})
    case MoveDue(due) =>
      s.(delayed := s.delayed - (set m | m in due), stream := s.stream + seq(|due|, i requires 0 <= i < |due| => Parsed(due[i])))
    case SweepList(w) => s.(sweeps := s.sweeps[w := Sweep(JobsListed(s.stream), s.now, {})])
    case SweepRead(w, job, asOf) =>
      s.(sweeps := s.sweeps[w := s.sweeps[w].(doomed := s.sweeps[w].doomed + {job})])
    case SweepMark(w, job) =>
      s.(live := s.live[job := LiveOf(s, job).(status := Some(Abandoned))],
         audit := s.audit.(finished := s.audit.finished + {job}, abandoned := s.audit.abandoned + {job}))
    case SweepEnd(w) => s.(sweeps := s.sweeps - {w})
    case _ => s
  }

  predicate IsServerEvent(e: Event) {
    e.Tick? || e.Enqueue? || e.ForeignEntry? || e.Deliver? || e.Reclaim? || e.AckGarbage? || e.MoveDue?
    || e.SweepList? || e.SweepRead? || e.SweepMark? || e.SweepEnd?
  }

  // Handlers

  /** All a handler's step can see: the clock, its own state, its job's live
      hash, and the lease on its pipeline. */
  datatype View = View(now: int, handler: Handler, live: Live, lease: Option<Lease>)

  datatype LockChange = KeepLock | SetLock(lease: Lease) | FreeLock

  datatype Mark = NoMark | Granted | Entered | Finished

  /** All it can do: move on or be over (`pc` is None), ack its entry, put its
      message in the delayed set, and write its job's hash and the lock. */
  datatype Effect = Effect(pc: Option<Pc>, live: Live, lock: LockChange, ack: bool, delay: Option<int>,
                           leasedAt: int, mark: Mark)

  function Goto(v: View, pc: Pc): Effect {
    Effect(Some(pc), v.live, KeepLock, false, None, v.handler.leasedAt, NoMark)
  }

  function Over(v: View): Effect {
    Effect(None, v.live, KeepLock, false, None, v.handler.leasedAt, NoMark)
  }

  function Release(v: View, attempt: int): LockChange {
    if Holds(v.lease, v.handler.msg.job, attempt) then FreeLock else KeepLock
  }

  /** The branch conditions of `handle_claimed` and `finish_job`. */
  predicate CanTake(cfg: Settings, v: View, e: Event) {
    var pc := v.handler.pc;
    match e
    case RejectPrefix(_) => pc.Fresh? && !cfg.gate(v.handler.msg.prefix)
    case ReadStatus(_, _) => pc.Fresh? && cfg.gate(v.handler.msg.prefix)
    case AckTerminal(_) => pc.SeenTerminal?
    case Increment(_) => pc.Cleared?
    case GiveUp(_) => pc.Counted? && pc.attempt > cfg.maxAttempts
    case TryLock(_) => pc.Counted? && pc.attempt <= cfg.maxAttempts
    case UndoIncrement(_, _, _) => pc.Busy?
    case Defer(_) => pc.Deferring?
    case StartRun(_, _) => pc.Locked?
    case Renew(_) => pc.Executing? && !pc.cancelled
    case EndRun(_, status) => pc.Executing? && (status.Completed? || status.FailedStatus?)
    case StopCancelled(_) => pc.Executing? && pc.cancelled
    case ConfigUnreadable(_) => pc.Executing?
    case BackoffRelease(_, _) => pc.Backoff?
    case MarkQueued(_, _, _) => pc.Requeue?
    case CheckFence(_) => pc.Finishing?
    case Record(_) => pc.Recording?
    case ReleaseOwn(_) => pc.Releasing?
    case Ack(_, _) => pc.Acking?
    case Crash(_) => true
    case _ => false
  }

  function EffectOf(cfg: Settings, v: View, e: Event): Effect
    requires CanTake(cfg, v, e)
  {
    var pc, msg := v.handler.pc, v.handler.msg;
    match e
    case RejectPrefix(_) => Goto(v, Finishing(1, FailedStatus))
    case ReadStatus(_, failed) =>
      if !failed && v.live.status.Some? && Terminal(v.live.status.value) then Goto(v, SeenTerminal)
      else Goto(v, Cleared)
    case AckTerminal(_) => Over(v).(ack := true)
    case Increment(_) =>
      var n := v.live.attempts + 1;
      Goto(v, Counted(n)).(live := v.live.(attempts := n))
    case GiveUp(_) => Goto(v, Finishing(pc.attempt, FailedStatus))
    case TryLock(_) =>
      if v.lease.Some? then Goto(v, Busy(pc.attempt))
      else Goto(v, Locked(pc.attempt)).(lock := SetLock(Lease(msg.job, pc.attempt, v.now + cfg.lockTtlMs)),
                                        leasedAt := v.now, mark := Granted)
    case UndoIncrement(_, failed, fireAt) =>
      Goto(v, Deferring(fireAt)).(live := if failed then v.live else v.live.(attempts := v.live.attempts - 1))
    case Defer(_) => Over(v).(ack := true, delay := Some(pc.fireAt))
    case StartRun(_, failed) =>
      Goto(v, Executing(pc.attempt, false)).(
        live := if failed then v.live else v.live.(status := Some(Running)), mark := Entered)
    case Renew(_) =>
      if Holds(v.lease, msg.job, pc.attempt) then
        Goto(v, pc).(lock := SetLock(v.lease.value.(expiry := v.now + cfg.lockTtlMs)), leasedAt := v.now)
      else Goto(v, Executing(pc.attempt, true))
    case EndRun(_, status) => Goto(v, Finishing(pc.attempt, status))
    case StopCancelled(_) => Over(v)
    case ConfigUnreadable(_) => Goto(v, Backoff(pc.attempt))
    case BackoffRelease(_, failed) =>
      Goto(v, if pc.attempt >= cfg.maxAttempts then Finishing(pc.attempt, FailedStatus) else Requeue(pc.attempt)).(
        lock := if failed then KeepLock else Release(v, pc.attempt))
    case MarkQueued(_, failed, fireAt) =>
      Goto(v, Deferring(fireAt)).(live := if failed then v.live else v.live.(status := Some(Queued)))
    case CheckFence(_) =>
      if v.lease.Some? && !Holds(v.lease, msg.job, pc.attempt) then Over(v)
      else Goto(v, Recording(pc.attempt, pc.status))
    case Record(_) =>
      Goto(v, Releasing(pc.attempt)).(live := v.live.(status := Some(pc.status)), mark := Finished)
    case ReleaseOwn(_) => Goto(v, Acking).(lock := Release(v, pc.attempt))
    case Ack(_, failed) => Over(v).(ack := !failed)
    case Crash(_) => Over(v)
  }

  function ViewOf(s: State, h: nat): View
    requires h in s.handlers
  {
    var handler := s.handlers[h];
    View(s.now, handler, LiveOf(s, handler.msg.job), LeaseOn(s, handler.msg.pipeline))
  }

  function Apply(s: State, h: nat, f: Effect): State
    requires h in s.handlers
  {
    var handler := s.handlers[h];
    var msg := handler.msg;
    s.(pel := if f.ack then s.pel - {handler.entry} else s.pel,
       delayed := if f.delay.Some? then s.delayed[msg := f.delay.value] else s.delayed,
       locks := match f.lock {
         case KeepLock => s.locks
         case SetLock(lease) => s.locks[msg.pipeline := lease]
         case FreeLock => s.locks - {msg.pipeline}
       },
       live := if f.live == LiveOf(s, msg.job) then s.live else s.live[msg.job := f.live],
       handlers := if f.pc.Some? then s.handlers[h := handler.(pc := f.pc.value, leasedAt := f.leasedAt)]
                   else s.handlers - {h},
       audit := Noted(s.audit, msg.job, f))
  }

  function Noted(audit: Audit, job: string, f: Effect): Audit {
    match f.mark
    case NoMark => audit
    case Granted =>
      audit.(grants := audit.grants + if f.lock.SetLock? then [Grant(job, f.lock.lease.attempt)] else [])
    case Entered => audit.(entered := audit.entered + multiset{job})
    case Finished => audit.(finished := audit.finished + {job})
  }

  predicate Enabled(cfg: Settings, s: State, e: Event) {
    if IsServerEvent(e) then ServerEnabled(s, e) else e.h in s.handlers && CanTake(cfg, ViewOf(s, e.h), e)
  }

  function Next(cfg: Settings, s: State, e: Event): State
    requires Enabled(cfg, s, e)
  {
    if IsServerEvent(e) then ServerNext(s, e) else Apply(s, e.h, EffectOf(cfg, ViewOf(s, e.h), e))
  }

  /** What the server, the clock and the loops may change: no lock, no count and no
      handler there is; a delivery starts a new one. */
  ghost predicate Serves(s: State, e: Event, t: State) {
    && s.now <= t.now && t.locks == s.locks && Starts(s, t)
    && (forall job :: Attempts(t, job) == Attempts(s, job))
    && t.audit.grants == s.audit.grants && t.audit.entered == s.audit.entered
    && t.audit.messages == (if e.Enqueue? then s.audit.messages[e.msg.job := e.msg] else s.audit.messages)
    && (!e.SweepMark? ==> t.audit.finished == s.audit.finished && t.audit.abandoned == s.audit.abandoned)
  }

  /** At most one new handler, with a new number, at the start of its code. */
  ghost predicate Starts(s: State, t: State) {
    || (t.handlers == s.handlers && t.nextId == s.nextId)
    || (t.nextId == s.nextId + 1 && s.nextId in t.handlers && t.handlers[s.nextId].pc.Fresh?
        && t.handlers == s.handlers[s.nextId := t.handlers[s.nextId]])
  }

  lemma ServerServes(s: State, e: Event)
    requires IsServerEvent(e) && ServerEnabled(s, e)
    ensures Serves(s, e, ServerNext(s, e))
  {
    if e.Deliver? {
    } else if e.Enqueue? || e.MoveDue? || e.ForeignEntry? {
    } else if e.Reclaim? || e.AckGarbage? {
    } else {
    }
  }

  ghost predicate Step(cfg: Settings, s: State, e: Event, t: State) {
    Enabled(cfg, s, e) && t == Next(cfg, s, e)
  }

  // Runs

  ghost predicate Behavior(cfg: Settings, path: seq<State>, events: seq<Event>) {
    && |path| == |events| + 1
    && Init(path[0])
    && forall i | 0 <= i < |events| :: StepAt(cfg, path, events, i)
  }

  ghost predicate StepAt(cfg: Settings, path: seq<State>, events: seq<Event>, i: nat)
    requires |path| == |events| + 1 && i < |events|
  {
    Step(cfg, path[i], events[i], path[i + 1])
  }

  lemma BehaviorGrows(cfg: Settings, path: seq<State>, events: seq<Event>, e: Event)
    requires Behavior(cfg, path, events) && Enabled(cfg, path[|events|], e)
    ensures Behavior(cfg, path + [Next(cfg, path[|events|], e)], events + [e])
  {
    var longer, more := path + [Next(cfg, path[|events|], e)], events + [e];
    forall i | 0 <= i < |more| ensures StepAt(cfg, longer, more, i) {
      if i < |events| { assert StepAt(cfg, path, events, i); }
    }
  }

  /** Two fences are the same string iff they are for the same attempt of the same job. */
  lemma FenceInjective(j: string, m: int, k: string, n: int)
    ensures Fence(j, m) == Fence(k, n) <==> j == k && m == n
  {
    if Fence(j, m) == Fence(k, n) {
      var c, d := DecInt(m), DecInt(n);
      DecIntHasNo(m, ':');
      DecIntHasNo(n, ':');
      assert Fence(j, m) == j + [':'] + c && Fence(k, n) == k + [':'] + d;
      LastDelimiter(j, c, k, d, ':');
      DecIntDistinct(m, n);
    }
  }

  lemma LastDelimiter(a: string, x: string, b: string, y: string, delimiter: char)
    requires delimiter !in x && delimiter !in y
    requires a + [delimiter] + x == b + [delimiter] + y
    ensures a == b && x == y
  {
    var s := a + [delimiter] + x;
    var t := b + [delimiter] + y;
    assert s[|a|] == delimiter && t[|b|] == delimiter;
    assert forall i | |a| < i < |s| :: s[i] == x[i - |a| - 1];
    assert forall i | |b| < i < |t| :: t[i] == y[i - |b| - 1];
    assert |a| == |b|;
    assert a == s[..|a|] && b == t[..|b|];
    assert x == s[|a| + 1..] && y == t[|b| + 1..];
  }
}
