/**
 Exactly when handlers can collide. An attempt given back after a busy lock can
 be counted again while another delivery of the job still holds the number;
 both then take the lock with one fence, and each renews the lease the other
 took. With one attempt that cannot happen, with two or more it can, even if no
 entry is reclaimed before it has been idle for as long as Redis is asked for.
 */
module QueueCollision {
  import opened Text
  import opened Queue
  import opened QueueFencing
  import QueueLeases
  import QueueSingle

  // Runs that Redis can produce

  predicate Delivers(s: State, e: Event, entry: nat) {
    (e.Deliver? && s.cursor == entry) || e == Reclaim(entry)
  }

  /** XAUTOCLAIM hands out an entry only when its last delivery is `idle` ms old. */
  ghost predicate Idles(path: seq<State>, events: seq<Event>, idle: nat)
    requires |path| == |events| + 1
  {
    forall k, i | 0 <= k < i < |events| && events[i].Reclaim? && Delivers(path[k], events[k], events[i].entry) ::
      path[k].now + idle <= path[i].now
  }

  /** Two handlers of a pipeline with young leases are never both inside
      `execute_job`, in any run in which entries are idle before they are reclaimed. */
  ghost predicate NeverCollides(cfg: Settings, idle: nat) {
    forall path: seq<State>, events: seq<Event> | Behavior(cfg, path, events) && Idles(path, events, idle) ::
      QueueSingle.Alone(cfg, path[|events|])
  }

  // Building a run

  ghost predicate DeliveredBy(path: seq<State>, events: seq<Event>, since: int)
    requires |path| == |events| + 1
  {
    forall k | 0 <= k < |events| && (events[k].Deliver? || events[k].Reclaim?) :: path[k].now <= since
  }

  ghost predicate LeadsTo(cfg: Settings, idle: nat, path: seq<State>, events: seq<Event>, s: State, since: int) {
    && Behavior(cfg, path, events) && Idles(path, events, idle) && DeliveredBy(path, events, since)
    && path[|events|] == s
  }

  /** A run leads here in which nothing was delivered after `since`. */
  ghost predicate Reaches(cfg: Settings, idle: nat, s: State, since: int) {
    exists path: seq<State>, events: seq<Event> :: LeadsTo(cfg, idle, path, events, s, since)
  }

  lemma ReachesNext(cfg: Settings, idle: nat, s: State, since: int, e: Event, since': int)
    requires Reaches(cfg, idle, s, since) && Enabled(cfg, s, e) && since <= since'
    requires e.Reclaim? ==> since + idle <= s.now
    requires e.Deliver? || e.Reclaim? ==> s.now <= since'
    ensures Reaches(cfg, idle, Next(cfg, s, e), since')
  {
    var path: seq<State>, events: seq<Event> :| LeadsTo(cfg, idle, path, events, s, since);
    BehaviorGrows(cfg, path, events, e);
    var longer, more := path + [Next(cfg, s, e)], events + [e];
    forall k, i | 0 <= k < i < |more| && more[i].Reclaim? && Delivers(longer[k], more[k], more[i].entry)
      ensures longer[k].now + idle <= longer[i].now
    {
      assert longer[k] == path[k] && more[k] == events[k];
    }
    assert LeadsTo(cfg, idle, longer, more, Next(cfg, s, e), since');
  }

  /** Whose the handlers are and where they stand. */
  ghost predicate At(s: State, msgs: seq<Msg>, pcs: seq<Pc>) {
    && |msgs| == |pcs| == s.nextId
    && (forall h | h in s.handlers :: h < s.nextId)
    && forall h: nat | h < |pcs| :: h in s.handlers && s.handlers[h].msg == msgs[h] && s.handlers[h].pc == pcs[h]
  }

  /** What a handler's step leaves to be seen: the clock, the locks, the
      attempts of the jobs, and the handlers. */
  ghost predicate Observed(s: State, t: State, h: nat, f: Effect)
    requires h in s.handlers
  {
    var msg := s.handlers[h].msg;
    && t.now == s.now
    && (f.lock.KeepLock? ==> t.locks == s.locks)
    && (f.lock.SetLock? ==> t.locks == s.locks[msg.pipeline := f.lock.lease])
    && (forall j :: Attempts(t, j) == if j == msg.job then f.live.attempts else Attempts(s, j))
    && (f.pc.Some? ==> h in t.handlers && t.handlers[h].leasedAt == f.leasedAt)
    && forall k | k in s.handlers && k != h :: k in t.handlers && t.handlers[k] == s.handlers[k]
  }

  lemma Observes(s: State, h: nat, f: Effect)
    requires h in s.handlers
    ensures Observed(s, Apply(s, h, f), h, f)
  {
    forall j { AttemptsAfter(s, h, f, j); }
  }

  /** Handler `h` takes a step whose effect is `f`. */
  lemma Act(cfg: Settings, idle: nat, s: State, since: int, msgs: seq<Msg>, pcs: seq<Pc>, h: nat, e: Event, f: Effect)
      returns (t: State)
    requires Reaches(cfg, idle, s, since) && At(s, msgs, pcs) && h < |pcs|
    requires !IsServerEvent(e) && e.h == h && CanTake(cfg, ViewOf(s, h), e)
    requires EffectOf(cfg, ViewOf(s, h), e) == f && f.pc.Some?
    ensures Reaches(cfg, idle, t, since) && At(t, msgs, pcs[h := f.pc.value]) && Observed(s, t, h, f)
    ensures f.live == LiveOf(s, msgs[h].job) ==> t.live == s.live
  {
    t := Apply(s, h, f);
    ReachesNext(cfg, idle, s, since, e, since);
    Observes(s, h, f);
  }

  // The run: another job has the pipeline's lock; of ours there are three deliveries

  function JobMsg(job: string, prefix: string): Msg {
    Msg(job, "p", prefix, None, false, "manual", 0)
  }

  function Cast(prefix: string): (msgs: seq<Msg>)
    ensures |msgs| == 4 && msgs[0] == JobMsg("k", prefix)
    ensures forall h | 1 <= h < 4 :: msgs[h] == JobMsg("j", prefix)
  {
    [JobMsg("k", prefix), JobMsg("j", prefix), JobMsg("j", prefix), JobMsg("j", prefix)]
  }

  ghost predicate Stage(cfg: Settings, idle: nat, prefix: string, s: State, pcs: seq<Pc>) {
    |pcs| == 4 && At(s, Cast(prefix), pcs) && exists since :: Reaches(cfg, idle, s, since)
  }

  lemma Plays(cfg: Settings, idle: nat, prefix: string, s: State, pcs: seq<Pc>, h: nat, e: Event, f: Effect)
      returns (t: State)
    requires Stage(cfg, idle, prefix, s, pcs) && h < 4 && !IsServerEvent(e) && e.h == h
    requires CanTake(cfg, ViewOf(s, h), e) && EffectOf(cfg, ViewOf(s, h), e) == f && f.pc.Some?
    ensures Stage(cfg, idle, prefix, t, pcs[h := f.pc.value]) && Observed(s, t, h, f)
    ensures f.live == LiveOf(s, Cast(prefix)[h].job) ==> t.live == s.live
  {
    var since :| Reaches(cfg, idle, s, since);
    t := Act(cfg, idle, s, since, Cast(prefix), pcs, h, e, f);
  }

  lemma Waits(cfg: Settings, idle: nat, prefix: string, s: State, pcs: seq<Pc>, ms: nat) returns (t: State)
    requires Stage(cfg, idle, prefix, s, pcs)
    ensures t == s.(now := s.now + ms) && Stage(cfg, idle, prefix, t, pcs)
  {
    t := s.(now := s.now + ms);
    var since :| Reaches(cfg, idle, s, since);
    ReachesNext(cfg, idle, s, since, Tick(ms), since);
  }

  /** How often our job has been counted, and until when the lock is held. */
  ghost predicate Marks(s: State, attempts: int, heldFor: int) {
    Attempts(s, "j") == attempts && "p" in s.locks && s.locks["p"].expiry == s.now + heldFor
  }

  lemma Checks(cfg: Settings, idle: nat, prefix: string, s: State, pcs: seq<Pc>, h: nat) returns (t: State)
    requires Stage(cfg, idle, prefix, s, pcs) && h < 4 && pcs[h] == Pc.Fresh
    requires cfg.gate(prefix) && LiveOf(s, Cast(prefix)[h].job).status == Some(Queued)
    ensures Stage(cfg, idle, prefix, t, pcs[h := Cleared]) && t.live == s.live && t.locks == s.locks
  {
    t := Plays(cfg, idle, prefix, s, pcs, h, ReadStatus(h, false), Goto(ViewOf(s, h), Cleared));
  }

  lemma Counts(cfg: Settings, idle: nat, prefix: string, s: State, pcs: seq<Pc>, h: nat, n: int, heldFor: int)
      returns (t: State)
    requires Stage(cfg, idle, prefix, s, pcs) && 1 <= h < 4 && pcs[h] == Cleared && Marks(s, n, heldFor)
    ensures Stage(cfg, idle, prefix, t, pcs[h := Counted(n + 1)]) && Marks(t, n + 1, heldFor)
  {
    var v := ViewOf(s, h);
    t := Plays(cfg, idle, prefix, s, pcs, h, Increment(h), Goto(v, Counted(n + 1)).(live := v.live.(attempts := n + 1)));
  }

  lemma GivesBack(cfg: Settings, idle: nat, prefix: string, s: State, pcs: seq<Pc>, h: nat, n: int, heldFor: int)
      returns (t: State)
    requires Stage(cfg, idle, prefix, s, pcs) && 1 <= h < 4 && pcs[h].Busy? && Marks(s, n, heldFor)
    ensures Stage(cfg, idle, prefix, t, pcs[h := Deferring(0)]) && Marks(t, n - 1, heldFor)
  {
    var v := ViewOf(s, h);
    t := Plays(cfg, idle, prefix, s, pcs, h, UndoIncrement(h, false, 0),
               Goto(v, Deferring(0)).(live := v.live.(attempts := n - 1)));
  }

  lemma FindsBusy(cfg: Settings, idle: nat, prefix: string, s: State, pcs: seq<Pc>, h: nat, n: int, heldFor: nat)
      returns (t: State)
    requires Stage(cfg, idle, prefix, s, pcs) && 1 <= h < 4 && Marks(s, n, heldFor)
    requires pcs[h].Counted? && pcs[h].attempt <= cfg.maxAttempts
    ensures Stage(cfg, idle, prefix, t, pcs[h := Busy(pcs[h].attempt)]) && Marks(t, n, heldFor)
  {
    t := Plays(cfg, idle, prefix, s, pcs, h, TryLock(h), Goto(ViewOf(s, h), Busy(pcs[h].attempt)));
  }

  /** The lock is free: the handler's fence becomes its value. */
  lemma Locks(cfg: Settings, idle: nat, prefix: string, s: State, pcs: seq<Pc>, h: nat) returns (t: State)
    requires Stage(cfg, idle, prefix, s, pcs) && h < 4
    requires pcs[h].Counted? && pcs[h].attempt <= cfg.maxAttempts && LeaseOn(s, "p").None?
    ensures Stage(cfg, idle, prefix, t, pcs[h := Locked(pcs[h].attempt)])
    ensures t.handlers[h].leasedAt == t.now && Marks(t, Attempts(s, "j"), cfg.lockTtlMs)
    ensures t.locks["p"] == Lease(Cast(prefix)[h].job, pcs[h].attempt, t.now + cfg.lockTtlMs)
  {
    var lease := Lease(Cast(prefix)[h].job, pcs[h].attempt, s.now + cfg.lockTtlMs);
    t := Plays(cfg, idle, prefix, s, pcs, h, TryLock(h),
               Goto(ViewOf(s, h), Locked(pcs[h].attempt)).(lock := SetLock(lease), leasedAt := s.now, mark := Granted));
  }

  lemma Starts(cfg: Settings, idle: nat, prefix: string, s: State, pcs: seq<Pc>, h: nat) returns (t: State)
    requires Stage(cfg, idle, prefix, s, pcs) && h < 4 && pcs[h].Locked?
    ensures Stage(cfg, idle, prefix, t, pcs[h := Executing(pcs[h].attempt, false)])
    ensures t.now == s.now && t.locks == s.locks && t.handlers[h].leasedAt == s.handlers[h].leasedAt
  {
    var v := ViewOf(s, h);
    t := Plays(cfg, idle, prefix, s, pcs, h, StartRun(h, false),
               Goto(v, Executing(pcs[h].attempt, false)).(live := v.live.(status := Some(Running)), mark := Entered));
  }

  /** A renewal succeeds on a lease with the same fence, whoever took it. */
  lemma Renews(cfg: Settings, idle: nat, prefix: string, s: State, pcs: seq<Pc>, h: nat) returns (t: State)
    requires Stage(cfg, idle, prefix, s, pcs) && h < 4 && pcs[h].Executing? && !pcs[h].cancelled
    requires Holds(LeaseOn(s, "p"), Cast(prefix)[h].job, pcs[h].attempt)
    ensures Stage(cfg, idle, prefix, t, pcs) && t.now == s.now && t.handlers[h].leasedAt == s.now
    ensures forall k | k in s.handlers && k != h :: k in t.handlers && t.handlers[k] == s.handlers[k]
  {
    var v := ViewOf(s, h);
    t := Plays(cfg, idle, prefix, s, pcs, h, Renew(h),
               Goto(v, pcs[h]).(lock := SetLock(v.lease.value.(expiry := s.now + cfg.lockTtlMs)), leasedAt := s.now));
    assert pcs[h := pcs[h]] == pcs;
  }

  function BothQueued(): map<string, Live> {
    map["k" := Live(Some(Queued), 0, Some(0)), "j" := Live(Some(Queued), 0, Some(0))]
  }

  ghost function Arrived(prefix: string, now: int, handlers: map<nat, Handler>, nextId: nat): State {
    var k, j := JobMsg("k", prefix), JobMsg("j", prefix);
    State(now, [Parsed(k), Parsed(j)], 2, {0, 1}, map[], map[], BothQueued(), handlers, nextId, map[],
          Audit(map["k" := k, "j" := j], {}, multiset{}, [], {}))
  }

  function NewHandler(entry: nat, m: Msg): Handler {
    Handler(entry, m, Pc.Fresh, 0)
  }

  lemma TwoQueued(cfg: Settings, idle: nat, prefix: string) returns (s: State)
    ensures s == Arrived(prefix, 0, map[], 0).(cursor := 0, pel := {}) && Reaches(cfg, idle, s, 0)
  {
    var k, j := JobMsg("k", prefix), JobMsg("j", prefix);
    var s0 := State(0, [], 0, {}, map[], map[], map[], map[], 0, map[], Audit(map[], {}, multiset{}, [], {}));
    assert LeadsTo(cfg, idle, [s0], [], s0, 0);
    ReachesNext(cfg, idle, s0, 0, Enqueue(k), 0);
    var s1 := ServerNext(s0, Enqueue(k));
    ReachesNext(cfg, idle, s1, 0, Enqueue(j), 0);
    s := ServerNext(s1, Enqueue(j));
    assert s.stream == [Parsed(k), Parsed(j)];
  }

  /** Both are delivered. */
  lemma TwoArrive(cfg: Settings, idle: nat, prefix: string) returns (s: State)
    ensures s == Arrived(prefix, 0, map[0 := NewHandler(0, JobMsg("k", prefix)), 1 := NewHandler(1, JobMsg("j", prefix))], 2)
    ensures Reaches(cfg, idle, s, 0)
  {
    var s2 := TwoQueued(cfg, idle, prefix);
    ReachesNext(cfg, idle, s2, 0, Deliver, 0);
    var s3 := ServerNext(s2, Deliver);
    ReachesNext(cfg, idle, s3, 0, Deliver, 0);
    s := ServerNext(s3, Deliver);
    assert {} + {0} + {1} == {0, 1};
  }

  /** Our job's entry is reclaimed twice, each time after it was idle. */
  lemma FourArrive(cfg: Settings, idle: nat, prefix: string) returns (s: State)
    ensures Stage(cfg, idle, prefix, s, [Pc.Fresh, Pc.Fresh, Pc.Fresh, Pc.Fresh])
    ensures s.live == BothQueued() && s.locks == map[]
  {
    s := TwoArrive(cfg, idle, prefix);
    var since := 0;
    for n := 0 to 2
      invariant Reaches(cfg, idle, s, since) && since <= s.now
      invariant s == Arrived(prefix, s.now, s.handlers, 2 + n)
      invariant forall h | h in s.handlers :: h < 2 + n
      invariant 0 in s.handlers && s.handlers[0] == NewHandler(0, JobMsg("k", prefix))
      invariant forall h: nat | 1 <= h < 2 + n :: h in s.handlers && s.handlers[h] == NewHandler(1, JobMsg("j", prefix))
    {
      s, since := Reclaims(cfg, idle, prefix, s, since);
    }
  }

  lemma Reclaims(cfg: Settings, idle: nat, prefix: string, s: State, since: int) returns (t: State, since': int)
    requires Reaches(cfg, idle, s, since) && since <= s.now && s == Arrived(prefix, s.now, s.handlers, s.nextId)
    ensures Reaches(cfg, idle, t, since') && since' == t.now
    ensures t == Arrived(prefix, t.now, s.handlers[s.nextId := NewHandler(1, JobMsg("j", prefix))], s.nextId + 1)
  {
    ReachesNext(cfg, idle, s, since, Tick(idle), since);
    var later := s.(now := s.now + idle);
    ReachesNext(cfg, idle, later, since, Reclaim(1), later.now);
    t, since' := ServerNext(later, Reclaim(1)), later.now;
  }

  lemma NextChecks(cfg: Settings, idle: nat, prefix: string, s: State, pcs: seq<Pc>, h: nat) returns (t: State)
    requires cfg.gate(prefix) && Stage(cfg, idle, prefix, s, pcs) && s.live == BothQueued() && s.locks == map[]
    requires h < 4 && pcs[h] == Pc.Fresh
    ensures Stage(cfg, idle, prefix, t, pcs[h := Cleared]) && t.live == BothQueued() && t.locks == map[]
  {
    t := Checks(cfg, idle, prefix, s, pcs, h);
  }

  lemma TwoCheck(cfg: Settings, idle: nat, prefix: string) returns (s: State)
    requires cfg.gate(prefix)
    ensures Stage(cfg, idle, prefix, s, [Cleared, Cleared, Pc.Fresh, Pc.Fresh])
    ensures s.live == BothQueued() && s.locks == map[]
  {
    s := FourArrive(cfg, idle, prefix);
    var pcs := [Pc.Fresh, Pc.Fresh, Pc.Fresh, Pc.Fresh];
    s := NextChecks(cfg, idle, prefix, s, pcs, 0);
    s := NextChecks(cfg, idle, prefix, s, pcs[0 := Cleared], 1);
    assert pcs[0 := Cleared][1 := Cleared] == [Cleared, Cleared, Pc.Fresh, Pc.Fresh];
  }

  lemma AllCheck(cfg: Settings, idle: nat, prefix: string) returns (s: State)
    requires cfg.gate(prefix)
    ensures Stage(cfg, idle, prefix, s, [Cleared, Cleared, Cleared, Cleared])
    ensures s.live == BothQueued() && s.locks == map[]
  {
    s := TwoCheck(cfg, idle, prefix);
    var pcs := [Cleared, Cleared, Pc.Fresh, Pc.Fresh];
    s := NextChecks(cfg, idle, prefix, s, pcs, 2);
    s := NextChecks(cfg, idle, prefix, s, pcs[2 := Cleared], 3);
    assert pcs[2 := Cleared][3 := Cleared] == [Cleared, Cleared, Cleared, Cleared];
  }

  lemma CountsFirst(cfg: Settings, idle: nat, prefix: string, s: State, pcs: seq<Pc>) returns (t: State)
    requires Stage(cfg, idle, prefix, s, pcs) && pcs[0] == Cleared && s.live == BothQueued() && s.locks == map[]
    ensures Stage(cfg, idle, prefix, t, pcs[0 := Counted(1)]) && t.locks == map[] && Attempts(t, "j") == 0
  {
    var v := ViewOf(s, 0);
    t := Plays(cfg, idle, prefix, s, pcs, 0, Increment(0), Goto(v, Counted(1)).(live := v.live.(attempts := 1)));
  }

  lemma OtherCounts(cfg: Settings, idle: nat, prefix: string) returns (s: State)
    requires cfg.gate(prefix)
    ensures Stage(cfg, idle, prefix, s, [Counted(1), Cleared, Cleared, Cleared])
    ensures s.locks == map[] && Attempts(s, "j") == 0
  {
    s := AllCheck(cfg, idle, prefix);
    s := CountsFirst(cfg, idle, prefix, s, [Cleared, Cleared, Cleared, Cleared]);
    assert [Cleared, Cleared, Cleared, Cleared][0 := Counted(1)] == [Counted(1), Cleared, Cleared, Cleared];
  }

  /** The other job takes the lock. */
  lemma OtherLocks(cfg: Settings, idle: nat, prefix: string) returns (s: State)
    requires cfg.gate(prefix) && cfg.maxAttempts >= 2
    ensures Stage(cfg, idle, prefix, s, [Locked(1), Cleared, Cleared, Cleared]) && Marks(s, 0, cfg.lockTtlMs)
  {
    s := OtherCounts(cfg, idle, prefix);
    s := Locks(cfg, idle, prefix, s, [Counted(1), Cleared, Cleared, Cleared], 0);
    assert [Counted(1), Cleared, Cleared, Cleared][0 := Locked(1)] == [Locked(1), Cleared, Cleared, Cleared];
  }

  lemma FirstCounts(cfg: Settings, idle: nat, prefix: string) returns (s: State)
    requires cfg.gate(prefix) && cfg.maxAttempts >= 2
    ensures Stage(cfg, idle, prefix, s, [Locked(1), Counted(1), Cleared, Cleared]) && Marks(s, 1, cfg.lockTtlMs)
  {
    s := OtherLocks(cfg, idle, prefix);
    s := Counts(cfg, idle, prefix, s, [Locked(1), Cleared, Cleared, Cleared], 1, 0, cfg.lockTtlMs);
    assert [Locked(1), Cleared, Cleared, Cleared][1 := Counted(1)] == [Locked(1), Counted(1), Cleared, Cleared];
  }

  /** Our first delivery finds it taken. */
  lemma FirstIsBusy(cfg: Settings, idle: nat, prefix: string) returns (s: State)
    requires cfg.gate(prefix) && cfg.maxAttempts >= 2 && cfg.lockTtlMs >= 0
    ensures Stage(cfg, idle, prefix, s, [Locked(1), Busy(1), Cleared, Cleared]) && Marks(s, 1, cfg.lockTtlMs)
  {
    s := FirstCounts(cfg, idle, prefix);
    s := FindsBusy(cfg, idle, prefix, s, [Locked(1), Counted(1), Cleared, Cleared], 1, 1, cfg.lockTtlMs);
    assert [Locked(1), Counted(1), Cleared, Cleared][1 := Busy(1)] == [Locked(1), Busy(1), Cleared, Cleared];
  }

  /** Our second delivery counts before the first gives back... */
  lemma SecondCounts(cfg: Settings, idle: nat, prefix: string) returns (s: State)
    requires cfg.gate(prefix) && cfg.maxAttempts >= 2 && cfg.lockTtlMs >= 0
    ensures Stage(cfg, idle, prefix, s, [Locked(1), Busy(1), Counted(2), Cleared]) && Marks(s, 2, cfg.lockTtlMs)
  {
    s := FirstIsBusy(cfg, idle, prefix);
    s := Counts(cfg, idle, prefix, s, [Locked(1), Busy(1), Cleared, Cleared], 2, 1, cfg.lockTtlMs);
    assert [Locked(1), Busy(1), Cleared, Cleared][2 := Counted(2)] == [Locked(1), Busy(1), Counted(2), Cleared];
  }

  lemma FirstGivesBack(cfg: Settings, idle: nat, prefix: string) returns (s: State)
    requires cfg.gate(prefix) && cfg.maxAttempts >= 2 && cfg.lockTtlMs >= 0
    ensures Stage(cfg, idle, prefix, s, [Locked(1), Deferring(0), Counted(2), Cleared]) && Marks(s, 1, cfg.lockTtlMs)
  {
    s := SecondCounts(cfg, idle, prefix);
    s := GivesBack(cfg, idle, prefix, s, [Locked(1), Busy(1), Counted(2), Cleared], 1, 2, cfg.lockTtlMs);
    assert [Locked(1), Busy(1), Counted(2), Cleared][1 := Deferring(0)] == [Locked(1), Deferring(0), Counted(2), Cleared];
  }

  /** ...and the third after. */
  lemma TwoCountTheSame(cfg: Settings, idle: nat, prefix: string) returns (s: State)
    requires cfg.gate(prefix) && cfg.maxAttempts >= 2 && cfg.lockTtlMs >= 0
    ensures Stage(cfg, idle, prefix, s, [Locked(1), Deferring(0), Counted(2), Counted(2)]) && Marks(s, 2, cfg.lockTtlMs)
  {
    s := FirstGivesBack(cfg, idle, prefix);
    s := Counts(cfg, idle, prefix, s, [Locked(1), Deferring(0), Counted(2), Cleared], 3, 1, cfg.lockTtlMs);
    assert [Locked(1), Deferring(0), Counted(2), Cleared][3 := Counted(2)] == [Locked(1), Deferring(0), Counted(2), Counted(2)];
  }

  /** Once a lease has run out, handler `h` takes the lock and enters `execute_job`. */
  lemma TakesOver(cfg: Settings, idle: nat, prefix: string, s: State, pcs: seq<Pc>, h: nat) returns (t: State)
    requires Stage(cfg, idle, prefix, s, pcs) && h < 4 && pcs[h] == Counted(2)
    requires cfg.maxAttempts >= 2 && cfg.lockTtlMs >= 0 && "p" in s.locks && s.locks["p"].expiry == s.now + cfg.lockTtlMs
    ensures Stage(cfg, idle, prefix, t, pcs[h := Executing(2, false)]) && t.handlers[h].leasedAt == t.now
    ensures "p" in t.locks && t.locks["p"] == Lease(Cast(prefix)[h].job, 2, t.now + cfg.lockTtlMs)
  {
    t := Waits(cfg, idle, prefix, s, pcs, cfg.lockTtlMs + 1);
    t := Locks(cfg, idle, prefix, t, pcs, h);
    t := Starts(cfg, idle, prefix, t, pcs[h := Locked(2)], h);
    assert pcs[h := Locked(2)][h := Executing(2, false)] == pcs[h := Executing(2, false)];
  }

  /** The second takes over from the other job, the third from the second, and
      the second renews what is now the third's. */
  lemma BothRun(cfg: Settings, idle: nat, prefix: string) returns (s: State)
    requires cfg.gate(prefix) && cfg.maxAttempts >= 2 && cfg.lockTtlMs >= 0
    ensures Stage(cfg, idle, prefix, s, [Locked(1), Deferring(0), Executing(2, false), Executing(2, false)])
    ensures s.handlers[2].leasedAt == s.handlers[3].leasedAt == s.now
  {
    var pcs := [Locked(1), Deferring(0), Counted(2), Counted(2)];
    s := TwoCountTheSame(cfg, idle, prefix);
    s := TakesOver(cfg, idle, prefix, s, pcs, 2);
    assert pcs[2 := Executing(2, false)] == [Locked(1), Deferring(0), Executing(2, false), Counted(2)];
    pcs := [Locked(1), Deferring(0), Executing(2, false), Counted(2)];
    s := TakesOver(cfg, idle, prefix, s, pcs, 3);
    assert pcs[3 := Executing(2, false)] == [Locked(1), Deferring(0), Executing(2, false), Executing(2, false)];
    s := Renews(cfg, idle, prefix, s, [Locked(1), Deferring(0), Executing(2, false), Executing(2, false)], 2);
  }

  // The theorem

  /** With two attempts or more there is a run in which two deliveries of one
      job are both inside `execute_job`, with one fence and leases just renewed. */
  lemma FencesCollide(cfg: Settings, idle: nat, prefix: string) returns (path: seq<State>, events: seq<Event>)
    requires cfg.gate(prefix) && cfg.maxAttempts >= 2 && cfg.lockTtlMs >= 0
    ensures Behavior(cfg, path, events) && Idles(path, events, idle)
    ensures var s := path[|events|];
            && 2 in s.handlers && 3 in s.handlers
            && s.handlers[2].msg == s.handlers[3].msg == JobMsg("j", prefix)
            && s.handlers[2].pc == s.handlers[3].pc == Executing(2, false)
            && s.handlers[2].leasedAt == s.handlers[3].leasedAt == s.now
  {
    var s := BothRun(cfg, idle, prefix);
    var since :| Reaches(cfg, idle, s, since);
    path, events :| LeadsTo(cfg, idle, path, events, s, since);
    assert Cast(prefix)[2] == Cast(prefix)[3] == JobMsg("j", prefix);
    var pcs := [Locked(1), Deferring(0), Executing(2, false), Executing(2, false)];
    assert pcs[2] == pcs[3] == Executing(2, false);
  }

  /** Leases exclude one another in every run iff a job has at most one attempt. */
  lemma NeverCollidesIff(cfg: Settings, idle: nat, prefix: string)
    requires cfg.gate(prefix) && cfg.maxAttempts >= 0 && cfg.lockTtlMs >= 0
    ensures NeverCollides(cfg, idle) <==> cfg.maxAttempts <= 1
  {
    if cfg.maxAttempts <= 1 {
      forall path: seq<State>, events: seq<Event> | Behavior(cfg, path, events) && Idles(path, events, idle)
        ensures QueueSingle.Alone(cfg, path[|events|])
      {
        QueueSingle.SingleExcludes(cfg, path, events, |events|);
      }
    } else {
      var path, events := FencesCollide(cfg, idle, prefix);
      var s := path[|events|];
      assert QueueLeases.Young(cfg, s.now, s.handlers[2]) && QueueLeases.Young(cfg, s.now, s.handlers[3]);
      assert !QueueSingle.Alone(cfg, s);
    }
  }
}
