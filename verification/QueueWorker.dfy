/**
 `handle_claimed` as the worker runs it, one round trip after another, while
 everyone else goes on: before each of its requests other handlers, the server
 and the clock may take any steps. When its process dies, which requests get
 lost and what the job comes back with is given to it (QueueCall). It is proved
 to take only steps of Queue, and those its call has planned.
 */
module QueueWorker {
  import opened Queue
  import opened QueueDelivery
  import opened QueueCall

  /** Redis, the clock, all the workers, and one call among them. */
  class Worker {
    const cfg: Settings
    const call: Call
    var s: State
    var turn: nat
    var beat: nat
    ghost var path: seq<State>
    ghost var events: seq<Event>

    ghost predicate Valid()
      reads this
    {
      Behavior(cfg, path, events) && path[|events|] == s && Course(call, path, events, turn, beat)
      && beat <= call.beats
    }

    constructor (cfg: Settings, call: Call, s: State, ghost path: seq<State>, ghost events: seq<Event>)
      requires Behavior(cfg, path, events) && path[|events|] == s
      requires call.from == |events| && Working(call, s) && s.handlers[call.h].pc.Fresh?
      ensures Valid() && this.cfg == cfg && this.call == call && this.s == s
      ensures this.path == path && this.events == events && At(Fresh)
    {
      this.cfg, this.call, this.s := cfg, call, s;
      turn, beat := 0, 0;
      this.path, this.events := path, events;
    }

    /** The handler is at this point of its code. */
    predicate At(pc: Pc)
      reads this
    {
      Working(call, s) && s.handlers[call.h].pc == pc
    }

    /** The handler is over, and this was its last step. */
    ghost predicate Over(e: Event)
      reads this
    {
      call.h !in s.handlers && events != [] && events[|events| - 1] == e
    }

    ghost predicate Died()
      reads this
    {
      Over(Crash(call.h))
    }

    ghost predicate Acked()
      reads this
    {
      Over(Ack(call.h, false)) || Over(Ack(call.h, true))
    }

    /** How `finish_job` can end: another fence holds the lock, or the entry is acked,
        or its process dies. */
    ghost predicate Finished()
      reads this
    {
      Over(CheckFence(call.h)) || Acked() || Died()
    }

    method Take(e: Event)
      requires Valid() && Enabled(cfg, s, e) && Working(call, s)
      requires StepOf(e, call.h) ==> Planned(call, turn, beat, ViewOf(s, call.h), e)
      modifies this
      ensures Valid() && s == Next(cfg, old(s), e) && path == old(path) + [s] && events == old(events) + [e]
      ensures turn == if StepOf(e, call.h) then old(turn) + 1 else old(turn)
      ensures beat == if StepOf(e, call.h) && e.Renew? then old(beat) + 1 else old(beat)
    {
      BehaviorGrows(cfg, path, events, e);
      CourseGrows(call, path, events, turn, beat, Next(cfg, s, e), e);
      s := Next(cfg, s, e);
      path, events := path + [s], events + [e];
      if StepOf(e, call.h) {
        turn := turn + 1;
        if e.Renew? { beat := beat + 1; }
      }
    }

    /** A step of the handler. */
    method Do(pc: Pc, e: Event)
      requires Valid() && At(pc) && StepOf(e, call.h) && CanTake(cfg, ViewOf(s, call.h), e)
      requires Planned(call, turn, beat, ViewOf(s, call.h), e)
      modifies this
      ensures Valid() && old(path) <= path && old(events) <= events && turn == old(turn) + 1
      ensures events == old(events) + [e] && path == old(path) + [s] && path[|events| - 1] == old(s)
      ensures beat == (if e.Renew? then old(beat) + 1 else old(beat)) && s.now == old(s).now
      ensures match EffectOf(cfg, ViewOf(old(s), call.h), e).pc
              case None => Over(e)
              case Some(next) => At(next)
      ensures LiveOf(s, call.msg.job) == EffectOf(cfg, ViewOf(old(s), call.h), e).live
    {
      ghost var f := EffectOf(cfg, ViewOf(s, call.h), e);
      AfterApply(s, call.h, f);
      Take(e);
    }

    /** The others take any number of steps; then the process lives on or not. */
    method Pause(pc: Pc) returns (alive: bool)
      requires Valid() && At(pc)
      modifies this
      ensures Valid() && old(path) <= path && old(events) <= events && beat == old(beat)
      ensures alive ==> At(pc) && !FateAt(call, turn).dies
      ensures !alive ==> Died()
    {
      var steps: int := *;
      while steps > 0
        invariant Valid() && old(path) <= path && old(events) <= events && At(pc)
        invariant turn == old(turn) && beat == old(beat)
      {
        var e: Event := *;
        if !StepOf(e, call.h) && Enabled(cfg, s, e) { OthersTake(pc, e); }
        steps := steps - 1;
      }
      alive := !FateAt(call, turn).dies;
      if !alive { Do(pc, Crash(call.h)); }
    }

    method OthersTake(pc: Pc, e: Event)
      requires Valid() && At(pc) && !StepOf(e, call.h) && Enabled(cfg, s, e)
      modifies this
      ensures Valid() && old(path) <= path && old(events) <= events && At(pc)
      ensures turn == old(turn) && beat == old(beat)
    {
      BasicAlways(cfg, path, events, |events|);
      OthersKeep(cfg, s, e, call.h);
      Take(e);
    }

    // The requests of a handler. Each may be the point where its process dies.

    /** HGET of the status: whether the job is over already. An error reads as no. */
    method ReadStatus() returns (alive: bool, over: bool)
      requires Valid() && At(Fresh) && cfg.gate(call.msg.prefix)
      modifies this
      ensures Valid() && old(path) <= path && old(events) <= events
      ensures if alive then At(if over then SeenTerminal else Cleared) else Died()
    {
      alive := Pause(Fresh);
      if !alive { return false, false; }
      var status := LiveOf(s, call.msg.job).status;
      var lost := FateAt(call, turn).lost;
      over := !lost && status.Some? && Terminal(status.value);
      Do(Fresh, Event.ReadStatus(call.h, lost));
    }

    /** HINCRBY of the attempts. */
    method CountAttempt() returns (alive: bool, attempts: int)
      requires Valid() && At(Cleared)
      modifies this
      ensures Valid() && old(path) <= path && old(events) <= events
      ensures if alive then At(Counted(attempts)) else Died()
    {
      alive := Pause(Cleared);
      if !alive { return false, 0; }
      attempts := Attempts(s, call.msg.job) + 1;
      Do(Cleared, Increment(call.h));
    }

    /** The lock script. */
    method LockPipeline(attempts: int) returns (alive: bool, locked: bool)
      requires Valid() && At(Counted(attempts)) && attempts <= cfg.maxAttempts
      modifies this
      ensures Valid() && old(path) <= path && old(events) <= events
      ensures if alive then At(if locked then Locked(attempts) else Busy(attempts)) else Died()
    {
      alive := Pause(Counted(attempts));
      if !alive { return false, false; }
      locked := LeaseOn(s, call.msg.pipeline).None?;
      Do(Counted(attempts), TryLock(call.h));
    }

    /** HINCRBY by minus one; whether that worked is not looked at. The job comes again
        half a minute after the clock is read. */
    method GiveBack(attempts: int) returns (alive: bool, fireAt: int)
      requires Valid() && At(Busy(attempts))
      modifies this
      ensures Valid() && old(path) <= path && old(events) <= events
      ensures if alive then At(Deferring(fireAt)) else Died()
      ensures alive ==> turn > 0 && fireAt == s.now + FateAt(call, turn - 1).late + 30_000
    {
      fireAt := 0;
      alive := Pause(Busy(attempts));
      if !alive { return; }
      var fate := FateAt(call, turn);
      fireAt := s.now + fate.late + LOCK_BUSY_MS;
      Do(Busy(attempts), UndoIncrement(call.h, fate.lost, fireAt));
    }

    method DeferJob(fireAt: int)
      requires Valid() && At(Deferring(fireAt))
      modifies this
      ensures Valid() && old(path) <= path && old(events) <= events
      ensures Over(Defer(call.h)) || Died()
    {
      var alive := Pause(Deferring(fireAt));
      if alive { Do(Deferring(fireAt), Defer(call.h)); }
    }

    method MarkRunning(attempts: int) returns (alive: bool)
      requires Valid() && At(Locked(attempts))
      modifies this
      ensures Valid() && old(path) <= path && old(events) <= events
      ensures if alive then At(Executing(attempts, false)) else Died()
    {
      alive := Pause(Locked(attempts));
      if alive { Do(Locked(attempts), StartRun(call.h, FateAt(call, turn).lost)); }
    }

    /** The release before a retry; an error is reported, not acted on. */
    method ReleaseForRetry(attempts: int) returns (alive: bool)
      requires Valid() && At(Backoff(attempts))
      modifies this
      ensures Valid() && old(path) <= path && old(events) <= events
      ensures if alive
              then At(if attempts >= cfg.maxAttempts then Finishing(attempts, FailedStatus) else Requeue(attempts))
              else Died()
    {
      alive := Pause(Backoff(attempts));
      if alive { Do(Backoff(attempts), BackoffRelease(call.h, FateAt(call, turn).lost)); }
    }

    method MarkQueued(attempts: int) returns (alive: bool, fireAt: int)
      requires Valid() && At(Requeue(attempts))
      modifies this
      ensures Valid() && old(path) <= path && old(events) <= events
      ensures if alive then At(Deferring(fireAt)) else Died()
      ensures alive ==> turn > 0 && fireAt == s.now + FateAt(call, turn - 1).late + BackoffMs(attempts)
    {
      fireAt := 0;
      alive := Pause(Requeue(attempts));
      if !alive { return; }
      var fate := FateAt(call, turn);
      fireAt := s.now + fate.late + BackoffMs(attempts);
      Do(Requeue(attempts), Event.MarkQueued(call.h, fate.lost, fireAt));
    }

    /** The last request found the lock free, or held by this attempt. */
    ghost predicate SawNoOther(attempts: int)
      reads this
    {
      0 < |events| < |path| &&
      var lease := LeaseOn(path[|events| - 1], call.msg.pipeline);
      lease.None? || Holds(lease, call.msg.job, attempts)
    }

    /** GET of the lock: whether the record is still this attempt's to write. */
    method FenceCheck(attempts: int, status: Status) returns (mine: bool)
      requires Valid() && At(Finishing(attempts, status))
      modifies this
      ensures Valid() && old(path) <= path && old(events) <= events
      ensures if mine then At(Recording(attempts, status)) && SawNoOther(attempts)
              else (Over(CheckFence(call.h)) && !SawNoOther(attempts)) || Died()
    {
      var alive := Pause(Finishing(attempts, status));
      if !alive { return false; }
      var lease := LeaseOn(s, call.msg.pipeline);
      mine := lease.None? || Holds(lease, call.msg.job, attempts);
      Do(Finishing(attempts, status), CheckFence(call.h));
    }

    method WriteRecord(attempts: int, status: Status) returns (alive: bool)
      requires Valid() && At(Recording(attempts, status))
      modifies this
      ensures Valid() && old(path) <= path && old(events) <= events
      ensures if alive then At(Releasing(attempts)) && Recorded(call, path, events, status) else Died()
    {
      alive := Pause(Recording(attempts, status));
      if !alive { return; }
      Do(Recording(attempts, status), Record(call.h));
      assert events[|events| - 1] == Record(call.h);
    }

    method ReleaseLock(attempts: int) returns (alive: bool)
      requires Valid() && At(Releasing(attempts))
      modifies this
      ensures Valid() && old(path) <= path && old(events) <= events
      ensures if alive then At(Acking) else Died()
    {
      alive := Pause(Releasing(attempts));
      if alive { Do(Releasing(attempts), ReleaseOwn(call.h)); }
    }

    /** The XACK; its error is ignored. */
    method AckEntry()
      requires Valid() && At(Acking)
      modifies this
      ensures Valid() && old(path) <= path && old(events) <= events && (Acked() || Died())
    {
      var alive := Pause(Acking);
      if alive { Do(Acking, Ack(call.h, FateAt(call, turn).lost)); }
    }

    // The code that makes them

    /** `handle_claimed`, from the parsed message on. */
    method HandleClaimed()
      requires Valid() && At(Fresh)
      modifies this
      ensures Valid() && old(path) <= path && old(events) <= events
      ensures Finished() || Over(Defer(call.h)) || Over(StopCancelled(call.h)) || Over(AckTerminal(call.h))
      ensures Ending(call, path, events)
      ensures AsItCameBack(call, events) && DiesAsFated(call, events, turn)
    {
      Serve();
      Story(cfg, call, path, events, turn, beat);
      CourseCameBack(cfg, call, path, events, turn, beat);
      CourseDies(cfg, call, path, events, turn, beat);
    }

    method Serve()
      requires Valid() && At(Fresh)
      modifies this
      ensures Valid() && old(path) <= path && old(events) <= events
      ensures Finished() || Over(Defer(call.h)) || Over(StopCancelled(call.h)) || Over(AckTerminal(call.h))
    {
      if !cfg.gate(call.msg.prefix) {
        Reject();
        return;
      }
      var alive, over := ReadStatus();
      if !alive { return; }
      if over { AckAgain(); } else { CountAndLock(); }
    }

    /** A prefix of the wrong shape: the job has failed. */
    method Reject()
      requires Valid() && At(Fresh) && !cfg.gate(call.msg.prefix)
      modifies this
      ensures Valid() && old(path) <= path && old(events) <= events && Finished()
    {
      var alive := Decide(Fresh, RejectPrefix(call.h));
      if alive { FinishJob(1, FailedStatus); }
    }

    /** A step that makes no request. */
    method Decide(pc: Pc, e: Event) returns (alive: bool)
      requires Valid() && At(pc) && StepOf(e, call.h)
      requires match e
               case RejectPrefix(_) => pc.Fresh? && !cfg.gate(call.msg.prefix)
               case GiveUp(_) => pc.Counted? && pc.attempt > cfg.maxAttempts
               case EndRun(_, status) =>
                 Back(pc) && if status.Completed? then Clean(call.result) else status.FailedStatus? && Faulty(call.result)
               case ConfigUnreadable(_) => Back(pc) && call.result.ConfigRead?
               case _ => false
      modifies this
      ensures Valid() && old(path) <= path && old(events) <= events
      ensures if !alive then Died() else
              match e
              case RejectPrefix(_) => At(Finishing(1, FailedStatus))
              case GiveUp(_) => pc.Counted? && At(Finishing(pc.attempt, FailedStatus))
              case EndRun(_, status) => pc.Executing? && At(Finishing(pc.attempt, status))
              case ConfigUnreadable(_) => pc.Executing? && At(Backoff(pc.attempt))
              case _ => true
    {
      alive := Pause(pc);
      if alive { Do(pc, e); }
    }

    /** The job has come back, and not cancelled. */
    predicate Back(pc: Pc)
      reads this
    {
      pc.Executing? && (if pc.cancelled then !call.heeds else beat == call.beats)
    }

    /** The job is over already. */
    method AckAgain()
      requires Valid() && At(SeenTerminal)
      modifies this
      ensures Valid() && old(path) <= path && old(events) <= events
      ensures Over(AckTerminal(call.h)) || Died()
    {
      var alive := Pause(SeenTerminal);
      if alive { Do(SeenTerminal, AckTerminal(call.h)); }
    }

    method CountAndLock()
      requires Valid() && At(Cleared)
      modifies this
      ensures Valid() && old(path) <= path && old(events) <= events
      ensures Finished() || Over(Defer(call.h)) || Over(StopCancelled(call.h))
    {
      var alive, attempts := CountAttempt();
      if !alive { return; }
      if attempts > cfg.maxAttempts { GiveUpJob(attempts); } else { TryToRun(attempts); }
    }

    method TryToRun(attempts: int)
      requires Valid() && At(Counted(attempts)) && attempts <= cfg.maxAttempts
      modifies this
      ensures Valid() && old(path) <= path && old(events) <= events
      ensures Finished() || Over(Defer(call.h)) || Over(StopCancelled(call.h))
    {
      var alive, locked := LockPipeline(attempts);
      if !alive { return; }
      if locked { RunJob(attempts); } else { YieldJob(attempts); }
    }

    method RunJob(attempts: int)
      requires Valid() && At(Locked(attempts))
      modifies this
      ensures Valid() && old(path) <= path && old(events) <= events
      ensures Finished() || Over(StopCancelled(call.h)) || (attempts < cfg.maxAttempts && Over(Defer(call.h)))
    {
      var alive := MarkRunning(attempts);
      if alive { Execute(attempts); }
    }

    /** The lock is taken: give the attempt back and come again later. */
    method YieldJob(attempts: int)
      requires Valid() && At(Busy(attempts))
      modifies this
      ensures Valid() && old(path) <= path && old(events) <= events
      ensures Over(Defer(call.h)) || Died()
    {
      var alive, fireAt := GiveBack(attempts);
      if alive { DeferJob(fireAt); }
    }

    method GiveUpJob(attempts: int)
      requires Valid() && At(Counted(attempts)) && attempts > cfg.maxAttempts
      modifies this
      ensures Valid() && old(path) <= path && old(events) <= events && Finished()
    {
      var alive := Decide(Counted(attempts), GiveUp(call.h));
      if alive { FinishJob(attempts, FailedStatus); }
    }

    /** `execute_job`, with the heartbeat beside it, and what follows. */
    method Execute(attempts: int)
      requires Valid() && At(Executing(attempts, false))
      modifies this
      ensures Valid() && old(path) <= path && old(events) <= events
      ensures Finished() || Over(StopCancelled(call.h)) || (attempts < cfg.maxAttempts && Over(Defer(call.h)))
      ensures Ending(call, path, events) && AsItCameBack(call, events)
    {
      ExecuteAndConclude(attempts);
      Story(cfg, call, path, events, turn, beat);
      CourseCameBack(cfg, call, path, events, turn, beat);
    }

    method ExecuteAndConclude(attempts: int)
      requires Valid() && At(Executing(attempts, false))
      modifies this
      ensures Valid() && old(path) <= path && old(events) <= events
      ensures Finished() || Over(StopCancelled(call.h)) || (attempts < cfg.maxAttempts && Over(Defer(call.h)))
    {
      var alive, cancelled := Heartbeat(attempts);
      if alive { Conclude(attempts, cancelled); }
    }

    /** The beats while the job runs: renewals until one finds the lock lost. */
    method Heartbeat(attempts: int) returns (alive: bool, cancelled: bool)
      requires Valid() && At(Executing(attempts, false))
      modifies this
      ensures Valid() && old(path) <= path && old(events) <= events
      ensures if alive then At(Executing(attempts, cancelled)) && (cancelled || beat == call.beats) else Died()
    {
      alive, cancelled := true, false;
      while beat < call.beats && !cancelled
        invariant Valid() && old(path) <= path && old(events) <= events && alive
        invariant At(Executing(attempts, cancelled))
        decreases call.beats - beat
      {
        alive := Pause(Executing(attempts, false));
        if !alive { return; }
        cancelled := !Holds(LeaseOn(s, call.msg.pipeline), call.msg.job, attempts);
        Do(Executing(attempts, false), Renew(call.h));
      }
    }

    /** What follows each way the job can come back. */
    method Conclude(attempts: int, cancelled: bool)
      requires Valid() && At(Executing(attempts, cancelled)) && (cancelled || beat == call.beats)
      modifies this
      ensures Valid() && old(path) <= path && old(events) <= events
      ensures Finished() || (cancelled && Over(StopCancelled(call.h)))
              || (attempts < cfg.maxAttempts && Over(Defer(call.h)))
    {
      if cancelled && call.heeds {
        StopRun(attempts);
        return;
      }
      match call.result
      case Ran(errors) => EndJob(attempts, cancelled, if errors == 0 then Completed else FailedStatus);
      case NoFiles => EndJob(attempts, cancelled, Completed);
      case BadConfig => EndJob(attempts, cancelled, FailedStatus);
      case ConfigRead => Retry(attempts, cancelled);
    }

    method StopRun(attempts: int)
      requires Valid() && At(Executing(attempts, true)) && call.heeds
      modifies this
      ensures Valid() && old(path) <= path && old(events) <= events
      ensures Over(StopCancelled(call.h)) || Died()
    {
      var alive := Pause(Executing(attempts, true));
      if alive { Do(Executing(attempts, true), StopCancelled(call.h)); }
    }

    method EndJob(attempts: int, cancelled: bool, status: Status)
      requires Valid() && At(Executing(attempts, cancelled)) && Back(Executing(attempts, cancelled))
      requires if status.Completed? then Clean(call.result) else status.FailedStatus? && Faulty(call.result)
      modifies this
      ensures Valid() && old(path) <= path && old(events) <= events && Finished()
    {
      var alive := Decide(Executing(attempts, cancelled), EndRun(call.h, status));
      if alive { FinishJob(attempts, status); }
    }

    method Retry(attempts: int, cancelled: bool)
      requires Valid() && At(Executing(attempts, cancelled)) && Back(Executing(attempts, cancelled))
      requires call.result.ConfigRead?
      modifies this
      ensures Valid() && old(path) <= path && old(events) <= events
      ensures Finished() || (attempts < cfg.maxAttempts && Over(Defer(call.h)))
    {
      var alive := Decide(Executing(attempts, cancelled), ConfigUnreadable(call.h));
      if alive { RetryJob(attempts); }
    }

    /** The config could not be read: release the lock, and retry if attempts are left. */
    method RetryJob(attempts: int)
      requires Valid() && At(Backoff(attempts))
      modifies this
      ensures Valid() && old(path) <= path && old(events) <= events
      ensures if attempts >= cfg.maxAttempts then Finished() else Over(Defer(call.h)) || Died()
    {
      var alive := ReleaseForRetry(attempts);
      if !alive { return; }
      if attempts >= cfg.maxAttempts { FinishJob(attempts, FailedStatus); } else { QueueAgain(attempts); }
    }

    method QueueAgain(attempts: int)
      requires Valid() && At(Requeue(attempts))
      modifies this
      ensures Valid() && old(path) <= path && old(events) <= events
      ensures Over(Defer(call.h)) || Died()
    {
      var alive, fireAt := MarkQueued(attempts);
      if alive { DeferJob(fireAt); }
    }

    /** `finish_job`: unless another fence holds the lock, record, release, ack. */
    method FinishJob(attempts: int, status: Status)
      requires Valid() && At(Finishing(attempts, status))
      modifies this
      ensures Valid() && old(path) <= path && old(events) <= events
      ensures Over(CheckFence(call.h)) || (Acked() && Recorded(call, path, events, status)) || Died()
    {
      var mine := FenceCheck(attempts, status);
      if mine { CloseJob(attempts, status); }
    }

    method CloseJob(attempts: int, status: Status)
      requires Valid() && At(Recording(attempts, status))
      modifies this
      ensures Valid() && old(path) <= path && old(events) <= events
      ensures (Acked() && Recorded(call, path, events, status)) || Died()
    {
      var alive := WriteRecord(attempts, status);
      if !alive { return; }
      ghost var pathThen, eventsThen := path, events;
      alive := ReleaseLock(attempts);
      if alive { AckEntry(); }
      RecordedStays(call, pathThen, eventsThen, path, events, status);
    }
  }
}
