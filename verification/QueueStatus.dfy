/**
 What the statuses in the live hashes mean: whoever reads one can tell what
 happened to the job, and a delivery that reads a terminal one leaves the job alone.
 */
module QueueStatus {
  import opened Text
  import opened Queue
  import opened QueueDelivery
  import opened QueueAttempts
  import opened QueueCall

  predicate ByHandlerOf(s: State, e: Event, job: string) {
    !IsServerEvent(e) && e.h in s.handlers && s.handlers[e.h].msg.job == job
  }

  /** The event that a status of a job stands for. */
  predicate Earns(cfg: Settings, s: State, e: Event, job: string, status: Status) {
    match status
    case Queued => (e.Enqueue? && e.msg.job == job) || (ByHandlerOf(s, e, job) && e.MarkQueued? && !e.failed)
    case Running => ByHandlerOf(s, e, job) && e == StartRun(e.h, false)
    case Completed => ByHandlerOf(s, e, job) && s.handlers[e.h].pc.Executing? && e == EndRun(e.h, Completed)
    case FailedStatus => ByHandlerOf(s, e, job) && Fails(cfg, s.handlers[e.h], e)
    case Abandoned => e.SweepMark? && e.job == job
  }

  /** The four ways a job fails: its prefix is refused, its attempts are used up, it ran
      and came back with errors, or its config stayed unreadable. */
  predicate Fails(cfg: Settings, handler: Handler, e: Event) {
    || (e.RejectPrefix? && !cfg.gate(handler.msg.prefix))
    || (e.GiveUp? && handler.pc.Counted? && handler.pc.attempt > cfg.maxAttempts)
    || (e.EndRun? && e.status.FailedStatus? && handler.pc.Executing?)
    || (e.BackoffRelease? && handler.pc.Backoff? && handler.pc.attempt >= cfg.maxAttempts)
  }

  ghost predicate Earned(cfg: Settings, path: seq<State>, events: seq<Event>, k: nat, job: string, status: Status)
    requires |path| == |events| + 1 && k < |path|
  {
    exists i: nat :: i < k && Earns(cfg, path[i], events[i], job, status)
  }

  /** The status a handler is about to write. */
  function Due(pc: Pc): Option<Status> {
    match pc
    case Finishing(_, status) => Some(status)
    case Recording(_, status) => Some(status)
    case _ => None
  }

  ghost predicate AllEarned(cfg: Settings, path: seq<State>, events: seq<Event>, k: nat)
    requires |path| == |events| + 1 && k < |path|
  {
    && (forall job | LiveOf(path[k], job).status.Some? ::
          Earned(cfg, path, events, k, job, LiveOf(path[k], job).status.value))
    && (forall h | h in path[k].handlers && Due(path[k].handlers[h].pc).Some? ::
          Earned(cfg, path, events, k, path[k].handlers[h].msg.job, Due(path[k].handlers[h].pc).value))
  }

  /** A step writes a status that was there, that was due, or that it stands for. */
  lemma EffectEarns(cfg: Settings, s: State, e: Event)
    requires !IsServerEvent(e) && Enabled(cfg, s, e)
    ensures var v := ViewOf(s, e.h);
            var f := EffectOf(cfg, v, e);
            var job := v.handler.msg.job;
            && (f.live.status == v.live.status || f.live.status == Due(v.handler.pc)
                || (f.live.status.Some? && Earns(cfg, s, e, job, f.live.status.value)))
            && (f.pc.Some? && Due(f.pc.value).Some? ==>
                  Due(f.pc.value) == Due(v.handler.pc) || Earns(cfg, s, e, job, Due(f.pc.value).value))
  {
  }

  lemma ServerEarns(cfg: Settings, s: State, e: Event, job: string)
    requires IsServerEvent(e) && ServerEnabled(s, e)
    ensures var status := LiveOf(ServerNext(s, e), job).status;
            status == LiveOf(s, job).status || (status.Some? && Earns(cfg, s, e, job, status.value))
  {
  }

  lemma ServerDue(s: State, e: Event, h: nat)
    requires IsServerEvent(e) && ServerEnabled(s, e)
    requires h in ServerNext(s, e).handlers && Due(ServerNext(s, e).handlers[h].pc).Some?
    ensures h in s.handlers && ServerNext(s, e).handlers[h] == s.handlers[h]
  {
    ServerServes(s, e);
  }

  lemma EarnedStays(cfg: Settings, path: seq<State>, events: seq<Event>, k: nat, job: string, status: Status)
    requires |path| == |events| + 1 && k < |events|
    requires Earned(cfg, path, events, k, job, status) || Earns(cfg, path[k], events[k], job, status)
    ensures Earned(cfg, path, events, k + 1, job, status)
  {
  }

  lemma StatusStep(cfg: Settings, path: seq<State>, events: seq<Event>, k: nat, job: string)
    requires Behavior(cfg, path, events) && k < |events| && AllEarned(cfg, path, events, k)
    requires LiveOf(path[k + 1], job).status.Some?
    ensures Earned(cfg, path, events, k + 1, job, LiveOf(path[k + 1], job).status.value)
  {
    var s, e := path[k], events[k];
    assert StepAt(cfg, path, events, k);
    if IsServerEvent(e) {
      ServerEarns(cfg, s, e, job);
    } else {
      EffectEarns(cfg, s, e);
      AfterApply(s, e.h, EffectOf(cfg, ViewOf(s, e.h), e));
      OtherJobs(s, e.h, EffectOf(cfg, ViewOf(s, e.h), e), job);
    }
    EarnedStays(cfg, path, events, k, job, LiveOf(path[k + 1], job).status.value);
  }

  lemma OtherJobs(s: State, h: nat, f: Effect, job: string)
    requires h in s.handlers
    ensures job != s.handlers[h].msg.job ==> LiveOf(Apply(s, h, f), job) == LiveOf(s, job)
  {
  }

  lemma DueStep(cfg: Settings, path: seq<State>, events: seq<Event>, k: nat, h: nat)
    requires Behavior(cfg, path, events) && k < |events| && AllEarned(cfg, path, events, k)
    requires h in path[k + 1].handlers && Due(path[k + 1].handlers[h].pc).Some?
    ensures Earned(cfg, path, events, k + 1, path[k + 1].handlers[h].msg.job, Due(path[k + 1].handlers[h].pc).value)
  {
    var s, e := path[k], events[k];
    assert StepAt(cfg, path, events, k);
    if IsServerEvent(e) {
      ServerDue(s, e, h);
    } else if e.h == h {
      EffectEarns(cfg, s, e);
      AfterApply(s, h, EffectOf(cfg, ViewOf(s, h), e));
    } else {
      ApplyOnly(s, e.h, EffectOf(cfg, ViewOf(s, e.h), e), h);
    }
    EarnedStays(cfg, path, events, k, path[k + 1].handlers[h].msg.job, Due(path[k + 1].handlers[h].pc).value);
  }

  lemma ApplyOnly(s: State, h: nat, f: Effect, other: nat)
    requires h in s.handlers && other != h && other in Apply(s, h, f).handlers
    ensures other in s.handlers && Apply(s, h, f).handlers[other] == s.handlers[other]
  {
  }

  lemma {:induction false} AlwaysEarned(cfg: Settings, path: seq<State>, events: seq<Event>, k: nat)
    requires Behavior(cfg, path, events) && k < |path|
    ensures AllEarned(cfg, path, events, k)
  {
    if k > 0 {
      AlwaysEarned(cfg, path, events, k - 1);
      forall job | LiveOf(path[k], job).status.Some?
        ensures Earned(cfg, path, events, k, job, LiveOf(path[k], job).status.value)
      {
        StatusStep(cfg, path, events, k - 1, job);
      }
      forall h | h in path[k].handlers && Due(path[k].handlers[h].pc).Some?
        ensures Earned(cfg, path, events, k, path[k].handlers[h].msg.job, Due(path[k].handlers[h].pc).value)
      {
        DueStep(cfg, path, events, k - 1, h);
      }
    }
  }

  /** A status in a live hash tells the truth: at some earlier moment of the run what it
      stands for happened to this job. */
  lemma StatusIsTrue(cfg: Settings, path: seq<State>, events: seq<Event>, k: nat, job: string) returns (i: nat)
    requires Behavior(cfg, path, events) && k < |path| && LiveOf(path[k], job).status.Some?
    ensures i < k && Earns(cfg, path[i], events[i], job, LiveOf(path[k], job).status.value)
  {
    AlwaysEarned(cfg, path, events, k);
    i :| 0 <= i < k && Earns(cfg, path[i], events[i], job, LiveOf(path[k], job).status.value);
  }

  // The redelivery guard

  /** The handler is over, or about to ack. */
  ghost predicate LeavesAlone(s: State, h: nat) {
    h < s.nextId && (h in s.handlers ==> s.handlers[h].pc.SeenTerminal?)
  }

  lemma GuardStays(cfg: Settings, s: State, e: Event, t: State, h: nat)
    requires Step(cfg, s, e, t) && LeavesAlone(s, h)
    ensures LeavesAlone(t, h)
  {
    if IsServerEvent(e) {
      ServerServes(s, e);
    } else if e.h == h {
      GuardEffect(cfg, ViewOf(s, h), e);
    }
  }

  lemma GuardEffect(cfg: Settings, v: View, e: Event)
    requires CanTake(cfg, v, e)
    requires v.handler.pc.SeenTerminal? || (v.handler.pc.Fresh? && e.ReadStatus? && !e.failed && StatusTerminal(v.live))
    ensures EffectOf(cfg, v, e).pc.Some? ==> EffectOf(cfg, v, e).pc.value.SeenTerminal?
  {
  }

  lemma GuardStarts(cfg: Settings, s: State, e: Event, t: State)
    requires Step(cfg, s, e, t) && Basic(s) && e.ReadStatus? && !e.failed
    requires StatusTerminal(LiveOf(s, s.handlers[e.h].msg.job))
    ensures LeavesAlone(t, e.h)
  {
    assert HandlerOk(s, e.h);
    GuardEffect(cfg, ViewOf(s, e.h), e);
  }

  ghost predicate ReadsTerminal(path: seq<State>, events: seq<Event>, i: nat)
    requires |path| == |events| + 1
  {
    && i < |events| && events[i].ReadStatus? && !events[i].failed && events[i].h in path[i].handlers
    && StatusTerminal(LiveOf(path[i], path[i].handlers[events[i].h].msg.job))
  }

  lemma {:induction false} Guarded(cfg: Settings, path: seq<State>, events: seq<Event>, i: nat, k: nat)
    requires Behavior(cfg, path, events) && ReadsTerminal(path, events, i) && i < k < |path|
    ensures LeavesAlone(path[k], events[i].h)
    decreases k
  {
    if i == k - 1 {
      GuardBegins(cfg, path, events, i);
    } else {
      Guarded(cfg, path, events, i, k - 1);
      assert StepAt(cfg, path, events, k - 1);
      GuardStays(cfg, path[k - 1], events[k - 1], path[k], events[i].h);
    }
  }

  lemma GuardBegins(cfg: Settings, path: seq<State>, events: seq<Event>, i: nat)
    requires Behavior(cfg, path, events) && ReadsTerminal(path, events, i)
    ensures LeavesAlone(path[i + 1], events[i].h)
  {
    BasicAlways(cfg, path, events, i);
    assert StepAt(cfg, path, events, i);
    GuardStarts(cfg, path[i], events[i], path[i + 1]);
  }

  /** A delivery that reads a terminal status never touches the job again: whatever
      else happens, all it can do is ack its entry. */
  lemma RedeliveryGuard(cfg: Settings, path: seq<State>, events: seq<Event>, i: nat, k: nat)
    requires Behavior(cfg, path, events) && ReadsTerminal(path, events, i) && i < k < |events|
    requires StepOf(events[k], events[i].h)
    ensures events[k].AckTerminal? || events[k].Crash?
  {
    Guarded(cfg, path, events, i, k);
    assert StepAt(cfg, path, events, k);
    OnlyAck(cfg, path[k], events[k]);
  }

  lemma OnlyAck(cfg: Settings, s: State, e: Event)
    requires !IsServerEvent(e) && Enabled(cfg, s, e) && LeavesAlone(s, e.h)
    ensures e.AckTerminal? || e.Crash?
  {
  }
}
