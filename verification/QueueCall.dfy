/**
 One call of `handle_claimed` within a run of Queue: what is given to it from
 outside (when its process dies, which replies get lost, what `execute_job`
 comes back with), which of the steps Queue allows it then has to take, and what
 follows from these for how it ends.
 */
module QueueCall {
  import opened Text
  import opened Queue
  import opened QueueDelivery
  import opened QueueAttempts

  /** What `execute_job` comes back with when it is not stopped. */
  datatype JobResult = Ran(errors: nat) | NoFiles | ConfigRead | BadConfig

  predicate Clean(result: JobResult) {
    result.NoFiles? || (result.Ran? && result.errors == 0)
  }

  predicate Faulty(result: JobResult) {
    result.BadConfig? || (result.Ran? && result.errors > 0)
  }

  /** What comes of one turn: whether the process dies instead of taking it, whether
      the request is lost, and how long after it the clock is read. */
  datatype Fate = Fate(dies: bool, lost: bool, late: nat)

  /** Handler `h`, started for `msg` before event `from`. The job comes back after
      `beats` renewals, or at any time once its lock is lost; then it comes back
      cancelled if it `heeds` the flag. */
  datatype Call = Call(h: nat, msg: Msg, from: nat, fates: seq<Fate>, beats: nat, result: JobResult, heeds: bool)

  /** Beyond the list nothing goes wrong. */
  function FateAt(c: Call, turn: nat): Fate {
    if turn < |c.fates| then c.fates[turn] else Fate(false, false, 0)
  }

  const LOCK_BUSY_MS: int := 30_000

  function BackoffMs(attempts: int): int {
    var doublings := if attempts - 1 > 6 then 6 else if attempts > 1 then attempts - 1 else 0;
    var ms := 30_000 * TwoTo(doublings);
    if ms > 600_000 then 600_000 else ms
  }

  function TwoTo(n: nat): (p: int)
    ensures p >= 1
  {
    if n == 0 then 1 else 2 * TwoTo(n - 1)
  }

  /** Thirty seconds at first, doubled at each attempt, never more than ten minutes. */
  lemma BackoffDoubles(attempts: int)
    ensures BackoffMs(1) == 30_000
    ensures attempts >= 1 ==>
              BackoffMs(attempts + 1) == if 2 * BackoffMs(attempts) > 600_000 then 600_000 else 2 * BackoffMs(attempts)
  {
    assert TwoTo(6) == 64 && TwoTo(5) == 32;
    if 1 <= attempts <= 6 { assert TwoTo(attempts) == 2 * TwoTo(attempts - 1); }
    if attempts == 6 { assert BackoffMs(6) == 600_000; }
  }

  predicate StepOf(e: Event, h: nat) {
    !IsServerEvent(e) && e.h == h
  }

  /** Whether the job comes back cancelled. */
  predicate Stops(c: Call, v: View) {
    v.handler.pc.Executing? && v.handler.pc.cancelled && c.heeds
  }

  /** Whether the job comes back now, and not cancelled. */
  predicate Returns(c: Call, beat: nat, v: View) {
    v.handler.pc.Executing? && !Stops(c, v) && (beat == c.beats || v.handler.pc.cancelled)
  }

  /** Which steps the call takes where Queue leaves a choice. */
  predicate Planned(c: Call, turn: nat, beat: nat, v: View, e: Event) {
    var fate := FateAt(c, turn);
    if e.Crash? then fate.dies else
    !fate.dies &&
    match e
    case ReadStatus(_, failed) => failed == fate.lost
    case UndoIncrement(_, failed, fireAt) => failed == fate.lost && fireAt == v.now + fate.late + LOCK_BUSY_MS
    case StartRun(_, failed) => failed == fate.lost
    case Renew(_) => beat < c.beats
    case EndRun(_, status) =>
      Returns(c, beat, v) && if status.Completed? then Clean(c.result) else Faulty(c.result)
    case StopCancelled(_) => Stops(c, v)
    case ConfigUnreadable(_) => Returns(c, beat, v) && c.result.ConfigRead?
    case BackoffRelease(_, failed) => failed == fate.lost
    case MarkQueued(_, failed, fireAt) =>
      failed == fate.lost && v.handler.pc.Requeue?
      && fireAt == v.now + fate.late + BackoffMs(v.handler.pc.attempt)
    case Ack(_, failed) => failed == fate.lost
    case _ => true
  }

  predicate Working(c: Call, s: State) {
    c.h in s.handlers && s.handlers[c.h].msg == c.msg
  }

  /** The call has taken `turn` steps, `beat` of them renewals, as planned. */
  ghost predicate Course(c: Call, path: seq<State>, events: seq<Event>, turn: nat, beat: nat)
    requires |path| == |events| + 1
    decreases |events|
  {
    if |events| <= c.from then
      |events| == c.from && turn == beat == 0 && Working(c, path[|events|]) && path[|events|].handlers[c.h].pc.Fresh?
    else
      var n := |events| - 1;
      var e := events[n];
      && Working(c, path[n])
      && if StepOf(e, c.h) then
           && turn > 0 && (e.Renew? ==> beat > 0)
           && Planned(c, turn - 1, if e.Renew? then beat - 1 else beat, ViewOf(path[n], c.h), e)
           && Course(c, path[..n + 1], events[..n], turn - 1, if e.Renew? then beat - 1 else beat)
         else Course(c, path[..n + 1], events[..n], turn, beat)
  }

  lemma CourseGrows(c: Call, path: seq<State>, events: seq<Event>, turn: nat, beat: nat, s: State, e: Event)
    requires |path| == |events| + 1 && Course(c, path, events, turn, beat) && c.from <= |events|
    requires Working(c, path[|events|])
    requires StepOf(e, c.h) ==> Planned(c, turn, beat, ViewOf(path[|events|], c.h), e)
    ensures Course(c, path + [s], events + [e], if StepOf(e, c.h) then turn + 1 else turn,
                   if StepOf(e, c.h) && e.Renew? then beat + 1 else beat)
  {
    assert (path + [s])[..|events| + 1] == path && (events + [e])[..|events|] == events;
  }

  /** Other steps leave the handler where it is. */
  lemma OthersKeep(cfg: Settings, s: State, e: Event, h: nat)
    requires Enabled(cfg, s, e) && !StepOf(e, h) && h in s.handlers && Basic(s)
    ensures var t := Next(cfg, s, e); h in t.handlers && t.handlers[h] == s.handlers[h]
  {
    if IsServerEvent(e) {
      forall k | k in s.handlers ensures k < s.nextId { assert HandlerOk(s, k); }
      ServerUnclaimed(s, e);
    } else {
      ApplyKeepsOthers(s, e.h, EffectOf(cfg, ViewOf(s, e.h), e), h);
    }
  }

  lemma ApplyKeepsOthers(s: State, h: nat, f: Effect, other: nat)
    requires h in s.handlers && other in s.handlers && other != h
    ensures other in Apply(s, h, f).handlers && Apply(s, h, f).handlers[other] == s.handlers[other]
  {
  }

  // What a call has seen and done

  /** It has been in `execute_job`. */
  ghost predicate HasRun(c: Call, events: seq<Event>) {
    exists k: nat :: c.from <= k < |events| && StepOf(events[k], c.h) && events[k].StartRun?
  }

  /** It has read a terminal status of its job. */
  ghost predicate SawTerminal(c: Call, path: seq<State>, events: seq<Event>)
    requires |path| == |events| + 1
  {
    exists k: nat :: c.from <= k < |events| && events[k] == ReadStatus(c.h, false)
                     && StatusTerminal(LiveOf(path[k], c.msg.job))
  }

  /** A renewal of its found that the lock is not its own any more. */
  ghost predicate LostLock(c: Call, path: seq<State>, events: seq<Event>)
    requires |path| == |events| + 1
  {
    exists k: nat :: c.from <= k < |events| && events[k] == Renew(c.h) && LockNotOwn(c, path[k])
  }

  predicate LockNotOwn(c: Call, s: State) {
    Working(c, s) && s.handlers[c.h].pc.Executing?
    && !Holds(LeaseOn(s, c.msg.pipeline), c.msg.job, s.handlers[c.h].pc.attempt)
  }

  /** It wrote this status into its job's live hash. */
  ghost predicate Recorded(c: Call, path: seq<State>, events: seq<Event>, status: Status)
    requires |path| == |events| + 1
  {
    exists k: nat :: c.from <= k < |events| && events[k] == Record(c.h)
                     && LiveOf(path[k + 1], c.msg.job).status == Some(status)
  }

  /** What a call has seen and done so far. */
  datatype Deeds = Deeds(ran: bool, saw: bool, lost: bool, wroteCompleted: bool, wroteFailed: bool)

  ghost function DeedsOf(c: Call, path: seq<State>, events: seq<Event>): Deeds
    requires |path| == |events| + 1
  {
    Deeds(HasRun(c, events), SawTerminal(c, path, events), LostLock(c, path, events),
          Recorded(c, path, events, Completed), Recorded(c, path, events, FailedStatus))
  }

  /** What a step adds: `v` is what its handler sees, `status` what its job's live hash says after. */
  function More(d: Deeds, v: View, e: Event, status: Option<Status>): Deeds {
    match e
    case ReadStatus(_, failed) => d.(saw := d.saw || (!failed && StatusTerminal(v.live)))
    case StartRun(_, _) => d.(ran := true)
    case Renew(_) =>
      d.(lost := d.lost || (v.handler.pc.Executing? && !Holds(v.lease, v.handler.msg.job, v.handler.pc.attempt)))
    case Record(_) => d.(wroteCompleted := d.wroteCompleted || status == Some(Completed),
                         wroteFailed := d.wroteFailed || status == Some(FailedStatus))
    case _ => d
  }

  /** The status a call has to record: completed iff the job ran and came back clean. */
  function FinalStatus(c: Call, ran: bool): Status {
    if ran && Clean(c.result) then Completed else FailedStatus
  }

  predicate Wrote(d: Deeds, status: Status) {
    if status.Completed? then d.wroteCompleted else status.FailedStatus? && d.wroteFailed
  }

  /** What it must have seen and done to be at this point of its code. */
  predicate Tells(cfg: Settings, c: Call, d: Deeds, pc: Pc) {
    (d.saw <==> pc.SeenTerminal?) &&
    match pc
    case Executing(_, cancelled) => d.ran && (cancelled <==> d.lost)
    case Backoff(_) => d.ran && c.result.ConfigRead?
    case Requeue(attempts) => d.ran && c.result.ConfigRead? && attempts < cfg.maxAttempts
    case Deferring(_) => d.ran ==> c.result.ConfigRead?
    case Finishing(_, status) => status == FinalStatus(c, d.ran)
    case Recording(_, status) => status == FinalStatus(c, d.ran)
    case Releasing(_) => Wrote(d, FinalStatus(c, d.ran))
    case Acking => Wrote(d, FinalStatus(c, d.ran))
    case _ => !d.ran && !d.lost
  }

  /** And to be over with this step. */
  predicate Ends(c: Call, d: Deeds, v: View, e: Event) {
    match e
    case AckTerminal(_) => d.saw && !d.ran
    case Defer(_) => !d.saw && (d.ran ==> c.result.ConfigRead?)
    case StopCancelled(_) => d.ran && d.lost && c.heeds
    case CheckFence(_) => !d.saw && v.lease.Some?
    case Ack(_, _) => !d.saw && Wrote(d, FinalStatus(c, d.ran))
    case Crash(_) => true
    case _ => false
  }

  lemma EffectTells(cfg: Settings, c: Call, turn: nat, beat: nat, d: Deeds, v: View, e: Event)
    requires CanTake(cfg, v, e) && Planned(c, turn, beat, v, e) && Tells(cfg, c, d, v.handler.pc)
    ensures var f := EffectOf(cfg, v, e);
            var after := More(d, v, e, f.live.status);
            if f.pc.Some? then Tells(cfg, c, after, f.pc.value) else Ends(c, after, v, e)
  {
  }

  /** A call of which this is so is over, and this is what came before. */
  ghost predicate Ending(c: Call, path: seq<State>, events: seq<Event>)
    requires |path| == |events| + 1
  {
    var n := |events| - 1;
    && n >= c.from && StepOf(events[n], c.h) && Working(c, path[n]) && !Working(c, path[n + 1])
    && Ends(c, DeedsOf(c, path, events), ViewOf(path[n], c.h), events[n])
  }

  predicate Added(c: Call, d: Deeds, after: Deeds, s: State, e: Event, t: State) {
    var status := LiveOf(t, c.msg.job).status;
    && after.ran == (d.ran || (StepOf(e, c.h) && e.StartRun?))
    && after.saw == (d.saw || (e == ReadStatus(c.h, false) && StatusTerminal(LiveOf(s, c.msg.job))))
    && after.lost == (d.lost || (e == Renew(c.h) && LockNotOwn(c, s)))
    && after.wroteCompleted == (d.wroteCompleted || (e == Record(c.h) && status == Some(Completed)))
    && after.wroteFailed == (d.wroteFailed || (e == Record(c.h) && status == Some(FailedStatus)))
  }

  lemma OneMore(c: Call, path: seq<State>, events: seq<Event>)
    requires |path| == |events| + 1 && |events| > c.from
    ensures var n := |events| - 1;
            Added(c, DeedsOf(c, path[..n + 1], events[..n]), DeedsOf(c, path, events), path[n], events[n], path[n + 1])
  {
    RunMore(c, events);
    SawMore(c, path, events);
    LostMore(c, path, events);
    RecordedMore(c, path, events, Completed);
    RecordedMore(c, path, events, FailedStatus);
  }

  lemma AddedIsMore(c: Call, d: Deeds, after: Deeds, s: State, e: Event, t: State)
    requires Added(c, d, after, s, e, t) && Working(c, s)
    ensures after == if StepOf(e, c.h) then More(d, ViewOf(s, c.h), e, LiveOf(t, c.msg.job).status) else d
  {
  }

  lemma RunMore(c: Call, events: seq<Event>)
    requires |events| > c.from
    ensures var n := |events| - 1;
            HasRun(c, events) <==> (HasRun(c, events[..n]) || (StepOf(events[n], c.h) && events[n].StartRun?))
  {
    var n := |events| - 1;
    if HasRun(c, events[..n]) {
      var k: nat :| c.from <= k < n && StepOf(events[..n][k], c.h) && events[..n][k].StartRun?;
      assert events[k] == events[..n][k];
    }
    if HasRun(c, events) {
      var k: nat :| c.from <= k < |events| && StepOf(events[k], c.h) && events[k].StartRun?;
      if k < n { assert events[..n][k] == events[k]; }
    }
  }

  lemma SawMore(c: Call, path: seq<State>, events: seq<Event>)
    requires |path| == |events| + 1 && |events| > c.from
    ensures var n := |events| - 1;
            SawTerminal(c, path, events) <==>
              (SawTerminal(c, path[..n + 1], events[..n])
               || (events[n] == ReadStatus(c.h, false) && StatusTerminal(LiveOf(path[n], c.msg.job))))
  {
    var n := |events| - 1;
    if SawTerminal(c, path[..n + 1], events[..n]) {
      var k: nat :| c.from <= k < n && events[..n][k] == ReadStatus(c.h, false)
                    && StatusTerminal(LiveOf(path[..n + 1][k], c.msg.job));
      assert events[k] == events[..n][k];
    }
    if SawTerminal(c, path, events) {
      var k: nat :| c.from <= k < |events| && events[k] == ReadStatus(c.h, false)
                    && StatusTerminal(LiveOf(path[k], c.msg.job));
      if k < n { assert events[..n][k] == events[k]; }
    }
  }

  lemma LostMore(c: Call, path: seq<State>, events: seq<Event>)
    requires |path| == |events| + 1 && |events| > c.from
    ensures var n := |events| - 1;
            LostLock(c, path, events) <==>
              (LostLock(c, path[..n + 1], events[..n]) || (events[n] == Renew(c.h) && LockNotOwn(c, path[n])))
  {
    var n := |events| - 1;
    if LostLock(c, path[..n + 1], events[..n]) {
      var k: nat :| c.from <= k < n && events[..n][k] == Renew(c.h) && LockNotOwn(c, path[..n + 1][k]);
      assert events[k] == events[..n][k];
    }
    if LostLock(c, path, events) {
      var k: nat :| c.from <= k < |events| && events[k] == Renew(c.h) && LockNotOwn(c, path[k]);
      if k < n { assert events[..n][k] == events[k]; }
    }
  }

  lemma RecordedMore(c: Call, path: seq<State>, events: seq<Event>, status: Status)
    requires |path| == |events| + 1 && |events| > c.from
    ensures var n := |events| - 1;
            Recorded(c, path, events, status) <==>
              (Recorded(c, path[..n + 1], events[..n], status)
               || (events[n] == Record(c.h) && LiveOf(path[n + 1], c.msg.job).status == Some(status)))
  {
    var n := |events| - 1;
    if Recorded(c, path[..n + 1], events[..n], status) {
      var k: nat :| c.from <= k < n && events[..n][k] == Record(c.h)
                    && LiveOf(path[..n + 1][k + 1], c.msg.job).status == Some(status);
      assert events[k] == events[..n][k];
    }
    if Recorded(c, path, events, status) {
      var k: nat :| c.from <= k < |events| && events[k] == Record(c.h)
                    && LiveOf(path[k + 1], c.msg.job).status == Some(status);
      if k < n { assert events[..n][k] == events[k]; }
    }
  }

  lemma RecordedStays(c: Call, path: seq<State>, events: seq<Event>, path': seq<State>, events': seq<Event>, status: Status)
    requires |path| == |events| + 1 && |path'| == |events'| + 1 && path <= path' && events <= events'
    requires Recorded(c, path, events, status)
    ensures Recorded(c, path', events', status)
  {
    var k: nat :| c.from <= k < |events| && events[k] == Record(c.h)
                  && LiveOf(path[k + 1], c.msg.job).status == Some(status);
    assert events'[k] == events[k];
  }

  lemma BehaviorPrefix(cfg: Settings, path: seq<State>, events: seq<Event>, n: nat)
    requires Behavior(cfg, path, events) && n <= |events|
    ensures Behavior(cfg, path[..n + 1], events[..n])
  {
    var shorter, fewer := path[..n + 1], events[..n];
    forall i | 0 <= i < |fewer| ensures StepAt(cfg, shorter, fewer, i) {
      assert StepAt(cfg, path, events, i);
    }
  }

  ghost predicate Told(cfg: Settings, c: Call, path: seq<State>, events: seq<Event>)
    requires |path| == |events| + 1
  {
    Working(c, path[|events|]) && Tells(cfg, c, DeedsOf(c, path, events), path[|events|].handlers[c.h].pc)
  }

  /** Where a call stands tells what it has seen and done; and so does how it ended. */
  lemma {:induction false} Story(cfg: Settings, c: Call, path: seq<State>, events: seq<Event>, turn: nat, beat: nat)
    requires Behavior(cfg, path, events) && Course(c, path, events, turn, beat)
    ensures if c.h in path[|events|].handlers then Told(cfg, c, path, events) else Ending(c, path, events)
    decreases |events|
  {
    if |events| > c.from {
      var n := |events| - 1;
      BehaviorPrefix(cfg, path, events, n);
      if StepOf(events[n], c.h) {
        var before := if events[n].Renew? then beat - 1 else beat;
        Story(cfg, c, path[..n + 1], events[..n], turn - 1, before);
        OwnTurn(cfg, c, path, events, turn - 1, before);
      } else {
        Story(cfg, c, path[..n + 1], events[..n], turn, beat);
        OthersTurn(cfg, c, path, events);
      }
    }
  }

  lemma OwnTurn(cfg: Settings, c: Call, path: seq<State>, events: seq<Event>, turn: nat, beat: nat)
    requires Behavior(cfg, path, events) && |events| > c.from && StepOf(events[|events| - 1], c.h)
    requires Told(cfg, c, path[..|events|], events[..|events| - 1])
    requires Planned(c, turn, beat, ViewOf(path[|events| - 1], c.h), events[|events| - 1])
    ensures if c.h in path[|events|].handlers then Told(cfg, c, path, events) else Ending(c, path, events)
  {
    var n := |events| - 1;
    var d := DeedsOf(c, path[..n + 1], events[..n]);
    assert StepAt(cfg, path, events, n);
    OneMore(c, path, events);
    AddedIsMore(c, d, DeedsOf(c, path, events), path[n], events[n], path[n + 1]);
    OwnStep(cfg, c, path[n], events[n], path[n + 1], d, turn, beat);
  }

  lemma OthersTurn(cfg: Settings, c: Call, path: seq<State>, events: seq<Event>)
    requires Behavior(cfg, path, events) && |events| > c.from && !StepOf(events[|events| - 1], c.h)
    requires Told(cfg, c, path[..|events|], events[..|events| - 1])
    ensures Told(cfg, c, path, events)
  {
    var n := |events| - 1;
    OneMore(c, path, events);
    AddedIsMore(c, DeedsOf(c, path[..n + 1], events[..n]), DeedsOf(c, path, events), path[n], events[n], path[n + 1]);
    OthersStep(cfg, c, path, events);
  }

  lemma OthersStep(cfg: Settings, c: Call, path: seq<State>, events: seq<Event>)
    requires Behavior(cfg, path, events) && 0 < |events|
    requires !StepOf(events[|events| - 1], c.h) && c.h in path[|events| - 1].handlers
    ensures c.h in path[|events|].handlers && path[|events|].handlers[c.h] == path[|events| - 1].handlers[c.h]
  {
    var n := |events| - 1;
    BasicAlways(cfg, path, events, n);
    assert StepAt(cfg, path, events, n);
    OthersKeep(cfg, path[n], events[n], c.h);
  }

  lemma OwnStep(cfg: Settings, c: Call, s: State, e: Event, t: State, d: Deeds, turn: nat, beat: nat)
    requires Step(cfg, s, e, t) && StepOf(e, c.h) && Working(c, s) && Tells(cfg, c, d, s.handlers[c.h].pc)
    requires Planned(c, turn, beat, ViewOf(s, c.h), e)
    ensures var after := More(d, ViewOf(s, c.h), e, LiveOf(t, c.msg.job).status);
            if c.h in t.handlers then Working(c, t) && Tells(cfg, c, after, t.handlers[c.h].pc)
            else Ends(c, after, ViewOf(s, c.h), e)
  {
    EffectTells(cfg, c, turn, beat, d, ViewOf(s, c.h), e);
    AfterApply(s, c.h, EffectOf(cfg, ViewOf(s, c.h), e));
  }

  lemma AfterApply(s: State, h: nat, f: Effect)
    requires h in s.handlers
    ensures var t := Apply(s, h, f);
            && LiveOf(t, s.handlers[h].msg.job) == f.live
            && (h in t.handlers <==> f.pc.Some?)
            && (f.pc.Some? ==> t.handlers[h].msg == s.handlers[h].msg && t.handlers[h].pc == f.pc.value)
  {
  }

  // What the plan means for a whole call

  /** The status it ends the job with, and whether it may put it off or drop it. */
  ghost predicate AsItCameBack(c: Call, events: seq<Event>) {
    forall k: nat | c.from <= k < |events| && StepOf(events[k], c.h) :: EndsAsItCameBack(c, events[k])
  }

  predicate EndsAsItCameBack(c: Call, e: Event) {
    match e
    case EndRun(_, status) =>
      && (status.Completed? <==> c.result == Ran(0) || c.result == NoFiles)
      && (status.FailedStatus? <==> c.result == BadConfig || (c.result.Ran? && c.result.errors > 0))
    case ConfigUnreadable(_) => c.result.ConfigRead?
    case StopCancelled(_) => c.heeds
    case _ => true
  }

  /** Its process dies at the first turn at which it is to die, and at no other. */
  ghost predicate DiesAsFated(c: Call, events: seq<Event>, turn: nat) {
    && (|events| > c.from && events[|events| - 1] == Crash(c.h) ==> turn > 0 && FateAt(c, turn - 1).dies)
    && forall k: nat | k < turn && FateAt(c, k).dies ::
         k == turn - 1 && |events| > c.from && events[|events| - 1] == Crash(c.h)
  }

  lemma {:induction false} CourseCameBack(cfg: Settings, c: Call, path: seq<State>, events: seq<Event>, turn: nat, beat: nat)
    requires Behavior(cfg, path, events) && Course(c, path, events, turn, beat)
    ensures AsItCameBack(c, events)
    decreases |events|
  {
    if |events| > c.from {
      var n := |events| - 1;
      var own := StepOf(events[n], c.h);
      BehaviorPrefix(cfg, path, events, n);
      assert StepAt(cfg, path, events, n);
      CourseCameBack(cfg, c, path[..n + 1], events[..n], if own then turn - 1 else turn,
                     if own && events[n].Renew? then beat - 1 else beat);
      forall k: nat | c.from <= k < |events| && StepOf(events[k], c.h) ensures EndsAsItCameBack(c, events[k]) {
        if k < n { assert events[..n][k] == events[k]; }
      }
    }
  }

  lemma {:induction false} CourseDies(cfg: Settings, c: Call, path: seq<State>, events: seq<Event>, turn: nat, beat: nat)
    requires Behavior(cfg, path, events) && Course(c, path, events, turn, beat)
    ensures DiesAsFated(c, events, turn)
    decreases |events|
  {
    if |events| > c.from {
      var n := |events| - 1;
      var own := StepOf(events[n], c.h);
      BehaviorPrefix(cfg, path, events, n);
      CourseDies(cfg, c, path[..n + 1], events[..n], if own then turn - 1 else turn,
                 if own && events[n].Renew? then beat - 1 else beat);
      if n > c.from && events[n - 1] == Crash(c.h) {
        assert StepAt(cfg, path, events, n - 1);
        AfterApply(path[n - 1], c.h, EffectOf(cfg, ViewOf(path[n - 1], c.h), events[n - 1]));
        assert false;
      }
    }
  }
}
