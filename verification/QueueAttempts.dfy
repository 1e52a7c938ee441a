/**
 Bounded execution: however deliveries are repeated and handlers crash, and
 though a handler that finds the lock taken gives its attempt back, no job
 enters `execute_job` more than `maxAttempts` times.

 Each unit of the attempts field pays for one past entry or is held by one
 handler between its increment and its entry.
 */
module QueueAttempts {
  import opened Queue

  /** Incremented, and neither entered, undone nor given up yet. */
  predicate HoldsAttempt(pc: Pc) {
    pc.Counted? || pc.Busy? || pc.Locked?
  }

  /** Such a handler may still enter: its attempt is within the limit. */
  predicate MayEnter(max: int, pc: Pc) {
    HoldsAttempt(pc) && pc.attempt <= max
  }

  ghost function Holders(s: State, job: string): set<nat> {
    set h | h in s.handlers && s.handlers[h].msg.job == job && HoldsAttempt(s.handlers[h].pc)
  }

  ghost function Entrants(max: int, s: State, job: string): set<nat> {
    set h | h in s.handlers && s.handlers[h].msg.job == job && MayEnter(max, s.handlers[h].pc)
  }

  ghost predicate Paid(cfg: Settings, s: State, job: string) {
    && s.audit.entered[job] + |Holders(s, job)| <= Attempts(s, job)
    && s.audit.entered[job] + |Entrants(cfg.maxAttempts, s, job)| <= cfg.maxAttempts
  }

  ghost predicate Limited(cfg: Settings, s: State) {
    && (forall h | h in s.handlers && (s.handlers[h].pc.Busy? || s.handlers[h].pc.Locked?) ::
          s.handlers[h].pc.attempt <= cfg.maxAttempts)
    && forall job :: Paid(cfg, s, job)
  }

  lemma With(a: set<nat>, h: nat)
    ensures |a + {h}| == if h in a then |a| else |a| + 1
    ensures |a - {h}| == if h in a then |a| - 1 else |a|
  {
    if h in a { assert a + {h} == a; } else { assert a - {h} == a; }
  }

  lemma HoldersAfter(s: State, h: nat, f: Effect, job: string)
    requires h in s.handlers
    ensures Holders(Apply(s, h, f), job)
         == if s.handlers[h].msg.job == job && f.pc.Some? && HoldsAttempt(f.pc.value)
            then Holders(s, job) + {h} else Holders(s, job) - {h}
  {
  }

  lemma EntrantsAfter(max: int, s: State, h: nat, f: Effect, job: string)
    requires h in s.handlers
    ensures Entrants(max, Apply(s, h, f), job)
         == if s.handlers[h].msg.job == job && f.pc.Some? && MayEnter(max, f.pc.value)
            then Entrants(max, s, job) + {h} else Entrants(max, s, job) - {h}
  {
  }

  lemma FewerEntrants(max: int, s: State, job: string)
    ensures |Entrants(max, s, job)| <= |Holders(s, job)|
  {
    var rest := Holders(s, job) - Entrants(max, s, job);
    assert Holders(s, job) == Entrants(max, s, job) + rest;
  }

  function Bit(b: bool): int {
    if b then 1 else 0
  }

  /** What one step does to the books. */
  lemma EffectPays(cfg: Settings, v: View, e: Event)
    requires CanTake(cfg, v, e)
    requires v.handler.pc.Busy? || v.handler.pc.Locked? ==> v.handler.pc.attempt <= cfg.maxAttempts
    ensures var f := EffectOf(cfg, v, e);
            var held, holds := Bit(HoldsAttempt(v.handler.pc)), Bit(f.pc.Some? && HoldsAttempt(f.pc.value));
            var may, mayNow := Bit(MayEnter(cfg.maxAttempts, v.handler.pc)),
                               Bit(f.pc.Some? && MayEnter(cfg.maxAttempts, f.pc.value));
            && f.live.attempts - v.live.attempts >= holds - held + Bit(f.mark.Entered?)
            && (mayNow - may + Bit(f.mark.Entered?) <= 0
                || (mayNow == 1 && may == 0 && f.mark.NoMark? && v.live.attempts + 1 <= cfg.maxAttempts))
            && (f.pc.Some? && (f.pc.value.Busy? || f.pc.value.Locked?) ==> f.pc.value.attempt <= cfg.maxAttempts)
  {
  }

  lemma ApplyPays(cfg: Settings, s: State, h: nat, e: Event, job: string)
    requires h in s.handlers && CanTake(cfg, ViewOf(s, h), e) && Paid(cfg, s, job)
    requires s.handlers[h].pc.Busy? || s.handlers[h].pc.Locked? ==> s.handlers[h].pc.attempt <= cfg.maxAttempts
    ensures Paid(cfg, Apply(s, h, EffectOf(cfg, ViewOf(s, h), e)), job)
  {
    var f := EffectOf(cfg, ViewOf(s, h), e);
    EffectPays(cfg, ViewOf(s, h), e);
    HoldersAfter(s, h, f, job);
    EntrantsAfter(cfg.maxAttempts, s, h, f, job);
    With(Holders(s, job), h);
    With(Entrants(cfg.maxAttempts, s, job), h);
    FewerEntrants(cfg.maxAttempts, s, job);
    BooksAfter(s, h, f, job);
  }

  lemma BooksAfter(s: State, h: nat, f: Effect, job: string)
    requires h in s.handlers
    ensures var t := Apply(s, h, f);
            if s.handlers[h].msg.job == job
            then Attempts(t, job) == f.live.attempts
                 && t.audit.entered[job] == s.audit.entered[job] + Bit(f.mark.Entered?)
            else Attempts(t, job) == Attempts(s, job) && t.audit.entered[job] == s.audit.entered[job]
  {
  }

  ghost predicate Fresh(s: State) {
    forall h | h in s.handlers :: h < s.nextId
  }

  /** The server changes no handler's place and no count; it may start handlers. */
  ghost predicate Unclaimed(s: State, t: State) {
    && s.handlers.Keys <= t.handlers.Keys
    && (forall h | h in s.handlers :: t.handlers[h] == s.handlers[h])
    && (forall h | h in t.handlers && h !in s.handlers :: t.handlers[h].pc.Fresh?)
    && t.audit.entered == s.audit.entered
  }

  lemma ServerUnclaimed(s: State, e: Event)
    requires IsServerEvent(e) && ServerEnabled(s, e) && Fresh(s)
    ensures Unclaimed(s, ServerNext(s, e)) && Fresh(ServerNext(s, e))
  {
    ServerServes(s, e);
  }

  lemma UnclaimedPays(cfg: Settings, s: State, t: State, job: string)
    requires Unclaimed(s, t) && Paid(cfg, s, job) && Attempts(t, job) == Attempts(s, job)
    ensures Paid(cfg, t, job)
  {
    assert Holders(t, job) == Holders(s, job);
    assert Entrants(cfg.maxAttempts, t, job) == Entrants(cfg.maxAttempts, s, job);
  }

  lemma ServerLimited(cfg: Settings, s: State, e: Event)
    requires IsServerEvent(e) && ServerEnabled(s, e) && Limited(cfg, s) && Fresh(s)
    ensures Limited(cfg, ServerNext(s, e)) && Fresh(ServerNext(s, e))
  {
    ServerUnclaimed(s, e);
    ServerServes(s, e);
    var t := ServerNext(s, e);
    forall job ensures Paid(cfg, t, job) {
      assert Paid(cfg, s, job);
      UnclaimedPays(cfg, s, t, job);
    }
  }

  lemma ApplyLimited(cfg: Settings, s: State, h: nat, e: Event)
    requires h in s.handlers && CanTake(cfg, ViewOf(s, h), e) && Limited(cfg, s) && Fresh(s)
    ensures var t := Apply(s, h, EffectOf(cfg, ViewOf(s, h), e)); Limited(cfg, t) && Fresh(t)
  {
    var f := EffectOf(cfg, ViewOf(s, h), e);
    var t := Apply(s, h, f);
    EffectPays(cfg, ViewOf(s, h), e);
    forall job ensures Paid(cfg, t, job) {
      assert Paid(cfg, s, job);
      ApplyPays(cfg, s, h, e, job);
    }
    assert forall k | k in t.handlers && k != h :: t.handlers[k] == s.handlers[k];
  }

  lemma StepPays(cfg: Settings, s: State, e: Event, t: State)
    requires Step(cfg, s, e, t) && Limited(cfg, s) && Fresh(s)
    ensures Limited(cfg, t) && Fresh(t)
  {
    if IsServerEvent(e) { ServerLimited(cfg, s, e); } else { ApplyLimited(cfg, s, e.h, e); }
  }

  lemma {:induction false} AlwaysLimited(cfg: Settings, path: seq<State>, events: seq<Event>, i: nat)
    requires Behavior(cfg, path, events) && i < |path| && cfg.maxAttempts >= 0
    ensures Limited(cfg, path[i]) && Fresh(path[i])
  {
    if i == 0 {
      forall job ensures Paid(cfg, path[0], job) {
        assert Holders(path[0], job) == {} && Entrants(cfg.maxAttempts, path[0], job) == {};
      }
    } else {
      AlwaysLimited(cfg, path, events, i - 1);
      assert StepAt(cfg, path, events, i - 1);
      StepPays(cfg, path[i - 1], events[i - 1], path[i]);
    }
  }

  /** How often the first `i` events of a run entered `execute_job` for a job. */
  ghost function TimesRun(path: seq<State>, events: seq<Event>, i: nat, job: string): nat
    requires |path| == |events| + 1 && i <= |events|
  {
    if i == 0 then 0
    else TimesRun(path, events, i - 1, job)
         + if events[i - 1].StartRun? && events[i - 1].h in path[i - 1].handlers
              && path[i - 1].handlers[events[i - 1].h].msg.job == job then 1 else 0
  }

  lemma StepEnters(cfg: Settings, s: State, e: Event, t: State, job: string)
    requires Step(cfg, s, e, t)
    ensures t.audit.entered[job]
         == s.audit.entered[job] + if e.StartRun? && s.handlers[e.h].msg.job == job then 1 else 0
  {
    if IsServerEvent(e) {
      ServerServes(s, e);
    } else {
      BooksAfter(s, e.h, EffectOf(cfg, ViewOf(s, e.h), e), job);
      EffectEnters(cfg, ViewOf(s, e.h), e);
    }
  }

  lemma EffectEnters(cfg: Settings, v: View, e: Event)
    requires CanTake(cfg, v, e)
    ensures EffectOf(cfg, v, e).mark.Entered? <==> e.StartRun?
  {
  }

  lemma {:induction false} EnteredCounts(cfg: Settings, path: seq<State>, events: seq<Event>, i: nat, job: string)
    requires Behavior(cfg, path, events) && i <= |events|
    ensures path[i].audit.entered[job] == TimesRun(path, events, i, job)
  {
    if i > 0 {
      EnteredCounts(cfg, path, events, i - 1, job);
      assert StepAt(cfg, path, events, i - 1);
      StepEnters(cfg, path[i - 1], events[i - 1], path[i], job);
    }
  }

  /** No run enters `execute_job` for one job more than `maxAttempts` times. */
  lemma BoundedExecution(cfg: Settings, path: seq<State>, events: seq<Event>, job: string)
    requires Behavior(cfg, path, events) && cfg.maxAttempts >= 0
    ensures TimesRun(path, events, |events|, job) <= cfg.maxAttempts
  {
    AlwaysLimited(cfg, path, events, |events|);
    assert Paid(cfg, path[|events|], job);
    EnteredCounts(cfg, path, events, |events|, job);
  }
}
