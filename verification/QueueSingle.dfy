/**
 How often a job can take its lock, and what follows without any assumption on
 how its deliveries overlap. Each unit of the attempts field pays for one grant
 of the lock or is held by one handler that has not had its answer; so a job
 takes its lock at most `maxAttempts` times. With a single attempt that is one
 fence per job, used by one handler, and leases exclude one another.
 */
module QueueSingle {
  import opened Text
  import opened Queue
  import opened QueueDelivery
  import opened QueueAttempts
  import opened QueueFencing
  import opened QueueLeases

  function GrantsOf(grants: seq<Grant>, job: string): nat {
    if grants == [] then 0
    else GrantsOf(grants[..|grants| - 1], job) + if grants[|grants| - 1].job == job then 1 else 0
  }

  lemma OneMoreGrant(grants: seq<Grant>, g: Grant, job: string)
    ensures GrantsOf(grants + [g], job) == GrantsOf(grants, job) + if g.job == job then 1 else 0
  {
    assert (grants + [g])[..|grants|] == grants;
  }

  ghost function Claimers(s: State, job: string): set<nat> {
    set h | h in s.handlers && s.handlers[h].msg.job == job && Claiming(s.handlers[h].pc)
  }

  /** A claim within the limit, which may still be granted. */
  predicate Eligible(max: int, pc: Pc) {
    Claiming(pc) && pc.attempt <= max
  }

  ghost function Eligibles(max: int, s: State, job: string): set<nat> {
    set h | h in s.handlers && s.handlers[h].msg.job == job && Eligible(max, s.handlers[h].pc)
  }

  /** The state uses a fence that could have been granted. */
  predicate Ticket(cfg: Settings, handler: Handler) {
    Fenced(handler.pc) && handler.pc.attempt <= cfg.maxAttempts && cfg.gate(handler.msg.prefix)
  }

  ghost function Tickets(cfg: Settings, s: State, job: string): set<nat> {
    set h | h in s.handlers && s.handlers[h].msg.job == job && Ticket(cfg, s.handlers[h])
  }

  ghost predicate Metered(cfg: Settings, s: State, job: string) {
    var granted := GrantsOf(s.audit.grants, job);
    && granted + |Claimers(s, job)| <= Attempts(s, job)
    && granted + |Eligibles(cfg.maxAttempts, s, job)| <= cfg.maxAttempts
    && |Tickets(cfg, s, job)| <= granted
  }

  ghost predicate BusyLegal(cfg: Settings, s: State) {
    forall h | h in s.handlers && s.handlers[h].pc.Busy? :: s.handlers[h].pc.attempt <= cfg.maxAttempts
  }

  /** Only attempts within the limit, of jobs with an accepted prefix, are granted. */
  ghost predicate GrantLegal(cfg: Settings, s: State, g: Grant) {
    g.attempt <= cfg.maxAttempts && g.job in s.audit.messages && cfg.gate(s.audit.messages[g.job].prefix)
  }

  ghost predicate GrantsLegal(cfg: Settings, s: State) {
    forall g | g in s.audit.grants :: GrantLegal(cfg, s, g)
  }

  ghost predicate AllMetered(cfg: Settings, s: State) {
    BusyLegal(cfg, s) && forall job :: Metered(cfg, s, job)
  }

  // A handler's step

  lemma EffectClaimsPay(cfg: Settings, v: View, e: Event)
    requires CanTake(cfg, v, e) && (v.handler.pc.Busy? ==> v.handler.pc.attempt <= cfg.maxAttempts)
    ensures var f := EffectOf(cfg, v, e);
            var claimed, claims := Bit(Claiming(v.handler.pc)), Bit(f.pc.Some? && Claiming(f.pc.value));
            && f.live.attempts - v.live.attempts >= claims - claimed + Bit(f.mark.Granted?)
            && (f.pc.Some? && f.pc.value.Busy? ==> f.pc.value.attempt <= cfg.maxAttempts)
  {
  }

  lemma EffectEligible(cfg: Settings, v: View, e: Event)
    requires CanTake(cfg, v, e)
    ensures var f := EffectOf(cfg, v, e);
            var was, now := Bit(Eligible(cfg.maxAttempts, v.handler.pc)),
                            Bit(f.pc.Some? && Eligible(cfg.maxAttempts, f.pc.value));
            || now - was + Bit(f.mark.Granted?) <= 0
            || (now == 1 && was == 0 && !Claiming(v.handler.pc) && f.mark.NoMark? && v.live.attempts + 1 <= cfg.maxAttempts)
  {
  }

  lemma ClaimersAfter(s: State, h: nat, f: Effect, job: string)
    requires h in s.handlers
    ensures Claimers(Apply(s, h, f), job)
         == if s.handlers[h].msg.job == job && f.pc.Some? && Claiming(f.pc.value)
            then Claimers(s, job) + {h} else Claimers(s, job) - {h}
  {
  }

  lemma EligiblesAfter(max: int, s: State, h: nat, f: Effect, job: string)
    requires h in s.handlers
    ensures Eligibles(max, Apply(s, h, f), job)
         == if s.handlers[h].msg.job == job && f.pc.Some? && Eligible(max, f.pc.value)
            then Eligibles(max, s, job) + {h} else Eligibles(max, s, job) - {h}
  {
  }

  lemma TicketsAfter(cfg: Settings, s: State, h: nat, f: Effect, job: string)
    requires h in s.handlers
    ensures Tickets(cfg, Apply(s, h, f), job)
         == if s.handlers[h].msg.job == job && f.pc.Some? && Ticket(cfg, s.handlers[h].(pc := f.pc.value))
            then Tickets(cfg, s, job) + {h} else Tickets(cfg, s, job) - {h}
  {
  }

  lemma FewerEligible(max: int, s: State, job: string)
    ensures |Eligibles(max, s, job)| <= |Claimers(s, job)|
  {
    var rest := Claimers(s, job) - Eligibles(max, s, job);
    assert Claimers(s, job) == Eligibles(max, s, job) + rest;
  }

  lemma GrantsOfAfter(cfg: Settings, s: State, h: nat, f: Effect, job: string)
    requires h in s.handlers && ClaimMove(cfg, ViewOf(s, h), f)
    ensures GrantsOf(Apply(s, h, f).audit.grants, job)
         == GrantsOf(s.audit.grants, job) + Bit(f.mark.Granted? && s.handlers[h].msg.job == job)
  {
    GrantsAfter(s, h, f);
    if f.mark.Granted? {
      OneMoreGrant(s.audit.grants, Grant(s.handlers[h].msg.job, f.lock.lease.attempt), job);
    } else {
      assert s.audit.grants + [] == s.audit.grants;
    }
  }

  /** A new ticket comes with a grant. */
  lemma TicketsPay(cfg: Settings, s: State, h: nat, f: Effect, job: string)
    requires h in s.handlers && ClaimMove(cfg, ViewOf(s, h), f) && FenceMove(cfg, ViewOf(s, h), f)
    requires |Tickets(cfg, s, job)| <= GrantsOf(s.audit.grants, job)
    ensures |Tickets(cfg, Apply(s, h, f), job)| <= GrantsOf(Apply(s, h, f).audit.grants, job)
  {
    TicketsAfter(cfg, s, h, f, job);
    GrantsOfAfter(cfg, s, h, f, job);
    With(Tickets(cfg, s, job), h);
  }

  lemma ApplyMeters(cfg: Settings, s: State, h: nat, e: Event, job: string)
    requires h in s.handlers && CanTake(cfg, ViewOf(s, h), e) && Metered(cfg, s, job) && BusyLegal(cfg, s)
    ensures Metered(cfg, Apply(s, h, EffectOf(cfg, ViewOf(s, h), e)), job)
  {
    var v, f := ViewOf(s, h), EffectOf(cfg, ViewOf(s, h), e);
    EffectClaims(cfg, v, e);
    EffectFences(cfg, v, e);
    EffectClaimsPay(cfg, v, e);
    EffectEligible(cfg, v, e);
    TicketsPay(cfg, s, h, f, job);
    EffectMeters(cfg, s, h, f, job);
  }

  lemma EffectMeters(cfg: Settings, s: State, h: nat, f: Effect, job: string)
    requires h in s.handlers && ClaimMove(cfg, ViewOf(s, h), f) && Metered(cfg, s, job)
    requires |Tickets(cfg, Apply(s, h, f), job)| <= GrantsOf(Apply(s, h, f).audit.grants, job)
    requires var v := ViewOf(s, h);
             f.live.attempts - v.live.attempts
             >= Bit(f.pc.Some? && Claiming(f.pc.value)) - Bit(Claiming(v.handler.pc)) + Bit(f.mark.Granted?)
    requires var v := ViewOf(s, h);
             var was, now := Bit(Eligible(cfg.maxAttempts, v.handler.pc)),
                             Bit(f.pc.Some? && Eligible(cfg.maxAttempts, f.pc.value));
             || now - was + Bit(f.mark.Granted?) <= 0
             || (now == 1 && was == 0 && !Claiming(v.handler.pc) && f.mark.NoMark? && v.live.attempts + 1 <= cfg.maxAttempts)
    ensures Metered(cfg, Apply(s, h, f), job)
  {
    ClaimersAfter(s, h, f, job);
    EligiblesAfter(cfg.maxAttempts, s, h, f, job);
    GrantsOfAfter(cfg, s, h, f, job);
    AttemptsAfter(s, h, f, job);
    With(Claimers(s, job), h);
    With(Eligibles(cfg.maxAttempts, s, job), h);
    FewerEligible(cfg.maxAttempts, s, job);
  }

  lemma ApplyLegal(cfg: Settings, s: State, h: nat, f: Effect)
    requires h in s.handlers && Known(s, s.handlers[h].msg) && ClaimMove(cfg, ViewOf(s, h), f)
    requires GrantsLegal(cfg, s) && FenceOk(cfg, s, s.handlers[h])
    ensures GrantsLegal(cfg, Apply(s, h, f))
  {
    var t := Apply(s, h, f);
    GrantsAfter(s, h, f);
    forall g | g in t.audit.grants ensures GrantLegal(cfg, t, g) {
      if g in s.audit.grants { assert GrantLegal(cfg, s, g); }
    }
  }

  lemma ApplyBusy(cfg: Settings, s: State, h: nat, f: Effect)
    requires h in s.handlers && BusyLegal(cfg, s) && (f.pc.Some? && f.pc.value.Busy? ==> f.pc.value.attempt <= cfg.maxAttempts)
    ensures BusyLegal(cfg, Apply(s, h, f))
  {
  }

  // Every step

  ghost predicate Sound(cfg: Settings, s: State) {
    AllMetered(cfg, s) && GrantsLegal(cfg, s) && FencesOk(cfg, s)
  }

  lemma HandlerKeepsSound(cfg: Settings, s: State, e: Event, t: State)
    requires TakesHandlerStep(cfg, s, e, t) && AllKnown(s) && Sound(cfg, s)
    ensures Sound(cfg, t)
  {
    var h, v := e.h, ViewOf(s, e.h);
    var f := EffectOf(cfg, v, e);
    assert FenceOk(cfg, s, s.handlers[h]);
    EffectClaims(cfg, v, e);
    EffectFences(cfg, v, e);
    EffectClaimsPay(cfg, v, e);
    ApplyLegal(cfg, s, h, f);
    ApplyFences(cfg, s, h, f);
    ApplyBusy(cfg, s, h, f);
    forall job ensures Metered(cfg, t, job) {
      assert Metered(cfg, s, job);
      ApplyMeters(cfg, s, h, e, job);
    }
  }

  lemma QuietMeters(cfg: Settings, s: State, t: State, job: string)
    requires Quiet(s, t) && Metered(cfg, s, job)
    ensures Metered(cfg, t, job)
  {
    assert Claimers(t, job) == Claimers(s, job);
    assert Eligibles(cfg.maxAttempts, t, job) == Eligibles(cfg.maxAttempts, s, job);
    assert Tickets(cfg, t, job) == Tickets(cfg, s, job);
  }

  lemma QuietKeepsSound(cfg: Settings, s: State, t: State)
    requires Quiet(s, t) && Sound(cfg, s)
    ensures Sound(cfg, t)
  {
    forall job ensures Metered(cfg, t, job) {
      assert Metered(cfg, s, job);
      QuietMeters(cfg, s, t, job);
    }
    forall g | g in t.audit.grants ensures GrantLegal(cfg, t, g) { assert GrantLegal(cfg, s, g); }
    forall h | h in t.handlers ensures FenceOk(cfg, t, t.handlers[h]) {
      if h in s.handlers { assert FenceOk(cfg, s, s.handlers[h]); }
    }
  }

  lemma StepKeepsSound(cfg: Settings, s: State, e: Event, t: State)
    requires Step(cfg, s, e, t) && Basic(s) && Sound(cfg, s)
    ensures Sound(cfg, t)
  {
    if IsServerEvent(e) {
      ServerQuiet(s, e);
      QuietKeepsSound(cfg, s, t);
    } else {
      BasicKnows(s);
      HandlerKeepsSound(cfg, s, e, t);
    }
  }

  lemma InitSound(cfg: Settings, s: State)
    requires Init(s) && cfg.maxAttempts >= 0
    ensures Sound(cfg, s)
  {
    forall job ensures Metered(cfg, s, job) {
      assert Claimers(s, job) == {} && Eligibles(cfg.maxAttempts, s, job) == {} && Tickets(cfg, s, job) == {};
    }
  }

  lemma {:induction false} AlwaysSound(cfg: Settings, path: seq<State>, events: seq<Event>, i: nat)
    requires Behavior(cfg, path, events) && i < |path| && cfg.maxAttempts >= 0
    ensures Basic(path[i]) && Sound(cfg, path[i])
  {
    BasicAlways(cfg, path, events, i);
    if i == 0 {
      InitSound(cfg, path[0]);
    } else {
      AlwaysSound(cfg, path, events, i - 1);
      assert StepAt(cfg, path, events, i - 1);
      StepKeepsSound(cfg, path[i - 1], events[i - 1], path[i]);
    }
  }

  // The theorems

  /** How often the first `i` events of a run took the lock for a job. */
  ghost function TimesLocked(path: seq<State>, events: seq<Event>, i: nat, job: string): nat
    requires |path| == |events| + 1 && i <= |events|
  {
    if i == 0 then 0
    else TimesLocked(path, events, i - 1, job)
         + if TakesLock(path, events, i - 1) && TakenBy(path, events, i - 1).job == job then 1 else 0
  }

  lemma StepLocks(cfg: Settings, path: seq<State>, events: seq<Event>, i: nat, job: string)
    requires Behavior(cfg, path, events) && i < |events|
    ensures GrantsOf(path[i + 1].audit.grants, job)
         == GrantsOf(path[i].audit.grants, job)
            + Bit(TakesLock(path, events, i) && TakenBy(path, events, i).job == job)
  {
    var s, e := path[i], events[i];
    assert StepAt(cfg, path, events, i);
    if IsServerEvent(e) {
      ServerServes(s, e);
    } else {
      var f := EffectOf(cfg, ViewOf(s, e.h), e);
      EffectClaims(cfg, ViewOf(s, e.h), e);
      EffectLocksIff(cfg, ViewOf(s, e.h), e);
      GrantsOfAfter(cfg, s, e.h, f, job);
    }
  }

  lemma EffectLocksIff(cfg: Settings, v: View, e: Event)
    requires CanTake(cfg, v, e)
    ensures EffectOf(cfg, v, e).mark.Granted? <==>
              e.TryLock? && v.handler.pc.Counted? && EffectOf(cfg, v, e).pc == Some(Locked(v.handler.pc.attempt))
  {
  }

  lemma {:induction false} LocksCounted(cfg: Settings, path: seq<State>, events: seq<Event>, i: nat, job: string)
    requires Behavior(cfg, path, events) && i <= |events|
    ensures GrantsOf(path[i].audit.grants, job) == TimesLocked(path, events, i, job)
  {
    if i > 0 {
      LocksCounted(cfg, path, events, i - 1, job);
      StepLocks(cfg, path, events, i - 1, job);
    }
  }

  /** In no run does a job take its lock more than `maxAttempts` times. */
  lemma BoundedLocks(cfg: Settings, path: seq<State>, events: seq<Event>, job: string)
    requires Behavior(cfg, path, events) && cfg.maxAttempts >= 0
    ensures TimesLocked(path, events, |events|, job) <= cfg.maxAttempts
  {
    AlwaysSound(cfg, path, events, |events|);
    assert Metered(cfg, path[|events|], job);
    LocksCounted(cfg, path, events, |events|, job);
  }

  lemma OnlyOne(a: set<nat>, h: nat, k: nat)
    requires |a| <= 1 && h in a && k in a
    ensures h == k
  {
    if h != k { With(a - {h}, k); With(a, h); }
  }

  /** A granted fence in use is a ticket. */
  lemma OwnerHasTicket(cfg: Settings, s: State, h: nat)
    requires AllKnown(s) && GrantsLegal(cfg, s) && h in s.handlers && Owned(s, h)
    ensures h in Tickets(cfg, s, s.handlers[h].msg.job)
  {
    assert Known(s, s.handlers[h].msg);
    assert GrantLegal(cfg, s, Grant(s.handlers[h].msg.job, s.handlers[h].pc.attempt));
  }

  lemma OneTicket(cfg: Settings, s: State, h: nat, k: nat)
    requires cfg.maxAttempts <= 1 && Basic(s) && Sound(cfg, s)
    requires h in s.handlers && k in s.handlers && Owned(s, h) && Owned(s, k)
    requires s.handlers[h].msg.job == s.handlers[k].msg.job
    ensures h == k
  {
    BasicKnows(s);
    assert Metered(cfg, s, s.handlers[h].msg.job);
    OwnerHasTicket(cfg, s, h);
    OwnerHasTicket(cfg, s, k);
    OnlyOne(Tickets(cfg, s, s.handlers[h].msg.job), h, k);
  }

  lemma SingleOwners(cfg: Settings, s: State)
    requires cfg.maxAttempts <= 1 && Basic(s) && Sound(cfg, s)
    ensures NoTwoOwners(s)
  {
    forall h, k | h in s.handlers && k in s.handlers && SameFence(s.handlers[h], s.handlers[k]) && Owned(s, h)
      ensures h == k
    {
      OneTicket(cfg, s, h, k);
    }
  }

  /** With one attempt, no two handlers of a job are ever both inside
      `execute_job`, young leases or not. */
  lemma OneInside(cfg: Settings, path: seq<State>, events: seq<Event>, i: nat, h: nat, k: nat)
    requires Behavior(cfg, path, events) && i < |path| && 0 <= cfg.maxAttempts <= 1
    requires var s := path[i];
             && h in s.handlers && k in s.handlers && s.handlers[h].msg.job == s.handlers[k].msg.job
             && s.handlers[h].pc.Executing? && s.handlers[k].pc.Executing?
    ensures h == k
  {
    var s := path[i];
    AlwaysSound(cfg, path, events, i);
    assert FenceOk(cfg, s, s.handlers[h]) && FenceOk(cfg, s, s.handlers[k]);
    OneTicket(cfg, s, h, k);
  }

  lemma {:induction false} SingleLeasesHeld(cfg: Settings, path: seq<State>, events: seq<Event>, i: nat)
    requires Behavior(cfg, path, events) && i < |path| && 0 <= cfg.maxAttempts <= 1
    ensures LeasesHeld(cfg, path[i])
  {
    if i > 0 {
      SingleLeasesHeld(cfg, path, events, i - 1);
      AlwaysSound(cfg, path, events, i - 1);
      SingleOwners(cfg, path[i - 1]);
      assert StepAt(cfg, path, events, i - 1);
      StepKeepsLeases(cfg, path[i - 1], events[i - 1], path[i]);
    }
  }

  /** At most one handler of a pipeline with a young lease is inside `execute_job`. */
  ghost predicate Alone(cfg: Settings, s: State) {
    forall h, k | h in s.handlers && k in s.handlers && s.handlers[h].pc.Executing? && s.handlers[k].pc.Executing?
                  && Young(cfg, s.now, s.handlers[h]) && Young(cfg, s.now, s.handlers[k])
                  && s.handlers[h].msg.pipeline == s.handlers[k].msg.pipeline :: h == k
  }

  /** Mutual exclusion with one attempt, however deliveries overlap. */
  lemma SingleExcludes(cfg: Settings, path: seq<State>, events: seq<Event>, i: nat)
    requires Behavior(cfg, path, events) && i < |path| && 0 <= cfg.maxAttempts <= 1
    ensures Alone(cfg, path[i])
  {
    var s := path[i];
    AlwaysSound(cfg, path, events, i);
    SingleOwners(cfg, s);
    SingleLeasesHeld(cfg, path, events, i);
    forall h, k | h in s.handlers && k in s.handlers && s.handlers[h].pc.Executing? && s.handlers[k].pc.Executing?
                  && Young(cfg, s.now, s.handlers[h]) && Young(cfg, s.now, s.handlers[k])
                  && s.handlers[h].msg.pipeline == s.handlers[k].msg.pipeline
      ensures h == k
    {
      YoungLeasesDiffer(cfg, s, h, k);
    }
  }

  /** With one attempt, at most one handler's fence is ever the value of a lock. */
  lemma SingleFence(cfg: Settings, path: seq<State>, events: seq<Event>, i: nat, pipeline: string, h: nat, k: nat)
    requires Behavior(cfg, path, events) && i < |path| && 0 <= cfg.maxAttempts <= 1 && pipeline in path[i].locks
    requires HasFence(path[i], h, path[i].locks[pipeline]) && HasFence(path[i], k, path[i].locks[pipeline])
    ensures h == k
  {
    AlwaysSound(cfg, path, events, i);
    LocksGranted(cfg, path, events, i);
    SingleOwners(cfg, path[i]);
    OneFence(path[i], pipeline, h, k);
  }

  /** Every lock has been granted to the job it names. */
  lemma {:induction false} LocksGranted(cfg: Settings, path: seq<State>, events: seq<Event>, i: nat)
    requires Behavior(cfg, path, events) && i < |path| && cfg.maxAttempts >= 0
    ensures Leases(path[i])
  {
    if i > 0 {
      LocksGranted(cfg, path, events, i - 1);
      AlwaysSound(cfg, path, events, i - 1);
      assert StepAt(cfg, path, events, i - 1);
      StepKeepsLocks(cfg, path[i - 1], events[i - 1], path[i]);
    }
  }

  lemma StepKeepsLocks(cfg: Settings, s: State, e: Event, t: State)
    requires Step(cfg, s, e, t) && Basic(s) && Leases(s)
    ensures Leases(t)
  {
    if IsServerEvent(e) {
      ServerQuiet(s, e);
      forall p | p in t.locks ensures LeaseOk(t, p) { assert LeaseOk(s, p); }
    } else {
      BasicKnows(s);
      EffectClaims(cfg, ViewOf(s, e.h), e);
      EffectLocks(cfg, ViewOf(s, e.h), e);
      ApplyLeases(cfg, s, e.h, EffectOf(cfg, ViewOf(s, e.h), e));
    }
  }
}
