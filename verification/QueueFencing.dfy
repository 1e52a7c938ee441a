/**
 Fences and leases. While two handlers of one job are never both between the
 increment of its attempts and the lock's answer, the attempts at which a job
 takes its lock strictly increase, at most one handler's fence is ever the
 lock's value, a lost lease stays lost, and handlers with young leases exclude
 each other.
 */
module QueueFencing {
  import opened Text
  import opened Queue
  import opened QueueDelivery
  import opened QueueAttempts

  /** Between HINCRBY and the lock's answer, or the undo. */
  predicate Claiming(pc: Pc) {
    pc.Counted? || pc.Busy?
  }

  /** The assumption: such handlers never share a job. The code makes the
      increment and the lock two round trips, so it does not enforce it. */
  ghost predicate Exclusive(s: State) {
    forall h, k | h in s.handlers && k in s.handlers && Claiming(s.handlers[h].pc) && Claiming(s.handlers[k].pc)
                  && s.handlers[h].msg.job == s.handlers[k].msg.job :: h == k
  }

  /** States whose fence goes into a lock script or a fence check. */
  predicate Fenced(pc: Pc) {
    pc.Locked? || pc.Executing? || pc.Backoff? || pc.Finishing? || pc.Recording? || pc.Releasing?
  }

  predicate Owning(pc: Pc) {
    pc.Locked? || pc.Executing? || pc.Backoff?
  }

  predicate PastGate(pc: Pc) {
    pc.Cleared? || pc.Counted? || pc.Busy? || pc.Deferring? || pc.Locked? || pc.Executing? || pc.Backoff? || pc.Requeue?
  }

  ghost predicate GrantOk(cfg: Settings, s: State, g: Grant) {
    && g.attempt <= Attempts(s, g.job) && g.attempt <= cfg.maxAttempts
    && g.job in s.audit.messages && cfg.gate(s.audit.messages[g.job].prefix)
  }

  ghost predicate ClaimOk(s: State, handler: Handler) {
    Claiming(handler.pc) ==>
      handler.pc.attempt == Attempts(s, handler.msg.job)
      && forall g | g in s.audit.grants && g.job == handler.msg.job :: g.attempt < handler.pc.attempt
  }

  /** A fence in use was granted, or belongs to an attempt that never could be. */
  ghost predicate FenceOk(cfg: Settings, s: State, handler: Handler) {
    && (Fenced(handler.pc) ==>
          Grant(handler.msg.job, handler.pc.attempt) in s.audit.grants
          || (!Owning(handler.pc) && (handler.pc.attempt > cfg.maxAttempts || !cfg.gate(handler.msg.prefix))))
    && (PastGate(handler.pc) ==> cfg.gate(handler.msg.prefix))
  }

  ghost predicate LeaseOk(s: State, pipeline: string)
    requires pipeline in s.locks
  {
    var lease := s.locks[pipeline];
    && Grant(lease.job, lease.attempt) in s.audit.grants
    && lease.job in s.audit.messages && s.audit.messages[lease.job].pipeline == pipeline
  }

  ghost predicate SameFence(a: Handler, b: Handler) {
    Fenced(a.pc) && Fenced(b.pc) && a.msg.job == b.msg.job && a.pc.attempt == b.pc.attempt
  }

  /** The handler's fence has been granted. */
  ghost predicate Owned(s: State, h: nat)
    requires h in s.handlers
  {
    Fenced(s.handlers[h].pc) && Grant(s.handlers[h].msg.job, s.handlers[h].pc.attempt) in s.audit.grants
  }

  ghost predicate NoTwoOwners(s: State) {
    forall h, k | h in s.handlers && k in s.handlers && SameFence(s.handlers[h], s.handlers[k]) && Owned(s, h) :: h == k
  }

  ghost predicate Grants(cfg: Settings, s: State) {
    forall g | g in s.audit.grants :: GrantOk(cfg, s, g)
  }

  ghost predicate Claims(s: State) {
    forall h | h in s.handlers :: ClaimOk(s, s.handlers[h])
  }

  ghost predicate FencesOk(cfg: Settings, s: State) {
    forall h | h in s.handlers :: FenceOk(cfg, s, s.handlers[h])
  }

  ghost predicate Leases(s: State) {
    forall p | p in s.locks :: LeaseOk(s, p)
  }

  ghost predicate Fences(cfg: Settings, s: State) {
    Grants(cfg, s) && Claims(s) && FencesOk(cfg, s) && Leases(s) && NoTwoOwners(s)
  }

  // What a handler's step does to fences

  predicate ClaimMove(cfg: Settings, v: View, f: Effect) {
    var pc := v.handler.pc;
    && (f.pc.Some? && Claiming(f.pc.value) ==>
          (pc.Cleared? && f.pc.value.attempt == f.live.attempts == v.live.attempts + 1)
          || (pc.Counted? && f.pc.value.attempt == pc.attempt && f.live == v.live))
    && (f.live.attempts == v.live.attempts
        || (pc.Cleared? && f.live.attempts == v.live.attempts + 1 && f.pc.Some? && Claiming(f.pc.value))
        || (pc.Busy? && f.live.attempts == v.live.attempts - 1))
    && (f.mark.Granted? <==> f.lock.SetLock? && pc.Counted?)
    && (f.mark.Granted? ==>
          f.lock.lease == Lease(v.handler.msg.job, pc.attempt, v.now + cfg.lockTtlMs)
          && f.live == v.live && pc.attempt <= cfg.maxAttempts && v.lease.None?
          && f.pc == Some(Locked(pc.attempt)) && f.leasedAt == v.now)
  }

  predicate FenceMove(cfg: Settings, v: View, f: Effect) {
    var pc := v.handler.pc;
    && (f.pc.Some? && Fenced(f.pc.value) ==>
          (Fenced(pc) && f.pc.value.attempt == pc.attempt && (Owning(f.pc.value) ==> Owning(pc)))
          || (f.mark.Granted? && pc.Counted? && f.pc.value == Locked(pc.attempt))
          || (f.pc.value.Finishing? && pc.Fresh? && !cfg.gate(v.handler.msg.prefix))
          || (f.pc.value.Finishing? && pc.Counted? && f.pc.value.attempt == pc.attempt > cfg.maxAttempts))
    && (f.pc.Some? && PastGate(f.pc.value) ==> PastGate(pc) || cfg.gate(v.handler.msg.prefix))
  }

  predicate LockMove(cfg: Settings, v: View, f: Effect) {
    var pc := v.handler.pc;
    && (f.lock.SetLock? && !f.mark.Granted? ==>
          pc.Executing? && Holds(v.lease, v.handler.msg.job, pc.attempt)
          && f.lock.lease == v.lease.value.(expiry := v.now + cfg.lockTtlMs)
          && f.pc == Some(pc) && f.leasedAt == v.now)
    && (f.lock.FreeLock? ==>
          Fenced(pc) && Holds(v.lease, v.handler.msg.job, pc.attempt)
          && (f.pc.Some? ==> !f.pc.value.Locked? && !f.pc.value.Executing?))
    && (f.pc.Some? && (f.pc.value.Locked? || f.pc.value.Executing?) ==>
          f.mark.Granted? || f.lock.SetLock?
          || ((pc.Locked? || pc.Executing?) && f.pc.value.attempt == pc.attempt && f.leasedAt == v.handler.leasedAt))
  }

  lemma EffectClaims(cfg: Settings, v: View, e: Event)
    requires CanTake(cfg, v, e)
    ensures ClaimMove(cfg, v, EffectOf(cfg, v, e))
  {
  }

  lemma EffectFences(cfg: Settings, v: View, e: Event)
    requires CanTake(cfg, v, e)
    ensures FenceMove(cfg, v, EffectOf(cfg, v, e))
  {
  }

  lemma EffectLocks(cfg: Settings, v: View, e: Event)
    requires CanTake(cfg, v, e)
    ensures LockMove(cfg, v, EffectOf(cfg, v, e))
  {
  }

  // Every clause survives a handler's step

  /** The step `f` of handler `h` hands out the lock. */
  lemma GrantsAfter(s: State, h: nat, f: Effect)
    requires h in s.handlers && (f.mark.Granted? ==> f.lock.SetLock?)
    ensures Apply(s, h, f).audit.grants == s.audit.grants +
              if f.mark.Granted? then [Grant(s.handlers[h].msg.job, f.lock.lease.attempt)] else []
    ensures Apply(s, h, f).audit.messages == s.audit.messages
  {
  }

  lemma AttemptsAfter(s: State, h: nat, f: Effect, job: string)
    requires h in s.handlers
    ensures Attempts(Apply(s, h, f), job)
         == if job == s.handlers[h].msg.job then f.live.attempts else Attempts(s, job)
  {
  }

  lemma ApplyGrants(cfg: Settings, s: State, h: nat, f: Effect)
    requires h in s.handlers && Known(s, s.handlers[h].msg) && ClaimMove(cfg, ViewOf(s, h), f)
    requires Grants(cfg, s) && ClaimOk(s, s.handlers[h]) && FenceOk(cfg, s, s.handlers[h])
    ensures Grants(cfg, Apply(s, h, f))
  {
    var t := Apply(s, h, f);
    GrantsAfter(s, h, f);
    forall g | g in t.audit.grants ensures GrantOk(cfg, t, g) {
      AttemptsAfter(s, h, f, g.job);
      if g in s.audit.grants { assert GrantOk(cfg, s, g); }
    }
  }

  lemma ApplyClaims(cfg: Settings, s: State, h: nat, f: Effect)
    requires h in s.handlers && ClaimMove(cfg, ViewOf(s, h), f)
    requires Grants(cfg, s) && Claims(s) && Exclusive(s) && Exclusive(Apply(s, h, f))
    ensures Claims(Apply(s, h, f))
  {
    var t := Apply(s, h, f);
    forall k | k in t.handlers ensures ClaimOk(t, t.handlers[k]) {
      if Claiming(t.handlers[k].pc) {
        if k == h { ClaimAfter(cfg, s, h, f); } else { OtherClaim(cfg, s, h, f, k); }
      }
    }
  }

  lemma OtherClaim(cfg: Settings, s: State, h: nat, f: Effect, k: nat)
    requires h in s.handlers && ClaimMove(cfg, ViewOf(s, h), f)
    requires Exclusive(s) && Exclusive(Apply(s, h, f))
    requires k in s.handlers && k != h && ClaimOk(s, s.handlers[k]) && Claiming(s.handlers[k].pc)
    ensures ClaimOk(Apply(s, h, f), s.handlers[k])
  {
    var t := Apply(s, h, f);
    var job := s.handlers[k].msg.job;
    GrantsAfter(s, h, f);
    AttemptsAfter(s, h, f, job);
    assert s.handlers[h].msg.job == job ==> !Claiming(s.handlers[h].pc);
    assert f.pc.Some? ==> h in t.handlers && t.handlers[h].pc == f.pc.value;
    assert t.handlers[k] == s.handlers[k];
    assert s.handlers[h].msg.job == job ==> f.pc.None? || !Claiming(f.pc.value);
  }

  lemma ClaimAfter(cfg: Settings, s: State, h: nat, f: Effect)
    requires h in s.handlers && ClaimMove(cfg, ViewOf(s, h), f) && f.pc.Some? && Claiming(f.pc.value)
    requires Grants(cfg, s) && ClaimOk(s, s.handlers[h])
    ensures ClaimOk(Apply(s, h, f), Apply(s, h, f).handlers[h])
  {
    GrantsAfter(s, h, f);
    var job := s.handlers[h].msg.job;
    AttemptsAfter(s, h, f, job);
    forall g | g in s.audit.grants && g.job == job ensures g.attempt < f.pc.value.attempt {
      assert GrantOk(cfg, s, g);
    }
  }

  lemma ApplyFences(cfg: Settings, s: State, h: nat, f: Effect)
    requires h in s.handlers && ClaimMove(cfg, ViewOf(s, h), f) && FenceMove(cfg, ViewOf(s, h), f)
    requires FencesOk(cfg, s)
    ensures FencesOk(cfg, Apply(s, h, f))
  {
    var t := Apply(s, h, f);
    GrantsAfter(s, h, f);
    forall k | k in t.handlers ensures FenceOk(cfg, t, t.handlers[k]) {
      assert FenceOk(cfg, s, s.handlers[k]);
    }
  }

  lemma ApplyLeases(cfg: Settings, s: State, h: nat, f: Effect)
    requires h in s.handlers && Known(s, s.handlers[h].msg)
    requires ClaimMove(cfg, ViewOf(s, h), f) && LockMove(cfg, ViewOf(s, h), f)
    requires Leases(s)
    ensures Leases(Apply(s, h, f))
  {
    var t := Apply(s, h, f);
    GrantsAfter(s, h, f);
    forall p | p in t.locks ensures LeaseOk(t, p) {
      if p in s.locks { assert LeaseOk(s, p); }
    }
  }

  /** No other handler of the job uses the fence a grant hands out. */
  lemma NewFence(cfg: Settings, s: State, h: nat, k: nat)
    requires h in s.handlers && k in s.handlers
    requires s.handlers[h].pc.Counted? && s.handlers[h].pc.attempt <= cfg.maxAttempts
    requires ClaimOk(s, s.handlers[h]) && FenceOk(cfg, s, s.handlers[h]) && FenceOk(cfg, s, s.handlers[k])
    requires Known(s, s.handlers[h].msg) && Known(s, s.handlers[k].msg)
    requires Fenced(s.handlers[k].pc) && s.handlers[k].msg.job == s.handlers[h].msg.job
    ensures s.handlers[k].pc.attempt != s.handlers[h].pc.attempt
  {
  }

  ghost predicate AllKnown(s: State) {
    forall h | h in s.handlers :: Known(s, s.handlers[h].msg)
  }

  lemma BasicKnows(s: State)
    requires Basic(s)
    ensures AllKnown(s)
  {
    forall h | h in s.handlers ensures Known(s, s.handlers[h].msg) {
      assert HandlerOk(s, h);
      assert Known(s, s.stream[s.handlers[h].entry].msg);
    }
  }

  /** A handler whose fence has been granted got it at its own grant. */
  lemma OwnedBefore(cfg: Settings, s: State, h: nat, f: Effect)
    requires h in s.handlers && ClaimMove(cfg, ViewOf(s, h), f) && FenceMove(cfg, ViewOf(s, h), f)
    requires AllKnown(s) && Grants(cfg, Apply(s, h, f)) && !f.mark.Granted?
    requires h in Apply(s, h, f).handlers && Owned(Apply(s, h, f), h)
    ensures Owned(s, h) && s.handlers[h].pc.attempt == f.pc.value.attempt
  {
    var t := Apply(s, h, f);
    GrantsAfter(s, h, f);
    assert GrantOk(cfg, t, Grant(t.handlers[h].msg.job, t.handlers[h].pc.attempt));
    assert Known(s, s.handlers[h].msg);
  }

  lemma OwnersBefore(cfg: Settings, s: State, h: nat, f: Effect, k: nat)
    requires h in s.handlers && ClaimMove(cfg, ViewOf(s, h), f) && FenceMove(cfg, ViewOf(s, h), f)
    requires AllKnown(s) && Grants(cfg, Apply(s, h, f)) && !f.mark.Granted?
    requires k in Apply(s, h, f).handlers && Owned(Apply(s, h, f), k)
    ensures Owned(s, k) && s.handlers[k].pc.attempt == Apply(s, h, f).handlers[k].pc.attempt
    ensures s.handlers[k].msg.job == Apply(s, h, f).handlers[k].msg.job
  {
    GrantsAfter(s, h, f);
    if k == h { OwnedBefore(cfg, s, h, f); }
  }

  lemma KeptOwners(cfg: Settings, s: State, h: nat, f: Effect, j: nat, k: nat)
    requires h in s.handlers && ClaimMove(cfg, ViewOf(s, h), f) && FenceMove(cfg, ViewOf(s, h), f) && !f.mark.Granted?
    requires AllKnown(s) && NoTwoOwners(s) && Grants(cfg, Apply(s, h, f))
    requires var t := Apply(s, h, f);
             j in t.handlers && k in t.handlers && SameFence(t.handlers[j], t.handlers[k]) && Owned(t, j)
    ensures j == k
  {
    OwnersBefore(cfg, s, h, f, j);
    OwnersBefore(cfg, s, h, f, k);
    assert SameFence(s.handlers[j], s.handlers[k]);
  }

  lemma ApplyOwners(cfg: Settings, s: State, h: nat, f: Effect)
    requires h in s.handlers && ClaimMove(cfg, ViewOf(s, h), f) && FenceMove(cfg, ViewOf(s, h), f)
    requires AllKnown(s) && FencesOk(cfg, s) && ClaimOk(s, s.handlers[h]) && NoTwoOwners(s)
    requires Grants(cfg, Apply(s, h, f))
    ensures NoTwoOwners(Apply(s, h, f))
  {
    var t := Apply(s, h, f);
    forall j, k | j in t.handlers && k in t.handlers && SameFence(t.handlers[j], t.handlers[k]) && Owned(t, j)
      ensures j == k
    {
      if f.mark.Granted? { GrantedOwners(cfg, s, h, f, j, k); } else { KeptOwners(cfg, s, h, f, j, k); }
    }
  }

  lemma GrantedOwners(cfg: Settings, s: State, h: nat, f: Effect, j: nat, k: nat)
    requires h in s.handlers && ClaimMove(cfg, ViewOf(s, h), f) && f.mark.Granted?
    requires AllKnown(s) && FencesOk(cfg, s) && ClaimOk(s, s.handlers[h]) && NoTwoOwners(s)
    requires var t := Apply(s, h, f);
             j in t.handlers && k in t.handlers && SameFence(t.handlers[j], t.handlers[k]) && Owned(t, j)
    ensures j == k
  {
    GrantsAfter(s, h, f);
    assert Known(s, s.handlers[h].msg) && FenceOk(cfg, s, s.handlers[h]);
    if j != h && Fenced(s.handlers[j].pc) && s.handlers[j].msg.job == s.handlers[h].msg.job { NewFence(cfg, s, h, j); }
    if k != h && Fenced(s.handlers[k].pc) && s.handlers[k].msg.job == s.handlers[h].msg.job { NewFence(cfg, s, h, k); }
    if j != h && k != h { assert SameFence(s.handlers[j], s.handlers[k]); }
  }

  lemma HandlerKeepsFences(cfg: Settings, s: State, e: Event, t: State)
    requires TakesHandlerStep(cfg, s, e, t) && Basic(s) && Fences(cfg, s) && Exclusive(s) && Exclusive(t)
    ensures Fences(cfg, t)
  {
    var h, v := e.h, ViewOf(s, e.h);
    var f := EffectOf(cfg, v, e);
    EffectClaims(cfg, v, e);
    EffectFences(cfg, v, e);
    EffectLocks(cfg, v, e);
    BasicKnows(s);
    ApplyKeepsFences(cfg, s, h, f);
  }

  lemma ApplyKeepsFences(cfg: Settings, s: State, h: nat, f: Effect)
    requires h in s.handlers && AllKnown(s) && Fences(cfg, s) && Exclusive(s) && Exclusive(Apply(s, h, f))
    requires ClaimMove(cfg, ViewOf(s, h), f) && FenceMove(cfg, ViewOf(s, h), f) && LockMove(cfg, ViewOf(s, h), f)
    ensures Fences(cfg, Apply(s, h, f))
  {
    ApplyGrants(cfg, s, h, f);
    ApplyClaims(cfg, s, h, f);
    ApplyFences(cfg, s, h, f);
    ApplyLeases(cfg, s, h, f);
    ApplyOwners(cfg, s, h, f);
  }

  // Server steps touch no lock, no count and no fence

  ghost predicate Quiet(s: State, t: State) {
    && Unclaimed(s, t) && t.locks == s.locks && t.audit.grants == s.audit.grants && s.now <= t.now
    && (forall j | j in s.audit.messages :: j in t.audit.messages && t.audit.messages[j] == s.audit.messages[j])
    && forall j :: Attempts(t, j) == Attempts(s, j)
  }

  lemma ServerQuiet(s: State, e: Event)
    requires IsServerEvent(e) && ServerEnabled(s, e) && Basic(s)
    ensures Quiet(s, ServerNext(s, e))
  {
    forall h | h in s.handlers ensures h < s.nextId { assert HandlerOk(s, h); }
    ServerUnclaimed(s, e);
    ServerServes(s, e);
  }

  lemma QuietKeepsFences(cfg: Settings, s: State, t: State)
    requires Quiet(s, t) && Fences(cfg, s)
    ensures Fences(cfg, t)
  {
    forall g | g in t.audit.grants ensures GrantOk(cfg, t, g) { assert GrantOk(cfg, s, g); }
    forall h | h in t.handlers ensures ClaimOk(t, t.handlers[h]) && FenceOk(cfg, t, t.handlers[h]) {
      if h in s.handlers { assert ClaimOk(s, s.handlers[h]) && FenceOk(cfg, s, s.handlers[h]); }
    }
    forall p | p in t.locks ensures LeaseOk(t, p) { assert LeaseOk(s, p); }
    forall h, k | h in t.handlers && k in t.handlers && SameFence(t.handlers[h], t.handlers[k]) && Owned(t, h)
      ensures h == k
    {
      assert SameFence(s.handlers[h], s.handlers[k]);
    }
  }

  lemma StepKeepsFences(cfg: Settings, s: State, e: Event, t: State)
    requires Step(cfg, s, e, t) && Basic(s) && Fences(cfg, s) && Exclusive(s) && Exclusive(t)
    ensures Fences(cfg, t)
  {
    if IsServerEvent(e) {
      ServerQuiet(s, e);
      QuietKeepsFences(cfg, s, t);
    } else {
      HandlerKeepsFences(cfg, s, e, t);
    }
  }

  /** The assumption, over the first states of a run. */
  ghost predicate ExclusiveTo(path: seq<State>, i: nat)
    requires i < |path|
  {
    forall k | 0 <= k <= i :: Exclusive(path[k])
  }

  lemma {:induction false} AlwaysFenced(cfg: Settings, path: seq<State>, events: seq<Event>, i: nat)
    requires Behavior(cfg, path, events) && i < |path| && ExclusiveTo(path, i)
    ensures Basic(path[i]) && Fences(cfg, path[i])
  {
    BasicAlways(cfg, path, events, i);
    if i > 0 {
      AlwaysFenced(cfg, path, events, i - 1);
      assert StepAt(cfg, path, events, i - 1);
      assert Exclusive(path[i]) && Exclusive(path[i - 1]);
      StepKeepsFences(cfg, path[i - 1], events[i - 1], path[i]);
    }
  }

  // The theorems

  ghost predicate HasFence(s: State, h: nat, lease: Lease) {
    h in s.handlers && Fenced(s.handlers[h].pc)
    && Fence(s.handlers[h].msg.job, s.handlers[h].pc.attempt) == Fence(lease.job, lease.attempt)
  }

  lemma HasGrant(s: State, h: nat, pipeline: string)
    requires pipeline in s.locks && LeaseOk(s, pipeline) && HasFence(s, h, s.locks[pipeline])
    ensures s.handlers[h].msg.job == s.locks[pipeline].job && s.handlers[h].pc.attempt == s.locks[pipeline].attempt
    ensures Owned(s, h)
  {
    FenceInjective(s.handlers[h].msg.job, s.handlers[h].pc.attempt, s.locks[pipeline].job, s.locks[pipeline].attempt);
  }

  lemma OneFence(s: State, pipeline: string, h: nat, k: nat)
    requires NoTwoOwners(s) && pipeline in s.locks && LeaseOk(s, pipeline)
    requires HasFence(s, h, s.locks[pipeline]) && HasFence(s, k, s.locks[pipeline])
    ensures h == k
  {
    HasGrant(s, h, pipeline);
    HasGrant(s, k, pipeline);
    assert SameFence(s.handlers[h], s.handlers[k]);
  }

  /** At most one handler's fence is ever the value of a pipeline's lock. */
  lemma OneFencePerLock(cfg: Settings, path: seq<State>, events: seq<Event>, i: nat, pipeline: string, h: nat, k: nat)
    requires Behavior(cfg, path, events) && i < |path| && ExclusiveTo(path, i) && pipeline in path[i].locks
    requires HasFence(path[i], h, path[i].locks[pipeline]) && HasFence(path[i], k, path[i].locks[pipeline])
    ensures h == k
  {
    AlwaysFenced(cfg, path, events, i);
    OneFence(path[i], pipeline, h, k);
  }

  /** Event `i` takes a lock, for its handler's job at its handler's attempt. */
  ghost predicate TakesLock(path: seq<State>, events: seq<Event>, i: nat)
    requires |path| == |events| + 1 && i < |events|
  {
    && events[i].TryLock? && events[i].h in path[i].handlers && events[i].h in path[i + 1].handlers
    && path[i].handlers[events[i].h].pc.Counted? && path[i + 1].handlers[events[i].h].pc.Locked?
  }

  ghost function TakenBy(path: seq<State>, events: seq<Event>, i: nat): Grant
    requires |path| == |events| + 1 && i < |events| && TakesLock(path, events, i)
  {
    var handler := path[i].handlers[events[i].h];
    Grant(handler.msg.job, handler.pc.attempt)
  }

  lemma LockIsGrant(cfg: Settings, path: seq<State>, events: seq<Event>, i: nat)
    requires Behavior(cfg, path, events) && i < |events| && TakesLock(path, events, i)
    ensures TakenBy(path, events, i) in path[i + 1].audit.grants
  {
    assert StepAt(cfg, path, events, i);
    var s, h := path[i], events[i].h;
    var f := EffectOf(cfg, ViewOf(s, h), events[i]);
    EffectClaims(cfg, ViewOf(s, h), events[i]);
    GrantsAfter(s, h, f);
  }

  lemma GrantsGrow(cfg: Settings, s: State, e: Event, t: State, g: Grant)
    requires Step(cfg, s, e, t) && g in s.audit.grants
    ensures g in t.audit.grants
  {
    if IsServerEvent(e) {
      ServerServes(s, e);
    } else {
      EffectClaims(cfg, ViewOf(s, e.h), e);
      GrantsAfter(s, e.h, EffectOf(cfg, ViewOf(s, e.h), e));
    }
  }

  lemma {:induction false} GrantsStay(cfg: Settings, path: seq<State>, events: seq<Event>, i: nat, k: nat, g: Grant)
    requires Behavior(cfg, path, events) && i <= k < |path| && g in path[i].audit.grants
    ensures g in path[k].audit.grants
    decreases k
  {
    if i < k {
      GrantsStay(cfg, path, events, i, k - 1, g);
      assert StepAt(cfg, path, events, k - 1);
      GrantsGrow(cfg, path[k - 1], events[k - 1], path[k], g);
    }
  }

  /** The attempts at which a job takes its lock strictly increase along a run. */
  lemma AttemptsRise(cfg: Settings, path: seq<State>, events: seq<Event>, i: nat, k: nat)
    requires Behavior(cfg, path, events) && i < k < |events| && ExclusiveTo(path, k)
    requires TakesLock(path, events, i) && TakesLock(path, events, k)
    requires TakenBy(path, events, i).job == TakenBy(path, events, k).job
    ensures TakenBy(path, events, i).attempt < TakenBy(path, events, k).attempt
  {
    LockIsGrant(cfg, path, events, i);
    GrantsStay(cfg, path, events, i + 1, k, TakenBy(path, events, i));
    AlwaysFenced(cfg, path, events, k);
    assert ClaimOk(path[k], path[k].handlers[events[k].h]);
  }
}
