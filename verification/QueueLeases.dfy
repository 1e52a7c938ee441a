/**
 What a lease is worth: once lost it is never regained under the same fence,
 and two handlers inside `execute_job` for one pipeline never both hold a
 young one.
 */
module QueueLeases {
  import opened Text
  import opened Queue
  import opened QueueDelivery
  import opened QueueFencing

  // A lost lease stays lost

  /** Attempt `n` of the job had the lock of its pipeline and has it no more. */
  ghost predicate Lost(s: State, g: Grant) {
    && g in s.audit.grants && g.job in s.audit.messages
    && !Holds(LeaseOn(s, s.audit.messages[g.job].pipeline), g.job, g.attempt)
  }

  lemma QuietKeepsLost(s: State, t: State, g: Grant)
    requires Quiet(s, t) && Lost(s, g)
    ensures Lost(t, g)
  {
  }

  lemma ApplyKeepsLost(cfg: Settings, s: State, h: nat, f: Effect, g: Grant)
    requires h in s.handlers && Known(s, s.handlers[h].msg) && ClaimOk(s, s.handlers[h])
    requires ClaimMove(cfg, ViewOf(s, h), f) && LockMove(cfg, ViewOf(s, h), f) && Lost(s, g)
    ensures Lost(Apply(s, h, f), g)
  {
    GrantsAfter(s, h, f);
  }

  lemma StepKeepsLost(cfg: Settings, s: State, e: Event, t: State, g: Grant)
    requires Step(cfg, s, e, t) && Basic(s) && Claims(s) && Lost(s, g)
    ensures Lost(t, g)
  {
    if IsServerEvent(e) {
      ServerQuiet(s, e);
      QuietKeepsLost(s, t, g);
    } else {
      BasicKnows(s);
      EffectClaims(cfg, ViewOf(s, e.h), e);
      EffectLocks(cfg, ViewOf(s, e.h), e);
      ApplyKeepsLost(cfg, s, e.h, EffectOf(cfg, ViewOf(s, e.h), e), g);
    }
  }

  lemma {:induction false} StaysLost(cfg: Settings, path: seq<State>, events: seq<Event>, i: nat, k: nat, g: Grant)
    requires Behavior(cfg, path, events) && i <= k < |path| && ExclusiveTo(path, k) && Lost(path[i], g)
    ensures Lost(path[k], g)
    decreases k
  {
    if i < k {
      StaysLost(cfg, path, events, i, k - 1, g);
      AlwaysFenced(cfg, path, events, k - 1);
      assert StepAt(cfg, path, events, k - 1);
      StepKeepsLost(cfg, path[k - 1], events[k - 1], path[k], g);
    }
  }

  lemma EffectOfLoser(cfg: Settings, v: View, e: Event)
    requires CanTake(cfg, v, e) && Fenced(v.handler.pc) && !Holds(v.lease, v.handler.msg.job, v.handler.pc.attempt)
    ensures EffectOf(cfg, v, e).lock.KeepLock?
    ensures e.Renew? ==> EffectOf(cfg, v, e).pc == Some(Executing(v.handler.pc.attempt, true))
  {
  }

  /** Once a handler's lease is lost, no later renew or release of its own
      succeeds: its steps never touch the lock, and a renew cancels it. */
  lemma LostLeaseStaysLost(cfg: Settings, path: seq<State>, events: seq<Event>, i: nat, k: nat, g: Grant)
    requires Behavior(cfg, path, events) && i <= k < |events| && ExclusiveTo(path, k) && Lost(path[i], g)
    requires !IsServerEvent(events[k]) && events[k].h in path[k].handlers
    requires var handler := path[k].handlers[events[k].h];
             Fenced(handler.pc) && handler.msg.job == g.job && handler.pc.attempt == g.attempt
    ensures path[k + 1].locks == path[k].locks
    ensures events[k].Renew? ==>
              && events[k].h in path[k + 1].handlers
              && path[k + 1].handlers[events[k].h].pc == Executing(g.attempt, true)
  {
    var s, h := path[k], events[k].h;
    StaysLost(cfg, path, events, i, k, g);
    AlwaysFenced(cfg, path, events, k);
    BasicKnows(s);
    assert Known(s, s.handlers[h].msg);
    assert StepAt(cfg, path, events, k);
    EffectOfLoser(cfg, ViewOf(s, h), events[k]);
  }

  // Releasing

  predicate Releases(e: Event) {
    match e
    case ReleaseOwn(_) => true
    case BackoffRelease(_, failed) => !failed
    case _ => false
  }

  lemma EffectReleases(cfg: Settings, v: View, e: Event)
    requires CanTake(cfg, v, e) && Releases(e)
    ensures EffectOf(cfg, v, e).lock
         == if Holds(v.lease, v.handler.msg.job, v.handler.pc.attempt) then FreeLock else KeepLock
  {
  }

  /** At the end of a run, and before a retry, the lock is given up if it is still the
      handler's, and left alone if it is not; no other pipeline's is touched. */
  lemma ReleaseFrees(cfg: Settings, s: State, e: Event, t: State, pipeline: string)
    requires Step(cfg, s, e, t) && Releases(e)
    ensures var handler := s.handlers[e.h];
            var mine := Holds(LeaseOn(s, handler.msg.pipeline), handler.msg.job, handler.pc.attempt);
            LeaseOn(t, pipeline) == if pipeline == handler.msg.pipeline && mine then None else LeaseOn(s, pipeline)
  {
    EffectReleases(cfg, ViewOf(s, e.h), e);
  }

  // Mutual exclusion

  /** Inside `execute_job`, or about to be. */
  predicate Leased(pc: Pc) {
    pc.Locked? || pc.Executing?
  }

  predicate Young(cfg: Settings, now: int, handler: Handler) {
    now <= handler.leasedAt + cfg.lockTtlMs
  }

  /** While its lease is young, the lock's value is the handler's fence. */
  ghost predicate LeaseHeld(cfg: Settings, s: State, handler: Handler) {
    Leased(handler.pc) ==>
      && handler.leasedAt <= s.now
      && (Young(cfg, s.now, handler) ==>
            && handler.msg.pipeline in s.locks
            && var lease := s.locks[handler.msg.pipeline];
               lease.job == handler.msg.job && lease.attempt == handler.pc.attempt
               && handler.leasedAt + cfg.lockTtlMs <= lease.expiry)
  }

  ghost predicate LeasesHeld(cfg: Settings, s: State) {
    forall h | h in s.handlers :: LeaseHeld(cfg, s, s.handlers[h])
  }

  lemma OwnLeaseHeld(cfg: Settings, s: State, h: nat, f: Effect)
    requires h in s.handlers && LeaseHeld(cfg, s, s.handlers[h]) && f.pc.Some?
    requires ClaimMove(cfg, ViewOf(s, h), f) && LockMove(cfg, ViewOf(s, h), f)
    ensures LeaseHeld(cfg, Apply(s, h, f), Apply(s, h, f).handlers[h])
  {
  }

  /** Nobody else can change the lock of a handler whose lease is young. */
  lemma OtherLeaseHeld(cfg: Settings, s: State, h: nat, f: Effect, k: nat)
    requires h in s.handlers && k in s.handlers && k != h && LeaseHeld(cfg, s, s.handlers[k])
    requires ClaimMove(cfg, ViewOf(s, h), f) && LockMove(cfg, ViewOf(s, h), f)
    requires NoTwoOwners(s) && FenceOk(cfg, s, s.handlers[k])
    ensures LeaseHeld(cfg, Apply(s, h, f), s.handlers[k])
  {
    var a, b := s.handlers[k], s.handlers[h];
    if Leased(a.pc) && Young(cfg, s.now, a) && b.msg.pipeline == a.msg.pipeline {
      assert Owned(s, k);
      assert LeaseOn(s, a.msg.pipeline) == Some(s.locks[a.msg.pipeline]);
      assert !SameFence(a, b);
    }
  }

  lemma StepKeepsLeases(cfg: Settings, s: State, e: Event, t: State)
    requires Step(cfg, s, e, t) && Basic(s) && FencesOk(cfg, s) && NoTwoOwners(s) && LeasesHeld(cfg, s)
    ensures LeasesHeld(cfg, t)
  {
    if IsServerEvent(e) {
      ServerQuiet(s, e);
      QuietKeepsLeases(cfg, s, t);
    } else {
      EffectClaims(cfg, ViewOf(s, e.h), e);
      EffectLocks(cfg, ViewOf(s, e.h), e);
      ApplyKeepsLeases(cfg, s, e.h, EffectOf(cfg, ViewOf(s, e.h), e));
    }
  }

  lemma QuietKeepsLeases(cfg: Settings, s: State, t: State)
    requires Quiet(s, t) && LeasesHeld(cfg, s)
    ensures LeasesHeld(cfg, t)
  {
    forall h | h in t.handlers ensures LeaseHeld(cfg, t, t.handlers[h]) {
      if h in s.handlers { assert LeaseHeld(cfg, s, s.handlers[h]); }
    }
  }

  lemma ApplyKeepsLeases(cfg: Settings, s: State, h: nat, f: Effect)
    requires h in s.handlers && FencesOk(cfg, s) && NoTwoOwners(s) && LeasesHeld(cfg, s)
    requires ClaimMove(cfg, ViewOf(s, h), f) && LockMove(cfg, ViewOf(s, h), f)
    ensures LeasesHeld(cfg, Apply(s, h, f))
  {
    var t := Apply(s, h, f);
    forall k | k in t.handlers ensures LeaseHeld(cfg, t, t.handlers[k]) {
      assert LeaseHeld(cfg, s, s.handlers[k]);
      if k == h { OwnLeaseHeld(cfg, s, h, f); } else { OtherLeaseHeld(cfg, s, h, f, k); }
    }
  }

  lemma {:induction false} AlwaysHeld(cfg: Settings, path: seq<State>, events: seq<Event>, i: nat)
    requires Behavior(cfg, path, events) && i < |path| && ExclusiveTo(path, i)
    ensures LeasesHeld(cfg, path[i])
  {
    if i > 0 {
      AlwaysHeld(cfg, path, events, i - 1);
      AlwaysFenced(cfg, path, events, i - 1);
      assert StepAt(cfg, path, events, i - 1);
      StepKeepsLeases(cfg, path[i - 1], events[i - 1], path[i]);
    }
  }

  lemma YoungLeasesDiffer(cfg: Settings, s: State, h: nat, k: nat)
    requires FencesOk(cfg, s) && NoTwoOwners(s) && LeasesHeld(cfg, s) && h in s.handlers && k in s.handlers
    requires Leased(s.handlers[h].pc) && Leased(s.handlers[k].pc)
    requires Young(cfg, s.now, s.handlers[h]) && Young(cfg, s.now, s.handlers[k])
    requires s.handlers[h].msg.pipeline == s.handlers[k].msg.pipeline
    ensures h == k
  {
    assert LeaseHeld(cfg, s, s.handlers[h]) && LeaseHeld(cfg, s, s.handlers[k]);
    assert FenceOk(cfg, s, s.handlers[h]);
    assert SameFence(s.handlers[h], s.handlers[k]);
  }

  /** At most one handler per pipeline with a young lease is inside `execute_job`. */
  lemma MutualExclusion(cfg: Settings, path: seq<State>, events: seq<Event>, i: nat, h: nat, k: nat)
    requires Behavior(cfg, path, events) && i < |path| && ExclusiveTo(path, i)
    requires var s := path[i];
             && h in s.handlers && k in s.handlers
             && s.handlers[h].pc.Executing? && s.handlers[k].pc.Executing?
             && Young(cfg, s.now, s.handlers[h]) && Young(cfg, s.now, s.handlers[k])
             && s.handlers[h].msg.pipeline == s.handlers[k].msg.pipeline
    ensures h == k
  {
    AlwaysFenced(cfg, path, events, i);
    AlwaysHeld(cfg, path, events, i);
    YoungLeasesDiffer(cfg, path[i], h, k);
  }
}
