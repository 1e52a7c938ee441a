/**
 At-least-once delivery: until a job has been marked terminal once, it is in
 the stream waiting, pending with a consumer, or in the delayed set, whatever
 handlers crash and wherever they do.
 */
module QueueDelivery {
  import opened Queue

  ghost predicate Known(s: State, m: Msg) {
    m.job in s.audit.messages && s.audit.messages[m.job] == m
  }

  /** An entry of this job is still on the stream; acks do not remove it. */
  ghost predicate EverStreamed(s: State, job: string) {
    exists i :: 0 <= i < |s.stream| && s.stream[i].Parsed? && s.stream[i].msg.job == job
  }

  ghost predicate HandlerOk(s: State, h: nat)
    requires h in s.handlers
  {
    var handler := s.handlers[h];
    && h < s.nextId
    && handler.entry < s.cursor && handler.entry < |s.stream| && s.stream[handler.entry] == Parsed(handler.msg)
    && (handler.pc.SeenTerminal? || handler.pc.Releasing? || handler.pc.Acking? ==>
          handler.msg.job in s.audit.finished)
    && (handler.pc.Finishing? ==> Terminal(handler.pc.status))
    && (handler.pc.Recording? ==> Terminal(handler.pc.status))
  }

  ghost predicate HandlersOk(s: State) {
    forall h | h in s.handlers :: HandlerOk(s, h)
  }

  ghost predicate StreamOk(s: State) {
    && s.cursor <= |s.stream|
    && (forall e | e in s.pel :: e < s.cursor)
    && (forall i | 0 <= i < |s.stream| && s.stream[i].Parsed? :: Known(s, s.stream[i].msg))
    && (forall m | m in s.delayed :: Known(s, m))
    && (forall j | j in s.audit.messages :: EverStreamed(s, j))
  }

  ghost predicate LiveOk(s: State) {
    && (forall j | j in s.live :: j in s.audit.messages)
    && (forall j | j in s.live && StatusTerminal(s.live[j]) :: j in s.audit.finished)
    && (forall w | w in s.sweeps :: forall j | j in s.sweeps[w].doomed :: j in s.audit.messages)
  }

  ghost predicate Basic(s: State) {
    HandlersOk(s) && StreamOk(s) && LiveOk(s)
  }

  predicate StatusTerminal(live: Live) {
    live.status.Some? && Terminal(live.status.value)
  }

  predicate AfterTerminal(pc: Pc) {
    pc.SeenTerminal? || pc.Releasing? || pc.Acking?
  }

  predicate Carries(pc: Pc) {
    (pc.Finishing? ==> Terminal(pc.status)) && (pc.Recording? ==> Terminal(pc.status))
  }

  /** An entry is acked only after a terminal status or into the delayed set,
      and a terminal status is only ever written as one. */
  lemma EffectFacts(cfg: Settings, v: View, e: Event)
    requires CanTake(cfg, v, e) && Carries(v.handler.pc)
    ensures var f := EffectOf(cfg, v, e);
            && (f.ack && f.delay.None? ==> AfterTerminal(v.handler.pc))
            && (f.pc.Some? && AfterTerminal(f.pc.value) ==>
                  AfterTerminal(v.handler.pc) || StatusTerminal(v.live) || f.mark.Finished?)
            && (f.pc.Some? ==> Carries(f.pc.value))
            && (StatusTerminal(f.live) ==> StatusTerminal(v.live) || f.mark.Finished?)
            && f.live.enqueuedAt == v.live.enqueuedAt
  {
  }

  ghost predicate TakesHandlerStep(cfg: Settings, s: State, e: Event, t: State) {
    !IsServerEvent(e) && Step(cfg, s, e, t)
  }

  lemma HandlerKeepsBasic(cfg: Settings, s: State, e: Event, t: State)
    requires TakesHandlerStep(cfg, s, e, t) && Basic(s)
    ensures Basic(t)
  {
    var handler, v := s.handlers[e.h], ViewOf(s, e.h);
    assert HandlerOk(s, e.h);
    assert Known(s, s.stream[handler.entry].msg);
    EffectFacts(cfg, v, e);
    ApplyKeepsBasic(s, e.h, EffectOf(cfg, v, e));
  }

  lemma ApplyKeepsBasic(s: State, h: nat, f: Effect)
    requires Basic(s) && h in s.handlers && HandlerOk(s, h) && Known(s, s.handlers[h].msg)
    requires f.pc.Some? ==> Carries(f.pc.value)
    requires f.pc.Some? && AfterTerminal(f.pc.value) ==>
               s.handlers[h].msg.job in s.audit.finished || f.mark.Finished?
    requires StatusTerminal(f.live) ==> StatusTerminal(LiveOf(s, s.handlers[h].msg.job)) || f.mark.Finished?
    ensures Basic(Apply(s, h, f))
  {
    ApplyKeepsHandlers(s, h, f);
    ApplyKeepsStream(s, h, f);
    ApplyKeepsLive(s, h, f);
  }

  lemma ApplyKeepsHandlers(s: State, h: nat, f: Effect)
    requires HandlersOk(s) && h in s.handlers && HandlerOk(s, h)
    requires f.pc.Some? ==> Carries(f.pc.value)
    requires f.pc.Some? && AfterTerminal(f.pc.value) ==>
               s.handlers[h].msg.job in s.audit.finished || f.mark.Finished?
    ensures HandlersOk(Apply(s, h, f))
  {
    var t := Apply(s, h, f);
    forall k | k in t.handlers ensures HandlerOk(t, k) {
      if k != h { assert HandlerOk(s, k); }
    }
  }

  lemma ApplyKeepsLive(s: State, h: nat, f: Effect)
    requires LiveOk(s) && h in s.handlers && s.handlers[h].msg.job in s.audit.messages
    requires StatusTerminal(f.live) ==> StatusTerminal(LiveOf(s, s.handlers[h].msg.job)) || f.mark.Finished?
    ensures LiveOk(Apply(s, h, f))
  {
    var t := Apply(s, h, f);
    forall j | j in t.live && StatusTerminal(t.live[j]) ensures j in t.audit.finished {
      if j in s.live && s.live[j] == t.live[j] { assert StatusTerminal(s.live[j]); }
    }
  }

  lemma ApplyKeepsStream(s: State, h: nat, f: Effect)
    requires StreamOk(s) && h in s.handlers && Known(s, s.handlers[h].msg)
    ensures StreamOk(Apply(s, h, f))
  {
    var t := Apply(s, h, f);
    forall j | j in t.audit.messages ensures EverStreamed(t, j) { assert EverStreamed(s, j); }
    forall i | 0 <= i < |t.stream| && t.stream[i].Parsed? ensures Known(t, t.stream[i].msg) {
      assert Known(s, s.stream[i].msg);
    }
    forall m | m in t.delayed ensures Known(t, m) {
      if m != s.handlers[h].msg { assert Known(s, m); }
    }
  }

  // Steps of the server side

  /** The stream only grows, so what handlers and jobs point at stays there. */
  ghost predicate Grows(s: State, t: State) {
    && s.stream <= t.stream && s.cursor <= t.cursor && s.nextId <= t.nextId
    && s.audit.finished <= t.audit.finished
    && (forall j | j in s.audit.messages :: j in t.audit.messages && t.audit.messages[j] == s.audit.messages[j])
  }

  lemma GrowsKeeps(s: State, t: State)
    requires Grows(s, t)
    ensures forall h | h in s.handlers && h in t.handlers && t.handlers[h] == s.handlers[h] && HandlerOk(s, h) ::
              HandlerOk(t, h)
    ensures forall j | EverStreamed(s, j) :: EverStreamed(t, j)
    ensures forall m | Known(s, m) :: Known(t, m)
  {
    forall j | EverStreamed(s, j) ensures EverStreamed(t, j) {
      var i :| 0 <= i < |s.stream| && s.stream[i].Parsed? && s.stream[i].msg.job == j;
      assert t.stream[i] == s.stream[i];
    }
    forall h | h in s.handlers && h in t.handlers && t.handlers[h] == s.handlers[h] && HandlerOk(s, h)
      ensures HandlerOk(t, h)
    {
      assert t.stream[s.handlers[h].entry] == s.stream[s.handlers[h].entry];
    }
  }

  lemma ClaimKeepsBasic(s: State, entry: nat)
    requires Basic(s) && entry < s.cursor && s.stream[entry].Parsed?
    ensures Basic(Claim(s, entry))
  {
    var t := Claim(s, entry);
    GrowsKeeps(s, t);
    forall k | k in t.handlers ensures HandlerOk(t, k) {
      if k != s.nextId { assert HandlerOk(s, k); }
    }
    KnownStream(s);
  }

  lemma KnownStream(s: State)
    requires StreamOk(s)
    ensures forall i | 0 <= i < |s.stream| && s.stream[i].Parsed? :: Known(s, s.stream[i].msg)
  {
  }

  lemma SameStreamKeepsBasic(s: State, t: State)
    requires Basic(s) && Grows(s, t) && t.stream == s.stream && t.handlers == s.handlers
    requires t.cursor <= |t.stream| && (forall e | e in t.pel :: e < t.cursor)
    requires t.delayed == s.delayed && t.audit.messages == s.audit.messages && LiveOk(t)
    ensures Basic(t)
  {
    GrowsKeeps(s, t);
    KnownStream(s);
    forall h | h in t.handlers ensures HandlerOk(t, h) { assert HandlerOk(s, h); }
    forall m | m in t.delayed ensures Known(t, m) { assert Known(s, m); }
    forall j | j in t.audit.messages ensures EverStreamed(t, j) { assert EverStreamed(s, j); }
  }

  lemma DeliverKeepsBasic(s: State, e: Event)
    requires (e.Deliver? || e.Reclaim? || e.AckGarbage?) && ServerEnabled(s, e) && Basic(s)
    ensures Basic(ServerNext(s, e))
  {
    if e.Deliver? {
      var u := s.(cursor := s.cursor + 1, pel := s.pel + {s.cursor});
      SameStreamKeepsBasic(s, u);
      if s.stream[s.cursor].Parsed? { ClaimKeepsBasic(u, s.cursor); }
    } else if e.Reclaim? {
      ClaimKeepsBasic(s, e.entry);
    } else {
      SameStreamKeepsBasic(s, ServerNext(s, e));
    }
  }

  lemma AppendKeepsBasic(s: State, t: State, added: seq<Payload>)
    requires Basic(s) && Grows(s, t) && t.stream == s.stream + added
    requires t.cursor == s.cursor && t.pel == s.pel && t.handlers == s.handlers && LiveOk(t)
    requires forall i | 0 <= i < |added| && added[i].Parsed? :: Known(t, added[i].msg)
    requires forall m | m in t.delayed :: m in s.delayed
    requires forall j | j in t.audit.messages ::
               j in s.audit.messages || exists i :: 0 <= i < |added| && added[i].Parsed? && added[i].msg.job == j
    ensures Basic(t)
  {
    GrowsKeeps(s, t);
    KnownStream(s);
    forall h | h in t.handlers ensures HandlerOk(t, h) { assert HandlerOk(s, h); }
    forall m | m in t.delayed ensures Known(t, m) { assert Known(s, m); }
    forall i | 0 <= i < |t.stream| && t.stream[i].Parsed? ensures Known(t, t.stream[i].msg) {
      if i < |s.stream| { assert Known(s, s.stream[i].msg); }
      else { assert t.stream[i] == added[i - |s.stream|]; }
    }
    forall j | j in t.audit.messages ensures EverStreamed(t, j) {
      if j in s.audit.messages {
        assert EverStreamed(s, j);
      } else {
        var i :| 0 <= i < |added| && added[i].Parsed? && added[i].msg.job == j;
        assert t.stream[|s.stream| + i] == added[i];
      }
    }
  }

  lemma EnqueueKeepsLive(s: State, m: Msg)
    requires ServerEnabled(s, Enqueue(m)) && LiveOk(s)
    ensures LiveOk(ServerNext(s, Enqueue(m))) && Grows(s, ServerNext(s, Enqueue(m)))
  {
    var t := ServerNext(s, Enqueue(m));
    forall j | j in t.live && StatusTerminal(t.live[j]) ensures j in t.audit.finished {
      if j != m.job { assert StatusTerminal(s.live[j]); }
    }
  }

  lemma EnqueueKeepsBasic(s: State, m: Msg)
    requires ServerEnabled(s, Enqueue(m)) && Basic(s)
    ensures Basic(ServerNext(s, Enqueue(m)))
  {
    var added := [Parsed(m)];
    EnqueueKeepsLive(s, m);
    assert added[0].msg.job == m.job;
    AppendKeepsBasic(s, ServerNext(s, Enqueue(m)), added);
  }

  lemma MoveKeepsBasic(s: State, due: seq<Msg>)
    requires ServerEnabled(s, MoveDue(due)) && Basic(s)
    ensures Basic(ServerNext(s, MoveDue(due)))
  {
    var t := ServerNext(s, MoveDue(due));
    var added := seq(|due|, i requires 0 <= i < |due| => Parsed(due[i]));
    forall i | 0 <= i < |added| ensures Known(t, added[i].msg) {
      assert added[i].msg == due[i] && due[i] in due;
      assert Known(s, due[i]);
    }
    AppendKeepsBasic(s, t, added);
  }

  lemma SweepKeepsLive(s: State, e: Event)
    requires (e.Tick? || e.SweepList? || e.SweepRead? || e.SweepMark? || e.SweepEnd?)
    requires ServerEnabled(s, e) && LiveOk(s)
    ensures LiveOk(ServerNext(s, e))
  {
    var t := ServerNext(s, e);
    forall j | j in t.live && StatusTerminal(t.live[j]) ensures j in t.audit.finished {
      if !(e.SweepMark? && j == e.job) { assert StatusTerminal(s.live[j]); }
    }
  }

  lemma SweepKeepsBasic(s: State, e: Event)
    requires (e.Tick? || e.SweepList? || e.SweepRead? || e.SweepMark? || e.SweepEnd?)
    requires ServerEnabled(s, e) && Basic(s)
    ensures Basic(ServerNext(s, e))
  {
    SweepKeepsLive(s, e);
    SameStreamKeepsBasic(s, ServerNext(s, e));
  }

  lemma StepKeepsBasic(cfg: Settings, s: State, e: Event, t: State)
    requires Step(cfg, s, e, t) && Basic(s)
    ensures Basic(t)
  {
    if !IsServerEvent(e) { HandlerKeepsBasic(cfg, s, e, t); }
    else if e.Deliver? || e.Reclaim? || e.AckGarbage? { DeliverKeepsBasic(s, e); }
    else if e.Enqueue? { EnqueueKeepsBasic(s, e.msg); }
    else if e.ForeignEntry? { AppendKeepsBasic(s, t, [Garbage]); }
    else if e.MoveDue? { MoveKeepsBasic(s, e.due); }
    else { SweepKeepsBasic(s, e); }
  }

  // Conservation

  ghost predicate Waiting(s: State, i: int, m: Msg) {
    0 <= i < |s.stream| && s.stream[i] == Parsed(m) && (s.cursor <= i || i in s.pel)
  }

  /** The message is on its way to a handler, or will be redelivered to one. */
  ghost predicate Kept(s: State, m: Msg) {
    m in s.delayed || exists i: nat :: Waiting(s, i, m)
  }

  ghost predicate Conserved(s: State) {
    forall j | j in s.audit.messages :: j in s.audit.finished || Kept(s, s.audit.messages[j])
  }

  lemma HandlerConserves(cfg: Settings, s: State, e: Event, t: State)
    requires TakesHandlerStep(cfg, s, e, t) && Basic(s) && Conserved(s)
    ensures Conserved(t)
  {
    var v := ViewOf(s, e.h);
    assert HandlerOk(s, e.h);
    EffectFacts(cfg, v, e);
    ApplyConserves(s, e.h, EffectOf(cfg, v, e));
  }

  lemma ApplyConserves(s: State, h: nat, f: Effect)
    requires Conserved(s) && StreamOk(s) && h in s.handlers && HandlerOk(s, h)
    requires f.ack && f.delay.None? ==> s.handlers[h].msg.job in s.audit.finished
    ensures Conserved(Apply(s, h, f))
  {
    var t := Apply(s, h, f);
    forall j | j in t.audit.messages && j !in t.audit.finished ensures Kept(t, t.audit.messages[j]) {
      var m := s.audit.messages[j];
      if m !in t.delayed {
        var i: nat :| Waiting(s, i, m);
        assert Known(s, s.stream[i].msg);
        assert Waiting(t, i, m);
      }
    }
  }

  lemma AppendConserves(s: State, m: Msg)
    requires Conserved(s) && StreamOk(s) && ServerEnabled(s, Enqueue(m))
    ensures Conserved(ServerNext(s, Enqueue(m)))
  {
    var t := ServerNext(s, Enqueue(m));
    forall j | j in t.audit.messages && j !in t.audit.finished ensures Kept(t, t.audit.messages[j]) {
      if j == m.job {
        assert Waiting(t, |s.stream|, m);
      } else if s.audit.messages[j] !in s.delayed {
        var i: nat :| Waiting(s, i, s.audit.messages[j]);
        assert Waiting(t, i, s.audit.messages[j]);
      }
    }
  }

  /** Steps that leave a waiting entry waiting. */
  lemma KeepsWaiting(s: State, t: State)
    requires Conserved(s) && t.audit.messages == s.audit.messages && s.audit.finished <= t.audit.finished
    requires t.delayed == s.delayed
    requires forall i: nat, m | Waiting(s, i, m) :: Waiting(t, i, m)
    ensures Conserved(t)
  {
    forall j | j in t.audit.messages && j !in t.audit.finished ensures Kept(t, t.audit.messages[j]) {
      var m := s.audit.messages[j];
      if m !in s.delayed {
        var i: nat :| Waiting(s, i, m);
        assert Waiting(t, i, m);
      }
    }
  }

  lemma ServerConserves(s: State, e: Event)
    requires IsServerEvent(e) && ServerEnabled(s, e) && Conserved(s) && !e.Enqueue? && !e.MoveDue?
    ensures Conserved(ServerNext(s, e))
  {
    KeepsWaiting(s, ServerNext(s, e));
  }

  lemma MoveConserves(s: State, e: Event)
    requires e.MoveDue? && ServerEnabled(s, e) && Conserved(s) && StreamOk(s)
    ensures Conserved(ServerNext(s, e))
  {
    var t := ServerNext(s, e);
    forall j | j in t.audit.messages && j !in t.audit.finished ensures Kept(t, t.audit.messages[j]) {
      var m := s.audit.messages[j];
      if m in e.due {
        var k :| 0 <= k < |e.due| && e.due[k] == m;
        assert Waiting(t, |s.stream| + k, m);
      } else if m !in s.delayed {
        var i: nat :| Waiting(s, i, m);
        assert Waiting(t, i, m);
      }
    }
  }

  lemma StepConserves(cfg: Settings, s: State, e: Event, t: State)
    requires Step(cfg, s, e, t) && Basic(s) && Conserved(s)
    ensures Conserved(t)
  {
    if !IsServerEvent(e) { HandlerConserves(cfg, s, e, t); }
    else if e.Enqueue? { AppendConserves(s, e.msg); }
    else if e.MoveDue? { MoveConserves(s, e); }
    else { ServerConserves(s, e); }
  }

  lemma {:induction false} BasicAlways(cfg: Settings, path: seq<State>, events: seq<Event>, i: nat)
    requires Behavior(cfg, path, events) && i < |path|
    ensures Basic(path[i]) && Conserved(path[i])
  {
    if i > 0 {
      BasicAlways(cfg, path, events, i - 1);
      assert StepAt(cfg, path, events, i - 1);
      StepKeepsBasic(cfg, path[i - 1], events[i - 1], path[i]);
      StepConserves(cfg, path[i - 1], events[i - 1], path[i]);
    }
  }

  lemma ServerKnows(s: State, e: Event, m: Msg)
    requires IsServerEvent(e) && ServerEnabled(s, e) && (Known(s, m) || e == Enqueue(m))
    ensures Known(ServerNext(s, e), m)
  {
    ServerServes(s, e);
  }

  lemma ApplyKnows(s: State, h: nat, f: Effect)
    requires h in s.handlers
    ensures Apply(s, h, f).audit.messages == s.audit.messages
  {
  }

  lemma MessageStays(cfg: Settings, s: State, e: Event, t: State, m: Msg)
    requires Step(cfg, s, e, t) && (Known(s, m) || e == Enqueue(m))
    ensures Known(t, m)
  {
    if IsServerEvent(e) { ServerKnows(s, e, m); }
    else { ApplyKnows(s, e.h, EffectOf(cfg, ViewOf(s, e.h), e)); }
  }

  lemma {:induction false} MessagesStay(cfg: Settings, path: seq<State>, events: seq<Event>, i: nat, k: nat)
    requires Behavior(cfg, path, events) && i < k < |path|
    requires events[i].Enqueue?
    ensures Known(path[k], events[i].msg)
    decreases k
  {
    assert StepAt(cfg, path, events, k - 1);
    if i < k - 1 { MessagesStay(cfg, path, events, i, k - 1); }
    MessageStays(cfg, path[k - 1], events[k - 1], path[k], events[i].msg);
  }

  // What "finished" means

  lemma EffectFinishes(cfg: Settings, v: View, e: Event)
    requires CanTake(cfg, v, e) && Carries(v.handler.pc) && EffectOf(cfg, v, e).mark.Finished?
    ensures StatusTerminal(EffectOf(cfg, v, e).live)
  {
  }

  lemma ApplyFinishes(s: State, h: nat, f: Effect, job: string)
    requires h in s.handlers && (f.mark.Finished? ==> StatusTerminal(f.live))
    requires job in Apply(s, h, f).audit.finished && job !in s.audit.finished
    ensures job in Apply(s, h, f).live && StatusTerminal(Apply(s, h, f).live[job])
  {
  }

  lemma SweepFinishes(s: State, e: Event, job: string)
    requires e.SweepMark? && ServerEnabled(s, e)
    requires job in ServerNext(s, e).audit.finished && job !in s.audit.finished
    ensures job in ServerNext(s, e).live && StatusTerminal(ServerNext(s, e).live[job])
  {
  }

  lemma StepFinishes(cfg: Settings, s: State, e: Event, t: State, job: string)
    requires Step(cfg, s, e, t) && HandlersOk(s) && job in t.audit.finished && job !in s.audit.finished
    ensures job in t.live && StatusTerminal(t.live[job])
  {
    if e.SweepMark? {
      SweepFinishes(s, e, job);
    } else if IsServerEvent(e) {
      ServerServes(s, e);
    } else {
      var f := EffectOf(cfg, ViewOf(s, e.h), e);
      assert HandlerOk(s, e.h);
      if f.mark.Finished? { EffectFinishes(cfg, ViewOf(s, e.h), e); }
      ApplyFinishes(s, e.h, f, job);
    }
  }

  /** A job counts as finished only once its live hash has shown a terminal status. */
  lemma {:induction false} FinishedWasMarked(cfg: Settings, path: seq<State>, events: seq<Event>, k: nat, job: string)
      returns (i: nat)
    requires Behavior(cfg, path, events) && k < |path| && job in path[k].audit.finished
    ensures i <= k && job in path[i].live && StatusTerminal(path[i].live[job])
  {
    assert k > 0;
    assert StepAt(cfg, path, events, k - 1);
    if job in path[k - 1].audit.finished {
      i := FinishedWasMarked(cfg, path, events, k - 1, job);
    } else {
      BasicAlways(cfg, path, events, k - 1);
      StepFinishes(cfg, path[k - 1], events[k - 1], path[k], job);
      i := k;
    }
  }

  /** At-least-once: after a job is enqueued, at every later moment its live hash
      has shown a terminal status, or it is undelivered, pending, or delayed. */
  lemma JobsAreConserved(cfg: Settings, path: seq<State>, events: seq<Event>, i: nat, k: nat)
    requires Behavior(cfg, path, events) && i < k < |path| && events[i].Enqueue?
    ensures || Kept(path[k], events[i].msg)
            || exists j :: 0 <= j <= k && events[i].msg.job in path[j].live && StatusTerminal(path[j].live[events[i].msg.job])
  {
    BasicAlways(cfg, path, events, k);
    MessagesStay(cfg, path, events, i, k);
    if events[i].msg.job in path[k].audit.finished {
      var j := FinishedWasMarked(cfg, path, events, k, events[i].msg.job);
    }
  }
}
