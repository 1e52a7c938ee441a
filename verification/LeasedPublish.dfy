/**
 The queue and a table together: every handler inside `execute_job` runs the
 publish protocol on its own copy of the run's state, against one shared
 object store. Nothing in the store keeps two runs apart; the leases do.

 A table lives under one job prefix, and a prefix belongs to one pipeline.
 */
module LeasedPublish {
  import Q = Queue
  import F = QueueFencing
  import L = QueueLeases
  import One = QueueSingle
  import T = TableProtocol
  import TableSafety
  import TableTheorems
  import opened Manifest

  /** `runs` is each handler's memory of what it is doing to the table. */
  datatype State = State(queue: Q.State, store: T.Store, published: seq<T.Snapshot>, runs: map<nat, T.Run>)

  datatype Event = QueueStep(step: Q.Event) | TableStep(h: nat, request: T.Event)

  ghost predicate Init(s: State) {
    Q.Init(s.queue) && s.store == map[] && s.published == [] && s.runs == map[]
  }

  function RunOf(s: State, h: nat): T.Run {
    if h in s.runs then s.runs[h] else T.Idle
  }

  /** The table as handler `h` sees it. */
  function TableOf(s: State, h: nat): T.State {
    T.State(s.store, s.published, RunOf(s, h))
  }

  /** Only a handler inside `execute_job` for the table's prefix writes to it. */
  predicate Writes(s: State, prefix: string, h: nat) {
    h in s.queue.handlers && s.queue.handlers[h].pc.Executing? && s.queue.handlers[h].msg.prefix == prefix
  }

  ghost predicate Enabled(cfg: Q.Settings, prefix: string, s: State, e: Event) {
    match e
    case QueueStep(step) => Q.Enabled(cfg, s.queue, step)
    case TableStep(h, request) => Writes(s, prefix, h) && T.Enabled(TableOf(s, h), request)
  }

  ghost function Next(cfg: Q.Settings, prefix: string, s: State, e: Event): State
    requires Enabled(cfg, prefix, s, e)
  {
    match e
    case QueueStep(step) => s.(queue := Q.Next(cfg, s.queue, step))
    case TableStep(h, request) =>
      var t := T.Next(TableOf(s, h), request);
      s.(store := t.store, published := t.published, runs := s.runs[h := t.run])
  }

  ghost predicate Step(cfg: Q.Settings, prefix: string, s: State, e: Event, t: State) {
    Enabled(cfg, prefix, s, e) && t == Next(cfg, prefix, s, e)
  }

  ghost predicate StepAt(cfg: Q.Settings, prefix: string, path: seq<State>, events: seq<Event>, i: nat)
    requires |path| == |events| + 1 && i < |events|
  {
    Step(cfg, prefix, path[i], events[i], path[i + 1])
  }

  /** What the leases are for: every writer has renewed within the lock's TTL, and
      its prefix is its pipeline's. With more than one attempt deliveries of one
      job must also not overlap. */
  ghost predicate Trusted(cfg: Q.Settings, prefix: string, pipeline: string, s: State) {
    && (0 <= cfg.maxAttempts <= 1 || F.Exclusive(s.queue))
    && forall h | Writes(s, prefix, h) ::
         s.queue.handlers[h].msg.pipeline == pipeline && L.Young(cfg, s.queue.now, s.queue.handlers[h])
  }

  ghost predicate Behavior(cfg: Q.Settings, prefix: string, pipeline: string, path: seq<State>, events: seq<Event>) {
    && |path| == |events| + 1
    && Init(path[0])
    && (forall i | 0 <= i < |events| :: StepAt(cfg, prefix, path, events, i))
    && forall i | 0 <= i < |path| :: Trusted(cfg, prefix, pipeline, path[i])
  }

  // The queue's part of a run

  function QueuePath(path: seq<State>): (r: seq<Q.State>)
    ensures |r| == |path| && forall i | 0 <= i < |r| :: r[i] == path[i].queue
  {
    seq(|path|, i requires 0 <= i < |path| => path[i].queue)
  }

  /** A request to the store leaves the queue as it is. */
  function QueueEvent(e: Event): Q.Event {
    match e
    case QueueStep(step) => step
    case TableStep(_, _) => Q.Tick(0)
  }

  function QueueEvents(events: seq<Event>): (r: seq<Q.Event>)
    ensures |r| == |events| && forall i | 0 <= i < |r| :: r[i] == QueueEvent(events[i])
  {
    seq(|events|, i requires 0 <= i < |events| => QueueEvent(events[i]))
  }

  lemma ProjectStep(cfg: Q.Settings, prefix: string, s: State, e: Event, t: State)
    requires Step(cfg, prefix, s, e, t)
    ensures Q.Step(cfg, s.queue, QueueEvent(e), t.queue)
  {
    if e.TableStep? { assert s.queue.(now := s.queue.now + 0) == s.queue; }
  }

  lemma QueueProjection(cfg: Q.Settings, prefix: string, pipeline: string, path: seq<State>, events: seq<Event>)
    requires Behavior(cfg, prefix, pipeline, path, events)
    ensures Q.Behavior(cfg, QueuePath(path), QueueEvents(events))
  {
    forall i | 0 <= i < |events| ensures Q.StepAt(cfg, QueuePath(path), QueueEvents(events), i) {
      assert StepAt(cfg, prefix, path, events, i);
      ProjectStep(cfg, prefix, path[i], events[i], path[i + 1]);
    }
  }

  /** While leases are young there is one writer at a time. */
  lemma OneWriter(cfg: Q.Settings, prefix: string, pipeline: string, path: seq<State>, events: seq<Event>, i: nat,
                  h: nat, k: nat)
    requires Behavior(cfg, prefix, pipeline, path, events) && i < |path|
    requires Writes(path[i], prefix, h) && Writes(path[i], prefix, k)
    ensures h == k
  {
    QueueProjection(cfg, prefix, pipeline, path, events);
    var queue := QueuePath(path);
    assert Trusted(cfg, prefix, pipeline, path[i]);
    if 0 <= cfg.maxAttempts <= 1 {
      One.SingleExcludes(cfg, queue, QueueEvents(events), i);
    } else {
      AlwaysExclusive(cfg, prefix, pipeline, path, events, i);
      L.MutualExclusion(cfg, queue, QueueEvents(events), i, h, k);
    }
  }

  lemma AlwaysExclusive(cfg: Q.Settings, prefix: string, pipeline: string, path: seq<State>, events: seq<Event>, i: nat)
    requires Behavior(cfg, prefix, pipeline, path, events) && i < |path| && !(0 <= cfg.maxAttempts <= 1)
    ensures F.ExclusiveTo(QueuePath(path), i)
  {
    forall j | 0 <= j <= i ensures F.Exclusive(QueuePath(path)[j]) { assert Trusted(cfg, prefix, pipeline, path[j]); }
  }

  // A handler that starts to write starts from nothing

  /** States a handler can be in before it enters `execute_job`. */
  predicate Before(pc: Q.Pc) {
    pc.Fresh? || pc.Cleared? || pc.Counted? || pc.Locked?
  }

  ghost predicate RunsOk(s: State) {
    && (forall h | h in s.queue.handlers :: h < s.queue.nextId)
    && forall h | h in s.runs :: h < s.queue.nextId && (h in s.queue.handlers ==> !Before(s.queue.handlers[h].pc))
  }

  lemma EffectEnters(cfg: Q.Settings, v: Q.View, e: Q.Event)
    requires Q.CanTake(cfg, v, e)
    ensures var f := Q.EffectOf(cfg, v, e);
            && (f.pc.Some? && Before(f.pc.value) ==> Before(v.handler.pc))
            && (f.pc.Some? && f.pc.value.Executing? ==> Before(v.handler.pc) || v.handler.pc.Executing?)
  {
  }

  /** What a queue step does to the handlers there were. */
  ghost predicate Enters(s: Q.State, t: Q.State) {
    && s.nextId <= t.nextId
    && (forall h | h in t.handlers :: h < t.nextId)
    && (forall h | h in t.handlers && h !in s.handlers :: s.nextId <= h && t.handlers[h].pc.Fresh?)
    && forall h | h in t.handlers && h in s.handlers ::
         && t.handlers[h].msg == s.handlers[h].msg
         && (Before(t.handlers[h].pc) ==> Before(s.handlers[h].pc))
         && (t.handlers[h].pc.Executing? ==> Before(s.handlers[h].pc) || s.handlers[h].pc.Executing?)
  }

  lemma ServerEnters(s: Q.State, e: Q.Event)
    requires Q.IsServerEvent(e) && Q.ServerEnabled(s, e) && forall h | h in s.handlers :: h < s.nextId
    ensures Enters(s, Q.ServerNext(s, e))
  {
    Q.ServerServes(s, e);
  }

  lemma HandlerEnters(cfg: Q.Settings, s: Q.State, h: nat, e: Q.Event)
    requires h in s.handlers && Q.CanTake(cfg, Q.ViewOf(s, h), e) && forall h | h in s.handlers :: h < s.nextId
    ensures Enters(s, Q.Apply(s, h, Q.EffectOf(cfg, Q.ViewOf(s, h), e)))
  {
    EffectEnters(cfg, Q.ViewOf(s, h), e);
    ApplyEnters(s, h, Q.EffectOf(cfg, Q.ViewOf(s, h), e));
  }

  lemma ApplyEnters(s: Q.State, h: nat, f: Q.Effect)
    requires h in s.handlers && forall h | h in s.handlers :: h < s.nextId
    requires f.pc.Some? && Before(f.pc.value) ==> Before(s.handlers[h].pc)
    requires f.pc.Some? && f.pc.value.Executing? ==> Before(s.handlers[h].pc) || s.handlers[h].pc.Executing?
    ensures Enters(s, Q.Apply(s, h, f))
  {
  }

  lemma QueueEnters(cfg: Q.Settings, s: Q.State, e: Q.Event, t: Q.State)
    requires Q.Step(cfg, s, e, t) && forall h | h in s.handlers :: h < s.nextId
    ensures Enters(s, t)
  {
    if Q.IsServerEvent(e) { ServerEnters(s, e); } else { HandlerEnters(cfg, s, e.h, e); }
  }

  // The table's part of a run

  /** `table` is a state of the publish protocol with the same objects, and every
      writer is either the one run it knows or has not begun. */
  ghost predicate Shows(s: State, prefix: string, table: T.State) {
    && table.store == s.store && table.published == s.published
    && forall h | Writes(s, prefix, h) :: RunOf(s, h) == table.run || RunOf(s, h) == T.Idle
  }

  lemma QueueStepShows(cfg: Q.Settings, prefix: string, s: State, e: Event, t: State, table: T.State)
    requires Step(cfg, prefix, s, e, t) && e.QueueStep? && RunsOk(s) && Shows(s, prefix, table)
    ensures RunsOk(t) && Shows(t, prefix, table)
  {
    QueueEnters(cfg, s.queue, e.step, t.queue);
    forall h | Writes(t, prefix, h) ensures RunOf(t, h) == table.run || RunOf(t, h) == T.Idle {
      assert Writes(s, prefix, h) || h !in s.runs;
    }
  }

  lemma TableStepShows(cfg: Q.Settings, prefix: string, s: State, e: Event, t: State)
    requires Step(cfg, prefix, s, e, t) && e.TableStep? && RunsOk(s)
    requires forall k | Writes(t, prefix, k) :: k == e.h
    ensures RunsOk(t) && Shows(t, prefix, T.Next(TableOf(s, e.h), e.request))
  {
  }

  /** Each request of the table's run was made by a writer, at the event `at`
      gives, seeing the table as the protocol has it. */
  ghost predicate MadeAt(path: seq<State>, events: seq<Event>, at: seq<nat>, tables: seq<T.State>, requests: seq<T.Event>,
                         n: nat)
    requires |path| == |events| + 1 && |at| == |requests| && |tables| == |requests| + 1 && n < |requests|
  {
    requests[n] == T.End
    || (&& at[n] < |events| && events[at[n]].TableStep? && events[at[n]].request == requests[n]
        && TableOf(path[at[n]], events[at[n]].h) == tables[n])
  }

  ghost predicate Made(path: seq<State>, events: seq<Event>, at: seq<nat>, tables: seq<T.State>, requests: seq<T.Event>,
                       i: nat)
    requires |path| == |events| + 1
  {
    && |at| == |requests| && |tables| == |requests| + 1
    && forall n | 0 <= n < |requests| :: MadeAt(path, events, at, tables, requests, n) && at[n] < i
  }

  lemma MadeOneMore(path: seq<State>, events: seq<Event>, at: seq<nat>, tables: seq<T.State>, requests: seq<T.Event>,
                    i: nat, table: T.State, request: T.Event)
    requires |path| == |events| + 1 && i < |events| && Made(path, events, at, tables, requests, i)
    requires request == T.End
             || (events[i].TableStep? && events[i].request == request
                 && TableOf(path[i], events[i].h) == TableTheorems.Last(tables))
    ensures Made(path, events, at + [i], tables + [table], requests + [request], i + 1)
  {
    var at', tables', requests' := at + [i], tables + [table], requests + [request];
    forall n | 0 <= n < |requests'| ensures MadeAt(path, events, at', tables', requests', n) && at'[n] < i + 1 {
      if n < |requests| { assert MadeAt(path, events, at, tables, requests, n) && at[n] < i; }
    }
  }

  lemma MadeEarlier(path: seq<State>, events: seq<Event>, at: seq<nat>, tables: seq<T.State>, requests: seq<T.Event>,
                    i: nat, k: nat)
    requires |path| == |events| + 1 && Made(path, events, at, tables, requests, i) && i <= k
    ensures Made(path, events, at, tables, requests, k)
  {
  }

  /** Refinement: whatever handlers did, the table went through a run of the
      publish protocol, with dead runs ended before the next one began. */
  lemma {:induction false} TableProjection(cfg: Q.Settings, prefix: string, pipeline: string, path: seq<State>,
                                          events: seq<Event>, i: nat)
      returns (tables: seq<T.State>, requests: seq<T.Event>, at: seq<nat>)
    requires Behavior(cfg, prefix, pipeline, path, events) && i < |path|
    ensures TableTheorems.Behavior(tables, requests) && Made(path, events, at, tables, requests, i)
    ensures Shows(path[i], prefix, TableTheorems.Last(tables)) && RunsOk(path[i])
  {
    if i == 0 {
      tables, requests, at := [T.State(map[], [], T.Idle)], [], [];
    } else {
      tables, requests, at := TableProjection(cfg, prefix, pipeline, path, events, i - 1);
      var s, e, t := path[i - 1], events[i - 1], path[i];
      assert StepAt(cfg, prefix, path, events, i - 1);
      if e.QueueStep? {
        QueueStepShows(cfg, prefix, s, e, t, TableTheorems.Last(tables));
        MadeEarlier(path, events, at, tables, requests, i - 1, i);
      } else {
        if RunOf(s, e.h) != TableTheorems.Last(tables).run {
          tables, requests, at := EndDeadRun(path, events, at, tables, requests, i - 1);
        }
        tables, requests, at := MakeRequest(cfg, prefix, path, events, at, tables, requests, i - 1);
        forall k | Writes(t, prefix, k) ensures k == e.h { OneWriter(cfg, prefix, pipeline, path, events, i, k, e.h); }
        TableStepShows(cfg, prefix, s, e, t);
      }
    }
  }

  lemma EndDeadRun(path: seq<State>, events: seq<Event>, at: seq<nat>, tables: seq<T.State>, requests: seq<T.Event>, i: nat)
      returns (tables': seq<T.State>, requests': seq<T.Event>, at': seq<nat>)
    requires |path| == |events| + 1 && i < |events|
    requires TableTheorems.Behavior(tables, requests) && Made(path, events, at, tables, requests, i)
    ensures TableTheorems.Behavior(tables', requests') && Made(path, events, at', tables', requests', i + 1)
    ensures TableTheorems.Last(tables') == TableTheorems.Last(tables).(run := T.Idle)
  {
    TableTheorems.BehaviorGrows(tables, requests, T.End);
    MadeOneMore(path, events, at, tables, requests, i, T.Next(TableTheorems.Last(tables), T.End), T.End);
    tables', requests', at' := tables + [T.Next(TableTheorems.Last(tables), T.End)], requests + [T.End], at + [i];
  }

  lemma MakeRequest(cfg: Q.Settings, prefix: string, path: seq<State>, events: seq<Event>, at: seq<nat>,
                    tables: seq<T.State>, requests: seq<T.Event>, i: nat)
      returns (tables': seq<T.State>, requests': seq<T.Event>, at': seq<nat>)
    requires |path| == |events| + 1 && i < |events| && events[i].TableStep?
    requires TableTheorems.Behavior(tables, requests) && Made(path, events, at, tables, requests, i + 1)
    requires Step(cfg, prefix, path[i], events[i], path[i + 1])
    requires TableTheorems.Last(tables) == TableOf(path[i], events[i].h)
    ensures TableTheorems.Behavior(tables', requests') && Made(path, events, at', tables', requests', i + 1)
    ensures TableTheorems.Last(tables') == T.Next(TableOf(path[i], events[i].h), events[i].request)
  {
    var request := events[i].request;
    TableTheorems.BehaviorGrows(tables, requests, request);
    tables', requests', at' := tables + [T.Next(TableTheorems.Last(tables), request)], requests + [request], at + [i];
    forall n | 0 <= n < |requests'| ensures MadeAt(path, events, at', tables', requests', n) && at'[n] < i + 1 {
      if n < |requests| { assert MadeAt(path, events, at, tables, requests, n) && at[n] < i + 1; }
    }
  }

  // The theorems

  /** Every version a reader can still ask for is complete and just as the
      handler that built it left it, whichever handlers ran since. */
  lemma LeasedTimeTravel(cfg: Q.Settings, prefix: string, pipeline: string, path: seq<State>, events: seq<Event>,
                         i: nat, v: nat) returns (j: nat)
    requires Behavior(cfg, prefix, pipeline, path, events) && i < |path|
    requires TableSafety.InWindow(v, |path[i].published|)
    ensures j < i && events[j].TableStep? && events[j].request.PutManifest?
    ensures RunOf(path[j], events[j].h).Writing? && RunOf(path[j], events[j].h).version == v
    ensures TableTheorems.SameAsBuilt(path[j].store, RunOf(path[j], events[j].h).files, path[i].store, v)
  {
    var tables, requests, at := TableProjection(cfg, prefix, pipeline, path, events, i);
    var n := TableTheorems.TimeTravel(tables, requests, |tables| - 1, v);
    assert MadeAt(path, events, at, tables, requests, n);
    j := at[n];
  }

  /** In every state the pointer is absent, or names a version a reader can read. */
  lemma LeasedIsolation(cfg: Q.Settings, prefix: string, pipeline: string, path: seq<State>, events: seq<Event>, i: nat)
    requires Behavior(cfg, prefix, pipeline, path, events) && i < |path|
    ensures T.ReadCurrent(path[i].store).Ok?
    ensures T.ReadCurrent(path[i].store).value.version == |path[i].published|
    ensures CURRENT_KEY !in path[i].store <==> path[i].published == []
  {
    var tables, requests, at := TableProjection(cfg, prefix, pipeline, path, events, i);
    TableTheorems.SnapshotIsolation(tables, requests, |tables| - 1);
  }

  lemma PublishedGrows(cfg: Q.Settings, prefix: string, s: State, e: Event, t: State)
    requires Step(cfg, prefix, s, e, t)
    ensures |s.published| <= |t.published|
    ensures e.TableStep? && e.request.FlipPointer? ==> |t.published| == |s.published| + 1
  {
  }

  lemma {:induction false} PublishedMonotone(cfg: Q.Settings, prefix: string, pipeline: string, path: seq<State>,
                                            events: seq<Event>, i: nat, k: nat)
    requires Behavior(cfg, prefix, pipeline, path, events) && i <= k < |path|
    ensures |path[i].published| <= |path[k].published|
    decreases k
  {
    if i < k {
      PublishedMonotone(cfg, prefix, pipeline, path, events, i, k - 1);
      assert StepAt(cfg, prefix, path, events, k - 1);
      PublishedGrows(cfg, prefix, path[k - 1], events[k - 1], path[k]);
    }
  }

  lemma FlipsNext(cfg: Q.Settings, prefix: string, pipeline: string, path: seq<State>, events: seq<Event>, i: nat)
    requires Behavior(cfg, prefix, pipeline, path, events) && i < |events|
    requires events[i].TableStep? && events[i].request.FlipPointer?
    ensures RunOf(path[i], events[i].h).ManifestWritten?
    ensures RunOf(path[i], events[i].h).snapshot.manifest.version == |path[i].published| + 1
  {
    var tables, requests, at := TableProjection(cfg, prefix, pipeline, path, events, i);
    assert StepAt(cfg, prefix, path, events, i);
    TableTheorems.Reachable(tables, requests, |tables| - 1);
  }

  /** No version of the table is ever published by two runs. */
  lemma NoVersionTwice(cfg: Q.Settings, prefix: string, pipeline: string, path: seq<State>, events: seq<Event>,
                       i: nat, k: nat)
    requires Behavior(cfg, prefix, pipeline, path, events) && i < k < |events|
    requires events[i].TableStep? && events[i].request.FlipPointer?
    requires events[k].TableStep? && events[k].request.FlipPointer?
    ensures RunOf(path[i], events[i].h).ManifestWritten? && RunOf(path[k], events[k].h).ManifestWritten?
    ensures RunOf(path[i], events[i].h).snapshot.manifest.version
          < RunOf(path[k], events[k].h).snapshot.manifest.version
  {
    FlipsNext(cfg, prefix, pipeline, path, events, i);
    FlipsNext(cfg, prefix, pipeline, path, events, k);
    assert StepAt(cfg, prefix, path, events, i);
    PublishedGrows(cfg, prefix, path[i], events[i], path[i + 1]);
    PublishedMonotone(cfg, prefix, pipeline, path, events, i + 1, k);
  }
}
