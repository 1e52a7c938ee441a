/**
 The orphan sweep reads the stream once and judges live hashes afterwards, so
 a job enqueued in between is in the hashes and not in its list; only the
 grace period protects it. Acks and defers never remove stream entries, so
 that is the one gap: the sweep abandons no job in any run if and only if the
 delays involved stay under the grace period.
 */
module QueueSweep {
  import opened Text
  import opened Queue
  import opened QueueDelivery

  /** In this run a job reaches Redis at most `lag` ms after it was stamped, and
      a sweep computes its cutoff at most `scan` ms after it read the stream. */
  ghost predicate Timely(path: seq<State>, events: seq<Event>, lag: nat, scan: nat)
    requires |path| == |events| + 1
  {
    forall i | 0 <= i < |events| :: TimelyAt(path[i], events[i], lag, scan)
  }

  ghost predicate TimelyAt(s: State, e: Event, lag: nat, scan: nat) {
    && (e.Enqueue? ==> s.now - lag <= e.msg.enqueuedAt)
    && (e.SweepRead? && e.w in s.sweeps ==> e.asOf <= s.sweeps[e.w].startedAt + scan)
  }

  /** What a sweep did not list was stamped no earlier than `lag` before it began. */
  ghost predicate SweepOk(s: State, w: nat, lag: nat)
    requires w in s.sweeps
  {
    var sweep := s.sweeps[w];
    && sweep.startedAt <= s.now && sweep.doomed == {}
    && forall j | j in s.live && s.live[j].enqueuedAt.Some? ::
         j in sweep.listed || sweep.startedAt - lag <= s.live[j].enqueuedAt.value
  }

  ghost predicate Spared(s: State, lag: nat) {
    s.audit.abandoned == {} && forall w | w in s.sweeps :: SweepOk(s, w, lag)
  }

  lemma ListsAll(s: State, j: string)
    requires Basic(s) && j in s.live
    ensures j in JobsListed(s.stream)
  {
    assert EverStreamed(s, j);
  }

  lemma HandlerSpares(cfg: Settings, s: State, h: nat, e: Event, lag: nat)
    requires h in s.handlers && CanTake(cfg, ViewOf(s, h), e) && Spared(s, lag) && Carries(s.handlers[h].pc)
    ensures Spared(Apply(s, h, EffectOf(cfg, ViewOf(s, h), e)), lag)
  {
    EffectFacts(cfg, ViewOf(s, h), e);
    ApplySpares(s, h, EffectOf(cfg, ViewOf(s, h), e), lag);
  }

  lemma ApplySpares(s: State, h: nat, f: Effect, lag: nat)
    requires h in s.handlers && Spared(s, lag) && f.live.enqueuedAt == LiveOf(s, s.handlers[h].msg.job).enqueuedAt
    ensures Spared(Apply(s, h, f), lag)
  {
    var t := Apply(s, h, f);
    forall w | w in t.sweeps ensures SweepOk(t, w, lag) { assert SweepOk(s, w, lag); }
  }

  /** Within the grace period no sweep finds anything to mark. */
  lemma NothingToMark(s: State, e: Event, lag: nat, scan: nat)
    requires IsServerEvent(e) && ServerEnabled(s, e) && Spared(s, lag)
    requires TimelyAt(s, e, lag, scan) && scan + lag < ORPHAN_GRACE_MS
    ensures !e.SweepRead? && !e.SweepMark?
  {
    assert (e.SweepRead? || e.SweepMark?) ==> SweepOk(s, e.w, lag);
  }

  lemma ServerSpares(s: State, e: Event, lag: nat, scan: nat)
    requires IsServerEvent(e) && ServerEnabled(s, e) && Basic(s) && Spared(s, lag)
    requires TimelyAt(s, e, lag, scan) && scan + lag < ORPHAN_GRACE_MS
    ensures Spared(ServerNext(s, e), lag)
  {
    NothingToMark(s, e, lag, scan);
    var t := ServerNext(s, e);
    ServerServes(s, e);
    forall w | w in t.sweeps ensures SweepOk(t, w, lag) {
      if e.SweepList? && w == e.w {
        ListSpares(s, w, lag);
      } else {
        OldSweepSpares(s, e, w, lag);
      }
    }
  }

  lemma ListSpares(s: State, w: nat, lag: nat)
    requires ServerEnabled(s, SweepList(w)) && Basic(s)
    ensures SweepOk(ServerNext(s, SweepList(w)), w, lag)
  {
    forall j | j in s.live ensures j in JobsListed(s.stream) { ListsAll(s, j); }
  }

  lemma OldSweepSpares(s: State, e: Event, w: nat, lag: nat)
    requires IsServerEvent(e) && ServerEnabled(s, e) && Spared(s, lag)
    requires !e.SweepRead? && !e.SweepMark? && w in ServerNext(s, e).sweeps && !(e.SweepList? && w == e.w)
    requires e.Enqueue? ==> s.now - lag <= e.msg.enqueuedAt
    ensures SweepOk(ServerNext(s, e), w, lag)
  {
    assert SweepOk(s, w, lag);
  }

  lemma {:induction false} AlwaysSpared(cfg: Settings, path: seq<State>, events: seq<Event>, i: nat, lag: nat, scan: nat)
    requires Behavior(cfg, path, events) && i < |path|
    requires Timely(path, events, lag, scan) && scan + lag < 600_000
    ensures Spared(path[i], lag)
  {
    if i > 0 {
      AlwaysSpared(cfg, path, events, i - 1, lag, scan);
      BasicAlways(cfg, path, events, i - 1);
      assert StepAt(cfg, path, events, i - 1);
      assert TimelyAt(path[i - 1], events[i - 1], lag, scan);
      StepSpares(cfg, path[i - 1], events[i - 1], path[i], lag, scan);
    }
  }

  lemma StepSpares(cfg: Settings, s: State, e: Event, t: State, lag: nat, scan: nat)
    requires Step(cfg, s, e, t) && Basic(s) && Spared(s, lag)
    requires TimelyAt(s, e, lag, scan) && scan + lag < ORPHAN_GRACE_MS
    ensures Spared(t, lag)
  {
    if IsServerEvent(e) {
      ServerSpares(s, e, lag, scan);
    } else {
      assert HandlerOk(s, e.h);
      HandlerSpares(cfg, s, e.h, e, lag);
    }
  }

  // The gap

  function Stamp(lag: nat): int {
    0 - lag
  }

  function Straggler(lag: nat): Msg {
    Msg("j", "p", "pipelines/p/", None, false, "manual", Stamp(lag))
  }

  ghost function Listed(): State {
    State(0, [], 0, {}, map[], map[], map[], map[], 0, map[0 := Sweep({}, 0, {})], Audit(map[], {}, multiset{}, [], {}))
  }

  ghost function Enqueued(lag: nat): State {
    Listed().(stream := [Parsed(Straggler(lag))], live := map["j" := Live(Some(Queued), 0, Some(Stamp(lag)))],
              audit := Audit(map["j" := Straggler(lag)], {}, multiset{}, [], {}))
  }

  ghost function Scanned(lag: nat, scan: nat): State {
    Enqueued(lag).(now := scan)
  }

  ghost function Judged(lag: nat, scan: nat): State {
    Scanned(lag, scan).(sweeps := map[0 := Sweep({}, 0, {"j"})])
  }

  ghost function Swept(lag: nat, scan: nat): State {
    Judged(lag, scan).(live := map["j" := Live(Some(Abandoned), 0, Some(Stamp(lag)))],
                       audit := Audit(map["j" := Straggler(lag)], {"j"}, multiset{}, [], {"j"}))
  }

  lemma GapStart(cfg: Settings, lag: nat)
    ensures var s := Listed().(sweeps := map[]);
            && Init(s) && Step(cfg, s, SweepList(0), Listed())
            && Step(cfg, Listed(), Enqueue(Straggler(lag)), Enqueued(lag))
  {
    assert JobsListed([]) == {};
    var s := Listed().(sweeps := map[]);
    assert ServerNext(s, SweepList(0)).sweeps == Listed().sweeps;
    assert [] + [Parsed(Straggler(lag))] == [Parsed(Straggler(lag))];
  }

  lemma GapEnd(cfg: Settings, lag: nat, scan: nat)
    requires scan + lag >= ORPHAN_GRACE_MS
    ensures Step(cfg, Enqueued(lag), Tick(scan), Scanned(lag, scan))
    ensures Step(cfg, Scanned(lag, scan), SweepRead(0, "j", scan), Judged(lag, scan))
    ensures Step(cfg, Judged(lag, scan), SweepMark(0, "j"), Swept(lag, scan))
  {
    var sweep := Scanned(lag, scan).sweeps[0];
    assert {} + {"j"} == {"j"};
    assert sweep.(doomed := sweep.doomed + {"j"}) == Sweep({}, 0, {"j"});
  }

  ghost function GapPath(lag: nat, scan: nat): seq<State> {
    [Listed().(sweeps := map[]), Listed(), Enqueued(lag), Scanned(lag, scan), Judged(lag, scan), Swept(lag, scan)]
  }

  function GapEvents(lag: nat, scan: nat): seq<Event> {
    [SweepList(0), Enqueue(Straggler(lag)), Tick(scan), SweepRead(0, "j", scan), SweepMark(0, "j")]
  }

  lemma GapRuns(cfg: Settings, lag: nat, scan: nat)
    requires scan + lag >= ORPHAN_GRACE_MS
    ensures Behavior(cfg, GapPath(lag, scan), GapEvents(lag, scan))
  {
    var path, events := GapPath(lag, scan), GapEvents(lag, scan);
    GapStart(cfg, lag);
    GapEnd(cfg, lag, scan);
    assert StepAt(cfg, path, events, 0) && StepAt(cfg, path, events, 1) && StepAt(cfg, path, events, 2);
    assert StepAt(cfg, path, events, 3) && StepAt(cfg, path, events, 4);
  }

  lemma GapIsTimely(lag: nat, scan: nat)
    ensures Timely(GapPath(lag, scan), GapEvents(lag, scan), lag, scan)
  {
    assert TimelyAt(Listed(), Enqueue(Straggler(lag)), lag, scan);
    assert TimelyAt(Scanned(lag, scan), SweepRead(0, "j", scan), lag, scan);
  }

  /** A job is enqueued between the stream read and the cutoff, and abandoned
      while its entry waits on the stream. */
  lemma SweepRace(cfg: Settings, lag: nat, scan: nat) returns (path: seq<State>, events: seq<Event>)
    requires scan + lag >= 600_000
    ensures Behavior(cfg, path, events) && Timely(path, events, lag, scan)
    ensures path[|events|].audit.abandoned == {"j"} && path[|events|].stream == [Parsed(Straggler(lag))]
  {
    path, events := GapPath(lag, scan), GapEvents(lag, scan);
    GapRuns(cfg, lag, scan);
    GapIsTimely(lag, scan);
  }

  ghost predicate AbandonsNone(cfg: Settings, lag: nat, scan: nat) {
    forall path: seq<State>, events: seq<Event> | Behavior(cfg, path, events) && Timely(path, events, lag, scan) ::
      path[|events|].audit.abandoned == {}
  }

  /** No run abandons a job iff the two delays together stay under the grace period. */
  lemma SweepIsSoundIff(cfg: Settings, lag: nat, scan: nat)
    ensures AbandonsNone(cfg, lag, scan) <==> scan + lag < 600_000
  {
    if scan + lag < ORPHAN_GRACE_MS {
      forall path: seq<State>, events: seq<Event> | Behavior(cfg, path, events) && Timely(path, events, lag, scan)
        ensures path[|events|].audit.abandoned == {}
      {
        AlwaysSpared(cfg, path, events, |events|, lag, scan);
      }
    } else {
      var path, events := SweepRace(cfg, lag, scan);
      assert path[|events|].audit.abandoned != {};
    }
  }
}
