/**
 Deliveries do not multiply: every entry of the stream was put there by a client,
 or by the mover for a handler that had put its job off.
 */
module QueueEntries {
  import opened Text
  import opened Queue
  import opened QueueDelivery
  import opened QueueAttempts

  /** How often a message stands on the stream, waiting or done with. */
  ghost function Entries(s: State, m: Msg): nat {
    multiset(s.stream)[Parsed(m)]
  }

  /** The event puts the message where it can be delivered from. */
  predicate Sends(s: State, e: Event, m: Msg) {
    e == Enqueue(m) || (e.Defer? && e.h in s.handlers && s.handlers[e.h].msg == m)
  }

  /** How often the first `i` events of a run did. */
  ghost function TimesSent(path: seq<State>, events: seq<Event>, i: nat, m: Msg): nat
    requires |path| == |events| + 1 && i <= |events|
  {
    if i == 0 then 0 else TimesSent(path, events, i - 1, m) + Bit(Sends(path[i - 1], events[i - 1], m))
  }

  lemma {:induction false} MovedOnce(due: seq<Msg>, added: seq<Payload>, m: Msg)
    requires |added| == |due| && (forall i | 0 <= i < |due| :: added[i] == Parsed(due[i]))
    requires forall i, j | 0 <= i < j < |due| :: due[i] != due[j]
    ensures multiset(added)[Parsed(m)] == Bit(m in due)
  {
    if due != [] {
      var n := |due| - 1;
      MovedOnce(due[..n], added[..n], m);
      assert added == added[..n] + [added[n]] && due == due[..n] + [due[n]];
    }
  }

  lemma MoveBalances(s: State, due: seq<Msg>, m: Msg)
    requires ServerEnabled(s, MoveDue(due))
    ensures var t := ServerNext(s, MoveDue(due));
            Entries(t, m) + Bit(m in t.delayed) == Entries(s, m) + Bit(m in s.delayed)
  {
    var added := seq(|due|, i requires 0 <= i < |due| => Parsed(due[i]));
    MovedOnce(due, added, m);
    assert multiset(s.stream + added) == multiset(s.stream) + multiset(added);
  }

  lemma ServerBalances(s: State, e: Event, m: Msg)
    requires IsServerEvent(e) && ServerEnabled(s, e)
    ensures var t := ServerNext(s, e);
            Entries(t, m) + Bit(m in t.delayed) == Entries(s, m) + Bit(m in s.delayed) + Bit(e == Enqueue(m))
  {
    if e.MoveDue? { MoveBalances(s, e.due, m); }
    else if e.Enqueue? || e.ForeignEntry? { AppendBalances(s, e, m); }
    else {}
  }

  lemma AppendBalances(s: State, e: Event, m: Msg)
    requires (e.Enqueue? || e.ForeignEntry?) && ServerEnabled(s, e)
    ensures var t := ServerNext(s, e);
            t.delayed == s.delayed && Entries(t, m) == Entries(s, m) + Bit(e == Enqueue(m))
  {
    var added := if e.Enqueue? then Parsed(e.msg) else Garbage;
    assert multiset(s.stream + [added]) == multiset(s.stream) + multiset{added};
  }

  lemma EffectSends(cfg: Settings, v: View, e: Event)
    requires CanTake(cfg, v, e)
    ensures EffectOf(cfg, v, e).delay.Some? <==> e.Defer?
  {
  }

  lemma ApplyBalances(s: State, h: nat, f: Effect, m: Msg)
    requires h in s.handlers
    ensures var t := Apply(s, h, f);
            && Entries(t, m) == Entries(s, m)
            && (m in t.delayed <==> m in s.delayed || (f.delay.Some? && s.handlers[h].msg == m))
  {
  }

  /** A message stands on the stream or in the delayed set no more often than it was
      enqueued or put off, whatever is redelivered and whoever crashes. */
  lemma {:induction false} EntriesAreSent(cfg: Settings, path: seq<State>, events: seq<Event>, i: nat, m: Msg)
    requires Behavior(cfg, path, events) && i <= |events|
    ensures Entries(path[i], m) + Bit(m in path[i].delayed) <= TimesSent(path, events, i, m)
  {
    if i > 0 {
      EntriesAreSent(cfg, path, events, i - 1, m);
      assert StepAt(cfg, path, events, i - 1);
      var s, e := path[i - 1], events[i - 1];
      if IsServerEvent(e) {
        ServerBalances(s, e, m);
      } else {
        EffectSends(cfg, ViewOf(s, e.h), e);
        ApplyBalances(s, e.h, EffectOf(cfg, ViewOf(s, e.h), e), m);
      }
    }
  }

  // A job that was put off stays put

  ghost predicate PutsOff(s: State, e: Event, m: Msg, fireAt: int) {
    e.Defer? && e.h in s.handlers && s.handlers[e.h].msg == m && s.handlers[e.h].pc == Deferring(fireAt)
  }

  ghost predicate Delayed(s: State, m: Msg, fireAt: int) {
    m in s.delayed && s.delayed[m] == fireAt
  }

  lemma ServerKeepsDelayed(s: State, e: Event, m: Msg, fireAt: int)
    requires IsServerEvent(e) && ServerEnabled(s, e) && Delayed(s, m, fireAt) && s.now < fireAt
    ensures Delayed(ServerNext(s, e), m, fireAt) && s.now <= ServerNext(s, e).now
  {
    if e.MoveDue? { assert m !in e.due; }
    else if e.Enqueue? || e.ForeignEntry? || e.Deliver? || e.Reclaim? || e.AckGarbage? {}
    else {}
  }

  lemma HandlerKeepsDelayed(cfg: Settings, s: State, e: Event, m: Msg, fireAt: int)
    requires !IsServerEvent(e) && Enabled(cfg, s, e) && !Sends(s, e, m) && Delayed(s, m, fireAt)
    ensures Delayed(Next(cfg, s, e), m, fireAt) && s.now == Next(cfg, s, e).now
  {
    EffectSends(cfg, ViewOf(s, e.h), e);
  }

  lemma DefersUntil(cfg: Settings, s: State, e: Event, m: Msg, fireAt: int)
    requires Enabled(cfg, s, e) && PutsOff(s, e, m, fireAt)
    ensures Delayed(Next(cfg, s, e), m, fireAt)
  {
  }

  /** Until its time has come a job that was put off waits in the delayed set, unless
      another delivery puts it off again. */
  lemma {:induction false} WaitsItsTime(cfg: Settings, path: seq<State>, events: seq<Event>, i: nat, k: nat, m: Msg, fireAt: int)
    requires Behavior(cfg, path, events) && i < k <= |events| && PutsOff(path[i], events[i], m, fireAt)
    requires path[k].now < fireAt && forall n | i < n < k && events[n].Defer? :: !Sends(path[n], events[n], m)
    ensures Delayed(path[k], m, fireAt)
    decreases k
  {
    assert StepAt(cfg, path, events, k - 1);
    var s, e := path[k - 1], events[k - 1];
    if i == k - 1 {
      DefersUntil(cfg, s, e, m, fireAt);
    } else {
      ClockRuns(cfg, s, e);
      WaitsItsTime(cfg, path, events, i, k - 1, m, fireAt);
      if IsServerEvent(e) { ServerKeepsDelayed(s, e, m, fireAt); } else { HandlerKeepsDelayed(cfg, s, e, m, fireAt); }
    }
  }

  lemma ClockRuns(cfg: Settings, s: State, e: Event)
    requires Enabled(cfg, s, e)
    ensures s.now <= Next(cfg, s, e).now
  {
    if IsServerEvent(e) { ServerServes(s, e); }
  }

  // Once settled, never delivered again

  /** The event acks its handler's entry: the job was put off, or is over. */
  predicate Settles(s: State, e: Event, entry: nat) {
    && !IsServerEvent(e) && e.h in s.handlers && s.handlers[e.h].entry == entry
    && (e.Defer? || e.AckTerminal? || e == Ack(e.h, false))
  }

  /** It has been delivered, and is not pending any more. */
  ghost predicate Settled(s: State, entry: nat) {
    entry < s.cursor && entry !in s.pel
  }

  lemma ServerKeepsSettled(s: State, e: Event, entry: nat)
    requires IsServerEvent(e) && ServerEnabled(s, e) && Settled(s, entry)
    ensures Settled(ServerNext(s, e), entry)
  {
  }

  lemma EffectAcks(cfg: Settings, v: View, e: Event)
    requires CanTake(cfg, v, e) && (e.Defer? || e.AckTerminal? || e == Ack(e.h, false))
    ensures EffectOf(cfg, v, e).ack
  {
  }

  lemma HandlerSettles(cfg: Settings, s: State, e: Event, entry: nat)
    requires !IsServerEvent(e) && Enabled(cfg, s, e) && Basic(s)
    requires Settles(s, e, entry) || Settled(s, entry)
    ensures Settled(Next(cfg, s, e), entry)
  {
    assert HandlerOk(s, e.h);
    if Settles(s, e, entry) { EffectAcks(cfg, ViewOf(s, e.h), e); }
  }

  lemma {:induction false} StaysSettled(cfg: Settings, path: seq<State>, events: seq<Event>, i: nat, k: nat, entry: nat)
    requires Behavior(cfg, path, events) && i < k < |path| && Settles(path[i], events[i], entry)
    ensures Settled(path[k], entry)
    decreases k
  {
    if i < k - 1 { StaysSettled(cfg, path, events, i, k - 1, entry); }
    StepSettles(cfg, path, events, k - 1, entry);
  }

  lemma StepSettles(cfg: Settings, path: seq<State>, events: seq<Event>, k: nat, entry: nat)
    requires Behavior(cfg, path, events) && k < |events|
    requires Settles(path[k], events[k], entry) || Settled(path[k], entry)
    ensures Settled(path[k + 1], entry)
  {
    BasicAlways(cfg, path, events, k);
    assert StepAt(cfg, path, events, k);
    if IsServerEvent(events[k]) { ServerKeepsSettled(path[k], events[k], entry); }
    else { HandlerSettles(cfg, path[k], events[k], entry); }
  }

  lemma OnlyTheseAck(cfg: Settings, v: View, e: Event)
    requires CanTake(cfg, v, e) && EffectOf(cfg, v, e).ack
    ensures e.Defer? || e.AckTerminal? || (e.Ack? && !e.failed)
  {
  }

  lemma ServerLeavesPending(s: State, e: Event, entry: nat)
    requires IsServerEvent(e) && ServerEnabled(s, e) && entry in s.pel && entry !in ServerNext(s, e).pel
    ensures e == AckGarbage(entry)
  {
  }

  /** Nothing else takes an entry off the pending list: a lost ack or a crash leaves
      it to be delivered again. An entry nobody can parse is acked away. */
  lemma LeavesPending(cfg: Settings, s: State, e: Event, t: State, entry: nat)
    requires Step(cfg, s, e, t) && entry in s.pel && entry !in t.pel
    ensures Settles(s, e, entry) || e == AckGarbage(entry)
  {
    if IsServerEvent(e) { ServerLeavesPending(s, e, entry); } else { OnlyTheseAck(cfg, ViewOf(s, e.h), e); }
  }

  /** An entry whose handler put the job off or acked it starts no other handler. */
  lemma NeverDeliveredAgain(cfg: Settings, path: seq<State>, events: seq<Event>, i: nat, k: nat, entry: nat)
    requires Behavior(cfg, path, events) && i < k < |events| && Settles(path[i], events[i], entry)
    ensures events[k] != Reclaim(entry) && !(events[k].Deliver? && path[k].cursor == entry)
  {
    StaysSettled(cfg, path, events, i, k, entry);
    assert StepAt(cfg, path, events, k);
  }
}
