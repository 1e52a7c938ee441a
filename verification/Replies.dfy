/**
 What becomes of the requests a run sends to the object store, one after
 another: the answers are given, and the code decides how many it asks for.
 */
module Replies {

  /** Of a PUT or DELETE, whether it was confirmed, and if not, whether it took
      effect all the same; of a GET or a listing, whether it was answered. */
  datatype Outcome = Done | Failed(applied: bool) {
    predicate Effective() {
      Done? || applied
    }
  }

  /** The outcomes of requests in the order they are sent; beyond the list
      everything is confirmed. */
  type Answers = seq<Outcome>

  function Answer(answers: Answers, n: nat): Outcome {
    if n < |answers| then answers[n] else Done
  }

  ghost predicate AllDone(answers: Answers, from: nat, to: nat) {
    forall k | from <= k < to :: Answer(answers, k).Done?
  }

  /** If no answer given is a failure, every request is confirmed. */
  lemma NothingFails(answers: Answers, from: nat, to: nat)
    requires forall a | a in answers :: a == Done
    ensures AllDone(answers, from, to)
  {
    forall k | from <= k < to ensures Answer(answers, k).Done? { if k < |answers| { assert answers[k] in answers; } }
  }

  /** Of `n` requests sent in turn up to the first that fails, how many go out. */
  ghost function Sent(answers: Answers, from: nat, n: nat): (k: nat)
    ensures k <= n && (n > 0 ==> k > 0)
    decreases n
  {
    if n == 0 then 0 else if Answer(answers, from).Done? then 1 + Sent(answers, from + 1, n - 1) else 1
  }

  /** How many requests have gone out after batches of these sizes, each given
      up at its first failure. */
  ghost function After(answers: Answers, from: nat, sizes: seq<nat>): (k: nat)
    ensures k >= from
  {
    if sizes == [] then from
    else
      var at := After(answers, from, sizes[..|sizes| - 1]);
      at + Sent(answers, at, sizes[|sizes| - 1])
  }

  /** Which of the batches have every request confirmed. */
  ghost function Through(answers: Answers, from: nat, sizes: seq<nat>): (done: seq<bool>)
    ensures |done| == |sizes|
  {
    if sizes == [] then []
    else
      var front := sizes[..|sizes| - 1];
      var at := After(answers, from, front);
      Through(answers, from, front) + [AllDone(answers, at, at + sizes[|sizes| - 1])]
  }

  lemma OneMore(answers: Answers, from: nat, sizes: seq<nat>, i: nat)
    requires i < |sizes|
    ensures var at := After(answers, from, sizes[..i]);
            After(answers, from, sizes[..i + 1]) == at + Sent(answers, at, sizes[i])
    ensures var at := After(answers, from, sizes[..i]);
            Through(answers, from, sizes[..i + 1])
            == Through(answers, from, sizes[..i]) + [AllDone(answers, at, at + sizes[i])]
  {
    assert sizes[..i + 1][..i] == sizes[..i];
  }

  /** When nothing fails, every batch goes through. */
  lemma {:induction false} AllThrough(answers: Answers, from: nat, sizes: seq<nat>, to: nat)
    requires AllDone(answers, from, to) && After(answers, from, sizes) <= to
    ensures forall i | 0 <= i < |sizes| :: Through(answers, from, sizes)[i]
  {
    if sizes != [] {
      var at, last := After(answers, from, sizes[..|sizes| - 1]), sizes[|sizes| - 1];
      AllThrough(answers, from, sizes[..|sizes| - 1], to);
      if !AllDone(answers, at, at + last) { SentFails(answers, at, last); } else { SentAll(answers, at, last); }
    }
  }

  lemma {:induction false} SentAll(answers: Answers, from: nat, n: nat)
    requires AllDone(answers, from, from + n)
    ensures Sent(answers, from, n) == n
    decreases n
  {
    if n > 0 { SentAll(answers, from + 1, n - 1); }
  }

  /** When one fails, the last one sent did. */
  lemma {:induction false} SentFails(answers: Answers, from: nat, n: nat)
    requires !AllDone(answers, from, from + n)
    ensures var k := Sent(answers, from, n);
            k > 0 && AllDone(answers, from, from + k - 1) && !Answer(answers, from + k - 1).Done?
    decreases n
  {
    if Answer(answers, from).Done? { SentFails(answers, from + 1, n - 1); }
  }

  /** All requests but the last were confirmed, and the last one iff `ok`. */
  ghost predicate LastDecides(answers: Answers, from: nat, to: nat, ok: bool) {
    from < to && AllDone(answers, from, to - 1) && (ok <==> Answer(answers, to - 1).Done?)
  }

  /** One request that is confirmed, and then others up to the first that fails: the
      last of them decides. */
  lemma SentAfterOne(answers: Answers, from: nat, n: nat, to: nat)
    requires Answer(answers, from).Done? && to == from + 1 + Sent(answers, from + 1, n)
    ensures LastDecides(answers, from, to, AllDone(answers, from + 1, from + 1 + n))
  {
    if AllDone(answers, from + 1, from + 1 + n) { SentAll(answers, from + 1, n); } else { SentFails(answers, from + 1, n); }
  }

  lemma {:induction false} SentStops(answers: Answers, from: nat, n: nat, k: nat)
    requires k < n && AllDone(answers, from, from + k) && !Answer(answers, from + k).Done?
    ensures Sent(answers, from, n) == k + 1
    decreases k
  {
    if k > 0 { SentStops(answers, from + 1, n - 1, k - 1); }
  }

  /** How many of the requests are confirmed. */
  ghost function Confirmed(answers: Answers, from: nat, n: nat): nat {
    if n == 0 then 0 else Confirmed(answers, from, n - 1) + if Answer(answers, from + n - 1).Done? then 1 else 0
  }
}
