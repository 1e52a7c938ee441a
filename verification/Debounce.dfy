/**
 Webhook debouncing: each upload pushes a pipeline's firing time five seconds
 out, but never past thirty seconds after the first upload of the batch. An
 upload is one step here; the code sends its two commands one after the other.
 */
module Debounce {
  import opened Text

  const QUIET_MS: int := 5_000
  const MAX_WAIT_MS: int := 30_000
  const MARKER_TTL_MS: int := MAX_WAIT_MS * 4
  const POP_LIMIT: nat := 10

  /** The batch-start key of a slug, with the time it expires. */
  datatype Marker = Marker(start: int, expiry: int)

  /** The ZSET of firing times, and the batch-start keys. */
  datatype Calendar = Calendar(due: map<string, int>, first: map<string, Marker>)

  datatype Op = Upload(slug: string, at: int) | Pop(at: int, popped: seq<string>)

  function Earlier(a: int, b: int): int {
    if a <= b then a else b
  }

  /** `SET NX GET PX`: the marker in force once an upload has gone through. */
  function MarkerFor(c: Calendar, slug: string, at: int): Marker {
    if slug in c.first && at <= c.first[slug].expiry then c.first[slug] else Marker(at, at + MARKER_TTL_MS)
  }

  predicate IsDue(c: Calendar, slug: string, at: int) {
    slug in c.due && c.due[slug] <= at
  }

  /** ZRANGEBYSCORE with LIMIT: the earliest due slugs, at most ten of them,
      and all of them if there are no more than that. */
  ghost predicate Poppable(c: Calendar, at: int, popped: seq<string>) {
    && NoRepeats(popped) && |popped| <= POP_LIMIT
    && (forall slug | slug in popped :: IsDue(c, slug, at))
    && forall slug | IsDue(c, slug, at) && slug !in popped ::
         |popped| == POP_LIMIT && forall p | p in popped :: c.due[p] <= c.due[slug]
  }

  ghost predicate Enabled(c: Calendar, op: Op) {
    op.Pop? ==> Poppable(c, op.at, op.popped)
  }

  function After(c: Calendar, op: Op): Calendar {
    match op
    case Upload(slug, at) =>
      var marker := MarkerFor(c, slug, at);
      Calendar(c.due[slug := Earlier(at + QUIET_MS, marker.start + MAX_WAIT_MS)], c.first[slug := marker])
    case Pop(_, popped) =>
      var gone := set slug | slug in popped;
      Calendar(c.due - gone, c.first - gone)
  }

  /** What Redis holds for the debouncer. */
  class Debouncer {
    var due: map<string, int>
    var first: map<string, Marker>

    ghost function Now(): Calendar
      reads this
    {
      Calendar(due, first)
    }

    constructor ()
      ensures Now() == Calendar(map[], map[])
    {
      due, first := map[], map[];
    }

    /** Record an upload; how long until the batch fires, as things stand. */
    method DebounceEvent(slug: string, now: int) returns (wait: int)
      modifies this
      ensures Now() == After(old(Now()), Upload(slug, now))
      ensures wait == due[slug] - now && wait <= QUIET_MS
    {
      var batchStart := now;
      if slug in first && now <= first[slug].expiry {
        batchStart := first[slug].start;
      } else {
        first := first[slug := Marker(now, now + MARKER_TTL_MS)];
      }
      var fireAt := Earlier(now + QUIET_MS, batchStart + MAX_WAIT_MS);
      due := due[slug := fireAt];
      assert slug in old(first) && now <= old(first[slug]).expiry ==> first == old(first)[slug := old(first)[slug]];
      return fireAt - now;
    }

    /** The script that pops what is due: each slug leaves the ZSET and loses
        its batch-start key. */
    method PopDue(now: int) returns (popped: seq<string>)
      modifies this
      ensures Poppable(old(Now()), now, popped)
      ensures |popped| <= 10 && (|popped| < 10 ==> forall slug | slug in due :: now < due[slug])
      ensures Now() == After(old(Now()), Pop(now, popped))
    {
      popped := EarliestDue(now);
      for i := 0 to |popped|
        invariant due == old(due) - (set slug | slug in popped[..i])
        invariant first == old(first) - (set slug | slug in popped[..i])
      {
        assert popped[..i + 1] == popped[..i] + [popped[i]];
        due := due - {popped[i]};
        first := first - {popped[i]};
      }
      assert popped[..|popped|] == popped;
    }

    /** ZRANGEBYSCORE takes the lowest scores first. */
    method EarliestDue(now: int) returns (popped: seq<string>)
      ensures Poppable(Now(), now, popped)
    {
      popped := [];
      var left := set slug | slug in due && due[slug] <= now;
      while left != {} && |popped| < POP_LIMIT
        invariant NoRepeats(popped) && |popped| <= POP_LIMIT
        invariant forall slug :: IsDue(Now(), slug, now) <==> slug in left || slug in popped
        invariant forall slug, p | slug in left && p in popped :: slug != p && due[p] <= due[slug]
      {
        var lowest := Lowest(left);
        popped := popped + [lowest];
        left := left - {lowest};
      }
    }

    method Lowest(slugs: set<string>) returns (lowest: string)
      requires slugs != {} && slugs <= due.Keys
      ensures lowest in slugs && forall slug | slug in slugs :: due[lowest] <= due[slug]
    {
      lowest :| lowest in slugs;
      var left := slugs - {lowest};
      while left != {}
        invariant left <= slugs && lowest in slugs
        invariant forall slug | slug in slugs && slug !in left :: due[lowest] <= due[slug]
      {
        var slug :| slug in left;
        left := left - {slug};
        if due[slug] < due[lowest] { lowest := slug; }
      }
    }
  }

  // Histories

  /** A history of uploads and pops; the clock does not go back. */
  ghost predicate History(path: seq<Calendar>, ops: seq<Op>) {
    && |path| == |ops| + 1
    && path[0] == Calendar(map[], map[])
    && (forall i | 0 <= i < |ops| :: StepAt(path, ops, i))
    && InOrder(ops)
  }

  ghost predicate InOrder(ops: seq<Op>) {
    forall i, k | 0 <= i < k < |ops| :: ops[i].at <= ops[k].at
  }

  ghost predicate StepAt(path: seq<Calendar>, ops: seq<Op>, i: nat)
    requires |path| == |ops| + 1 && i < |ops|
  {
    Enabled(path[i], ops[i]) && path[i + 1] == After(path[i], ops[i])
  }

  /** When the uploads of a slug since it was last popped were made. */
  function Batch(ops: seq<Op>, i: nat, slug: string): seq<int>
    requires i <= |ops|
  {
    if i == 0 then []
    else match ops[i - 1]
         case Upload(s, at) => Batch(ops, i - 1, slug) + if s == slug then [at] else []
         case Pop(_, popped) => if slug in popped then [] else Batch(ops, i - 1, slug)
  }

  /** The upload of the batch that the thirty seconds run from: a new one once the
      marker has expired. */
  function WindowStart(ops: seq<Op>, i: nat, slug: string): Option<int>
    requires i <= |ops|
  {
    if i == 0 then None
    else
      var before := WindowStart(ops, i - 1, slug);
      match ops[i - 1]
      case Upload(s, at) =>
        if s != slug || (before.Some? && at <= before.value + MARKER_TTL_MS) then before else Some(at)
      case Pop(_, popped) => if slug in popped then None else before
  }

  lemma {:induction false} BatchBefore(ops: seq<Op>, i: nat, slug: string, at: int)
    requires i <= |ops| && forall k | 0 <= k < i :: ops[k].at <= at
    ensures forall x | x in Batch(ops, i, slug) :: x <= at
  {
    if i > 0 { BatchBefore(ops, i - 1, slug, at); }
  }

  /** The window starts at the first upload of the batch exactly as long as uploads
      come while that one's marker lives. */
  lemma {:induction false} WindowStartsFirst(ops: seq<Op>, i: nat, slug: string)
    requires i <= |ops| && InOrder(ops)
    ensures WindowStart(ops, i, slug).Some? <==> Batch(ops, i, slug) != []
    ensures var batch, start := Batch(ops, i, slug), WindowStart(ops, i, slug);
            batch != [] ==>
              && start.value in batch && batch[0] <= start.value <= batch[|batch| - 1]
              && (start.value == batch[0] <==> batch[|batch| - 1] <= batch[0] + MARKER_TTL_MS)
  {
    if i > 0 {
      WindowStartsFirst(ops, i - 1, slug);
      BatchBefore(ops, i - 1, slug, ops[i - 1].at);
      var before := Batch(ops, i - 1, slug);
      assert before != [] ==> before[|before| - 1] in before && before[|before| - 1] <= ops[i - 1].at;
    }
  }

  /** What the calendar holds for a slug whose batch is `batch`. */
  ghost predicate Kept(c: Calendar, slug: string, batch: seq<int>, start: Option<int>) {
    if batch == [] || start.None? then slug !in c.due && slug !in c.first
    else
      && slug in c.due && slug in c.first
      && c.first[slug] == Marker(start.value, start.value + MARKER_TTL_MS)
      && c.due[slug] == Earlier(batch[|batch| - 1] + QUIET_MS, start.value + MAX_WAIT_MS)
  }

  lemma {:induction false} CalendarKeepsBatches(path: seq<Calendar>, ops: seq<Op>, i: nat, slug: string)
    requires History(path, ops) && i < |path|
    ensures Kept(path[i], slug, Batch(ops, i, slug), WindowStart(ops, i, slug))
  {
    if i > 0 {
      CalendarKeepsBatches(path, ops, i - 1, slug);
      WindowStartsFirst(ops, i - 1, slug);
      assert StepAt(path, ops, i - 1);
    }
  }

  /** A slug is scheduled exactly while it has uploads no pop has returned, for five
      seconds after the last but at most thirty after the one its window starts at. */
  lemma DebounceWindow(path: seq<Calendar>, ops: seq<Op>, i: nat, slug: string)
    requires History(path, ops) && i < |path|
    ensures slug in path[i].due <==> Batch(ops, i, slug) != []
    ensures var batch, start := Batch(ops, i, slug), WindowStart(ops, i, slug);
            batch != [] ==>
              && start.Some? && start.value in batch
              && (start.value == batch[0] <==> batch[|batch| - 1] <= batch[0] + 120_000)
              && path[i].due[slug]
                 == if batch[|batch| - 1] + 5_000 <= start.value + 30_000 then batch[|batch| - 1] + 5_000
                    else start.value + 30_000
  {
    CalendarKeepsBatches(path, ops, i, slug);
    WindowStartsFirst(ops, i, slug);
  }

  lemma {:induction false} BatchHasUpload(ops: seq<Op>, i: nat, k: nat, slug: string) returns (j: nat)
    requires i < k <= |ops| && ops[i].Pop? && slug in ops[i].popped && Batch(ops, k, slug) != []
    ensures i < j < k && ops[j].Upload? && ops[j].slug == slug
    decreases k
  {
    if ops[k - 1].Upload? && ops[k - 1].slug == slug {
      j := k - 1;
    } else {
      j := BatchHasUpload(ops, i, k - 1, slug);
    }
  }

  /** A pop returns a slug only when its window has run out, and between two
      pops of a slug there is an upload. */
  lemma PopsAreEarned(path: seq<Calendar>, ops: seq<Op>, i: nat, k: nat, slug: string) returns (j: nat)
    requires History(path, ops) && i < k < |ops|
    requires ops[i].Pop? && slug in ops[i].popped && ops[k].Pop? && slug in ops[k].popped
    ensures i < j < k && ops[j].Upload? && ops[j].slug == slug
    ensures var batch := Batch(ops, k, slug);
            batch != [] && (batch[|batch| - 1] + 5_000 <= ops[k].at || batch[0] + 30_000 <= ops[k].at)
  {
    DebounceWindow(path, ops, k, slug);
    WindowStartsFirst(ops, k, slug);
    assert StepAt(path, ops, k);
    j := BatchHasUpload(ops, i, k, slug);
  }
}
