/**
 The socket audit queue (socket_audit.service.ts): an array with a head offset and lazy
 compaction, against a plain drop-oldest bounded FIFO, and the bookkeeping of its flusher.
 */
module AuditQueue {

  // -------------------------------------------------------- the plain bounded FIFO

  predicate Overflows<T>(cap: nat, q: seq<T>) {
    cap > 0 && |q| >= cap
  }

  /** What one enqueue does to the waiting events: at a positive cap the oldest makes room. */
  function Push<T>(cap: nat, q: seq<T>, x: T): seq<T> {
    (if Overflows(cap, q) then q[1..] else q) + [x]
  }

  function Min(a: int, b: int): int {
    if a < b then a else b
  }

  function Max(a: int, b: int): int {
    if a < b then b else a
  }

  /** `Math.max(1, Math.floor(maxItems))`, over an integer batch size. */
  function BatchSize(maxItems: int): nat {
    Max(1, maxItems)
  }

  function Front<T>(q: seq<T>, maxItems: int): seq<T> {
    if BatchSize(maxItems) < |q| then q[..BatchSize(maxItems)] else q
  }

  function Rest<T>(q: seq<T>, maxItems: int): seq<T> {
    if BatchSize(maxItems) < |q| then q[BatchSize(maxItems)..] else []
  }

  // ------------------------------------------------------------- the array itself

  /** Between calls the dead prefix is short, or shorter than the live part. */
  predicate Compacted(length: nat, head: nat) {
    head <= length && (head == 0 || (head < length && (head < 64 || head * 2 < length)))
  }

  lemma PhysicalBound(length: nat, head: nat)
    requires Compacted(length, head)
    ensures var live := length - head;
      length <= Max(live + 63, 2 * live)
  {}

  class Queue<T> {
    const cap: nat
    var buf: seq<T>
    var head: nat
    var dropped: nat
    ghost var removed: nat
    ghost var moved: nat

    ghost function Live(): seq<T>
      requires head <= |buf|
      reads this
    {
      buf[head..]
    }

    /** `moved + head <= removed` pays for a future compaction out of what was already removed. */
    ghost predicate Valid()
      reads this
    {
      && Compacted(|buf|, head)
      && (cap > 0 ==> |Live()| <= cap)
      && moved + head <= removed
    }

    constructor (maxQueue: nat)
      ensures Valid() && cap == maxQueue && Live() == [] && dropped == 0 && moved == removed == 0
    {
      cap, buf, head, dropped, removed, moved := maxQueue, [], 0, 0, 0, 0;
    }

    method Length() returns (n: nat)
      requires Valid()
      ensures n == |Live()|
    {
      n := Max(0, |buf| - head);
    }

    /** Every compaction moves no more elements than were removed since the one before it. */
    method Compact()
      requires head <= |buf| && moved + head <= removed
      modifies this
      ensures Compacted(|buf|, head) && Live() == old(Live())
      ensures var h, n := old(head), |old(buf)|;
        if h > 0 && (h == n || (h >= 64 && h * 2 >= n)) then head == 0 && buf == old(buf)[h..]
        else head == h && buf == old(buf)
      ensures moved + head <= removed && removed == old(removed) && dropped == old(dropped)
    {
      if head == 0 { return; }
      if head >= |buf| {
        buf, head := [], 0;
        return;
      }
      if head >= 64 && head * 2 >= |buf| {
        moved := moved + (|buf| - head);
        buf, head := buf[head..], 0;
      }
    }

    method DequeueBatch(maxItems: int) returns (batch: seq<T>)
      requires Valid()
      modifies this
      ensures Valid() && batch == Front(old(Live()), maxItems) && Live() == Rest(old(Live()), maxItems)
      ensures removed == old(removed) + |batch| && dropped == old(dropped)
    {
      if |buf| - head <= 0 { return []; }
      var safeMaxItems := Max(1, maxItems);
      var end := Min(|buf|, head + safeMaxItems);
      batch := buf[head..end];
      removed := removed + (end - head);
      head := end;
      Compact();
    }

    method Enqueue(x: T)
      requires Valid()
      modifies this
      ensures Valid() && Live() == Push(cap, old(Live()), x)
      ensures dropped == old(dropped) + (if Overflows(cap, old(Live())) then 1 else 0)
      ensures removed == old(removed) + (if Overflows(cap, old(Live())) then 1 else 0)
    {
      if cap > 0 && |buf| - head >= cap {
        removed := removed + 1;
        head := Min(|buf|, head + 1);
        Compact();
        dropped := dropped + 1;
      }
      buf := buf + [x];
    }

    /** The table is missing: the flusher empties the queue in one go. */
    method Clear() returns (n: nat)
      requires Valid()
      modifies this
      ensures Valid() && Live() == [] && n == |old(Live())| && dropped == old(dropped)
    {
      n := |buf| - head;
      removed := removed + n;
      buf, head := [], 0;
    }
  }

  // ---------------------------------------------------------- the flusher's accounts

  datatype Write = Succeeded | Failed | TableMissing

  /**
   The service over its steps. An event is the number of the call that recorded it, and every
   counter is kept as the list of events it has counted. `probing` holds the direct writes that
   await the table probe, `writing` the batches whose insert has not returned yet, and `taken` is
   the log of dequeued events.
   */
  datatype Books = Books(
    attempted: nat,
    sampled: seq<nat>,
    overflowed: seq<nat>,
    skipped: seq<nat>,
    succeeded: seq<nat>,
    failed: seq<nat>,
    probing: seq<nat>,
    queue: seq<nat>,
    writing: seq<seq<nat>>,
    taken: seq<nat>)

  datatype Step =
    | Record(sampledOut: bool)
    | RecordDirect
    | ProbeReturns(i: nat, tableUsable: bool)
    | FlushBatch(maxItems: int)
    | FlushWithoutTable
    | WriteReturns(i: nat, result: Write)

  const NO_BOOKS := Books(0, [], [], [], [], [], [], [], [], [])

  function Except<T>(s: seq<T>, i: nat): seq<T>
    requires i < |s|
  {
    s[..i] + s[i + 1..]
  }

  function DoRecord(cap: nat, b: Books): Books {
    b.(attempted := b.attempted + 1,
       overflowed := if Overflows(cap, b.queue) then b.overflowed + [b.queue[0]] else b.overflowed,
       queue := Push(cap, b.queue, b.attempted))
  }

  function DoProbe(b: Books, i: nat, usable: bool): Books
    requires i < |b.probing|
  {
    var x := b.probing[i];
    var b1 := b.(probing := Except(b.probing, i));
    if usable then b1.(writing := b.writing + [[x]]) else b1.(skipped := b.skipped + [x])
  }

  function DoFlush(b: Books, maxItems: int): Books {
    b.(queue := Rest(b.queue, maxItems), taken := b.taken + Front(b.queue, maxItems),
       writing := b.writing + [Front(b.queue, maxItems)])
  }

  function DoReturn(b: Books, i: nat, result: Write): Books
    requires i < |b.writing|
  {
    var batch := b.writing[i];
    var b1 := b.(writing := Except(b.writing, i));
    match result
    case Succeeded => b1.(succeeded := b.succeeded + batch)
    case Failed => b1.(failed := b.failed + batch)
    case TableMissing => b1.(skipped := b.skipped + batch)
  }

  function Do(cap: nat, b: Books, e: Step): Books {
    match e
    case Record(true) => b.(attempted := b.attempted + 1, sampled := b.sampled + [b.attempted])
    case Record(false) => DoRecord(cap, b)
    case RecordDirect => b.(attempted := b.attempted + 1, probing := b.probing + [b.attempted])
    case ProbeReturns(i, usable) => if i < |b.probing| then DoProbe(b, i, usable) else b
    case FlushBatch(maxItems) => if b.queue == [] then b else DoFlush(b, maxItems)
    case FlushWithoutTable => b.(skipped := b.skipped + b.queue, queue := [])
    case WriteReturns(i, result) => if i < |b.writing| then DoReturn(b, i, result) else b
  }

  // -------------------------------------------------------------- where an event is

  function Count(s: seq<nat>, x: nat): nat {
    if s == [] then 0 else (if s[0] == x then 1 else 0) + Count(s[1..], x)
  }

  function CountAll(batches: seq<seq<nat>>, x: nat): nat {
    if batches == [] then 0 else Count(batches[0], x) + CountAll(batches[1..], x)
  }

  /** In how many places of the service an event stands. */
  function Places(b: Books, x: nat): nat {
    Count(b.sampled, x) + Count(b.overflowed, x) + Count(b.skipped, x) + Count(b.succeeded, x) + Count(b.failed, x)
    + Count(b.probing, x) + Count(b.queue, x) + CountAll(b.writing, x)
  }

  /** Every attempted event stands in exactly one place, and nothing else stands anywhere. */
  ghost predicate Partitioned(b: Books) {
    forall x: nat :: Places(b, x) == if x < b.attempted then 1 else 0
  }

  lemma {:induction false} CountConcat(a: seq<nat>, b: seq<nat>, x: nat)
    ensures Count(a + b, x) == Count(a, x) + Count(b, x)
  {
    if a == [] {
      assert a + b == b;
    } else {
      assert (a + b)[1..] == a[1..] + b;
      CountConcat(a[1..], b, x);
    }
  }

  lemma {:induction false} CountAllConcat(a: seq<seq<nat>>, b: seq<seq<nat>>, x: nat)
    ensures CountAll(a + b, x) == CountAll(a, x) + CountAll(b, x)
  {
    if a == [] {
      assert a + b == b;
    } else {
      assert (a + b)[1..] == a[1..] + b;
      CountAllConcat(a[1..], b, x);
    }
  }

  lemma CountOne(y: nat, x: nat)
    ensures Count([y], x) == if x == y then 1 else 0
  {
    assert [y][1..] == [];
  }

  lemma CountAllOne(batch: seq<nat>, x: nat)
    ensures CountAll([batch], x) == Count(batch, x)
  {
    assert [batch][1..] == [];
  }

  lemma CountExcept(s: seq<nat>, i: nat, x: nat)
    requires i < |s|
    ensures Count(Except(s, i), x) + Count([s[i]], x) == Count(s, x)
  {
    CountConcat(s[..i], s[i + 1..], x);
    CountConcat([s[i]], s[i + 1..], x);
    CountConcat(s[..i], [s[i]] + s[i + 1..], x);
    assert s == s[..i] + ([s[i]] + s[i + 1..]);
  }

  lemma CountAllExcept(s: seq<seq<nat>>, i: nat, x: nat)
    requires i < |s|
    ensures CountAll(Except(s, i), x) + Count(s[i], x) == CountAll(s, x)
  {
    CountAllConcat(s[..i], s[i + 1..], x);
    CountAllConcat([s[i]], s[i + 1..], x);
    CountAllOne(s[i], x);
    CountAllConcat(s[..i], [s[i]] + s[i + 1..], x);
    assert s == s[..i] + ([s[i]] + s[i + 1..]);
  }

  lemma RecordPlaces(cap: nat, b: Books, x: nat)
    ensures Places(DoRecord(cap, b), x) == Places(b, x) + if x == b.attempted then 1 else 0
  {
    CountOne(b.attempted, x);
    if Overflows(cap, b.queue) {
      CountConcat(b.overflowed, [b.queue[0]], x);
      CountConcat([b.queue[0]], b.queue[1..], x);
      CountConcat(b.queue[1..], [b.attempted], x);
      assert b.queue == [b.queue[0]] + b.queue[1..];
    } else {
      CountConcat(b.queue, [b.attempted], x);
    }
  }

  lemma ProbePlaces(b: Books, i: nat, usable: bool, x: nat)
    requires i < |b.probing|
    ensures Places(DoProbe(b, i, usable), x) == Places(b, x)
  {
    CountExcept(b.probing, i, x);
    CountAllConcat(b.writing, [[b.probing[i]]], x);
    CountAllOne([b.probing[i]], x);
    CountConcat(b.skipped, [b.probing[i]], x);
  }

  lemma FlushPlaces(b: Books, maxItems: int, x: nat)
    requires b.queue != []
    ensures Places(DoFlush(b, maxItems), x) == Places(b, x)
  {
    var batch := Front(b.queue, maxItems);
    CountAllConcat(b.writing, [batch], x);
    CountAllOne(batch, x);
    CountConcat(batch, Rest(b.queue, maxItems), x);
    assert batch + Rest(b.queue, maxItems) == b.queue;
  }

  lemma ReturnPlaces(b: Books, i: nat, result: Write, x: nat)
    requires i < |b.writing|
    ensures Places(DoReturn(b, i, result), x) == Places(b, x)
  {
    CountAllExcept(b.writing, i, x);
    CountConcat(b.succeeded, b.writing[i], x);
    CountConcat(b.failed, b.writing[i], x);
    CountConcat(b.skipped, b.writing[i], x);
  }

  /** A step adds the event it attempts, if any, to one place and moves the others. */
  lemma DoPlaces(cap: nat, b: Books, e: Step, x: nat)
    ensures Places(Do(cap, b, e), x) == Places(b, x) + if b.attempted <= x < Do(cap, b, e).attempted then 1 else 0
  {
    match e
    case Record(out) =>
      RecordPlaces(cap, b, x);
      CountConcat(b.sampled, [b.attempted], x);
      CountOne(b.attempted, x);
    case RecordDirect =>
      CountConcat(b.probing, [b.attempted], x);
      CountOne(b.attempted, x);
    case ProbeReturns(i, usable) => if i < |b.probing| { ProbePlaces(b, i, usable, x); }
    case FlushBatch(maxItems) => if b.queue != [] { FlushPlaces(b, maxItems, x); }
    case FlushWithoutTable => CountConcat(b.skipped, b.queue, x);
    case WriteReturns(i, result) => if i < |b.writing| { ReturnPlaces(b, i, result, x); }
  }

  // ------------------------------------------------------------------ what a step does

  /** A recorded event is sampled out, or queued behind the others while the oldest makes room. */
  lemma RecordAnswers(cap: nat, b: Books, sampledOut: bool)
    ensures var t := Do(cap, b, Record(sampledOut)); var full := cap > 0 && |b.queue| >= cap;
      && t.attempted == b.attempted + 1
      && (sampledOut ==> t == b.(attempted := b.attempted + 1, sampled := b.sampled + [b.attempted]))
      && (!sampledOut ==>
            && t.queue == (if full then b.queue[1..] else b.queue) + [b.attempted]
            && t.overflowed == (if full then b.overflowed + [b.queue[0]] else b.overflowed)
            && t.sampled == b.sampled && t.skipped == b.skipped && t.writing == b.writing && t.taken == b.taken)
  {
  }

  /** A direct event waits for the table probe and is then written alone, or skipped. */
  lemma DirectAnswers(cap: nat, b: Books, usable: bool)
    ensures var t := Do(cap, b, RecordDirect); var x := b.attempted;
      var u := Do(cap, t, ProbeReturns(|b.probing|, usable));
      && t == b.(attempted := x + 1, probing := b.probing + [x])
      && u.probing == b.probing && u.attempted == x + 1
      && u.writing == (if usable then b.writing + [[x]] else b.writing)
      && u.skipped == (if usable then b.skipped else b.skipped + [x])
  {
    assert Except(b.probing + [b.attempted], |b.probing|) == b.probing;
  }

  /** A flush takes the oldest events, at least one and at most the asked number, to be written. */
  lemma FlushAnswers(cap: nat, b: Books, maxItems: int)
    requires b.queue != []
    ensures var t := Do(cap, b, FlushBatch(maxItems)); var n := Min(|b.queue|, Max(1, maxItems));
      && t.writing == b.writing + [b.queue[..n]] && t.queue == b.queue[n..] && t.taken == b.taken + b.queue[..n]
      && t.attempted == b.attempted && t.skipped == b.skipped && t.succeeded == b.succeeded && t.failed == b.failed
  {
    assert b.queue[..|b.queue|] == b.queue && b.queue[|b.queue|..] == [];
  }

  /** Without the table everything queued is skipped. */
  lemma MissingTableAnswers(cap: nat, b: Books)
    ensures var t := Do(cap, b, FlushWithoutTable);
      t == b.(skipped := b.skipped + b.queue, queue := [])
  {
  }

  /** A returned write is counted under its result, all of it and nothing else. */
  lemma WriteAnswers(cap: nat, b: Books, i: nat, result: Write)
    requires i < |b.writing|
    ensures var t := Do(cap, b, WriteReturns(i, result)); var batch := b.writing[i];
      && t.writing == b.writing[..i] + b.writing[i + 1..] && t.queue == b.queue && t.attempted == b.attempted
      && t.succeeded == (if result == Succeeded then b.succeeded + batch else b.succeeded)
      && t.failed == (if result == Failed then b.failed + batch else b.failed)
      && t.skipped == (if result == TableMissing then b.skipped + batch else b.skipped)
  {
  }

  // ------------------------------------------------------------------ order and bound

  predicate Ascending(s: seq<nat>) {
    forall i, j :: 0 <= i < j < |s| ==> s[i] < s[j]
  }

  /** First in, first out: what was dequeued, then what waits, is in recording order. */
  predicate Ordered(b: Books) {
    Ascending(b.taken + b.queue) && forall i :: 0 <= i < |b.taken + b.queue| ==> (b.taken + b.queue)[i] < b.attempted
  }

  ghost predicate Sound(cap: nat, b: Books) {
    Partitioned(b) && Ordered(b) && (cap > 0 ==> |b.queue| <= cap)
  }

  lemma RecordOrdered(cap: nat, b: Books)
    requires Ordered(b)
    ensures Ordered(DoRecord(cap, b))
  {
    var t := DoRecord(cap, b);
    var was, now := b.taken + b.queue, t.taken + t.queue;
    if Overflows(cap, b.queue) {
      var gap := |b.taken|;
      assert forall k :: 0 <= k < |now| - 1 ==> now[k] == was[if k < gap then k else k + 1];
    } else {
      assert now == was + [b.attempted];
    }
  }

  lemma DoOrdered(cap: nat, b: Books, e: Step)
    requires Ordered(b)
    ensures Ordered(Do(cap, b, e))
  {
    match e
    case Record(out) => if !out { RecordOrdered(cap, b); }
    case FlushBatch(maxItems) =>
      if b.queue != [] {
        assert Front(b.queue, maxItems) + Rest(b.queue, maxItems) == b.queue;
        assert DoFlush(b, maxItems).taken + DoFlush(b, maxItems).queue == b.taken + b.queue;
      }
    case FlushWithoutTable =>
      assert forall k :: 0 <= k < |b.taken| ==> b.taken[k] == (b.taken + b.queue)[k];
      assert b.taken + [] == b.taken;
    case _ =>
  }

  lemma DoKeeps(cap: nat, b: Books, e: Step)
    requires Sound(cap, b)
    ensures Sound(cap, Do(cap, b, e))
  {
    DoOrdered(cap, b, e);
    forall x: nat
      ensures Places(Do(cap, b, e), x) == if x < Do(cap, b, e).attempted then 1 else 0
    {
      DoPlaces(cap, b, e, x);
    }
  }

  function RunSteps(cap: nat, b: Books, es: seq<Step>): Books
    decreases |es|
  {
    if es == [] then b else RunSteps(cap, Do(cap, b, es[0]), es[1..])
  }

  /** Over every run no audit event is lost or counted twice, and the FIFO order is kept. */
  lemma {:induction false} RunStaysSound(cap: nat, b: Books, es: seq<Step>)
    requires Sound(cap, b)
    ensures Sound(cap, RunSteps(cap, b, es))
    decreases |es|
  {
    if es != [] {
      DoKeeps(cap, b, es[0]);
      RunStaysSound(cap, Do(cap, b, es[0]), es[1..]);
    }
  }

  /** The books of every run from the start: each attempted event is in exactly one place. */
  lemma AuditBooksBalance(cap: nat, es: seq<Step>, x: nat)
    ensures var b := RunSteps(cap, NO_BOOKS, es);
      && Places(b, x) == (if x < b.attempted then 1 else 0)
      && (cap > 0 ==> |b.queue| <= cap)
      && Ascending(b.taken + b.queue)
  {
    RunStaysSound(cap, NO_BOOKS, es);
  }

  // --------------------------------------------------------------- the counters add up

  function Total(batches: seq<seq<nat>>): nat {
    if batches == [] then 0 else |batches[0]| + Total(batches[1..])
  }

  function Stored(b: Books): nat {
    |b.sampled| + |b.overflowed| + |b.skipped| + |b.succeeded| + |b.failed| + |b.probing| + |b.queue| + Total(b.writing)
  }

  lemma {:induction false} TotalConcat(a: seq<seq<nat>>, b: seq<seq<nat>>)
    ensures Total(a + b) == Total(a) + Total(b)
  {
    if a == [] {
      assert a + b == b;
    } else {
      assert (a + b)[1..] == a[1..] + b;
      TotalConcat(a[1..], b);
    }
  }

  lemma TotalExcept(s: seq<seq<nat>>, i: nat)
    requires i < |s|
    ensures Total(Except(s, i)) + |s[i]| == Total(s)
  {
    TotalConcat(s[..i], s[i..]);
    TotalConcat(s[..i], s[i + 1..]);
    assert s[..i] + s[i..] == s;
  }

  lemma DoStores(cap: nat, b: Books, e: Step)
    ensures Stored(Do(cap, b, e)) - Stored(b) == Do(cap, b, e).attempted - b.attempted
  {
    match e
    case ProbeReturns(i, usable) => if i < |b.probing| { TotalConcat(b.writing, [[b.probing[i]]]); }
    case FlushBatch(maxItems) => if b.queue != [] { TotalConcat(b.writing, [Front(b.queue, maxItems)]); }
    case WriteReturns(i, result) => if i < |b.writing| { TotalExcept(b.writing, i); }
    case _ =>
  }

  /** In every run the attempts are the sum of the counters and of what is still on its way. */
  lemma {:induction false} CountersAddUp(cap: nat, b: Books, es: seq<Step>)
    ensures Stored(RunSteps(cap, b, es)) - Stored(b) == RunSteps(cap, b, es).attempted - b.attempted
    decreases |es|
  {
    if es != [] {
      DoStores(cap, b, es[0]);
      CountersAddUp(cap, Do(cap, b, es[0]), es[1..]);
    }
  }
}
