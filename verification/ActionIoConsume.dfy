/**
 Resumable page consumption (`ActionIoSession.consume` in action_io_session.ts, over `claim` in
 action_io_checkpoint.ts): any number of consumers, resumed any number of times, over one
 directory with one write-once page record per cursor.

 The remote side and the caller's page handler are unconstrained: each fetch may bring any next
 cursor, any completeness and any new state. Only what `claim` and the assertions check is used.
 A consumer that creates a record goes on with the state in memory; one that finds a record gets
 the state parsed from its JSON text. `load` is that round trip, and may be lossy.
 */
module ActionIoConsume {

  /** A finished page record: where to go on, whether the stream ended, and the saved state. */
  datatype Page<T> = Page(next: int, complete: bool, state: T)

  datatype Record<T> = Incomplete | Saved(page: Page<T>)

  datatype Pc<T> =
    | Looking
    | Claiming(page: Page<T>)
    | Filling(page: Page<T>)
    | Returned(result: T)
    | Threw

  /** `trail` lists the cursors visited, the current one last. */
  datatype Consumer<T> = Consumer(cursor: nat, state: T, pc: Pc<T>, trail: seq<nat>)

  datatype Sys<T> = Sys(records: map<nat, Record<T>>, consumers: seq<Consumer<T>>)

  function Empty<T>(): Sys<T> {
    Sys(map[], [])
  }

  datatype Step<T> =
    | Start(initial: T)
    | Look(i: nat)
    | Fetch(i: nat, page: Page<T>)
    | Claim(i: nat)
    | Fill(i: nat)
    | Crash(i: nat)

  function Put<T>(s: Sys<T>, i: nat, c: Consumer<T>): Sys<T>
    requires i < |s.consumers|
  {
    s.(consumers := s.consumers[i := c])
  }

  /** The loop's last lines: check the record, take its state, return or move on. */
  function Adopt<T>(c: Consumer<T>, page: Page<T>): Consumer<T> {
    if page.next <= c.cursor then c.(pc := Threw)
    else if page.complete then c.(state := page.state, pc := Returned(page.state))
    else c.(state := page.state, pc := Looking, cursor := page.next, trail := c.trail + [page.next])
  }

  /** What reading a saved page back gives. */
  function Loaded<T>(page: Page<T>, load: T -> T): Page<T> {
    page.(state := load(page.state))
  }

  function DoLook<T>(s: Sys<T>, i: nat, load: T -> T): Sys<T> {
    if i >= |s.consumers| || !s.consumers[i].pc.Looking? then s else
    var c := s.consumers[i];
    if c.cursor !in s.records then s
    else match s.records[c.cursor]
    case Incomplete => Put(s, i, c.(pc := Threw))
    case Saved(page) => Put(s, i, Adopt(c, Loaded(page, load)))
  }

  /** No record yet: the page read and handled; one that does not advance is read again. */
  function DoFetch<T>(s: Sys<T>, i: nat, page: Page<T>): Sys<T> {
    if i >= |s.consumers| || !s.consumers[i].pc.Looking? || s.consumers[i].cursor in s.records then s
    else if page.next == s.consumers[i].cursor then s
    else if page.next < s.consumers[i].cursor then Put(s, i, s.consumers[i].(pc := Threw))
    else Put(s, i, s.consumers[i].(pc := Claiming(page)))
  }

  /** Exclusive create, or agreement with the record that is already there. */
  function DoClaim<T(==)>(s: Sys<T>, i: nat, load: T -> T): Sys<T> {
    if i >= |s.consumers| || !s.consumers[i].pc.Claiming? then s else
    var c := s.consumers[i];
    if c.cursor !in s.records then
      Put(s, i, c.(pc := Filling(c.pc.page))).(records := s.records[c.cursor := Incomplete])
    else if s.records[c.cursor].Saved? && Loaded(s.records[c.cursor].page, load) == c.pc.page then
      Put(s, i, Adopt(c, c.pc.page))
    else Put(s, i, c.(pc := Threw))
  }

  function DoFill<T>(s: Sys<T>, i: nat): Sys<T> {
    if i >= |s.consumers| || !s.consumers[i].pc.Filling? then s else
    var c := s.consumers[i];
    Put(s, i, Adopt(c, c.pc.page)).(records := s.records[c.cursor := Saved(c.pc.page)])
  }

  function Do<T(==)>(s: Sys<T>, e: Step<T>, load: T -> T): Sys<T> {
    match e
    case Start(initial) => s.(consumers := s.consumers + [Consumer(0, initial, Looking, [0])])
    case Look(i) => DoLook(s, i, load)
    case Fetch(i, page) => DoFetch(s, i, page)
    case Claim(i) => DoClaim(s, i, load)
    case Fill(i) => DoFill(s, i)
    case Crash(i) => if i < |s.consumers| then Put(s, i, s.consumers[i].(pc := Threw)) else s
  }

  function Run<T(==)>(s: Sys<T>, es: seq<Step<T>>, load: T -> T): Sys<T>
    decreases |es|
  {
    if es == [] then s else Run(Do(s, es[0], load), es[1..], load)
  }

  // ------------------------------------------------------------------ the invariant

  /** `a` is followed by `b`: its record is saved, not final, and points to `b`. */
  predicate Link<T>(records: map<nat, Record<T>>, a: nat, b: nat) {
    a in records && records[a].Saved? && !records[a].page.complete && records[a].page.next == b
  }

  /** A walk along the one chain from cursor 0. */
  predicate Chain<T>(records: map<nat, Record<T>>, trail: seq<nat>) {
    && |trail| > 0 && trail[0] == 0
    && (forall k :: 0 <= k < |trail| - 1 ==> Link(records, trail[k], trail[k + 1]))
  }

  /** A record that ends the stream. */
  predicate Ends<T>(records: map<nat, Record<T>>, cursor: nat) {
    cursor in records && records[cursor].Saved? && records[cursor].page.complete
  }

  /** The state as written, or as read back. */
  ghost predicate IsOf<T>(result: T, state: T, load: T -> T) {
    result == state || result == load(state)
  }

  ghost predicate ConsumerOk<T(!new)>(records: map<nat, Record<T>>, c: Consumer<T>, load: T -> T) {
    && Chain(records, c.trail) && c.trail[|c.trail| - 1] == c.cursor
    && (c.pc.Claiming? ==> c.pc.page.next > c.cursor)
    && (c.pc.Filling? ==> c.pc.page.next > c.cursor && c.cursor in records && records[c.cursor].Incomplete?)
    && (c.pc.Returned? ==> Ends(records, c.cursor) && IsOf(c.pc.result, records[c.cursor].page.state, load))
  }

  /** Every saved record moves forward, and an unfinished record has one writer. */
  ghost predicate Inv<T(!new)>(s: Sys<T>, load: T -> T) {
    && (forall k :: k in s.records && s.records[k].Saved? ==> s.records[k].page.next > k)
    && (forall i :: 0 <= i < |s.consumers| ==> ConsumerOk(s.records, s.consumers[i], load))
    && (forall i, j :: 0 <= i < j < |s.consumers| && s.consumers[i].pc.Filling? && s.consumers[j].pc.Filling? ==>
          s.consumers[i].cursor != s.consumers[j].cursor)
  }

  /** Records are write-once. */
  ghost predicate Grows<T>(a: map<nat, Record<T>>, b: map<nat, Record<T>>) {
    forall k :: k in a ==> k in b && (a[k].Saved? ==> b[k] == a[k])
  }

  lemma ChainStays<T>(a: map<nat, Record<T>>, b: map<nat, Record<T>>, trail: seq<nat>)
    requires Grows(a, b) && Chain(a, trail)
    ensures Chain(b, trail)
  {
  }

  /** Adopting a saved record, as written or as read back, extends the walk by one link or ends it. */
  lemma AdoptOk<T(!new)>(records: map<nat, Record<T>>, c: Consumer<T>, page: Page<T>, load: T -> T)
    requires Chain(records, c.trail) && c.trail[|c.trail| - 1] == c.cursor
    requires c.cursor in records && records[c.cursor].Saved?
    requires page == records[c.cursor].page || page == Loaded(records[c.cursor].page, load)
    ensures ConsumerOk(records, Adopt(c, page), load)
  {
  }

  lemma LookKeeps<T(!new)>(s: Sys<T>, i: nat, load: T -> T)
    requires Inv(s, load)
    ensures Inv(DoLook(s, i, load), load) && Grows(s.records, DoLook(s, i, load).records)
  {
    if i < |s.consumers| && s.consumers[i].pc.Looking? && s.consumers[i].cursor in s.records {
      var c := s.consumers[i];
      assert ConsumerOk(s.records, c, load);
      if s.records[c.cursor].Saved? {
        AdoptOk(s.records, c, Loaded(s.records[c.cursor].page, load), load);
      }
    }
  }

  lemma ClaimKeeps<T(!new)>(s: Sys<T>, i: nat, load: T -> T)
    requires Inv(s, load)
    ensures Inv(DoClaim(s, i, load), load) && Grows(s.records, DoClaim(s, i, load).records)
  {
    if i < |s.consumers| && s.consumers[i].pc.Claiming? {
      var c := s.consumers[i];
      var t := DoClaim(s, i, load);
      assert ConsumerOk(s.records, c, load);
      if c.cursor !in s.records {
        forall j | 0 <= j < |t.consumers|
          ensures ConsumerOk(t.records, t.consumers[j], load)
        {
          assert ConsumerOk(s.records, s.consumers[j], load);
          ChainStays(s.records, t.records, s.consumers[j].trail);
        }
        assert forall j :: 0 <= j < |s.consumers| && s.consumers[j].pc.Filling? ==> s.consumers[j].cursor != c.cursor;
      } else if s.records[c.cursor].Saved? && Loaded(s.records[c.cursor].page, load) == c.pc.page {
        AdoptOk(s.records, c, c.pc.page, load);
      }
    }
  }

  lemma FillKeeps<T(!new)>(s: Sys<T>, i: nat, load: T -> T)
    requires Inv(s, load)
    ensures Inv(DoFill(s, i), load) && Grows(s.records, DoFill(s, i).records)
  {
    if i < |s.consumers| && s.consumers[i].pc.Filling? {
      var c := s.consumers[i];
      var t := DoFill(s, i);
      assert ConsumerOk(s.records, c, load);
      forall j | 0 <= j < |t.consumers|
        ensures ConsumerOk(t.records, t.consumers[j], load)
      {
        assert ConsumerOk(s.records, s.consumers[j], load);
        ChainStays(s.records, t.records, s.consumers[j].trail);
        if j == i { AdoptOk(t.records, c, c.pc.page, load); }
      }
    }
  }

  lemma DoKeeps<T(!new)>(s: Sys<T>, e: Step<T>, load: T -> T)
    requires Inv(s, load)
    ensures Inv(Do(s, e, load), load) && Grows(s.records, Do(s, e, load).records)
  {
    match e
    case Look(i) => LookKeeps(s, i, load);
    case Claim(i) => ClaimKeeps(s, i, load);
    case Fill(i) => FillKeeps(s, i, load);
    case _ => ConsumerOnlyKeeps(s, e, load);
  }

  /** Steps that touch no record. */
  lemma ConsumerOnlyKeeps<T(!new)>(s: Sys<T>, e: Step<T>, load: T -> T)
    requires Inv(s, load) && (e.Start? || e.Fetch? || e.Crash?)
    ensures Inv(Do(s, e, load), load) && Do(s, e, load).records == s.records
  {
    var t := Do(s, e, load);
    forall j | 0 <= j < |t.consumers|
      ensures ConsumerOk(t.records, t.consumers[j], load)
    {
      assert j < |s.consumers| ==> ConsumerOk(s.records, s.consumers[j], load);
    }
  }

  lemma {:induction false} RunKeeps<T(!new)>(s: Sys<T>, es: seq<Step<T>>, load: T -> T)
    requires Inv(s, load)
    ensures Inv(Run(s, es, load), load) && Grows(s.records, Run(s, es, load).records)
    decreases |es|
  {
    if es != [] {
      DoKeeps(s, es[0], load);
      RunKeeps(Do(s, es[0], load), es[1..], load);
    }
  }

  // -------------------------------------------------------------------- the results

  /** There is one chain: two walks agree as far as both go. */
  lemma {:induction false} ChainsAgree<T>(records: map<nat, Record<T>>, a: seq<nat>, b: seq<nat>, k: nat)
    requires Chain(records, a) && Chain(records, b) && k < |a| && k < |b|
    ensures a[k] == b[k]
    decreases k
  {
    if k > 0 {
      ChainsAgree(records, a, b, k - 1);
      assert Link(records, a[k - 1], a[k]) && Link(records, b[k - 1], b[k]);
    }
  }

  /** Nothing follows the end of the stream: no walk goes further. */
  lemma EndIsLast<T>(records: map<nat, Record<T>>, a: seq<nat>, b: seq<nat>)
    requires Chain(records, a) && Chain(records, b) && Ends(records, a[|a| - 1])
    ensures |b| <= |a|
  {
    var k := |a| - 1;
    assert k < |b| - 1 ==> Link(records, b[k], b[k + 1]);
    if k < |b| {
      ChainsAgree(records, a, b, k);
    }
  }

  lemma OneEnd<T>(records: map<nat, Record<T>>, a: seq<nat>, b: seq<nat>)
    requires Chain(records, a) && Chain(records, b) && Ends(records, a[|a| - 1]) && Ends(records, b[|b| - 1])
    ensures a == b
  {
    EndIsLast(records, a, b);
    EndIsLast(records, b, a);
    forall k | 0 <= k < |a|
      ensures a[k] == b[k]
    {
      ChainsAgree(records, a, b, k);
    }
  }

  /** Every saved record keeps its content and points strictly forward, in every later state. */
  lemma RecordsAreForever<T(!new)>(es: seq<Step<T>>, more: seq<Step<T>>, load: T -> T, k: nat)
    ensures var s := Run(Empty<T>(), es, load); var t := Run(s, more, load);
      k in s.records && s.records[k].Saved? ==>
        k in t.records && t.records[k] == s.records[k] && s.records[k].page.next > k
  {
    RunKeeps(Empty<T>(), es, load);
    RunKeeps(Run(Empty<T>(), es, load), more, load);
  }

  /** Both consumers have returned. */
  predicate BothReturned<T>(s: Sys<T>, i: nat, j: nat) {
    i < |s.consumers| && j < |s.consumers| && s.consumers[i].pc.Returned? && s.consumers[j].pc.Returned?
  }

  /**
   Main result. In every run, two consumers that return have walked the same cursors, whatever
   initial states they were given, however often they were resumed, and whatever pages were
   fetched, and each returns the one state saved at the end of the chain from cursor 0, as
   written or as read back.
   */
  lemma ConsumersAgree<T(!new)>(es: seq<Step<T>>, load: T -> T, i: nat, j: nat)
    ensures var s := Run(Empty<T>(), es, load);
      BothReturned(s, i, j) ==>
        var end := s.consumers[i].cursor;
        && s.consumers[i].trail == s.consumers[j].trail && s.consumers[j].cursor == end && Ends(s.records, end)
        && IsOf(s.consumers[i].pc.result, s.records[end].page.state, load)
        && IsOf(s.consumers[j].pc.result, s.records[end].page.state, load)
  {
    RunKeeps(Empty<T>(), es, load);
    var s := Run(Empty<T>(), es, load);
    if BothReturned(s, i, j) {
      assert ConsumerOk(s.records, s.consumers[i], load) && ConsumerOk(s.records, s.consumers[j], load);
      OneEnd(s.records, s.consumers[i].trail, s.consumers[j].trail);
    }
  }

  // ----------------------------------------------------------------- what a consumer does

  /** The consumer has moved past a page that is not the last: on to its cursor, with its state. */
  predicate WentOn<T(==)>(c: Consumer<T>, d: Consumer<T>, next: int, state: T) {
    d.pc.Looking? && d.cursor == next && d.state == state && d.trail == c.trail + [d.cursor]
  }

  predicate OnlyConsumer<T(==)>(s: Sys<T>, t: Sys<T>, i: nat) {
    && t.records == s.records && |t.consumers| == |s.consumers| && i < |s.consumers|
    && forall j :: 0 <= j < |s.consumers| && j != i ==> t.consumers[j] == s.consumers[j]
  }

  /** A saved page is taken as read back: a last one is returned, any other leads on. */
  lemma SavedPageAnswers<T(!new)>(s: Sys<T>, i: nat, load: T -> T)
    requires i < |s.consumers| && s.consumers[i].pc.Looking? && s.consumers[i].cursor in s.records
    requires s.records[s.consumers[i].cursor].Saved?
    ensures var c := s.consumers[i]; var page := s.records[c.cursor].page; var t := Do(s, Look(i), load);
      && OnlyConsumer(s, t, i)
      && (page.next <= c.cursor ==> t.consumers[i].pc.Threw?)
      && (page.next > c.cursor && page.complete ==> t.consumers[i].pc == Returned(load(page.state)))
      && (page.next > c.cursor && !page.complete ==> WentOn(c, t.consumers[i], page.next, load(page.state)))
  {
  }

  /** An unfinished record is an error, a missing one leaves the consumer to fetch. */
  lemma NoPageAnswers<T(!new)>(s: Sys<T>, i: nat, page: Page<T>, load: T -> T)
    requires i < |s.consumers| && s.consumers[i].pc.Looking?
    ensures var c := s.consumers[i];
      && (c.cursor !in s.records ==> Do(s, Look(i), load) == s)
      && (c.cursor in s.records && s.records[c.cursor].Incomplete? ==>
            Do(s, Look(i), load).consumers[i].pc.Threw? && OnlyConsumer(s, Do(s, Look(i), load), i))
      && (c.cursor !in s.records ==>
            var t := Do(s, Fetch(i, page), load);
            && OnlyConsumer(s, t, i)
            && (page.next == c.cursor ==> t == s)
            && (page.next < c.cursor ==> t.consumers[i].pc.Threw?)
            && (page.next > c.cursor ==> t.consumers[i] == c.(pc := Claiming(page))))
  {
  }

  /** A consumer starts at cursor 0 with its initial state; one that gives up leaves the records alone. */
  lemma StartAndCrash<T(!new)>(s: Sys<T>, i: nat, initial: T, load: T -> T)
    ensures Do(s, Start(initial), load).consumers == s.consumers + [Consumer(0, initial, Looking, [0])]
    ensures i < |s.consumers| ==>
      Do(s, Crash(i), load).consumers[i].pc.Threw? && OnlyConsumer(s, Do(s, Crash(i), load), i)
  {
  }

  /** A fetched page is claimed, written and taken as it is in memory. */
  lemma FreshPageAnswers<T(!new)>(s: Sys<T>, i: nat, load: T -> T)
    requires i < |s.consumers| && s.consumers[i].pc.Claiming? && s.consumers[i].cursor !in s.records
    requires s.consumers[i].pc.page.next > s.consumers[i].cursor
    ensures var c := s.consumers[i]; var page := c.pc.page; var t := Do(Do(s, Claim(i), load), Fill(i), load);
      && t.records == s.records[c.cursor := Saved(page)] && |t.consumers| == |s.consumers|
      && (page.complete ==> t.consumers[i].pc == Returned(page.state))
      && (!page.complete ==> WentOn(c, t.consumers[i], page.next, page.state))
  {
  }

  /** A page that another consumer wrote meanwhile is taken if it reads back the same, else an error. */
  lemma RacedPageAnswers<T(!new)>(s: Sys<T>, i: nat, load: T -> T)
    requires i < |s.consumers| && s.consumers[i].pc.Claiming? && s.consumers[i].cursor in s.records
    ensures var c := s.consumers[i]; var page := c.pc.page; var t := Do(s, Claim(i), load);
      var same := s.records[c.cursor].Saved? && s.records[c.cursor].page.next == page.next
        && s.records[c.cursor].page.complete == page.complete && load(s.records[c.cursor].page.state) == page.state;
      && OnlyConsumer(s, t, i)
      && (!same ==> t.consumers[i].pc.Threw?)
      && (same && page.next > c.cursor && page.complete ==> t.consumers[i].pc == Returned(page.state))
      && (same && page.next > c.cursor && !page.complete ==> WentOn(c, t.consumers[i], page.next, page.state))
  {
  }

  function Looks<T>(i: nat, count: nat): seq<Step<T>> {
    seq(count, _ => Look(i))
  }

  /** From any cursor a consumer walks the rest of a saved chain to its end and returns the state there. */
  lemma {:induction false} WalksToEnd<T(!new)>(s: Sys<T>, i: nat, rest: seq<nat>, load: T -> T)
    requires i < |s.consumers| && s.consumers[i].pc.Looking? && |rest| > 0 && rest[0] == s.consumers[i].cursor
    requires forall k :: 0 <= k < |rest| - 1 ==> Link(s.records, rest[k], rest[k + 1]) && rest[k] < rest[k + 1]
    requires Ends(s.records, rest[|rest| - 1]) && s.records[rest[|rest| - 1]].page.next > rest[|rest| - 1]
    ensures var t := Run(s, Looks(i, |rest|), load);
      && t.records == s.records && |t.consumers| == |s.consumers|
      && t.consumers[i].pc == Returned(load(s.records[rest[|rest| - 1]].page.state))
    decreases |rest|
  {
    var es := Looks<T>(i, |rest|);
    SavedPageAnswers(s, i, load) by {
      assert |rest| > 1 ==> Link(s.records, rest[0], rest[1]);
    }
    var t := Do(s, Look(i), load);
    assert es[1..] == Looks<T>(i, |rest| - 1);
    if |rest| > 1 {
      assert Link(s.records, rest[0], rest[1]) && rest[0] < rest[1];
      forall k | 0 <= k < |rest[1..]| - 1
        ensures Link(t.records, rest[1..][k], rest[1..][k + 1]) && rest[1..][k] < rest[1..][k + 1]
      {
        assert Link(s.records, rest[k + 1], rest[k + 2]);
      }
      WalksToEnd(t, i, rest[1..], load);
    }
  }

  /** A resumed consumer reads the whole saved chain back and returns its end. */
  lemma ResumeReturns<T(!new)>(es: seq<Step<T>>, load: T -> T, trail: seq<nat>, initial: T)
    ensures var s := Run(Empty<T>(), es, load); var i := |s.consumers|;
      Chain(s.records, trail) && Ends(s.records, trail[|trail| - 1]) ==>
        var t := Run(Do(s, Start(initial), load), Looks(i, |trail|), load);
        i < |t.consumers| && t.consumers[i].pc == Returned(load(s.records[trail[|trail| - 1]].page.state))
  {
    var s := Run(Empty<T>(), es, load);
    RunKeeps(Empty<T>(), es, load);
    if Chain(s.records, trail) && Ends(s.records, trail[|trail| - 1]) {
      forall k | 0 <= k < |trail| - 1
        ensures Link(s.records, trail[k], trail[k + 1]) && trail[k] < trail[k + 1]
      {
        assert Link(s.records, trail[k], trail[k + 1]);
      }
      WalksToEnd(Do(s, Start(initial), load), |s.consumers|, trail, load);
    }
  }

  ghost predicate SameResult<T(!new)>(es: seq<Step<T>>, load: T -> T, i: nat, j: nat) {
    var s := Run(Empty<T>(), es, load);
    BothReturned(s, i, j) ==> s.consumers[i].pc.result == s.consumers[j].pc.result
  }

  /** One consumer writes a final page and returns it; another finds it and returns it read back. */
  lemma WriterAndReader<T(!new)>(x: T, load: T -> T) returns (es: seq<Step<T>>)
    ensures var s := Run(Empty<T>(), es, load);
      BothReturned(s, 0, 1) && s.consumers[0].pc.result == x && s.consumers[1].pc.result == load(x)
  {
    var page := Page(1, true, x);
    var first := Consumer(0, x, Looking, [0]);
    var s1 := Sys(map[], [first]);
    var s2 := Sys(map[], [first.(pc := Claiming(page))]);
    var s3 := Sys(map[0 := Incomplete], [first.(pc := Filling(page))]);
    var s4 := Sys(map[0 := Saved(page)], [first.(pc := Returned(x))]);
    var s5 := s4.(consumers := [first.(pc := Returned(x)), first]);
    es := [Start(x), Fetch(0, page), Claim(0), Fill(0), Start(x), Look(1)];
    assert Do(Empty<T>(), es[0], load) == s1 && Do(s1, es[1], load) == s2;
    assert Do(s2, es[2], load) == s3 && Do(s3, es[3], load) == s4 && Do(s4, es[4], load) == s5;
    SixSteps(es, load);
  }

  lemma SixSteps<T(!new)>(es: seq<Step<T>>, load: T -> T)
    requires |es| == 6
    ensures Run(Empty<T>(), es, load) ==
      Do(Do(Do(Do(Do(Do(Empty<T>(), es[0], load), es[1], load), es[2], load), es[3], load), es[4], load), es[5], load)
  {
    var s := Empty<T>();
    StepOff(s, es, 0, load);
    StepOff(Do(s, es[0], load), es, 1, load);
    var t := Do(Do(s, es[0], load), es[1], load);
    StepOff(t, es, 2, load);
    StepOff(Do(t, es[2], load), es, 3, load);
    var u := Do(Do(t, es[2], load), es[3], load);
    StepOff(u, es, 4, load);
    StepOff(Do(u, es[4], load), es, 5, load);
    assert es[0..] == es;
  }

  lemma StepOff<T(!new)>(s: Sys<T>, es: seq<Step<T>>, k: nat, load: T -> T)
    requires k < |es|
    ensures Run(s, es[k..], load) == Run(Do(s, es[k], load), es[k + 1..], load)
  {
    assert es[k..][0] == es[k] && es[k..][1..] == es[k + 1..];
  }

  /** All consumers of all runs return equal states exactly if every state survives the round trip. */
  lemma EqualResultsIff<T(!new)>(load: T -> T)
    ensures (forall es, i, j :: SameResult(es, load, i, j)) <==> (forall x :: load(x) == x)
  {
    if forall x :: load(x) == x {
      forall es, i, j
        ensures SameResult(es, load, i, j)
      {
        ConsumersAgree(es, load, i, j);
      }
    } else {
      var x :| load(x) != x;
      var es := WriterAndReader(x, load);
      assert !SameResult(es, load, 0, 1);
    }
  }
}
