/**
 The catalog page cache (agent_catalog_page_cache.ts) over a shared generation counter
 (memory_agent_catalog_generation.ts, or any counter that only grows): any number of caches, loads
 and bumps interleaved at every `await`.

 Time is the number of steps taken. A page is identified by what was asked and when its load
 began, which is all that freshness depends on.
 */
module CatalogPageCache {
  import opened Options

  const MaxPages: nat := 64

  datatype Page = Page(key: nat, startedAt: nat)

  /** `usedAt` is when the entry was last stored or returned; the code keeps only the order. */
  datatype Entry = Entry(key: nat, generation: nat, page: Page, usedAt: nat)

  // ------------------------------------------------ one cache: a list, oldest use first

  function Find(entries: seq<Entry>, key: nat): (r: Option<Entry>)
    ensures r.Some? ==> r.value in entries && r.value.key == key
    ensures r.None? ==> forall e :: e in entries ==> e.key != key
    decreases |entries|
  {
    if entries == [] then None
    else if entries[0].key == key then Some(entries[0])
    else Find(entries[1..], key)
  }

  function Without(entries: seq<Entry>, key: nat): (r: seq<Entry>)
    ensures forall e :: e in r <==> e in entries && e.key != key
    ensures |r| <= |entries|
    decreases |entries|
  {
    if entries == [] then []
    else (if entries[0].key == key then [] else [entries[0]]) + Without(entries[1..], key)
  }

  /** `delete` followed by `set`: the key moves to the end of the iteration order. */
  function Put(entries: seq<Entry>, e: Entry): seq<Entry> {
    Without(entries, e.key) + [e]
  }

  function Trim(entries: seq<Entry>): seq<Entry> {
    if |entries| > MaxPages then entries[|entries| - MaxPages..] else entries
  }

  function Remember(entries: seq<Entry>, e: Entry): seq<Entry> {
    Trim(Put(entries, e))
  }

  predicate Hits(entries: seq<Entry>, key: nat, generation: nat) {
    var hit := Find(entries, key);
    hit.Some? && hit.value.generation == generation
  }

  // ----------------------------------------------------------------------- the system

  datatype Pc =
    | Asked
    | Read(generation: Option<nat>)
    | Loading(generation: Option<nat>, startedAt: nat)
    | Returned(page: Page)
    | Failed

  datatype Call = Call(cache: nat, key: nat, readAt: nat, pc: Pc)

  /** `bumps[k]` is when the counter went from k to k + 1: its length is the generation. */
  datatype Sys = Sys(clock: nat, bumps: seq<nat>, caches: seq<seq<Entry>>, calls: seq<Call>)

  datatype Step =
    | NewCache
    | Ask(cache: nat, key: nat)
    | ReadGeneration(i: nat, available: bool)
    | Lookup(i: nat)
    | LoadDone(i: nat)
    | LoadFailed(i: nat)
    | ClearForBump(cache: nat)
    | BumpLands

  function SetCall(s: Sys, i: nat, pc: Pc): Sys
    requires i < |s.calls|
  {
    s.(calls := s.calls[i := s.calls[i].(pc := pc)])
  }

  function SetCache(s: Sys, c: nat, entries: seq<Entry>): Sys {
    if c < |s.caches| then s.(caches := s.caches[c := entries]) else s
  }

  function DoRead(s: Sys, i: nat, available: bool): Sys {
    if i >= |s.calls| || !s.calls[i].pc.Asked? then s
    else s.(calls := s.calls[i := s.calls[i].(
              readAt := s.clock, pc := Read(if available then Some(|s.bumps|) else None))])
  }

  /** After the read: a matching entry is returned and becomes the newest, else the load starts. */
  function DoLookup(s: Sys, i: nat): Sys {
    if i >= |s.calls| || !s.calls[i].pc.Read? || s.calls[i].cache >= |s.caches| then s else
    var c := s.calls[i];
    var entries := s.caches[c.cache];
    match c.pc.generation
    case None => SetCall(SetCache(s, c.cache, []), i, Loading(None, s.clock))
    case Some(g) =>
      if Hits(entries, c.key, g) then
        var hit := Find(entries, c.key).value;
        SetCall(SetCache(s, c.cache, Put(entries, hit.(usedAt := s.clock))), i, Returned(hit.page))
      else SetCall(s, i, Loading(Some(g), s.clock))
  }

  function DoLoaded(s: Sys, i: nat): Sys {
    if i >= |s.calls| || !s.calls[i].pc.Loading? || s.calls[i].cache >= |s.caches| then s else
    var c := s.calls[i];
    var page := Page(c.key, c.pc.startedAt);
    match c.pc.generation
    case None => SetCall(s, i, Returned(page))
    case Some(g) =>
      SetCall(SetCache(s, c.cache, Remember(s.caches[c.cache], Entry(c.key, g, page, s.clock))), i, Returned(page))
  }

  function Act(s: Sys, e: Step): Sys {
    match e
    case NewCache => s.(caches := s.caches + [[]])
    case Ask(c, key) => s.(calls := s.calls + [Call(c, key, 0, Asked)])
    case ReadGeneration(i, available) => DoRead(s, i, available)
    case Lookup(i) => DoLookup(s, i)
    case LoadDone(i) => DoLoaded(s, i)
    case LoadFailed(i) => if i < |s.calls| && s.calls[i].pc.Loading? then SetCall(s, i, Failed) else s
    case ClearForBump(c) => SetCache(s, c, [])
    case BumpLands => s.(bumps := s.bumps + [s.clock])
  }

  /** Every step takes one tick. */
  function Do(s: Sys, e: Step): Sys {
    var t := Act(s, e);
    t.(clock := s.clock + 1)
  }

  function Start(): Sys {
    Sys(0, [], [], [])
  }

  function Run(s: Sys, es: seq<Step>): Sys
    decreases |es|
  {
    if es == [] then s else Run(Do(s, es[0]), es[1..])
  }

  // ------------------------------------------------------------------- the invariant

  /** The load began after every bump that led up to this generation. */
  ghost predicate SinceGeneration(bumps: seq<nat>, generation: nat, at: nat) {
    generation <= |bumps| && forall k :: 0 <= k < generation ==> bumps[k] < at
  }

  /** Every later bump happened after the read. */
  ghost predicate ReadBefore(bumps: seq<nat>, generation: nat, readAt: nat) {
    forall k :: generation <= k < |bumps| ==> readAt < bumps[k]
  }

  ghost predicate EntryOk(bumps: seq<nat>, e: Entry) {
    e.page.key == e.key && SinceGeneration(bumps, e.generation, e.page.startedAt)
  }

  /** Distinct keys, in order of use. */
  ghost predicate InUseOrder(entries: seq<Entry>, clock: nat) {
    && (forall i, j :: 0 <= i < j < |entries| ==> entries[i].usedAt < entries[j].usedAt)
    && (forall i, j :: 0 <= i < j < |entries| ==> entries[i].key != entries[j].key)
    && (forall i :: 0 <= i < |entries| ==> entries[i].usedAt < clock)
  }

  ghost predicate CacheOk(bumps: seq<nat>, clock: nat, entries: seq<Entry>) {
    && |entries| <= MaxPages && InUseOrder(entries, clock)
    && (forall e :: e in entries ==> EntryOk(bumps, e))
  }

  /** No bump that had landed when the generation was read came after the load began. */
  ghost predicate Fresh(bumps: seq<nat>, readAt: nat, startedAt: nat) {
    forall k :: 0 <= k < |bumps| && bumps[k] <= readAt ==> bumps[k] < startedAt
  }

  ghost predicate KnowsGeneration(bumps: seq<nat>, g: nat, readAt: nat) {
    g <= |bumps| && (forall k :: 0 <= k < g ==> bumps[k] < readAt) && ReadBefore(bumps, g, readAt)
  }

  ghost predicate CallOk(bumps: seq<nat>, clock: nat, c: Call) {
    match c.pc
    case Asked => true
    case Failed => true
    case Read(g) => c.readAt < clock && (g.Some? ==> KnowsGeneration(bumps, g.value, c.readAt))
    case Loading(g, at) =>
      c.readAt < at < clock && (g.Some? ==> KnowsGeneration(bumps, g.value, c.readAt))
    case Returned(page) => c.readAt < clock && page.key == c.key && Fresh(bumps, c.readAt, page.startedAt)
  }

  ghost predicate Inv(s: Sys) {
    && (forall k :: 0 <= k < |s.bumps| ==> s.bumps[k] < s.clock)
    && (forall c :: 0 <= c < |s.caches| ==> CacheOk(s.bumps, s.clock, s.caches[c]))
    && (forall i :: 0 <= i < |s.calls| ==> CallOk(s.bumps, s.clock, s.calls[i]))
  }

  // ---------------------------------------------------------- one cache keeps its order

  lemma PrependKeepsOrder(first: Entry, rest: seq<Entry>, clock: nat)
    requires InUseOrder(rest, clock) && first.usedAt < clock
    requires forall e :: e in rest ==> first.usedAt < e.usedAt && first.key != e.key
    ensures InUseOrder([first] + rest, clock)
  {
  }

  lemma {:induction false} WithoutKeepsOrder(entries: seq<Entry>, key: nat, clock: nat)
    requires InUseOrder(entries, clock)
    ensures InUseOrder(Without(entries, key), clock)
    decreases |entries|
  {
    if entries != [] {
      WithoutKeepsOrder(entries[1..], key, clock);
      if entries[0].key != key {
        var rest := Without(entries[1..], key);
        forall e | e in rest
          ensures entries[0].usedAt < e.usedAt && entries[0].key != e.key
        {
          var k :| 0 <= k < |entries[1..]| && entries[1..][k] == e;
          assert entries[k + 1] == e;
        }
        PrependKeepsOrder(entries[0], rest, clock);
      }
    }
  }

  lemma PutKeepsOrder(entries: seq<Entry>, e: Entry, clock: nat)
    requires InUseOrder(entries, clock) && e.usedAt == clock
    ensures InUseOrder(Put(entries, e), clock + 1)
  {
    WithoutKeepsOrder(entries, e.key, clock);
    var rest := Without(entries, e.key);
    assert forall i :: 0 <= i < |rest| ==> rest[i] in rest && rest[i].key != e.key;
  }

  /** With the key present, replacing it does not grow the list. */
  lemma {:induction false} WithoutShrinks(entries: seq<Entry>, key: nat)
    requires Find(entries, key).Some?
    ensures |Without(entries, key)| < |entries|
    decreases |entries|
  {
    if entries[0].key != key {
      WithoutShrinks(entries[1..], key);
    }
  }

  lemma HitKeeps(bumps: seq<nat>, clock: nat, entries: seq<Entry>, key: nat)
    requires CacheOk(bumps, clock, entries) && Find(entries, key).Some?
    ensures CacheOk(bumps, clock + 1, Put(entries, Find(entries, key).value.(usedAt := clock)))
  {
    var hit := Find(entries, key).value;
    PutKeepsOrder(entries, hit.(usedAt := clock), clock);
    WithoutShrinks(entries, key);
    assert EntryOk(bumps, hit);
  }

  lemma RememberKeeps(bumps: seq<nat>, clock: nat, entries: seq<Entry>, e: Entry)
    requires CacheOk(bumps, clock, entries) && EntryOk(bumps, e) && e.usedAt == clock
    ensures CacheOk(bumps, clock + 1, Remember(entries, e))
  {
    PutKeepsOrder(entries, e, clock);
    var put := Put(entries, e);
    assert forall x :: x in put ==> EntryOk(bumps, x);
    assert forall x :: x in Trim(put) ==> x in put;
  }

  /** Storing never loses the new page, and drops only the least recently used. */
  lemma EvictsLeastRecentlyUsed(entries: seq<Entry>, e: Entry, clock: nat)
    requires InUseOrder(entries, clock) && e.usedAt == clock
    ensures var kept := Remember(entries, e);
      && |kept| <= MaxPages && e in kept
      && (forall x :: x in kept ==> x == e || (x in entries && x.key != e.key))
      && (forall x :: x in entries && x.key != e.key && x !in kept ==>
            |kept| == MaxPages && forall y :: y in kept ==> x.usedAt < y.usedAt)
  {
    PutKeepsOrder(entries, e, clock);
    var put := Put(entries, e);
    var kept := Remember(entries, e);
    assert put[|put| - 1] == e && kept[|kept| - 1] == e;
    forall x | x in entries && x.key != e.key && x !in kept
      ensures |kept| == MaxPages && forall y :: y in kept ==> x.usedAt < y.usedAt
    {
      assert x in Without(entries, e.key);
      assert x in put;
      Dropped(put, x, clock + 1);
    }
  }

  /** A stored page is found again exactly by calls of its generation. */
  lemma StoredThenHit(entries: seq<Entry>, e: Entry, generation: nat)
    ensures Find(Remember(entries, e), e.key) == Some(e)
    ensures Hits(Remember(entries, e), e.key, generation) <==> generation == e.generation
  {
    var others := Without(entries, e.key);
    var kept := Remember(entries, e);
    var n := |kept| - 1;
    assert kept[..n] == others[|others| - n..];
    assert forall x :: x in kept[..n] ==> x in others;
    FindAtEnd(kept[..n], e);
    assert kept == kept[..n] + [e];
  }

  lemma {:induction false} FindAtEnd(front: seq<Entry>, e: Entry)
    requires forall x :: x in front ==> x.key != e.key
    ensures Find(front + [e], e.key) == Some(e)
    decreases |front|
  {
    if front != [] {
      FindAtEnd(front[1..], e);
      assert (front + [e])[1..] == front[1..] + [e];
    }
  }

  lemma Dropped(put: seq<Entry>, x: Entry, clock: nat)
    requires InUseOrder(put, clock) && x in put && x !in Trim(put)
    ensures |Trim(put)| == MaxPages && forall y :: y in Trim(put) ==> x.usedAt < y.usedAt
  {
  }

  // ------------------------------------------------------------------ the steps keep it

  lemma KeptByTick(bumps: seq<nat>, clock: nat, entries: seq<Entry>)
    requires CacheOk(bumps, clock, entries)
    ensures CacheOk(bumps, clock + 1, entries)
  {
  }

  /** A page that began in a generation is fresh for every call that read that generation. */
  lemma SameGenerationIsFresh(bumps: seq<nat>, g: nat, readAt: nat, startedAt: nat)
    requires KnowsGeneration(bumps, g, readAt) && SinceGeneration(bumps, g, startedAt)
    ensures Fresh(bumps, readAt, startedAt)
  {
  }

  ghost predicate OthersKept(s: Sys, t: Sys, i: nat, c: nat) {
    && t.bumps == s.bumps && |t.caches| == |s.caches| && |t.calls| == |s.calls|
    && (forall k :: 0 <= k < |s.caches| && k != c ==> t.caches[k] == s.caches[k])
    && (forall k :: 0 <= k < |s.calls| && k != i ==> t.calls[k] == s.calls[k])
  }

  /** A step that changes one call and one cache has only those to show. */
  lemma OneCallOneCache(s: Sys, t: Sys, i: nat, c: nat)
    requires Inv(s) && OthersKept(s, t, i, c) && t.clock == s.clock + 1
    requires c < |s.caches| ==> CacheOk(t.bumps, t.clock, t.caches[c])
    requires i < |s.calls| ==> CallOk(t.bumps, t.clock, t.calls[i])
    ensures Inv(t)
  {
  }

  lemma LookupKeeps(s: Sys, i: nat)
    requires Inv(s)
    ensures Inv(DoLookup(s, i).(clock := s.clock + 1))
  {
    var t := DoLookup(s, i).(clock := s.clock + 1);
    if i < |s.calls| && s.calls[i].pc.Read? && s.calls[i].cache < |s.caches| {
      var c := s.calls[i];
      var entries := s.caches[c.cache];
      assert CallOk(s.bumps, s.clock, c);
      KeptByTick(s.bumps, s.clock, entries);
      if c.pc.generation.Some? && Hits(entries, c.key, c.pc.generation.value) {
        var hit := Find(entries, c.key).value;
        HitKeeps(s.bumps, s.clock, entries, c.key);
        assert EntryOk(s.bumps, hit);
        SameGenerationIsFresh(s.bumps, hit.generation, c.readAt, hit.page.startedAt);
      }
      OneCallOneCache(s, t, i, c.cache);
    } else {
      OneCallOneCache(s, t, |s.calls|, |s.caches|);
    }
  }

  lemma LoadedKeeps(s: Sys, i: nat)
    requires Inv(s)
    ensures Inv(DoLoaded(s, i).(clock := s.clock + 1))
  {
    var t := DoLoaded(s, i).(clock := s.clock + 1);
    if i < |s.calls| && s.calls[i].pc.Loading? && s.calls[i].cache < |s.caches| {
      var c := s.calls[i];
      var entries := s.caches[c.cache];
      assert CallOk(s.bumps, s.clock, c);
      KeptByTick(s.bumps, s.clock, entries);
      if c.pc.generation.Some? {
        var e := Entry(c.key, c.pc.generation.value, Page(c.key, c.pc.startedAt), s.clock);
        RememberKeeps(s.bumps, s.clock, entries, e);
      }
      OneCallOneCache(s, t, i, c.cache);
    } else {
      OneCallOneCache(s, t, |s.calls|, |s.caches|);
    }
  }

  /** A bump lands after every read so far, so nothing known about the past changes. */
  lemma BumpKeeps(s: Sys)
    requires Inv(s)
    ensures Inv(Do(s, BumpLands))
  {
  }

  lemma DoKeeps(s: Sys, e: Step)
    requires Inv(s)
    ensures Inv(Do(s, e))
  {
    var t := Do(s, e);
    match e
    case NewCache => OneCallOneCache(s, s.(clock := s.clock + 1), |s.calls|, |s.caches|);
    case Ask(c, key) => AskKeeps(s, c, key);
    case ReadGeneration(i, available) => ReadKeeps(s, i, available);
    case Lookup(i) => LookupKeeps(s, i);
    case LoadDone(i) => LoadedKeeps(s, i);
    case LoadFailed(i) => OneCallOneCache(s, t, i, |s.caches|);
    case ClearForBump(c) => OneCallOneCache(s, t, |s.calls|, c);
    case BumpLands => BumpKeeps(s);
  }

  lemma ReadKeeps(s: Sys, i: nat, available: bool)
    requires Inv(s)
    ensures Inv(Do(s, ReadGeneration(i, available)))
  {
  }

  lemma AskKeeps(s: Sys, c: nat, key: nat)
    requires Inv(s)
    ensures Inv(Do(s, Ask(c, key)))
  {
  }

  lemma {:induction false} RunKeeps(s: Sys, es: seq<Step>)
    requires Inv(s)
    ensures Inv(Run(s, es))
    decreases |es|
  {
    if es != [] {
      DoKeeps(s, es[0]);
      RunKeeps(Do(s, es[0]), es[1..]);
    }
  }

  // -------------------------------------------------------------------- the results

  /**
   Freshness. In every interleaving of loads and bumps over any number of caches, a returned
   page answers the key that was asked, and its load began after every bump that had landed
   when the call read the generation, however late slower loads stored their pages.
   */
  lemma NeverStale(es: seq<Step>, i: nat, k: nat)
    ensures var s := Run(Start(), es);
      i < |s.calls| && s.calls[i].pc.Returned? ==>
        && s.calls[i].pc.page.key == s.calls[i].key
        && (k < |s.bumps| && s.bumps[k] <= s.calls[i].readAt ==> s.bumps[k] < s.calls[i].pc.page.startedAt)
  {
    RunKeeps(Start(), es);
    var s := Run(Start(), es);
    assert i < |s.calls| ==> CallOk(s.bumps, s.clock, s.calls[i]);
  }

  /** No cache ever holds more than 64 pages, nor two for one key. */
  lemma SixtyFourPages(es: seq<Step>, c: nat)
    ensures var s := Run(Start(), es);
      c < |s.caches| ==> |s.caches[c]| <= 64 && InUseOrder(s.caches[c], s.clock)
  {
    RunKeeps(Start(), es);
    var s := Run(Start(), es);
    assert c < |s.caches| ==> CacheOk(s.bumps, s.clock, s.caches[c]);
  }

  // ------------------------------------------------------------------ what a step does

  predicate OnlyCall(s: Sys, t: Sys, i: nat, pc: Pc) {
    && i < |s.calls| && t.calls == s.calls[i := s.calls[i].(pc := pc)] && t.bumps == s.bumps
    && |t.caches| == |s.caches|
  }

  /** The generation read is the number of bumps that have landed, or nothing. */
  lemma ReadAnswers(s: Sys, i: nat, available: bool)
    requires i < |s.calls| && s.calls[i].pc.Asked?
    ensures var t := Do(s, ReadGeneration(i, available));
      && t.caches == s.caches && t.bumps == s.bumps && |t.calls| == |s.calls|
      && t.calls[i] == Call(s.calls[i].cache, s.calls[i].key, s.clock,
                            Read(if available then Some(|s.bumps|) else None))
  {
  }

  /** An entry of the same key and generation is answered without a load and becomes the newest. */
  lemma HitAnswers(s: Sys, i: nat, g: nat, k: nat)
    requires i < |s.calls| && s.calls[i].pc == Read(Some(g)) && s.calls[i].cache < |s.caches|
    requires Inv(s) && k < |s.caches[s.calls[i].cache]| && s.caches[s.calls[i].cache][k].key == s.calls[i].key
    ensures var t := Do(s, Lookup(i)); var entries := s.caches[s.calls[i].cache]; var e := entries[k];
      && (e.generation == g ==>
            && OnlyCall(s, t, i, Returned(e.page))
            && t.caches == s.caches[s.calls[i].cache := Without(entries, e.key) + [e.(usedAt := s.clock)]])
      && (e.generation != g ==> OnlyCall(s, t, i, Loading(Some(g), s.clock)) && t.caches == s.caches)
  {
    var entries := s.caches[s.calls[i].cache];
    assert CacheOk(s.bumps, s.clock, entries);
    FindIs(entries, k, s.clock);
  }

  /** A list with distinct keys finds the entry that has the key. */
  lemma {:induction false} FindIs(entries: seq<Entry>, k: nat, clock: nat)
    requires InUseOrder(entries, clock) && k < |entries|
    ensures Find(entries, entries[k].key) == Some(entries[k])
    decreases |entries|
  {
    if k > 0 {
      assert entries[0].key != entries[k].key && entries[1..][k - 1] == entries[k];
      FindIs(entries[1..], k - 1, clock);
    }
  }

  /** Without such an entry the load starts now; without a generation the cache is emptied first. */
  lemma MissAnswers(s: Sys, i: nat)
    requires i < |s.calls| && s.calls[i].pc.Read? && s.calls[i].cache < |s.caches|
    ensures var t := Do(s, Lookup(i)); var c := s.calls[i];
      && (c.pc.generation.None? ==>
            OnlyCall(s, t, i, Loading(None, s.clock)) && t.caches == s.caches[c.cache := []])
      && (c.pc.generation.Some? && (forall e :: e in s.caches[c.cache] ==> e.key != c.key) ==>
            OnlyCall(s, t, i, Loading(c.pc.generation, s.clock)) && t.caches == s.caches)
  {
  }

  /** A finished load is returned, and stored under the generation that was read, if any. */
  lemma LoadAnswers(s: Sys, i: nat)
    requires i < |s.calls| && s.calls[i].pc.Loading? && s.calls[i].cache < |s.caches|
    ensures var t := Do(s, LoadDone(i)); var c := s.calls[i]; var page := Page(c.key, c.pc.startedAt);
      && OnlyCall(s, t, i, Returned(page))
      && (c.pc.generation.None? ==> t.caches == s.caches)
      && (c.pc.generation.Some? ==>
            t.caches == s.caches[c.cache := Remember(s.caches[c.cache],
                                                     Entry(c.key, c.pc.generation.value, page, s.clock))])
  {
  }

  /** A failed load fails its call alone, and a bump empties its own cache before it lands. */
  lemma OtherStepsAnswer(s: Sys, i: nat, c: nat, key: nat)
    ensures i < |s.calls| && s.calls[i].pc.Loading? ==>
      OnlyCall(s, Do(s, LoadFailed(i)), i, Failed) && Do(s, LoadFailed(i)).caches == s.caches
    ensures c < |s.caches| ==>
      Do(s, ClearForBump(c)).caches == s.caches[c := []] && Do(s, ClearForBump(c)).bumps == s.bumps
    ensures Do(s, BumpLands).bumps == s.bumps + [s.clock] && Do(s, BumpLands).caches == s.caches
    ensures Do(s, NewCache).caches == s.caches + [[]] && Do(s, NewCache).calls == s.calls
    ensures Do(s, Ask(c, key)).calls == s.calls + [Call(c, key, 0, Asked)] && Do(s, Ask(c, key)).caches == s.caches
  {
  }

  // ---------------------------------------------------------------------- the class

  method DeleteFrom(entries: seq<Entry>, key: nat) returns (kept: seq<Entry>)
    ensures kept == Without(entries, key)
  {
    kept := [];
    var i := |entries|;
    while i > 0
      invariant 0 <= i <= |entries| && kept == Without(entries[i..], key)
      decreases i
    {
      i := i - 1;
      assert entries[i..][1..] == entries[i + 1..];
      kept := (if entries[i].key == key then [] else [entries[i]]) + kept;
    }
  }

  class PageCache {
    var entries: seq<Entry>

    constructor ()
      ensures entries == []
    {
      entries := [];
    }

    method Clear()
      modifies this
      ensures entries == []
    {
      entries := [];
    }

    method Delete(key: nat)
      modifies this
      ensures entries == Without(old(entries), key)
    {
      entries := DeleteFrom(entries, key);
    }

    /** The part of `load` after the generation is known: the page, or nothing to load it. */
    method Lookup(key: nat, generation: Option<nat>, now: nat) returns (page: Option<Page>)
      modifies this
      ensures generation.None? ==> entries == [] && page.None?
      ensures generation.Some? && Hits(old(entries), key, generation.value) ==>
        var hit := Find(old(entries), key).value;
        page == Some(hit.page) && entries == Put(old(entries), hit.(usedAt := now))
      ensures generation.Some? && !Hits(old(entries), key, generation.value) ==>
        page.None? && entries == old(entries)
    {
      if generation.None? {
        entries := [];
        return None;
      }
      var hit := Find(entries, key);
      if hit.Some? && hit.value.generation == generation.value {
        Delete(key);
        entries := entries + [hit.value.(usedAt := now)];
        return Some(hit.value.page);
      }
      page := None;
    }

    method Store(key: nat, generation: nat, page: Page, now: nat)
      modifies this
      ensures entries == Remember(old(entries), Entry(key, generation, page, now))
    {
      Delete(key);
      entries := entries + [Entry(key, generation, page, now)];
      ghost var put := entries;
      while |entries| > MaxPages
        invariant |entries| <= |put| && entries == put[|put| - |entries|..]
        invariant |entries| >= MaxPages || entries == put
        decreases |entries|
      {
        entries := entries[1..];
      }
    }
  }
}
