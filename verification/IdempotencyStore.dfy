/**
 The local idempotency entries (client_socket_event_idempotency_store.ts): a map in insertion
 order with an expiry per key, pruned through the expiration heap and bounded by evicting the
 oldest insertion.
 */
module IdempotencyStore {
  import opened Options
  import opened ExpirationHeap

  /** The fingerprint and response that were stored, and when they lapse. */
  datatype Entry = Entry(body: nat, expiresAt: int)

  /** `order` is the map's iteration order. */
  datatype Table = Table(order: seq<nat>, entries: map<nat, Entry>)

  predicate Distinct(order: seq<nat>) {
    forall i, j :: 0 <= i < j < |order| ==> order[i] != order[j]
  }

  ghost predicate Lists(order: seq<nat>, entries: map<nat, Entry>) {
    forall k :: k in order <==> k in entries
  }

  ghost predicate OrderOk(t: Table) {
    Lists(t.order, t.entries) && Distinct(t.order)
  }

  function Keep(order: seq<nat>, keys: set<nat>): (r: seq<nat>)
    ensures forall k :: k in r <==> k in order && k in keys
    ensures |r| <= |order|
    decreases |order|
  {
    if order == [] then []
    else (if order[0] in keys then [order[0]] else []) + Keep(order[1..], keys)
  }

  function Drop(t: Table, key: nat): Table {
    Table(Keep(t.order, t.entries.Keys - {key}), t.entries - {key})
  }

  function LiveKeys(entries: map<nat, Entry>, now: int): set<nat> {
    set k | k in entries && entries[k].expiresAt > now
  }

  function LiveEntries(entries: map<nat, Entry>, now: int): map<nat, Entry> {
    map k | k in entries && entries[k].expiresAt > now :: entries[k]
  }

  /** What is left when every lapsed entry is gone. */
  function Live(t: Table, now: int): Table {
    Table(Keep(t.order, LiveKeys(t.entries, now)), LiveEntries(t.entries, now))
  }

  /** The oldest insertions go until there is room for one more. */
  function MakeRoom(t: Table, max: int): Table
    decreases |t.order|
  {
    if |t.order| >= max && t.order != [] && |Drop(t, t.order[0]).order| < |t.order|
    then MakeRoom(Drop(t, t.order[0]), max) else t
  }

  /** How many of n insertions go to make room for one more. */
  function Evictions(n: nat, max: int): (r: nat)
    ensures r <= n
  {
    if n < max then 0 else if max > 0 then n - max + 1 else n
  }

  /** A known key keeps its place in the order. */
  function Insert(t: Table, key: nat, e: Entry): Table {
    Table(if key in t.entries then t.order else t.order + [key], t.entries[key := e])
  }

  function SetEntry(t: Table, key: nat, body: nat, now: int, ttl: nat, max: int): Table {
    if ttl == 0 then t
    else Insert(MakeRoom(Live(t, now), max), key, Entry(body, now + ttl))
  }

  function Lookup(t: Table, key: nat, now: int): Option<nat> {
    if key in t.entries && t.entries[key].expiresAt > now then Some(t.entries[key].body) else None
  }

  function Expiries(entries: map<nat, Entry>): map<nat, int> {
    map k | k in entries :: entries[k].expiresAt
  }

  // ---------------------------------------------------------------------- order lemmas

  lemma {:induction false} KeepKeepsOrder(order: seq<nat>, keys: set<nat>)
    requires Distinct(order)
    ensures Distinct(Keep(order, keys))
    decreases |order|
  {
    if order != [] {
      var rest := Keep(order[1..], keys);
      KeepKeepsOrder(order[1..], keys);
      assert order[0] !in order[1..];
      PrependDistinct(order[0], rest);
    }
  }

  lemma PrependDistinct(k: nat, rest: seq<nat>)
    requires Distinct(rest) && k !in rest
    ensures Distinct([k] + rest)
  {
  }

  lemma {:induction false} KeepTwice(order: seq<nat>, a: set<nat>, b: set<nat>)
    ensures Keep(Keep(order, a), b) == Keep(order, a * b)
    decreases |order|
  {
    if order != [] {
      KeepTwice(order[1..], a, b);
      var rest := Keep(order[1..], a);
      if order[0] in a {
        assert Keep(order, a)[1..] == rest;
      } else {
        assert Keep(order, a) == rest;
      }
    }
  }

  lemma {:induction false} KeepAll(order: seq<nat>, keys: set<nat>)
    requires forall k :: k in order ==> k in keys
    ensures Keep(order, keys) == order
    decreases |order|
  {
    if order != [] {
      KeepAll(order[1..], keys);
    }
  }

  lemma {:induction false} KeepShorter(order: seq<nat>, keys: set<nat>, key: nat)
    requires key in order && key !in keys
    ensures |Keep(order, keys)| < |order|
    decreases |order|
  {
    if order[0] != key {
      KeepShorter(order[1..], keys, key);
    }
  }

  lemma DropKeeps(t: Table, key: nat)
    requires OrderOk(t)
    ensures OrderOk(Drop(t, key)) && Expiries(Drop(t, key).entries) == Expiries(t.entries) - {key}
    ensures key in t.entries ==> |Drop(t, key).order| < |t.order|
  {
    var keys := t.entries.Keys - {key};
    assert Lists(Keep(t.order, keys), t.entries - {key});
    KeepKeepsOrder(t.order, keys);
    if key in t.entries {
      KeepShorter(t.order, keys, key);
    }
    ExpiriesWithout(t.entries, key);
  }

  lemma ExpiriesWithout(entries: map<nat, Entry>, key: nat)
    ensures Expiries(entries - {key}) == Expiries(entries) - {key}
  {
  }

  /** Dropping a lapsed entry does not change what is live. */
  lemma DropLapsed(t: Table, key: nat, now: int)
    requires OrderOk(t) && key in t.entries && t.entries[key].expiresAt <= now
    ensures Live(Drop(t, key), now) == Live(t, now)
  {
    var rest := t.entries - {key};
    SameLive(t.entries, key, now);
    KeepTwice(t.order, t.entries.Keys - {key}, LiveKeys(rest, now));
  }

  lemma SameLive(entries: map<nat, Entry>, key: nat, now: int)
    requires key in entries && entries[key].expiresAt <= now
    ensures (entries.Keys - {key}) * LiveKeys(entries - {key}, now) == LiveKeys(entries, now)
    ensures LiveEntries(entries - {key}, now) == LiveEntries(entries, now)
  {
  }

  lemma AllLive(t: Table, now: int)
    requires OrderOk(t) && forall k :: k in t.entries ==> t.entries[k].expiresAt > now
    ensures Live(t, now) == t
  {
    KeepAll(t.order, LiveKeys(t.entries, now));
  }

  lemma LiveKeeps(t: Table, now: int)
    requires OrderOk(t)
    ensures OrderOk(Live(t, now)) && |Live(t, now).order| <= |t.order|
  {
    assert Lists(Keep(t.order, LiveKeys(t.entries, now)), LiveEntries(t.entries, now));
    KeepKeepsOrder(t.order, LiveKeys(t.entries, now));
  }

  /** Eviction keeps a suffix of the insertion order, unchanged, with room for one. */
  lemma {:induction false} MakeRoomKeepsSuffix(t: Table, max: int)
    requires OrderOk(t)
    ensures var r := MakeRoom(t, max);
      && OrderOk(r) && (max > 0 ==> |r.order| < max) && Trimmed(r, t)
      && |r.order| == |t.order| - Evictions(|t.order|, max)
    decreases |t.order|
  {
    if t.order != [] && |t.order| >= max {
      var d := Drop(t, t.order[0]);
      DropKeeps(t, t.order[0]);
      DropFirst(t);
      MakeRoomKeepsSuffix(d, max);
      TrimmedTwice(MakeRoom(d, max), d, t);
    }
  }

  /** A suffix of the order with the same entries. */
  ghost predicate Trimmed(r: Table, t: Table) {
    |r.order| <= |t.order| && r.order == t.order[|t.order| - |r.order|..] && Within(r.entries, t.entries)
  }

  lemma TrimmedTwice(r: Table, d: Table, t: Table)
    requires t.order != [] && d.order == t.order[1..] && Within(d.entries, t.entries) && Trimmed(r, d)
    ensures Trimmed(r, t)
  {
  }

  lemma DropFirst(t: Table)
    requires OrderOk(t) && t.order != []
    ensures Drop(t, t.order[0]).order == t.order[1..]
  {
    var keys := t.entries.Keys - {t.order[0]};
    forall k | k in t.order[1..]
      ensures k in keys
    {
      assert k in t.order;
    }
    KeepAll(t.order[1..], keys);
  }

  ghost predicate Within(part: map<nat, Entry>, whole: map<nat, Entry>) {
    forall k :: k in part ==> k in whole && part[k] == whole[k]
  }

  // -------------------------------------------------------------------- the results

  lemma InsertKeepsOrder(t: Table, key: nat, e: Entry)
    requires OrderOk(t)
    ensures OrderOk(Insert(t, key, e)) && Expiries(Insert(t, key, e).entries) == Expiries(t.entries)[key := e.expiresAt]
  {
    var r := Insert(t, key, e);
    AppendDistinct(t.order, key);
    assert Lists(r.order, r.entries);
  }

  lemma AppendDistinct(order: seq<nat>, k: nat)
    requires Distinct(order)
    ensures k !in order ==> Distinct(order + [k])
  {
  }

  /** A stored entry is found until it lapses and not a moment longer. */
  lemma SetThenGet(t: Table, key: nat, body: nat, now: int, ttl: nat, max: int, later: int)
    requires ttl > 0
    ensures Lookup(SetEntry(t, key, body, now, ttl, max), key, later) ==
      if later < now + ttl then Some(body) else None
  {
  }

  /** The store never holds more than a positive maximum. */
  lemma NeverOverCapacity(t: Table, key: nat, body: nat, now: int, ttl: nat, max: int)
    requires OrderOk(t) && max > 0 && |t.order| <= max
    ensures |SetEntry(t, key, body, now, ttl, max).order| <= max
  {
    LiveKeeps(t, now);
    MakeRoomKeepsSuffix(Live(t, now), max);
  }

  /**
   Exactly which other keys a store costs: the oldest live insertions, as many as are needed to
   make room. Every other key answers as before.
   */
  lemma OthersEvictedIff(t: Table, key: nat, other: nat, body: nat, now: int, ttl: nat, max: int, later: int)
    requires OrderOk(t) && other != key && now <= later
    ensures var live := Live(t, now);
      Lookup(SetEntry(t, key, body, now, ttl, max), other, later) ==
        if ttl > 0 && other in live.order[..Evictions(|live.order|, max)] then None else Lookup(t, other, later)
  {
    var live := Live(t, now);
    LiveKeeps(t, now);
    assert Lookup(live, other, later) == Lookup(t, other, later);
    EvictedAreOldest(live, other, max);
  }

  lemma EvictedAreOldest(live: Table, other: nat, max: int)
    requires OrderOk(live)
    ensures var room := MakeRoom(live, max);
      && Within(room.entries, live.entries)
      && (other in room.entries <==>
            other in live.entries && other !in live.order[..Evictions(|live.order|, max)])
  {
    MakeRoomKeepsSuffix(live, max);
    InSuffixIff(live.order, Evictions(|live.order|, max), other);
  }

  /** In a list without repetition what stands behind a cut is what does not stand before it. */
  lemma InSuffixIff(order: seq<nat>, n: nat, x: nat)
    requires Distinct(order) && n <= |order|
    ensures x in order[n..] <==> x in order && x !in order[..n]
  {
    if x in order {
      var i :| 0 <= i < |order| && order[i] == x;
      if i < n {
        assert order[..n][i] == x;
        assert forall k :: n <= k < |order| ==> order[k] != x;
      } else {
        assert order[n..][i - n] == x;
        assert forall k :: 0 <= k < n ==> order[k] != x;
      }
    }
  }

  // ---------------------------------------------------------------------- the class

  class Store {
    var order: seq<nat>
    var entries: map<nat, Entry>
    const expirations: Heap

    function Value(): Table
      reads this
    {
      Table(order, entries)
    }

    /** The heap schedules exactly the entries. */
    ghost predicate Valid()
      reads this, expirations
    {
      expirations.Valid() && OrderOk(Value()) && expirations.Map() == Expiries(entries)
    }

    constructor ()
      ensures Valid() && Value() == Table([], map[]) && fresh(expirations)
    {
      order, entries := [], map[];
      expirations := new Heap();
    }

    /** Both the map entry and its heap node. */
    method DeleteBoth(key: nat)
      requires Valid()
      modifies this, expirations
      ensures Valid() && Value() == Drop(old(Value()), key)
    {
      DropKeeps(Value(), key);
      order, entries := Keep(order, entries.Keys - {key}), entries - {key};
      expirations.Delete(key);
    }

    method Get(key: nat, now: int) returns (body: Option<nat>)
      requires Valid()
      modifies this, expirations
      ensures Valid() && body == Lookup(old(Value()), key, now)
      ensures Value() == if key in old(entries) && body.None? then Drop(old(Value()), key) else old(Value())
    {
      if key !in entries { return None; }
      if entries[key].expiresAt <= now {
        DeleteBoth(key);
        return None;
      }
      body := Some(entries[key].body);
    }

    /** One due key off the heap and out of the map, if there is one. */
    method DropDue(now: int) returns (key: Option<nat>)
      requires Valid()
      modifies this, expirations
      ensures Valid()
      ensures key.None? ==> Value() == old(Value()) && forall k :: k in entries ==> entries[k].expiresAt > now
      ensures key.Some? ==>
        && key.value in old(entries) && old(entries)[key.value].expiresAt <= now
        && Value() == Drop(old(Value()), key.value)
    {
      ghost var before := expirations.Map();
      key := expirations.TakeExpired(now);
      assert forall k :: k in entries ==> before[k] == entries[k].expiresAt;
      if key.Some? {
        DropKeeps(Value(), key.value);
        order, entries := Keep(order, entries.Keys - {key.value}), entries - {key.value};
      }
    }

    /** Takes expired keys off the heap until none is due. */
    method Prune(now: int) returns (removed: nat)
      requires Valid()
      modifies this, expirations
      ensures Valid() && Value() == Live(old(Value()), now) && removed == |old(entries)| - |entries|
    {
      removed := 0;
      ghost var last := Value();
      var key := DropDue(now);
      while key.Some?
        invariant Valid() && OrderOk(last) && Live(last, now) == Live(old(Value()), now)
        invariant removed + |last.entries| == |old(entries)|
        invariant key.None? ==> Value() == last && forall k :: k in entries ==> entries[k].expiresAt > now
        invariant key.Some? ==>
          key.value in last.entries && last.entries[key.value].expiresAt <= now && Value() == Drop(last, key.value)
        decreases |last.order|, key.Some?
      {
        DropLapsed(last, key.value, now);
        DropKeeps(last, key.value);
        assert entries.Keys == last.entries.Keys - {key.value};
        last := Value();
        removed := removed + 1;
        key := DropDue(now);
      }
      AllLive(Value(), now);
    }

    method EvictOldest(max: int)
      requires Valid()
      modifies this, expirations
      ensures Valid() && Value() == MakeRoom(old(Value()), max)
    {
      while |order| >= max && order != []
        invariant Valid() && MakeRoom(Value(), max) == MakeRoom(old(Value()), max)
        decreases |order|
      {
        DropKeeps(Value(), order[0]);
        DeleteBoth(order[0]);
      }
    }

    method Set(key: nat, body: nat, now: int, ttl: nat, max: int)
      requires Valid()
      modifies this, expirations
      ensures Valid() && Value() == SetEntry(old(Value()), key, body, now, ttl, max)
    {
      if ttl == 0 { return; }
      var _ := Prune(now);
      EvictOldest(max);
      Put(key, Entry(body, now + ttl));
    }

    method Put(key: nat, e: Entry)
      requires Valid()
      modifies this, expirations
      ensures Valid() && Value() == Insert(old(Value()), key, e)
    {
      InsertKeepsOrder(Value(), key, e);
      expirations.Set(key, e.expiresAt);
      order := if key in entries then order else order + [key];
      entries := entries[key := e];
    }
  }
}
