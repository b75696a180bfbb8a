/**
 `refreshListItems` in agent_snapshot_refresher.ts: workers that share one index over the online
 items, each refresh awaited, an abort signal at any time, and refreshes that may reject.
 */
module ListRefresh {

  /** A list item: its agent (id and snapshot) and everything else it carries. */
  datatype Item = Item(id: nat, agent: nat, rest: nat)

  datatype Worker = Ready | Busy(index: nat) | Stopped

  /** `claims[k]` is the index taken by the k-th claim; `results` what each refresh answered. */
  datatype Sys = Sys(candidates: seq<Item>, next: nat, workers: seq<Worker>, claims: seq<nat>,
                     refreshed: map<nat, nat>, results: set<(nat, nat)>, aborted: bool, failed: bool)

  datatype Step =
    | Turn(w: nat)
    | Answer(w: nat, agent: nat)
    | Rejects(w: nat)
    | Abort

  /** Zero means one worker per item. */
  function WorkerCount(concurrency: nat, items: nat): (n: nat)
    ensures items > 0 ==> 0 < n <= items
    ensures items == 0 ==> n == 0
    ensures concurrency > 0 ==> n <= concurrency
  {
    if items == 0 then 0
    else if concurrency == 0 then items
    else if concurrency < items then concurrency else items
  }

  function Online(items: seq<Item>, online: set<nat>): (r: seq<Item>)
    ensures forall x :: x in r <==> x in items && x.id in online
    decreases |items|
  {
    if items == [] then []
    else (if items[0].id in online then [items[0]] else []) + Online(items[1..], online)
  }

  function Begin(items: seq<Item>, online: set<nat>, concurrency: nat): Sys {
    var candidates := Online(items, online);
    Sys(candidates, 0, seq(WorkerCount(concurrency, |candidates|), _ => Ready), [], map[], {}, false, false)
  }

  function SetWorker(s: Sys, w: nat, worker: Worker): Sys
    requires w < |s.workers|
  {
    s.(workers := s.workers[w := worker])
  }

  /** The loop head: claim the next index, or stop. */
  function DoTurn(s: Sys, w: nat): Sys {
    if w >= |s.workers| || !s.workers[w].Ready? then s
    else if s.next < |s.candidates| && !s.aborted then
      SetWorker(s, w, Busy(s.next)).(next := s.next + 1, claims := s.claims + [s.next])
    else SetWorker(s, w, Stopped)
  }

  function DoAnswer(s: Sys, w: nat, agent: nat): Sys {
    if w >= |s.workers| || !s.workers[w].Busy? || s.workers[w].index >= |s.candidates| then s else
    var id := s.candidates[s.workers[w].index].id;
    SetWorker(s, w, Ready).(refreshed := s.refreshed[id := agent], results := s.results + {(id, agent)})
  }

  function Do(s: Sys, e: Step): Sys {
    match e
    case Turn(w) => DoTurn(s, w)
    case Answer(w, agent) => DoAnswer(s, w, agent)
    case Rejects(w) =>
      if w < |s.workers| && s.workers[w].Busy? then SetWorker(s, w, Stopped).(failed := true) else s
    case Abort => s.(aborted := true)
  }

  function Run(s: Sys, es: seq<Step>): Sys
    decreases |es|
  {
    if es == [] then s else Run(Do(s, es[0]), es[1..])
  }

  function Merged(item: Item, refreshed: map<nat, nat>): Item {
    item.(agent := if item.id in refreshed then refreshed[item.id] else item.agent)
  }

  function Output(items: seq<Item>, refreshed: map<nat, nat>): seq<Item> {
    seq(|items|, i requires 0 <= i < |items| => Merged(items[i], refreshed))
  }

  // ------------------------------------------------------------------- the invariant

  predicate ClaimsInOrder(claims: seq<nat>, next: nat) {
    |claims| == next && forall k :: 0 <= k < next ==> claims[k] == k
  }

  /** Busy workers hold different claimed indices. */
  predicate WorkersOk(workers: seq<Worker>, next: nat) {
    && (forall w :: 0 <= w < |workers| && workers[w].Busy? ==> workers[w].index < next)
    && (forall v, w :: 0 <= v < w < |workers| && workers[v].Busy? && workers[w].Busy? ==>
          workers[v].index != workers[w].index)
  }

  ghost predicate HeldBy(workers: seq<Worker>, k: nat) {
    exists w :: 0 <= w < |workers| && workers[w] == Busy(k)
  }

  /** Unless some refresh rejected, a claimed item is in work or answered. */
  ghost predicate NoneLost(s: Sys) {
    forall k :: 0 <= k < s.next && k < |s.candidates| ==>
      s.failed || HeldBy(s.workers, k) || s.candidates[k].id in s.refreshed
  }

  predicate StopsOk(s: Sys) {
    forall w :: 0 <= w < |s.workers| && s.workers[w].Stopped? ==>
      s.next == |s.candidates| || s.aborted || s.failed
  }

  predicate AnswersOk(refreshed: map<nat, nat>, results: set<(nat, nat)>) {
    forall id :: id in refreshed ==> (id, refreshed[id]) in results
  }

  ghost predicate ResultsOk(candidates: seq<Item>, results: set<(nat, nat)>) {
    forall r :: r in results ==> exists k :: 0 <= k < |candidates| && candidates[k].id == r.0
  }

  ghost predicate Inv(s: Sys) {
    && s.next <= |s.candidates| && ClaimsInOrder(s.claims, s.next)
    && WorkersOk(s.workers, s.next)
    && NoneLost(s)
    && StopsOk(s)
    && AnswersOk(s.refreshed, s.results)
    && ResultsOk(s.candidates, s.results)
  }

  lemma StillHeld(before: seq<Worker>, after: seq<Worker>, w: nat, k: nat)
    requires |after| == |before| && HeldBy(before, k)
    requires forall v :: 0 <= v < |before| && v != w ==> after[v] == before[v]
    requires w < |before| ==> before[w] != Busy(k)
    ensures HeldBy(after, k)
  {
  }

  lemma TurnKeeps(s: Sys, w: nat)
    requires Inv(s)
    ensures Inv(DoTurn(s, w))
  {
    var t := DoTurn(s, w);
    if w < |s.workers| && s.workers[w].Ready? {
      forall k | 0 <= k < t.next
        ensures t.failed || HeldBy(t.workers, k) || t.candidates[k].id in t.refreshed
      {
        if k == s.next {
          assert t.workers[w] == Busy(k);
        } else if HeldBy(s.workers, k) {
          StillHeld(s.workers, t.workers, w, k);
        }
      }
    }
  }

  lemma AnswerKeeps(s: Sys, w: nat, agent: nat)
    requires Inv(s)
    ensures Inv(DoAnswer(s, w, agent))
  {
    var t := DoAnswer(s, w, agent);
    if w < |s.workers| && s.workers[w].Busy? {
      var i := s.workers[w].index;
      forall k | 0 <= k < t.next
        ensures t.failed || HeldBy(t.workers, k) || t.candidates[k].id in t.refreshed
      {
        if k != i && HeldBy(s.workers, k) {
          StillHeld(s.workers, t.workers, w, k);
        }
      }
    }
  }

  lemma DoKeeps(s: Sys, e: Step)
    requires Inv(s)
    ensures Inv(Do(s, e)) && Do(s, e).candidates == s.candidates && |Do(s, e).workers| == |s.workers|
  {
    match e
    case Turn(w) => TurnKeeps(s, w);
    case Answer(w, agent) => AnswerKeeps(s, w, agent);
    case Rejects(w) =>
    case Abort =>
  }

  lemma {:induction false} RunKeeps(s: Sys, es: seq<Step>)
    requires Inv(s)
    ensures Inv(Run(s, es)) && Run(s, es).candidates == s.candidates && |Run(s, es).workers| == |s.workers|
    decreases |es|
  {
    if es != [] {
      DoKeeps(s, es[0]);
      RunKeeps(Do(s, es[0]), es[1..]);
    }
  }

  // ------------------------------------------------------------------ what a step does

  /** At the loop head a worker takes the next candidate, or stops when there is none or on an abort. */
  lemma TurnAnswers(s: Sys, w: nat)
    requires w < |s.workers| && s.workers[w].Ready?
    ensures var t := Do(s, Turn(w)); var more := s.next < |s.candidates| && !s.aborted;
      && |t.workers| == |s.workers| && t.refreshed == s.refreshed && t.results == s.results
      && t.workers[w] == (if more then Busy(s.next) else Stopped)
      && t.next == (if more then s.next + 1 else s.next)
      && t.claims == (if more then s.claims + [s.next] else s.claims)
      && forall v :: 0 <= v < |s.workers| && v != w ==> t.workers[v] == s.workers[v]
  {
  }

  /** A refresh that rejects stops its worker and fails the call; an abort is remembered for every worker. */
  lemma EndingsAnswer(s: Sys, w: nat)
    ensures Do(s, Abort) == s.(aborted := true)
    ensures w < |s.workers| && s.workers[w].Busy? ==>
      var t := Do(s, Rejects(w));
      && t.failed && t.workers == s.workers[w := Stopped] && t.claims == s.claims && t.next == s.next
      && t.refreshed == s.refreshed && t.aborted == s.aborted
  {
  }

  /** An answer is kept under the candidate's id and the worker goes back to the loop head. */
  lemma AnswerIsKept(s: Sys, w: nat, agent: nat)
    requires w < |s.workers| && s.workers[w].Busy? && s.workers[w].index < |s.candidates|
    ensures var t := Do(s, Answer(w, agent)); var id := s.candidates[s.workers[w].index].id;
      && |t.workers| == |s.workers| && t.workers[w] == Ready && t.next == s.next && t.claims == s.claims
      && t.refreshed == s.refreshed[id := agent] && t.results == s.results + {(id, agent)}
      && forall v :: 0 <= v < |s.workers| && v != w ==> t.workers[v] == s.workers[v]
  {
  }

  /** The list that comes back: each item with the answer for its id, or as it was. */
  lemma OutputIs(items: seq<Item>, refreshed: map<nat, nat>, i: nat)
    requires i < |items|
    ensures var list := Output(items, refreshed);
      && |list| == |items| && list[i].id == items[i].id && list[i].rest == items[i].rest
      && list[i].agent == if items[i].id in refreshed then refreshed[items[i].id] else items[i].agent
  {
  }

  /** Every worker that is not done can take its step, so no pool gets stuck. */
  lemma NoWorkerStuck(s: Sys, w: nat, agent: nat)
    requires Inv(s) && w < |s.workers| && !s.workers[w].Stopped?
    ensures Do(s, if s.workers[w].Ready? then Turn(w) else Answer(w, agent)).workers[w] != s.workers[w]
  {
    assert s.workers[w].Busy? ==> s.workers[w].index < s.next;
  }

  // -------------------------------------------------------------------- the results

  ghost predicate AllStopped(s: Sys) {
    forall w :: 0 <= w < |s.workers| ==> s.workers[w].Stopped?
  }

  /** Under any worker interleaving no candidate is claimed twice, and claims go in order. */
  lemma ClaimedAtMostOnce(items: seq<Item>, online: set<nat>, concurrency: nat, es: seq<Step>, i: nat, j: nat)
    ensures var s := Run(Begin(items, online, concurrency), es);
      && |s.claims| <= |s.candidates|
      && (i < j < |s.claims| ==> s.claims[i] < s.claims[j] < |s.candidates|)
  {
    RunKeeps(Begin(items, online, concurrency), es);
  }

  /** Without an abort or a rejection, a finished pool has claimed and answered every candidate. */
  lemma ClaimedExactlyOnce(items: seq<Item>, online: set<nat>, concurrency: nat, es: seq<Step>)
    ensures var s := Run(Begin(items, online, concurrency), es);
      AllStopped(s) && !s.aborted && !s.failed ==>
        && |s.claims| == |s.candidates| && (forall k :: 0 <= k < |s.claims| ==> s.claims[k] == k)
        && (forall x :: x in items && x.id in online ==> x.id in s.refreshed)
        && (forall i :: 0 <= i < |items| && items[i].id in online ==>
              (items[i].id, Output(items, s.refreshed)[i].agent) in s.results)
  {
    RunKeeps(Begin(items, online, concurrency), es);
    var s := Run(Begin(items, online, concurrency), es);
    if AllStopped(s) && !s.aborted && !s.failed {
      assert |s.candidates| > 0 ==> s.workers[0].Stopped?;
      forall x | x in items && x.id in online
        ensures x.id in s.refreshed
      {
        var k :| 0 <= k < |s.candidates| && s.candidates[k] == x;
        assert !HeldBy(s.workers, k);
      }
    }
  }

  /**
   The list that comes back, whatever happened: same length and order, every field but the
   agent kept, the agent either kept or one that a refresh of that very agent id answered, and
   an item that was not online always kept.
   */
  lemma OutputKeepsTheList(items: seq<Item>, online: set<nat>, concurrency: nat, es: seq<Step>, i: nat)
    ensures var s := Run(Begin(items, online, concurrency), es); var list := Output(items, s.refreshed);
      && |list| == |items|
      && (i < |items| ==>
            && list[i].id == items[i].id && list[i].rest == items[i].rest
            && (list[i].agent == items[i].agent || (items[i].id, list[i].agent) in s.results)
            && (items[i].id !in online ==> list[i] == items[i]))
  {
    RunKeeps(Begin(items, online, concurrency), es);
    var s := Run(Begin(items, online, concurrency), es);
    if i < |items| && items[i].id in s.refreshed {
      var r := (items[i].id, s.refreshed[items[i].id]);
      assert r in s.results;
      var k :| 0 <= k < |s.candidates| && s.candidates[k].id == r.0;
      assert s.candidates[k] in s.candidates;
    }
  }
}
