/**
 What each event of the refresh scheduler must do, field by field, and what follows for its callers:
 a job is cancelled only for a cause, a queued job can always be started, and no drain is lost.
 */
module RefreshAnswers {
  import opened RefreshCoordinator

  // --------------------------------------------------------------------- admission

  // ----------------------------------------------------------------------- waiting

  /** A caller joins: one more waiter, one more interested, and nothing else. */
  lemma WaitAnswers(s: State, j: nat, c: nat)
    requires Inv(s) && j < |s.jobs|
    ensures var t := Apply(s, DoWait(j, c, false));
      && t.waiters == s.waiters + [Waiter(j, c, false, Waiting)]
      && t.jobs == s.jobs[j := s.jobs[j].(interested := s.jobs[j].interested + 1)]
      && t.queue == s.queue && t.active == s.active && t.started == s.started && t.scheduled == s.scheduled
  {
  }

  /** A caller whose signal is already aborted gets the fallback and leaves no waiter behind. */
  lemma AbortedWaitAnswers(s: State, j: nat, c: nat)
    requires Inv(s) && j < |s.jobs|
    ensures var t := Apply(s, DoWait(j, c, true));
      && |t.waiters| == |s.waiters| + 1 && t.waiters[..|s.waiters|] == s.waiters
      && t.waiters[|s.waiters|] == Waiter(j, c, true, Fallback) && t.jobs[j].interested == s.jobs[j].interested
      && (s.jobs[j].state.Queued? && s.jobs[j].interested == 0 ==> t.jobs[j].delivered == [Cancelled])
  {
    WaitKeeps(s, j, c, false);
    var u := Wait(s, j, c, false);
    assert u.waiters[..|s.waiters|] == s.waiters;
    LastAbortCancels(u, |s.waiters|);
    assert CountParked(u.waiters, j) == u.jobs[j].interested;
  }

  /** An abort answers the fallback once, to that waiter alone. */
  lemma AbortAnswers(s: State, w: nat)
    requires Inv(s) && w < |s.waiters|
    ensures var t := Apply(s, DoAbort(w));
      && (s.waiters[w].released ==> t == s)
      && (!s.waiters[w].released ==>
            && t.waiters == s.waiters[w := s.waiters[w].(released := true, reply := Fallback)]
            && t.cancellations == s.cancellations + 1
            && t.jobs[s.waiters[w].job].interested == s.jobs[s.waiters[w].job].interested - 1)
  {
  }

  /** A settled completion answers exactly the unreleased waiters of its group. */
  lemma {:induction false} GroupAnswers(s: State, j: nat, c: nat, reply: Reply, from: nat, w: nat)
    requires Inv(s) && j < |s.jobs| && !reply.Waiting? && w < |s.waiters|
    ensures var t := SettleGroup(s, j, c, reply, from);
      && |t.waiters| == |s.waiters|
      && t.waiters[w] == if from <= w && InGroup(s.waiters[w], j, c)
                         then s.waiters[w].(released := true, reply := reply) else s.waiters[w]
    decreases |s.waiters| - from
  {
    if from < |s.waiters| {
      if InGroup(s.waiters[from], j, c) {
        ReleaseKeeps(s, from, reply);
        GroupAnswers(Release(s, from, reply), j, c, reply, from + 1, w);
      } else {
        GroupAnswers(s, j, c, reply, from + 1, w);
      }
    }
  }

  lemma CompletionAnswers(s: State, j: nat, c: nat, ok: bool, w: nat)
    requires Inv(s) && j < |s.jobs| && w < |s.waiters|
    ensures var t := Apply(s, DoSettleGroup(j, c, ok)); var x := s.waiters[w];
      && |t.waiters| == |s.waiters|
      && t.waiters[w] == if x.job == j && x.completion == c && !x.released
                         then x.(released := true, reply := if ok then Value else Rejected) else x
  {
    GroupAnswers(s, j, c, if ok then Value else Rejected, 0, w);
  }

  // ----------------------------------------------------------------------- running

  predicate Began(s: State, t: State, j: nat) {
    && j < |s.jobs| == |t.jobs|
    && t.jobs[j] == if j in s.queue && j !in t.queue then s.jobs[j].(state := Active) else s.jobs[j]
  }

  lemma HeadBegan(s: State, t: State, j: nat)
    requires s.queue != [] && s.queue[0] < |s.jobs| && s.queue[0] !in s.queue[1..]
    requires Began(StartHead(s), t, j) && forall k :: k in t.queue ==> k in s.queue[1..]
    ensures Began(s, t, j)
  {
    assert j in s.queue <==> j == s.queue[0] || j in s.queue[1..];
  }

  lemma RestWasQueued(s: State, room: int)
    requires Core(s) && (s.limit > 0 ==> room <= s.limit - s.active)
    ensures forall k :: k in StartSome(s, room).queue ==> k in s.queue
  {
    StartSomeLog(s, room);
    RestIsSuffix(s.started, s.queue, StartSome(s, room).started, StartSome(s, room).queue);
  }

  /** The jobs that a pump takes from the queue become active; no other job changes. */
  lemma {:induction false} StartedJobs(s: State, room: int, j: nat)
    requires Core(s) && (s.limit > 0 ==> room <= s.limit - s.active) && j < |s.jobs|
    ensures Began(s, StartSome(s, room), j)
    decreases |s.queue|
  {
    if room > 0 && s.queue != [] {
      var h := StartHead(s);
      StartHeadKeeps(s);
      StartedJobs(h, room - 1, j);
      RestWasQueued(h, room - 1);
      HeadOnce(s.started, s.queue);
      HeadBegan(s, StartSome(h, room - 1), j);
    }
  }

  /** What is still queued was queued. */
  lemma RestIsSuffix(started: seq<nat>, queue: seq<nat>, log: seq<nat>, rest: seq<nat>)
    requires started <= log && log + rest == started + queue
    ensures forall k :: k in rest ==> k in queue
  {
    SplitLog(started, queue, log, rest);
    forall k | k in rest
      ensures k in queue
    {
      assert k in log[|started|..] + rest;
    }
  }

  /** A scheduled pump takes a prefix of the queue until the queue or the slots are used up. */
  lemma PumpAnswers(s: State, j: nat)
    requires Inv(s) && s.scheduled && j < |s.jobs|
    ensures var t := Apply(s, DoMicrotask);
      && !t.scheduled && s.started <= t.started && t.started[|s.started|..] + t.queue == s.queue
      && (t.queue == [] || (t.limit > 0 && t.active == t.limit))
      && |t.jobs| == |s.jobs|
      && t.jobs[j] == if j in s.queue && j !in t.queue then s.jobs[j].(state := Active) else s.jobs[j]
  {
    PumpIsWorkConserving(s);
    StartedJobs(s.(scheduled := false), Capacity(s), j);
    StartSomeLog(s.(scheduled := false), Capacity(s));
  }

  /** A running job is settled with the very outcome of its refresh, and its slot is free. */
  lemma ResultAnswers(s: State, j: nat, o: Outcome)
    requires Inv(s) && j < |s.jobs| && s.jobs[j].state.Active? && !o.Cancelled?
    ensures var t := Apply(s, DoBatchResult(j, o));
      && t.jobs == s.jobs[j := s.jobs[j].(state := Settled, delivered := [o])]
      && t.active == s.active - 1 && t.queue == s.queue && t.started == s.started && t.waiters == s.waiters
      && (s.admitting ==> t.scheduled)
      && (t.active == 0 ==> t.drained == s.drained + s.drains && t.drains == 0)
      && (t.active > 0 ==> t.drained == s.drained && t.drains == s.drains)
  {
    RemoveAbsent(s.queue, j);
    assert s.jobs[j].delivered == [] && s.jobs[j].delivered + [o] == [o];
  }

  // ---------------------------------------------------------------------- shutdown

  lemma {:induction false} CancelAllJobs(s: State, j: nat)
    requires Core(s) && QueuedOnly(s) && !s.admitting && (s.active == 0 ==> s.drains == 0) && j < |s.jobs|
    ensures var t := CancelAll(s);
      && |t.jobs| == |s.jobs|
      && t.cancellations == s.cancellations + |s.queue|
      && t.jobs[j] == if s.jobs[j].state.Queued? then s.jobs[j].(state := Settled, delivered := [Cancelled])
                      else s.jobs[j]
    decreases |s.queue|
  {
    if s.queue != [] {
      var s0 := s.(cancellations := s.cancellations + 1);
      CancelHeadKeeps(s);
      FinishFields(s0, s.queue[0], Cancelled);
      assert s.queue[0] in s.queue;
      assert s.jobs[s.queue[0]].delivered == [];
      HeadOnce(s.started, s.queue);
      RemoveAbsent(s.queue[1..], s.queue[0]);
      CancelAllJobs(CancelHead(s), j);
    }
  }

  /** Shutdown closes admission and cancels every queued job; running ones go on. */
  lemma ShutdownAnswers(s: State, j: nat)
    requires Inv(s) && j < |s.jobs|
    ensures var t := Apply(s, DoShutdown);
      && !t.admitting && t.queue == [] && t.active == s.active
      && t.cancellations == s.cancellations + |s.queue| && |t.jobs| == |s.jobs|
      && t.jobs[j] == if s.jobs[j].state.Queued? then s.jobs[j].(state := Settled, delivered := [Cancelled])
                      else s.jobs[j]
  {
    CancelAllKeeps(s.(admitting := false));
    CancelAllJobs(s.(admitting := false), j);
  }

  /** A shutdown with nothing submitted also closes admission. */
  lemma ShutdownCloses(s: State)
    requires Inv(s)
    ensures !Apply(s, DoShutdown).admitting && Apply(s, DoShutdown).queue == []
  {
    CancelAllKeeps(s.(admitting := false));
  }

  // ------------------------------------------------------------------------ drains

  lemma FinishDrains(s: State, j: nat, o: Outcome)
    requires j < |s.jobs|
    ensures Finish(s, j, o).drains + Finish(s, j, o).drained == s.drains + s.drained
  {
  }

  lemma {:induction false} CancelAllDrains(s: State)
    requires QueuedOnly(s)
    ensures CancelAll(s).drains + CancelAll(s).drained == s.drains + s.drained
    decreases |s.queue|
  {
    if s.queue != [] {
      FinishDrains(s.(cancellations := s.cancellations + 1), s.queue[0], Cancelled);
      CancelAllDrains(CancelHead(s));
    }
  }

  lemma {:induction false} SettleGroupDrains(s: State, j: nat, c: nat, reply: Reply, from: nat)
    requires Inv(s) && j < |s.jobs| && !reply.Waiting?
    ensures SettleGroup(s, j, c, reply, from).drains == s.drains
    ensures SettleGroup(s, j, c, reply, from).drained == s.drained
    decreases |s.waiters| - from
  {
    if from < |s.waiters| {
      if InGroup(s.waiters[from], j, c) {
        ReleaseKeeps(s, from, reply);
        SettleGroupDrains(Release(s, from, reply), j, c, reply, from + 1);
      } else {
        SettleGroupDrains(s, j, c, reply, from + 1);
      }
    }
  }

  /** No drain caller is lost: each is parked or let go, and let go at once if nothing runs. */
  lemma DrainsAreKept(s: State, e: Event)
    requires Inv(s)
    ensures var t := Apply(s, e);
      && t.drains + t.drained == s.drains + s.drained + (if e.DoDrain? then 1 else 0)
      && (t.active == 0 ==> t.drains == 0)
  {
    ApplyKeeps(s, e);
    match e
    case DoSubmit(a) => SubmitDrains(s, a);
    case DoWait(j, c, aborted) => if j < |s.jobs| { WaitDrains(s, j, c, aborted); }
    case DoAbort(w) => if w < |s.waiters| { AbortDrains(s, w); }
    case DoSettleGroup(j, c, ok) =>
      if j < |s.jobs| { SettleGroupDrains(s, j, c, if ok then Value else Rejected, 0); }
    case DoMicrotask => if s.scheduled { StartSomeLog(s.(scheduled := false), Capacity(s)); }
    case DoBatchResult(j, o) => if j < |s.jobs| { FinishDrains(s, j, o); }
    case DoShutdown => CancelAllDrains(s.(admitting := false));
    case DoDrain =>
  }

  lemma AbortDrains(s: State, w: nat)
    requires w < |s.waiters| && s.waiters[w].job < |s.jobs|
    ensures Abort(s, w).drains + Abort(s, w).drained == s.drains + s.drained
  {
  }

  lemma WaitDrains(s: State, j: nat, c: nat, aborted: bool)
    requires j < |s.jobs|
    ensures Wait(s, j, c, aborted).drains + Wait(s, j, c, aborted).drained == s.drains + s.drained
  {
    AbortDrains(Park(s, j, c), |s.waiters|);
  }

  lemma SubmitDrains(s: State, a: string)
    requires Inv(s)
    ensures Submit(s, a).drains + Submit(s, a).drained == s.drains + s.drained
  {
  }

  // ------------------------------------------------------------------ over every run

  /** Events that are no caller's abort and no shutdown. */
  predicate NoCause(e: Event) {
    !e.DoAbort? && !e.DoShutdown? && !(e.DoWait? && e.aborted)
  }

  predicate NoneCancelled(s: State) {
    s.admitting && forall j :: 0 <= j < |s.jobs| ==> Cancelled !in s.jobs[j].delivered
  }

  lemma NoCauseStep(s: State, e: Event)
    requires Inv(s) && NoneCancelled(s) && NoCause(e)
    ensures NoneCancelled(Apply(s, e))
  {
    match e
    case DoSubmit(a) => SubmitAnswers(s, a);
    case DoWait(j, c, aborted) => if j < |s.jobs| { WaitAnswers(s, j, c); }
    case DoSettleGroup(j, c, ok) =>
      if j < |s.jobs| { SettleGroupKeeps(s, j, c, if ok then Value else Rejected, 0); }
    case DoMicrotask =>
      if s.scheduled {
        StartSomeLog(s.(scheduled := false), Capacity(s));
        forall j | 0 <= j < |s.jobs| ensures Apply(s, e).jobs[j].delivered == s.jobs[j].delivered {
          PumpAnswers(s, j);
        }
      }
    case DoBatchResult(j, o) =>
      if j < |s.jobs| && s.jobs[j].state.Active? && !o.Cancelled? { ResultAnswers(s, j, o); }
    case DoDrain =>
  }

  lemma {:induction false} NoCauseRun(s: State, es: seq<Event>)
    requires Inv(s) && NoneCancelled(s) && forall k :: 0 <= k < |es| ==> NoCause(es[k])
    ensures NoneCancelled(Run(s, es))
    decreases |es|
  {
    if es != [] {
      ApplyKeeps(s, es[0]);
      NoCauseStep(s, es[0]);
      NoCauseRun(Apply(s, es[0]), es[1..]);
    }
  }

  /** Without an abort or a shutdown no submitted job is ever cancelled. */
  lemma CancelledOnlyForACause(limit: nat, es: seq<Event>, j: nat)
    requires Inv(Initial(limit))
    ensures var s := Run(Initial(limit), es);
      (forall k :: 0 <= k < |es| ==> NoCause(es[k])) && j < |s.jobs| ==> Cancelled !in s.jobs[j].delivered
  {
    if forall k :: 0 <= k < |es| ==> NoCause(es[k]) {
      NoCauseRun(Initial(limit), es);
    }
  }

  lemma {:induction false} SomeActive(jobs: seq<Job>) returns (j: nat)
    requires CountActive(jobs) > 0
    ensures j < |jobs| && jobs[j].state.Active?
  {
    var n := |jobs| - 1;
    if jobs[n].state.Active? {
      j := n;
    } else {
      j := SomeActive(jobs[..n]);
    }
  }

  /** The head of the queue starts with the scheduled pump if a slot is free. */
  lemma HeadStarts(s: State)
    requires Inv(s) && s.admitting && s.queue != [] && (s.limit == 0 || s.active < s.limit)
    ensures var t := Apply(s, DoMicrotask); var j := s.queue[0];
      j in t.started && j < |t.jobs| && t.jobs[j].state.Active?
  {
    var j := s.queue[0];
    assert j in s.queue;
    PumpAnswers(s, j);
    var t := Apply(s, DoMicrotask);
    var s0 := s.(scheduled := false);
    StartSomeLog(s0, Capacity(s));
    assert t.active > s.active;
    assert t.queue != s.queue;
    HeadTaken(t.started[|s.started|..], t.queue, s.queue);
    HeadGone(s.started, s.queue, t.started, t.queue);
  }

  lemma HeadTaken(taken: seq<nat>, rest: seq<nat>, queue: seq<nat>)
    requires taken + rest == queue && rest != queue
    ensures taken != [] && taken[0] == queue[0]
  {
    assert taken == [] ==> taken + rest == rest;
  }

  lemma HeadGone(started: seq<nat>, queue: seq<nat>, log: seq<nat>, rest: seq<nat>)
    requires started <= log && log[|started|..] + rest == queue && log[|started|..] != []
    requires Ascending(started + queue)
    ensures queue[0] in log && queue[0] !in rest
  {
    var taken := log[|started|..];
    assert log[|started|] == taken[0] == queue[0];
    HeadOnce(started, queue);
    assert forall k :: 0 <= k < |rest| ==> rest[k] == queue[1..][|taken| - 1 + k];
  }

  /** The events that start the head: the pump alone, or a result that frees a slot and the pump. */
  function StartEvents(s: State, a: nat): seq<Event> {
    if s.limit == 0 || s.active < s.limit then [DoMicrotask] else [DoBatchResult(a, Offline), DoMicrotask]
  }

  /** No job waits in vain: while admission is open the head of the queue can be started, always. */
  lemma HeadCanStart(s: State) returns (a: nat)
    requires Inv(s) && s.admitting && s.queue != []
    ensures s.queue[0] in Run(s, StartEvents(s, a)).started
  {
    if s.limit == 0 || s.active < s.limit {
      a := 0;
      HeadStarts(s);
      ApplyKeeps(s, DoMicrotask);
      assert StartEvents(s, a)[1..] == [];
    } else {
      a := SomeActive(s.jobs);
      var e := DoBatchResult(a, Offline);
      ResultAnswers(s, a, Offline);
      ApplyKeeps(s, e);
      var t := Apply(s, e);
      HeadStarts(t);
      ApplyKeeps(t, DoMicrotask);
      assert StartEvents(s, a)[1..] == [DoMicrotask] && [DoMicrotask][1..] == [];
      assert Run(s, StartEvents(s, a)) == Run(t, [DoMicrotask]) == Apply(t, DoMicrotask);
    }
  }
}
