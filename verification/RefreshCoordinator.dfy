/**
 The profile-refresh admission queue (agent_profile_refresh_coordinator.ts).

 `State` and `Apply` are the simple model: one event is one stretch of code between two awaits.
 `Run` folds any list of events, so every lemma about `Run` is about every interleaving of
 callers, aborts, presence replies, refresh results and shutdown.
 The class `Coordinator` is the object itself, with its loops, proved against `Apply`.
 */
module RefreshCoordinator {

  datatype JobState = Queued | Active | Settled

  datatype Outcome = Success(agent: string) | Offline | Cancelled | PresenceError | RefreshError

  /** `delivered` records every call of the job's `settle` callback, in order. */
  datatype Job = Job(agentId: string, state: JobState, interested: int, delivered: seq<Outcome>)

  datatype Reply = Waiting | Value | Rejected | Fallback

  /** One `wait` call: the job, the shared completion it observes, and what it was told. */
  datatype Waiter = Waiter(job: nat, completion: nat, released: bool, reply: Reply)

  /**
   Jobs are named by submission order. `started` logs the jobs in the order they took a slot;
   `drains` counts callers parked in `drain`, `drained` those already let go.
   */
  datatype State = State(
    limit: nat,
    jobs: seq<Job>,
    queue: seq<nat>,
    active: int,
    admitting: bool,
    scheduled: bool,
    waiters: seq<Waiter>,
    drains: nat,
    drained: nat,
    cancellations: nat,
    started: seq<nat>)

  function Initial(limit: nat): State {
    State(limit, [], [], 0, true, false, [], 0, 0, 0, [])
  }

  // ---------------------------------------------------------------- the steps

  function Remove(q: seq<nat>, j: nat): (r: seq<nat>)
    ensures j !in r
    ensures forall k :: 0 <= k < |r| ==> r[k] in q && r[k] != j
    ensures forall k :: k in r ==> k in q
    ensures forall k :: k in q && k != j ==> k in r
    ensures |r| <= |q|
  {
    if q == [] then [] else if q[0] == j then Remove(q[1..], j) else [q[0]] + Remove(q[1..], j)
  }

  function Schedule(s: State): State {
    if s.scheduled || !s.admitting then s else s.(scheduled := true)
  }

  function LetDrainsGo(s: State): State {
    if s.active == 0 then s.(drained := s.drained + s.drains, drains := 0) else s
  }

  /** The job leaves its slot or the queue with its outcome. */
  function Vacate(s: State, j: nat, o: Outcome): State
    requires j < |s.jobs|
  {
    var job := s.jobs[j];
    s.(active := if job.state.Active? then s.active - 1 else s.active,
       queue := Remove(s.queue, j),
       jobs := s.jobs[j := job.(state := Settled, delivered := job.delivered + [o])])
  }

  function Finish(s: State, j: nat, o: Outcome): State
    requires j < |s.jobs|
  {
    if s.jobs[j].state.Settled? then s else LetDrainsGo(Schedule(Vacate(s, j, o)))
  }

  function Submit(s: State, agentId: string): State {
    var s1 := s.(jobs := s.jobs + [Job(agentId, Queued, 0, [])]);
    if s.admitting then Schedule(s1.(queue := s.queue + [|s.jobs|]))
    else Finish(s1, |s.jobs|, Cancelled)
  }

  function Release(s: State, w: nat, reply: Reply): State
    requires w < |s.waiters| && s.waiters[w].job < |s.jobs|
  {
    var j := s.waiters[w].job;
    s.(waiters := s.waiters[w := s.waiters[w].(released := true, reply := reply)],
       jobs := s.jobs[j := s.jobs[j].(interested := s.jobs[j].interested - 1)])
  }

  function Abort(s: State, w: nat): State
    requires w < |s.waiters| && s.waiters[w].job < |s.jobs|
  {
    if s.waiters[w].released then s else
    var j := s.waiters[w].job;
    var s1 := Release(s, w, Fallback).(cancellations := s.cancellations + 1);
    if s1.jobs[j].interested == 0 && s1.jobs[j].state.Queued? then Finish(s1, j, Cancelled) else s1
  }

  function Park(s: State, j: nat, completion: nat): State
    requires j < |s.jobs|
  {
    s.(waiters := s.waiters + [Waiter(j, completion, false, Waiting)],
       jobs := s.jobs[j := s.jobs[j].(interested := s.jobs[j].interested + 1)])
  }

  function Wait(s: State, j: nat, completion: nat, aborted: bool): State
    requires j < |s.jobs|
  {
    var s1 := Park(s, j, completion);
    if aborted then Abort(s1, |s.waiters|) else s1
  }

  /** Is waiter `w` still parked on this completion of job `j`? */
  predicate InGroup(w: Waiter, j: nat, completion: nat) {
    w.job == j && w.completion == completion && !w.released
  }

  /** The shared completion settles: every parked waiter of the group is released, in order. */
  function SettleGroup(s: State, j: nat, completion: nat, reply: Reply, from: nat): State
    requires j < |s.jobs|
    decreases |s.waiters| - from
  {
    if from >= |s.waiters| then s
    else if InGroup(s.waiters[from], j, completion)
    then SettleGroup(Release(s, from, reply), j, completion, reply, from + 1)
    else SettleGroup(s, j, completion, reply, from + 1)
  }

  predicate InRange(s: State) {
    forall k :: 0 <= k < |s.queue| ==> s.queue[k] < |s.jobs|
  }

  function StartHead(s: State): State
    requires s.queue != [] && s.queue[0] < |s.jobs|
  {
    var j := s.queue[0];
    s.(queue := s.queue[1..], active := s.active + 1, started := s.started + [j],
       jobs := s.jobs[j := s.jobs[j].(state := Active)])
  }

  function Capacity(s: State): int {
    if s.limit == 0 then |s.queue| else s.limit - s.active
  }

  /** Starts queued jobs from the front while `room` slots remain. */
  function StartSome(s: State, room: int): State
    requires InRange(s)
    decreases |s.queue|
  {
    if room <= 0 || s.queue == [] then s else StartSome(StartHead(s), room - 1)
  }

  function Pump(s: State): State
    requires InRange(s)
  {
    StartSome(s.(scheduled := false), Capacity(s))
  }

  predicate QueuedOnly(s: State) {
    forall k :: 0 <= k < |s.queue| ==> s.queue[k] < |s.jobs| && s.jobs[s.queue[k]].state.Queued?
  }

  function CancelHead(s: State): (t: State)
    requires QueuedOnly(s) && s.queue != []
    ensures QueuedOnly(t) && |t.queue| < |s.queue|
  {
    RemoveShrinks(s.queue, s.queue[0]);
    Finish(s.(cancellations := s.cancellations + 1), s.queue[0], Cancelled)
  }

  function CancelAll(s: State): State
    requires QueuedOnly(s)
    decreases |s.queue|
  {
    if s.queue == [] then s else CancelAll(CancelHead(s))
  }

  lemma RemoveShrinks(q: seq<nat>, j: nat)
    requires j in q
    ensures |Remove(q, j)| < |q|
  {}

  function Drain(s: State): State {
    if s.active == 0 then s.(drained := s.drained + 1) else s.(drains := s.drains + 1)
  }

  datatype Event =
    | DoSubmit(agentId: string)
    | DoWait(j: nat, completion: nat, aborted: bool)
    | DoAbort(w: nat)
    | DoSettleGroup(j: nat, completion: nat, ok: bool)
    | DoMicrotask
    | DoBatchResult(j: nat, outcome: Outcome)
    | DoShutdown
    | DoDrain

  /**
   One event. What the environment cannot do (an unknown job or waiter, a pump that was never
   scheduled, a refresh result for a job that is not running) leaves the state alone.
   */
  function Apply(s: State, e: Event): State
    requires Inv(s)
  {
    match e
    case DoSubmit(a) => Submit(s, a)
    case DoWait(j, c, aborted) => if j < |s.jobs| then Wait(s, j, c, aborted) else s
    case DoAbort(w) => if w < |s.waiters| then Abort(s, w) else s
    case DoSettleGroup(j, c, ok) =>
      if j < |s.jobs| then SettleGroup(s, j, c, if ok then Value else Rejected, 0) else s
    case DoMicrotask => if s.scheduled then Pump(s) else s
    case DoBatchResult(j, o) =>
      if j < |s.jobs| && s.jobs[j].state.Active? && !o.Cancelled? then Finish(s, j, o) else s
    case DoShutdown => CancelAll(s.(admitting := false))
    case DoDrain => Drain(s)
  }

  // ------------------------------------------------------------ the invariant

  function CountActive(jobs: seq<Job>): nat {
    if jobs == [] then 0
    else CountActive(jobs[..|jobs| - 1]) + if jobs[|jobs| - 1].state.Active? then 1 else 0
  }

  function CountParked(waiters: seq<Waiter>, j: nat): nat {
    if waiters == [] then 0
    else
      var w := waiters[|waiters| - 1];
      CountParked(waiters[..|waiters| - 1], j) + if w.job == j && !w.released then 1 else 0
  }

  predicate Ascending(q: seq<nat>) {
    forall a, b :: 0 <= a < b < |q| ==> q[a] < q[b]
  }

  /** The queue is exactly the queued jobs, in submission order. */
  predicate QueueOk(jobs: seq<Job>, queue: seq<nat>) {
    && (forall k :: 0 <= k < |queue| ==> queue[k] < |jobs|)
    && (forall j :: 0 <= j < |jobs| ==> (j in queue <==> jobs[j].state.Queued?))
  }

  /** Slots are counted exactly and never oversubscribed; starts follow submission order. */
  predicate SlotsOk(limit: nat, jobs: seq<Job>, queue: seq<nat>, active: int, started: seq<nat>) {
    && active == CountActive(jobs)
    && (limit > 0 ==> active <= limit)
    && Ascending(started + queue)
    && (forall a :: a in started ==> a < |jobs| && !jobs[a].state.Queued?)
    && (forall j :: 0 <= j < |jobs| && jobs[j].state.Active? ==> j in started)
  }

  /** Outcomes: one for a settled job, none before; cancelled means never started. */
  predicate OutcomesOk(jobs: seq<Job>, started: seq<nat>) {
    forall j :: 0 <= j < |jobs| ==>
      && (jobs[j].state.Settled? <==> |jobs[j].delivered| == 1)
      && (!jobs[j].state.Settled? <==> jobs[j].delivered == [])
      && (jobs[j].state.Settled? ==> (jobs[j].delivered == [Cancelled] <==> j !in started))
  }

  /** `interested` is the number of waiters still parked; a released waiter has its answer. */
  predicate WaitersOk(jobs: seq<Job>, waiters: seq<Waiter>) {
    && (forall w :: 0 <= w < |waiters| ==> waiters[w].job < |jobs|)
    && (forall w :: 0 <= w < |waiters| ==> (waiters[w].released <==> !waiters[w].reply.Waiting?))
    && (forall j :: 0 <= j < |jobs| ==> jobs[j].interested == CountParked(waiters, j))
  }

  predicate FlowInv(s: State) {
    && (s.admitting && s.queue != [] && (s.limit == 0 || s.active < s.limit) ==> s.scheduled)
    && (!s.admitting ==> s.queue == [])
    && (s.active == 0 ==> s.drains == 0)
  }

  /** The books: who is where, how many slots, which outcomes, who waits. */
  predicate Core(s: State) {
    && QueueOk(s.jobs, s.queue)
    && SlotsOk(s.limit, s.jobs, s.queue, s.active, s.started)
    && OutcomesOk(s.jobs, s.started)
    && WaitersOk(s.jobs, s.waiters)
  }

  predicate Inv(s: State) {
    Core(s) && FlowInv(s)
  }

  // ------------------------------------------------------------------ counting

  lemma {:induction false} CountActiveUpdate(jobs: seq<Job>, j: nat, job: Job)
    requires j < |jobs|
    ensures CountActive(jobs[j := job]) + (if jobs[j].state.Active? then 1 else 0)
         == CountActive(jobs) + (if job.state.Active? then 1 else 0)
  {
    var n := |jobs| - 1;
    if j == n {
      assert jobs[j := job][..n] == jobs[..n];
    } else {
      assert jobs[j := job][..n] == jobs[..n][j := job];
      CountActiveUpdate(jobs[..n], j, job);
    }
  }

  lemma {:induction false} CountParkedUpdate(ws: seq<Waiter>, w: nat, x: Waiter, j: nat)
    requires w < |ws|
    ensures CountParked(ws[w := x], j) + (if ws[w].job == j && !ws[w].released then 1 else 0)
         == CountParked(ws, j) + (if x.job == j && !x.released then 1 else 0)
  {
    var n := |ws| - 1;
    if w == n {
      assert ws[w := x][..n] == ws[..n];
    } else {
      assert ws[w := x][..n] == ws[..n][w := x];
      CountParkedUpdate(ws[..n], w, x, j);
    }
  }

  lemma CountParkedNone(ws: seq<Waiter>, j: nat)
    requires forall w :: 0 <= w < |ws| ==> ws[w].job != j
    ensures CountParked(ws, j) == 0
  {}

  /** Deleting from the queue cannot disturb the order of starts and of the jobs still waiting. */
  lemma {:induction false} RemoveAscending(started: seq<nat>, q: seq<nat>, j: nat)
    requires Ascending(started + q)
    ensures Ascending(started + Remove(q, j))
    decreases |q|
  {
    if q != [] {
      if q[0] == j {
        var u, v := started + q, started + q[1..];
        assert forall k :: 0 <= k < |v| ==> v[k] == u[if k < |started| then k else k + 1];
        RemoveAscending(started, q[1..], j);
      } else {
        assert started + q == (started + [q[0]]) + q[1..];
        RemoveAscending(started + [q[0]], q[1..], j);
        assert started + ([q[0]] + Remove(q[1..], j)) == (started + [q[0]]) + Remove(q[1..], j);
      }
    }
  }

  // --------------------------------------------------------------- preservation

  /** Settling job `j` in the job table, and nothing else. */
  function Settle(jobs: seq<Job>, j: nat, o: Outcome): seq<Job>
    requires j < |jobs|
  {
    jobs[j := jobs[j].(state := Settled, delivered := jobs[j].delivered + [o])]
  }

  lemma FinishFields(s: State, j: nat, o: Outcome)
    requires j < |s.jobs| && !s.jobs[j].state.Settled?
    ensures var t := Finish(s, j, o);
      && t.jobs == Settle(s.jobs, j, o)
      && t.queue == Remove(s.queue, j) && t.started == s.started && t.admitting == s.admitting
      && t.limit == s.limit && t.waiters == s.waiters && t.cancellations == s.cancellations
      && t.active == s.active - (if s.jobs[j].state.Active? then 1 else 0)
      && (t.active == 0 ==> t.drains == 0)
      && (t.admitting ==> t.scheduled)
  {}

  lemma FinishQueue(jobs: seq<Job>, queue: seq<nat>, j: nat, o: Outcome)
    requires QueueOk(jobs, queue) && j < |jobs| && !jobs[j].state.Settled?
    ensures QueueOk(Settle(jobs, j, o), Remove(queue, j))
  {}

  lemma FinishSlots(s: State, j: nat, o: Outcome)
    requires Core(s) && j < |s.jobs| && !s.jobs[j].state.Settled?
    ensures SlotsOk(s.limit, Settle(s.jobs, j, o), Remove(s.queue, j),
                    s.active - (if s.jobs[j].state.Active? then 1 else 0), s.started)
  {
    CountActiveUpdate(s.jobs, j, Settle(s.jobs, j, o)[j]);
    RemoveAscending(s.started, s.queue, j);
  }

  lemma FinishOutcomes(s: State, j: nat, o: Outcome)
    requires Core(s) && j < |s.jobs| && !s.jobs[j].state.Settled?
    requires o.Cancelled? <==> s.jobs[j].state.Queued?
    ensures OutcomesOk(Settle(s.jobs, j, o), s.started)
  {
    assert s.jobs[j].delivered + [o] == [o];
  }

  lemma FinishKeeps(s: State, j: nat, o: Outcome)
    requires Core(s) && j < |s.jobs| && !s.jobs[j].state.Settled?
    requires o.Cancelled? <==> s.jobs[j].state.Queued?
    ensures Core(Finish(s, j, o))
  {
    FinishFields(s, j, o);
    FinishQueue(s.jobs, s.queue, j, o);
    FinishSlots(s, j, o);
    FinishOutcomes(s, j, o);
    assert WaitersOk(Settle(s.jobs, j, o), s.waiters);
  }

  function Enqueue(s: State, a: string): State {
    s.(jobs := s.jobs + [Job(a, Queued, 0, [])], queue := s.queue + [|s.jobs|])
  }

  lemma EnqueueKeeps(s: State, a: string)
    requires Core(s)
    ensures Core(Enqueue(s, a))
  {
    EnqueueSlots(s, a);
    CountParkedNone(s.waiters, |s.jobs|);
  }

  lemma EnqueueSlots(s: State, a: string)
    requires Core(s)
    ensures var t := Enqueue(s, a); SlotsOk(t.limit, t.jobs, t.queue, t.active, t.started)
  {
    var t := Enqueue(s, a);
    var log := s.started + s.queue;
    assert t.jobs[..|s.jobs|] == s.jobs;
    assert t.started + t.queue == log + [|s.jobs|];
    assert forall k :: 0 <= k < |s.started| ==> s.started[k] in s.started;
    assert forall k :: 0 <= k < |log| ==> log[k] < |s.jobs|;
  }

  lemma RemoveAbsent(q: seq<nat>, j: nat)
    requires j !in q
    ensures Remove(q, j) == q
  {
    if q != [] {
      assert q[0] != j && j !in q[1..];
      RemoveAbsent(q[1..], j);
    }
  }

  /** An open scheduler queues the new job last and sees to a pump; a closed one cancels it at once. */
  lemma SubmitAnswers(s: State, a: string)
    requires Inv(s)
    ensures var t := Apply(s, DoSubmit(a)); var n := |s.jobs|;
      && |t.jobs| == n + 1 && t.jobs[..n] == s.jobs && t.jobs[n].agentId == a && t.jobs[n].interested == 0
      && t.active == s.active && t.waiters == s.waiters && t.started == s.started && t.admitting == s.admitting
      && (s.admitting ==>
            t.jobs[n].state == Queued && t.jobs[n].delivered == [] && t.queue == s.queue + [n] && t.scheduled)
      && (!s.admitting ==>
            t.jobs[n].state == Settled && t.jobs[n].delivered == [Cancelled] && t.queue == s.queue == [])
  {
    RemoveAbsent(s.queue, |s.jobs|);
  }

  lemma SubmitKeeps(s: State, a: string)
    requires Inv(s)
    ensures Inv(Submit(s, a))
  {
    EnqueueKeeps(s, a);
    if !s.admitting {
      var n := |s.jobs|;
      var t := Enqueue(s, a);
      assert t.queue == [n] && Remove([n], n) == Remove([], n);
      FinishFields(t, n, Cancelled);
      FinishKeeps(t, n, Cancelled);
      assert Submit(s, a) == Finish(t, n, Cancelled);
    }
  }

  /** Releasing a parked waiter keeps `interested` equal to the number still parked. */
  lemma ReleaseKeeps(s: State, w: nat, reply: Reply)
    requires Inv(s) && w < |s.waiters| && !s.waiters[w].released && !reply.Waiting?
    ensures Inv(Release(s, w, reply))
  {
    var t := Release(s, w, reply);
    var j := s.waiters[w].job;
    CountActiveUpdate(s.jobs, j, t.jobs[j]);
    assert QueueOk(t.jobs, t.queue);
    assert SlotsOk(t.limit, t.jobs, t.queue, t.active, t.started);
    assert OutcomesOk(t.jobs, t.started);
    forall k | 0 <= k < |t.jobs|
      ensures t.jobs[k].interested == CountParked(t.waiters, k)
    {
      CountParkedUpdate(s.waiters, w, t.waiters[w], k);
    }
    assert WaitersOk(t.jobs, t.waiters);
  }

  lemma AbortKeeps(s: State, w: nat)
    requires Inv(s) && w < |s.waiters|
    ensures Inv(Abort(s, w))
  {
    if !s.waiters[w].released {
      var j := s.waiters[w].job;
      ReleaseKeeps(s, w, Fallback);
      var s1 := Release(s, w, Fallback).(cancellations := s.cancellations + 1);
      assert Core(s1);
      if s1.jobs[j].interested == 0 && s1.jobs[j].state.Queued? {
        FinishFields(s1, j, Cancelled);
        FinishKeeps(s1, j, Cancelled);
      }
    }
  }

  lemma WaitKeeps(s: State, j: nat, c: nat, aborted: bool)
    requires Inv(s) && j < |s.jobs|
    ensures Inv(Wait(s, j, c, aborted))
  {
    ParkKeeps(s, j, c);
    if aborted {
      AbortKeeps(Park(s, j, c), |s.waiters|);
    }
  }

  lemma ParkKeeps(s: State, j: nat, c: nat)
    requires Inv(s) && j < |s.jobs|
    ensures Inv(Park(s, j, c))
  {
    var t := Park(s, j, c);
    CountActiveUpdate(s.jobs, j, t.jobs[j]);
    ParkWaiters(s.jobs, s.waiters, j, c);
    assert QueueOk(t.jobs, t.queue);
    assert SlotsOk(t.limit, t.jobs, t.queue, t.active, t.started);
    assert OutcomesOk(t.jobs, t.started);
  }

  lemma ParkWaiters(jobs: seq<Job>, waiters: seq<Waiter>, j: nat, c: nat)
    requires WaitersOk(jobs, waiters) && j < |jobs|
    ensures WaitersOk(jobs[j := jobs[j].(interested := jobs[j].interested + 1)],
                      waiters + [Waiter(j, c, false, Waiting)])
  {
  }

  predicate SameFates(a: seq<Job>, b: seq<Job>) {
    |a| == |b| && forall k :: 0 <= k < |a| ==> a[k].state == b[k].state && a[k].delivered == b[k].delivered
  }

  lemma {:induction false} SettleGroupKeeps(s: State, j: nat, c: nat, reply: Reply, from: nat)
    requires Inv(s) && j < |s.jobs| && !reply.Waiting?
    ensures var t := SettleGroup(s, j, c, reply, from);
      && Inv(t)
      && t.queue == s.queue && t.active == s.active && t.started == s.started
      && t.drained == s.drained && t.admitting == s.admitting
      && SameFates(s.jobs, t.jobs)
    decreases |s.waiters| - from
  {
    if from < |s.waiters| {
      if InGroup(s.waiters[from], j, c) {
        ReleaseKeeps(s, from, reply);
        SettleGroupKeeps(Release(s, from, reply), j, c, reply, from + 1);
      } else {
        SettleGroupKeeps(s, j, c, reply, from + 1);
      }
    }
  }

  lemma StartHeadQueue(jobs: seq<Job>, queue: seq<nat>, started: seq<nat>)
    requires QueueOk(jobs, queue) && queue != [] && Ascending(started + queue)
    ensures queue[0] < |jobs| && QueueOk(jobs[queue[0] := jobs[queue[0]].(state := Active)], queue[1..])
  {
    HeadOnce(started, queue);
    assert queue[0] in queue;
    assert forall k :: k in queue <==> k == queue[0] || k in queue[1..];
  }

  lemma StartHeadSlots(s: State)
    requires Core(s) && s.queue != [] && (s.limit > 0 ==> s.active < s.limit)
    ensures var t := StartHead(s); SlotsOk(t.limit, t.jobs, t.queue, t.active, t.started)
    ensures StartHead(s).started + StartHead(s).queue == s.started + s.queue
  {
    var t := StartHead(s);
    var j := s.queue[0];
    assert j in s.queue;
    assert t.started + t.queue == s.started + s.queue;
    CountActiveUpdate(s.jobs, j, t.jobs[j]);
  }

  lemma StartHeadOutcomes(jobs: seq<Job>, started: seq<nat>, j: nat)
    requires OutcomesOk(jobs, started) && j < |jobs| && jobs[j].state.Queued?
    ensures OutcomesOk(jobs[j := jobs[j].(state := Active)], started + [j])
  {
  }

  lemma StartHeadKeeps(s: State)
    requires Core(s) && s.queue != [] && (s.limit > 0 ==> s.active < s.limit)
    ensures Core(StartHead(s))
    ensures StartHead(s).started + StartHead(s).queue == s.started + s.queue
  {
    assert s.queue[0] in s.queue;
    StartHeadQueue(s.jobs, s.queue, s.started);
    StartHeadSlots(s);
    StartHeadOutcomes(s.jobs, s.started, s.queue[0]);
  }

  lemma HeadOnce(started: seq<nat>, q: seq<nat>)
    requires q != [] && Ascending(started + q)
    ensures q[0] !in q[1..]
  {
    forall k | 1 <= k < |q|
      ensures q[0] < q[k]
    {
      assert (started + q)[|started|] < (started + q)[|started| + k];
    }
  }

  lemma {:induction false} StartSomeKeeps(s: State, room: int)
    requires Core(s)
    requires s.limit > 0 ==> room <= s.limit - s.active
    ensures Core(StartSome(s, room))
    decreases |s.queue|
  {
    if room > 0 && s.queue != [] {
      StartHeadKeeps(s);
      StartSomeKeeps(StartHead(s), room - 1);
    }
  }

  /**
   A pump starts a prefix of the queue, in order, and stops only when the queue is empty or the
   room is used up.
   */
  lemma {:induction false} StartSomeLog(s: State, room: int)
    requires InRange(s)
    ensures var t := StartSome(s, room);
      && t == s.(jobs := t.jobs, queue := t.queue, active := t.active, started := t.started)
      && |t.jobs| == |s.jobs|
      && s.started <= t.started && t.started + t.queue == s.started + s.queue
      && t.active - s.active == |s.queue| - |t.queue|
      && (t.queue == [] || (room <= 0 && t.active == s.active) || t.active - s.active == room)
    decreases |s.queue|
  {
    if room > 0 && s.queue != [] {
      var h := StartHead(s);
      assert h.started + h.queue == s.started + s.queue;
      StartSomeLog(h, room - 1);
    }
  }

  lemma PumpKeeps(s: State)
    requires Inv(s)
    ensures Inv(Pump(s))
  {
    var s0 := s.(scheduled := false);
    StartSomeKeeps(s0, Capacity(s));
    StartSomeLog(s0, Capacity(s));
  }

  lemma CancelHeadKeeps(s: State)
    requires Core(s) && !s.admitting && s.queue != []
    ensures QueuedOnly(s)
    ensures var t := CancelHead(s);
      && Core(t) && !t.admitting && (t.active == 0 ==> t.drains == 0)
      && t.started == s.started && t.active == s.active && |t.jobs| == |s.jobs|
      && t.limit == s.limit
      && (t.drained > s.drained ==> t.active == 0)
  {
    var s0 := s.(cancellations := s.cancellations + 1);
    var j := s.queue[0];
    assert j in s.queue;
    FinishFields(s0, j, Cancelled);
    FinishKeeps(s0, j, Cancelled);
  }

  lemma {:induction false} CancelAllKeeps(s: State)
    requires Core(s) && QueuedOnly(s) && !s.admitting && (s.active == 0 ==> s.drains == 0)
    ensures var t := CancelAll(s);
      && Inv(t) && t.queue == [] && !t.admitting
      && t.started == s.started && t.active == s.active && |t.jobs| == |s.jobs|
      && (t.drained > s.drained ==> t.active == 0)
    decreases |s.queue|
  {
    if s.queue != [] {
      CancelHeadKeeps(s);
      CancelAllKeeps(CancelHead(s));
    }
  }

  lemma ApplyKeeps(s: State, e: Event)
    requires Inv(s)
    ensures Inv(Apply(s, e))
  {
    match e
    case DoSubmit(a) => SubmitKeeps(s, a);
    case DoWait(j, c, aborted) => if j < |s.jobs| { WaitKeeps(s, j, c, aborted); }
    case DoAbort(w) => if w < |s.waiters| { AbortKeeps(s, w); }
    case DoSettleGroup(j, c, ok) =>
      if j < |s.jobs| { SettleGroupKeeps(s, j, c, if ok then Value else Rejected, 0); }
    case DoMicrotask => if s.scheduled { PumpKeeps(s); }
    case DoBatchResult(j, o) =>
      if j < |s.jobs| && s.jobs[j].state.Active? && !o.Cancelled? {
        FinishFields(s, j, o);
        FinishKeeps(s, j, o);
      }
    case DoShutdown => CancelAllKeeps(s.(admitting := false));
    case DoDrain =>
  }

  // ------------------------------------------------- what holds over every run

  function Run(s: State, es: seq<Event>): State
    requires Inv(s)
    ensures Inv(Run(s, es))
    decreases |es|
  {
    if es == [] then s else
    ApplyKeeps(s, es[0]);
    Run(Apply(s, es[0]), es[1..])
  }

  /** How far a job may move: settled is final, and a started job never goes back to the queue. */
  predicate Moves(a: Job, b: Job) {
    && a.agentId == b.agentId
    && (a.state.Settled? ==> b.state.Settled? && b.delivered == a.delivered)
    && (a.state.Active? ==> !b.state.Queued?)
  }

  predicate Evolves(s: State, t: State) {
    && s.limit == t.limit
    && |s.jobs| <= |t.jobs|
    && (forall j :: 0 <= j < |s.jobs| ==> Moves(s.jobs[j], t.jobs[j]))
    && s.started <= t.started
    && (!s.admitting ==> !t.admitting && t.started == s.started && t.active <= s.active)
  }

  lemma EvolvesTrans(a: State, b: State, c: State)
    requires Evolves(a, b) && Evolves(b, c)
    ensures Evolves(a, c)
  {
  }

  lemma FinishEvolves(s: State, j: nat, o: Outcome)
    requires j < |s.jobs|
    ensures Evolves(s, Finish(s, j, o))
  {
  }

  lemma {:induction false} SettleGroupEvolves(s: State, j: nat, c: nat, reply: Reply, from: nat)
    requires WaitersOk(s.jobs, s.waiters) && Inv(s) && j < |s.jobs| && !reply.Waiting?
    ensures Evolves(s, SettleGroup(s, j, c, reply, from))
    decreases |s.waiters| - from
  {
    if from < |s.waiters| {
      if InGroup(s.waiters[from], j, c) {
        ReleaseKeeps(s, from, reply);
        var r := Release(s, from, reply);
        SettleGroupEvolves(r, j, c, reply, from + 1);
        EvolvesTrans(s, r, SettleGroup(r, j, c, reply, from + 1));
      } else {
        SettleGroupEvolves(s, j, c, reply, from + 1);
      }
    }
  }

  lemma {:induction false} StartSomeEvolves(s: State, room: int)
    requires Core(s) && (s.limit > 0 ==> room <= s.limit - s.active) && (!s.admitting ==> s.queue == [])
    ensures Evolves(s, StartSome(s, room))
    decreases |s.queue|
  {
    if room > 0 && s.queue != [] {
      var h := StartHead(s);
      StartHeadKeeps(s);
      assert s.queue[0] in s.queue;
      assert Evolves(s, h);
      StartSomeEvolves(h, room - 1);
      EvolvesTrans(s, h, StartSome(h, room - 1));
    }
  }

  lemma {:induction false} CancelAllEvolves(s: State)
    requires Core(s) && QueuedOnly(s) && !s.admitting
    ensures Evolves(s, CancelAll(s))
    decreases |s.queue|
  {
    if s.queue != [] {
      CancelHeadKeeps(s);
      var s0 := s.(cancellations := s.cancellations + 1);
      FinishEvolves(s0, s.queue[0], Cancelled);
      var h := CancelHead(s);
      assert Evolves(s, h);
      CancelAllEvolves(h);
      EvolvesTrans(s, h, CancelAll(h));
    }
  }

  lemma AbortEvolves(s: State, w: nat)
    requires Inv(s) && w < |s.waiters|
    ensures Evolves(s, Abort(s, w))
  {
    if !s.waiters[w].released {
      var j := s.waiters[w].job;
      var s1 := Release(s, w, Fallback).(cancellations := s.cancellations + 1);
      assert Evolves(s, s1);
      FinishEvolves(s1, j, Cancelled);
      EvolvesTrans(s, s1, Finish(s1, j, Cancelled));
    }
  }

  lemma SubmitEvolves(s: State, a: string)
    requires Inv(s)
    ensures Evolves(s, Submit(s, a))
  {
  }

  lemma WaitEvolves(s: State, j: nat, c: nat, aborted: bool)
    requires Inv(s) && j < |s.jobs|
    ensures Evolves(s, Wait(s, j, c, aborted))
  {
    var t := Wait(s, j, c, false);
    assert Evolves(s, t);
    WaitKeeps(s, j, c, false);
    AbortEvolves(t, |s.waiters|);
    EvolvesTrans(s, t, Abort(t, |s.waiters|));
  }

  lemma ApplyEvolves(s: State, e: Event)
    requires Inv(s)
    ensures Evolves(s, Apply(s, e))
  {
    match e
    case DoSubmit(a) => SubmitEvolves(s, a);
    case DoWait(j, c, aborted) => if j < |s.jobs| { WaitEvolves(s, j, c, aborted); }
    case DoAbort(w) => if w < |s.waiters| { AbortEvolves(s, w); }
    case DoSettleGroup(j, c, ok) =>
      if j < |s.jobs| { SettleGroupEvolves(s, j, c, if ok then Value else Rejected, 0); }
    case DoMicrotask =>
      if s.scheduled {
        var s0 := s.(scheduled := false);
        StartSomeEvolves(s0, Capacity(s));
        EvolvesTrans(s, s0, Pump(s));
      }
    case DoBatchResult(j, o) => if j < |s.jobs| { FinishEvolves(s, j, o); }
    case DoShutdown =>
      var s0 := s.(admitting := false);
      CancelAllEvolves(s0);
      EvolvesTrans(s, s0, CancelAll(s0));
    case DoDrain =>
  }

  /**
   Over every run a settled job keeps the one outcome it was given, the start log only grows at
   its end, and once shut down nothing starts again and `active` can only fall.
   */
  lemma {:induction false} RunEvolves(s: State, es: seq<Event>)
    requires Inv(s)
    ensures Evolves(s, Run(s, es))
    decreases |es|
  {
    if es != [] {
      ApplyKeeps(s, es[0]);
      ApplyEvolves(s, es[0]);
      RunEvolves(Apply(s, es[0]), es[1..]);
      EvolvesTrans(s, Apply(s, es[0]), Run(s, es));
    }
  }

  function PresenceErrors(batch: seq<nat>): seq<Event> {
    if batch == [] then [] else [DoBatchResult(batch[0], PresenceError)] + PresenceErrors(batch[1..])
  }

  lemma RunPresenceErrors(s: State, batch: seq<nat>, k: nat)
    requires Inv(s) && k < |batch|
    ensures var e := DoBatchResult(batch[k], PresenceError);
      && Inv(Apply(s, e))
      && Run(s, PresenceErrors(batch[k..])) == Run(Apply(s, e), PresenceErrors(batch[k + 1..]))
  {
    assert batch[k..][1..] == batch[k + 1..];
    ApplyKeeps(s, DoBatchResult(batch[k], PresenceError));
    assert PresenceErrors(batch[k..])[1..] == PresenceErrors(batch[k + 1..]);
  }

  /** Every reachable state: exact slot count, the limit, the queue, and no idle slot unnoticed. */
  lemma EveryReachableState(limit: nat, es: seq<Event>)
    ensures Inv(Initial(limit))
    ensures var s := Run(Initial(limit), es);
      && s.active == CountActive(s.jobs)
      && (limit > 0 ==> s.active <= limit)
      && (forall j :: 0 <= j < |s.jobs| ==> (j in s.queue <==> s.jobs[j].state.Queued?))
      && (s.admitting && s.queue != [] && (limit == 0 || s.active < limit) ==> s.scheduled)
      && (forall j :: 0 <= j < |s.jobs| ==> s.jobs[j].interested == CountParked(s.waiters, j))
  {
    RunEvolves(Initial(limit), es);
  }

  /** Every job gets at most one outcome, now and later, and is cancelled exactly if it never started. */
  lemma OneOutcome(limit: nat, es: seq<Event>, more: seq<Event>, j: nat)
    requires Inv(Initial(limit))
    ensures var s := Run(Initial(limit), es); var t := Run(s, more);
      j < |s.jobs| ==>
        && j < |t.jobs| && |t.jobs[j].delivered| == (if t.jobs[j].state.Settled? then 1 else 0)
        && (s.jobs[j].state.Settled? ==> t.jobs[j].state.Settled? && t.jobs[j].delivered == s.jobs[j].delivered)
        && (t.jobs[j].state.Settled? ==> (t.jobs[j].delivered == [Cancelled] <==> j !in t.started))
  {
    var s := Run(Initial(limit), es);
    RunEvolves(s, more);
    assert j < |s.jobs| ==> Moves(s.jobs[j], Run(s, more).jobs[j]);
  }

  /** After shutdown the queue stays empty, nothing starts again, and `active` only falls. */
  lemma ShutdownIsFinal(limit: nat, es: seq<Event>, more: seq<Event>)
    requires Inv(Initial(limit))
    ensures var s := Run(Initial(limit), es); var t := Run(s, more);
      !s.admitting ==> s.queue == t.queue == [] && t.started == s.started && t.active <= s.active
  {
    RunEvolves(Run(Initial(limit), es), more);
  }

  /** No overtaking: a job that has a slot was submitted before every job still in the queue. */
  lemma NoOvertaking(limit: nat, es: seq<Event>, a: nat, b: nat)
    requires Inv(Initial(limit))
    requires var s := Run(Initial(limit), es);
      a < |s.started| && b < |s.queue|
    ensures var s := Run(Initial(limit), es);
      s.started[a] < s.queue[b]
  {
    var s := Run(Initial(limit), es);
    assert (s.started + s.queue)[a] < (s.started + s.queue)[|s.started| + b];
  }

  /** A pump leaves no free slot beside a queued job, and starts exactly a prefix of the queue. */
  lemma PumpIsWorkConserving(s: State)
    requires Inv(s)
    ensures var t := Pump(s);
      && (t.queue == [] || (t.limit > 0 && t.active == t.limit))
      && s.started <= t.started
      && t.started[|s.started|..] + t.queue == s.queue
  {
    StartSomeLog(s.(scheduled := false), Capacity(s));
    var t := Pump(s);
    SplitLog(s.started, s.queue, t.started, t.queue);
  }

  /** What the log gained is what the queue lost. */
  lemma SplitLog(started: seq<nat>, queue: seq<nat>, log: seq<nat>, rest: seq<nat>)
    requires started <= log && log + rest == started + queue
    ensures log[|started|..] + rest == queue
  {
    var whole := started + queue;
    assert whole[|started|..] == queue;
    assert (log + rest)[|started|..] == log[|started|..] + rest;
  }

  /** The last parked waiter's abort cancels a queued job; an abort never touches a started one. */
  lemma LastAbortCancels(s: State, w: nat)
    requires Inv(s) && w < |s.waiters| && !s.waiters[w].released
    ensures var j := s.waiters[w].job; var t := Abort(s, w);
      && t.waiters[w].reply == Fallback
      && (s.jobs[j].state.Queued? && CountParked(s.waiters, j) == 1 ==>
            t.jobs[j].delivered == [Cancelled] && t.queue == Remove(s.queue, j))
      && (!s.jobs[j].state.Queued? || CountParked(s.waiters, j) > 1 ==>
            SameFates(s.jobs, t.jobs) && t.queue == s.queue)
  {
  }

  /** `drain` lets a caller go only in a state with no running job. */
  lemma DrainOnlyWhenIdle(s: State, e: Event)
    requires Inv(s)
    ensures Apply(s, e).drained > s.drained ==> Apply(s, e).active == 0
  {
    match e
    case DoSettleGroup(j, c, ok) =>
      if j < |s.jobs| { SettleGroupKeeps(s, j, c, if ok then Value else Rejected, 0); }
    case DoMicrotask => if s.scheduled { StartSomeLog(s.(scheduled := false), Capacity(s)); }
    case DoShutdown => CancelAllKeeps(s.(admitting := false));
    case _ =>
  }

  /** Finishing a job puts none back into the queue. */
  lemma NoneRequeued(s: State, j: nat, o: Outcome)
    requires j < |s.jobs|
    ensures var t := Finish(s, j, o);
      |t.jobs| == |s.jobs| && forall i :: 0 <= i < |t.jobs| && !s.jobs[i].state.Queued? ==> !t.jobs[i].state.Queued?
  {
  }

  // ---------------------------------------------------------------- the object

  /** The coordinator itself: its fields, and its methods proved against `Apply`. */
  class Coordinator {
    const concurrency: nat
    var jobs: seq<Job>
    var queue: seq<nat>
    var active: int
    var admitting: bool
    var scheduled: bool
    var waiters: seq<Waiter>
    var drainWaiters: nat
    var cancellations: nat
    ghost var drained: nat
    ghost var started: seq<nat>

    ghost function Model(): State
      reads this
    {
      State(concurrency, jobs, queue, active, admitting, scheduled, waiters, drainWaiters, drained,
            cancellations, started)
    }

    ghost predicate Valid()
      reads this
    {
      Inv(Model())
    }

    constructor (limit: nat)
      ensures Valid() && Model() == Initial(limit)
    {
      concurrency, jobs, queue, active, admitting, scheduled := limit, [], [], 0, true, false;
      waiters, drainWaiters, cancellations, drained, started := [], 0, 0, 0, [];
    }

    method SchedulePump()
      modifies this
      ensures Model() == Schedule(old(Model()))
    {
      if scheduled || !admitting { return; }
      scheduled := true;
    }

    method FinishJob(j: nat, outcome: Outcome)
      requires j < |jobs|
      modifies this
      ensures Model() == Finish(old(Model()), j, outcome)
    {
      if jobs[j].state.Settled? { return; }
      ghost var vacated := Vacate(Model(), j, outcome);
      if jobs[j].state.Active? { active := active - 1; }
      queue := Remove(queue, j);
      jobs := jobs[j := jobs[j].(state := Settled, delivered := jobs[j].delivered + [outcome])];
      assert Model() == vacated;
      SchedulePump();
      if active == 0 {
        drained := drained + drainWaiters;
        drainWaiters := 0;
      }
    }

    method Submit(agentId: string) returns (j: nat)
      requires Valid()
      modifies this
      ensures Valid() && Model() == Apply(old(Model()), DoSubmit(agentId)) && j == |old(jobs)|
      ensures |jobs| == j + 1 && jobs[..j] == old(jobs) && admitting == old(admitting)
      ensures admitting ==> jobs[j] == Job(agentId, Queued, 0, []) && queue == old(queue) + [j] && scheduled
      ensures !admitting ==> jobs[j] == Job(agentId, Settled, 0, [Cancelled]) && queue == old(queue)
    {
      SubmitKeeps(Model(), agentId);
      SubmitAnswers(Model(), agentId);
      j := |jobs|;
      jobs := jobs + [Job(agentId, Queued, 0, [])];
      if admitting {
        queue := queue + [j];
        SchedulePump();
      } else {
        FinishJob(j, Cancelled);
      }
    }

    method ReleaseWaiter(w: nat, reply: Reply)
      requires w < |waiters| && waiters[w].job < |jobs|
      modifies this
      ensures Model() == Release(old(Model()), w, reply)
    {
      var j := waiters[w].job;
      waiters := waiters[w := waiters[w].(released := true, reply := reply)];
      jobs := jobs[j := jobs[j].(interested := jobs[j].interested - 1)];
    }

    method AbortWaiter(w: nat)
      requires Valid() && w < |waiters|
      modifies this
      ensures Valid() && Model() == Apply(old(Model()), DoAbort(w))
    {
      AbortKeeps(Model(), w);
      LeaveAsAborted(w);
    }

    method LeaveAsAborted(w: nat)
      requires w < |waiters| && waiters[w].job < |jobs|
      modifies this
      ensures Model() == Abort(old(Model()), w)
    {
      if waiters[w].released { return; }
      var j := waiters[w].job;
      ReleaseWaiter(w, Fallback);
      cancellations := cancellations + 1;
      if jobs[j].interested == 0 && jobs[j].state.Queued? {
        FinishJob(j, Cancelled);
      }
    }

    method AddWaiter(j: nat, completion: nat)
      requires j < |jobs|
      modifies this
      ensures Model() == Park(old(Model()), j, completion)
    {
      jobs := jobs[j := jobs[j].(interested := jobs[j].interested + 1)];
      waiters := waiters + [Waiter(j, completion, false, Waiting)];
    }

    method Wait(j: nat, completion: nat, aborted: bool) returns (w: nat)
      requires Valid() && j < |jobs|
      modifies this
      ensures Valid() && Model() == Apply(old(Model()), DoWait(j, completion, aborted))
      ensures w == |old(waiters)|
    {
      WaitKeeps(Model(), j, completion, false);
      w := |waiters|;
      AddWaiter(j, completion);
      if aborted {
        AbortWaiter(w);
      }
    }

    method ReleaseGroup(j: nat, completion: nat, reply: Reply)
      requires j < |jobs|
      modifies this
      ensures Model() == SettleGroup(old(Model()), j, completion, reply, 0)
    {
      ghost var goal := SettleGroup(Model(), j, completion, reply, 0);
      var from := 0;
      while from < |waiters|
        invariant j < |jobs| && SettleGroup(Model(), j, completion, reply, from) == goal
        decreases |waiters| - from
      {
        if InGroup(waiters[from], j, completion) {
          ReleaseWaiter(from, reply);
        }
        from := from + 1;
      }
    }

    /** The one observer of a shared completion: it releases every waiter of the group. */
    method CompletionSettled(j: nat, completion: nat, ok: bool)
      requires Valid() && j < |jobs|
      modifies this
      ensures Valid() && Model() == Apply(old(Model()), DoSettleGroup(j, completion, ok))
    {
      var reply := if ok then Value else Rejected;
      SettleGroupKeeps(Model(), j, completion, reply, 0);
      ReleaseGroup(j, completion, reply);
    }

    method PumpQueue() returns (ready: seq<nat>)
      requires InRange(Model())
      modifies this
      ensures Model() == Pump(old(Model()))
      ensures old(started) + ready == started
    {
      ghost var goal := Pump(Model());
      scheduled := false;
      ready := [];
      var capacity: int := if concurrency == 0 then |queue| else concurrency - active;
      while queue != [] && |ready| < capacity
        invariant InRange(Model())
        invariant StartSome(Model(), capacity - |ready|) == goal
        invariant old(started) + ready == started
        decreases |queue|
      {
        var j := queue[0];
        queue := queue[1..];
        jobs := jobs[j := jobs[j].(state := Active)];
        active := active + 1;
        started := started + [j];
        ready := ready + [j];
      }
    }

    /** The queued microtask: it clears the flag and pumps. */
    method Microtask() returns (ready: seq<nat>)
      requires Valid() && scheduled
      modifies this
      ensures Valid() && Model() == Apply(old(Model()), DoMicrotask)
      ensures old(started) + ready == started
    {
      PumpKeeps(Model());
      ready := PumpQueue();
    }

    method FinishRunning(j: nat, outcome: Outcome)
      requires Valid() && j < |jobs| && !jobs[j].state.Queued? && !outcome.Cancelled?
      modifies this
      ensures Valid() && Model() == Apply(old(Model()), DoBatchResult(j, outcome))
      ensures |jobs| == |old(jobs)|
      ensures forall i :: 0 <= i < |jobs| && !old(jobs)[i].state.Queued? ==> !jobs[i].state.Queued?
    {
      ApplyKeeps(Model(), DoBatchResult(j, outcome));
      NoneRequeued(Model(), j, outcome);
      FinishJob(j, outcome);
    }

    /** The presence lookup of a batch failed: every job of the batch is finished, in order. */
    method PresenceFailed(batch: seq<nat>)
      requires Valid()
      requires forall k :: 0 <= k < |batch| ==> batch[k] < |jobs| && jobs[batch[k]].state.Active?
      modifies this
      ensures Valid() && Model() == Run(old(Model()), PresenceErrors(batch))
    {
      ghost var goal := Run(Model(), PresenceErrors(batch));
      for k := 0 to |batch|
        invariant Valid() && Run(Model(), PresenceErrors(batch[k..])) == goal
        invariant forall i :: k <= i < |batch| ==> batch[i] < |jobs| && !jobs[batch[i]].state.Queued?
      {
        RunPresenceErrors(Model(), batch, k);
        FinishRunning(batch[k], PresenceError);
      }
    }

    method BatchResult(j: nat, outcome: Outcome)
      requires Valid() && j < |jobs| && jobs[j].state.Active? && !outcome.Cancelled?
      modifies this
      ensures Valid() && Model() == Apply(old(Model()), DoBatchResult(j, outcome))
    {
      ApplyKeeps(Model(), DoBatchResult(j, outcome));
      FinishJob(j, outcome);
    }

    method CancelQueued()
      requires QueuedOnly(Model())
      modifies this
      ensures Model() == CancelAll(old(Model()))
    {
      ghost var goal := CancelAll(Model());
      while queue != []
        invariant QueuedOnly(Model()) && CancelAll(Model()) == goal
        decreases |queue|
      {
        CancelFirst();
      }
    }

    method CancelFirst()
      requires QueuedOnly(Model()) && queue != []
      modifies this
      ensures QueuedOnly(Model()) && Model() == CancelHead(old(Model()))
    {
      ghost var next := CancelHead(Model());
      cancellations := cancellations + 1;
      FinishJob(queue[0], Cancelled);
      assert Model() == next;
    }

    method BeginShutdown()
      requires Valid()
      modifies this
      ensures Valid() && Model() == Apply(old(Model()), DoShutdown)
    {
      ApplyKeeps(Model(), DoShutdown);
      admitting := false;
      CancelQueued();
    }

    method Drain()
      requires Valid()
      modifies this
      ensures Valid() && Model() == Apply(old(Model()), DoDrain)
    {
      if active == 0 {
        drained := drained + 1;
      } else {
        drainWaiters := drainWaiters + 1;
      }
    }
  }
}
