/**
 Per-key serialization of publishes on one process by a map of promise tails
 (client_socket_event_publish_idempotency_serialization.ts).

 A call's promises pass through four phases: its task waits for the previous tail, runs, settles
 (well or badly), and finally its own tail marker closes, which is when the map entry may go.
 */
module PublishSerialization {
  import opened Options

  datatype Phase = Waiting | Running | Settled(ok: bool) | Closed

  datatype Call = Call(key: string, prev: Option<nat>, phase: Phase)

  /** `started` logs the calls in the order their tasks began. */
  datatype State = State(maxKeys: nat, calls: seq<Call>, tails: map<string, nat>, rejected: nat, started: seq<nat>)

  datatype Event =
    | Enter(clientId: string, idempotencyKey: string)
    | Begin(c: nat)
    | Settle(c: nat, ok: bool)
    | Close(c: nat)

  function BuildKey(clientId: string, idempotencyKey: string): string {
    clientId + ":" + idempotencyKey
  }

  function Initial(maxKeys: nat): State {
    State(maxKeys, [], map[], 0, [])
  }

  predicate Full(s: State, key: string) {
    s.maxKeys > 0 && key !in s.tails && |s.tails| >= s.maxKeys
  }

  /** Has the tail this call waits for closed, whether its task failed or not? */
  predicate PrevClosed(s: State, c: nat)
    requires c < |s.calls|
  {
    match s.calls[c].prev
    case None => true
    case Some(d) => d < |s.calls| && s.calls[d].phase.Closed?
  }

  function Phased(calls: seq<Call>, c: nat, phase: Phase): seq<Call>
    requires c < |calls|
  {
    calls[c := calls[c].(phase := phase)]
  }

  function SetPhase(s: State, c: nat, phase: Phase): State
    requires c < |s.calls|
  {
    s.(calls := Phased(s.calls, c, phase))
  }

  /** One event; an event that is not enabled changes nothing. */
  function Apply(s: State, e: Event): State {
    match e
    case Enter(clientId, idempotencyKey) =>
      var key := BuildKey(clientId, idempotencyKey);
      if Full(s, key) then s.(rejected := s.rejected + 1) else
      var prev := if key in s.tails then Some(s.tails[key]) else None;
      s.(calls := s.calls + [Call(key, prev, Waiting)], tails := s.tails[key := |s.calls|])
    case Begin(c) =>
      if c < |s.calls| && s.calls[c].phase.Waiting? && PrevClosed(s, c)
      then SetPhase(s, c, Running).(started := s.started + [c]) else s
    case Settle(c, ok) =>
      if c < |s.calls| && s.calls[c].phase.Running? then SetPhase(s, c, Settled(ok)) else s
    case Close(c) =>
      if c < |s.calls| && s.calls[c].phase.Settled? then
        var key := s.calls[c].key;
        var s1 := SetPhase(s, c, Closed);
        if key in s.tails && s.tails[key] == c then s1.(tails := s.tails - {key}) else s1
      else s
  }

  // ------------------------------------------------------------------ the invariant

  /** Everything that entered under this key before call `c` is over. */
  predicate EarlierClosed(calls: seq<Call>, c: nat)
    requires c < |calls|
  {
    forall d :: 0 <= d < c && calls[d].key == calls[c].key ==> calls[d].phase.Closed?
  }

  /** A call waits for the latest earlier call of its key, or for nothing when all are over. */
  predicate Chained(calls: seq<Call>, c: nat)
    requires c < |calls|
  {
    match calls[c].prev
    case None => EarlierClosed(calls, c)
    case Some(d) =>
      && d < c && calls[d].key == calls[c].key
      && forall x :: d < x < c ==> calls[x].key != calls[c].key
  }

  /** A tracked key names its newest call; an unfinished call's key is tracked. */
  predicate TailsOk(calls: seq<Call>, tails: map<string, nat>) {
    && (forall k :: k in tails ==>
          && tails[k] < |calls| && calls[tails[k]].key == k && !calls[tails[k]].phase.Closed?
          && forall d :: tails[k] < d < |calls| ==> calls[d].key != k)
    && (forall c :: 0 <= c < |calls| && !calls[c].phase.Closed? ==> calls[c].key in tails)
  }

  predicate CallsOk(calls: seq<Call>) {
    forall c :: 0 <= c < |calls| ==>
      && Chained(calls, c)
      && (!calls[c].phase.Waiting? ==> EarlierClosed(calls, c))
  }

  /** The start log is exactly the calls that left `Waiting`, and per key it is in call order. */
  predicate StartsOk(calls: seq<Call>, started: seq<nat>) {
    && (forall i :: 0 <= i < |started| ==> started[i] < |calls| && !calls[started[i]].phase.Waiting?)
    && (forall c :: 0 <= c < |calls| && !calls[c].phase.Waiting? ==> c in started)
    && (forall i, j :: 0 <= i < j < |started| && calls[started[i]].key == calls[started[j]].key ==>
          started[i] < started[j])
  }

  predicate Inv(s: State) {
    && CallsOk(s.calls)
    && TailsOk(s.calls, s.tails)
    && StartsOk(s.calls, s.started)
    && (s.maxKeys > 0 ==> |s.tails| <= s.maxKeys)
  }

  lemma EnterKeepsCalls(calls: seq<Call>, x: Call)
    requires CallsOk(calls) && x.phase.Waiting? && Chained(calls + [x], |calls|)
    ensures CallsOk(calls + [x])
  {
  }

  lemma EnterKeepsTails(calls: seq<Call>, tails: map<string, nat>, x: Call)
    requires TailsOk(calls, tails) && x.phase.Waiting?
    ensures TailsOk(calls + [x], tails[x.key := |calls|])
  {}

  lemma EnterKeepsStarts(calls: seq<Call>, started: seq<nat>, x: Call)
    requires StartsOk(calls, started) && x.phase.Waiting?
    ensures StartsOk(calls + [x], started)
  {
  }

  lemma EnterKeeps(s: State, clientId: string, idempotencyKey: string)
    requires Inv(s)
    ensures Inv(Apply(s, Enter(clientId, idempotencyKey)))
  {
    var key := BuildKey(clientId, idempotencyKey);
    if !Full(s, key) {
      var x := Call(key, if key in s.tails then Some(s.tails[key]) else None, Waiting);
      assert Chained(s.calls + [x], |s.calls|);
      EnterKeepsCalls(s.calls, x);
      EnterKeepsTails(s.calls, s.tails, x);
      EnterKeepsStarts(s.calls, s.started, x);
      assert s.tails[key := |s.calls|].Keys == s.tails.Keys + {key};
    }
  }

  /** The call whose previous tail has closed has nothing of its key left before it. */
  lemma PrevClosedMeansEarlierClosed(s: State, c: nat)
    requires CallsOk(s.calls) && c < |s.calls| && PrevClosed(s, c)
    ensures EarlierClosed(s.calls, c)
  {
  }

  lemma PhaseKeepsCalls(calls: seq<Call>, c: nat, phase: Phase)
    requires CallsOk(calls) && c < |calls| && !calls[c].phase.Closed?
    requires !phase.Waiting? && EarlierClosed(calls, c)
    ensures CallsOk(Phased(calls, c, phase))
  {
  }

  lemma PhaseKeepsTails(calls: seq<Call>, tails: map<string, nat>, c: nat, phase: Phase)
    requires TailsOk(calls, tails) && c < |calls| && !calls[c].phase.Closed? && !phase.Closed?
    ensures TailsOk(Phased(calls, c, phase), tails)
  {}

  lemma PhaseKeepsStarts(calls: seq<Call>, started: seq<nat>, c: nat, phase: Phase)
    requires StartsOk(calls, started) && c < |calls| && !calls[c].phase.Waiting? && !phase.Waiting?
    ensures StartsOk(Phased(calls, c, phase), started)
  {}

  lemma BeginStarts(calls: seq<Call>, started: seq<nat>, c: nat)
    requires CallsOk(calls) && StartsOk(calls, started) && c < |calls| && calls[c].phase.Waiting?
    ensures StartsOk(Phased(calls, c, Running), started + [c])
  {
  }

  lemma BeginKeeps(s: State, c: nat)
    requires Inv(s)
    ensures Inv(Apply(s, Begin(c)))
  {
    if c < |s.calls| && s.calls[c].phase.Waiting? && PrevClosed(s, c) {
      PrevClosedMeansEarlierClosed(s, c);
      PhaseKeepsCalls(s.calls, c, Running);
      PhaseKeepsTails(s.calls, s.tails, c, Running);
      BeginStarts(s.calls, s.started, c);
    }
  }

  lemma SettleKeeps(s: State, c: nat, ok: bool)
    requires Inv(s)
    ensures Inv(Apply(s, Settle(c, ok)))
  {
    if c < |s.calls| && s.calls[c].phase.Running? {
      assert EarlierClosed(s.calls, c);
      PhaseKeepsCalls(s.calls, c, Settled(ok));
      PhaseKeepsTails(s.calls, s.tails, c, Settled(ok));
      PhaseKeepsStarts(s.calls, s.started, c, Settled(ok));
    }
  }

  lemma CloseTails(calls: seq<Call>, tails: map<string, nat>, c: nat)
    requires TailsOk(calls, tails) && c < |calls| && !calls[c].phase.Closed? && EarlierClosed(calls, c)
    ensures var key := calls[c].key;
      TailsOk(Phased(calls, c, Closed), if tails[key] == c then tails - {key} else tails)
  {
  }

  lemma CloseKeeps(s: State, c: nat)
    requires Inv(s)
    ensures Inv(Apply(s, Close(c)))
  {
    if c < |s.calls| && s.calls[c].phase.Settled? {
      assert EarlierClosed(s.calls, c);
      PhaseKeepsCalls(s.calls, c, Closed);
      PhaseKeepsStarts(s.calls, s.started, c, Closed);
      CloseTails(s.calls, s.tails, c);
      assert (s.tails - {s.calls[c].key}).Keys == s.tails.Keys - {s.calls[c].key};
    }
  }

  lemma ApplyKeeps(s: State, e: Event)
    requires Inv(s)
    ensures Inv(Apply(s, e)) && Apply(s, e).maxKeys == s.maxKeys
  {
    match e
    case Enter(clientId, idempotencyKey) => EnterKeeps(s, clientId, idempotencyKey);
    case Begin(c) => BeginKeeps(s, c);
    case Settle(c, ok) => SettleKeeps(s, c, ok);
    case Close(c) => CloseKeeps(s, c);
  }

  function Run(s: State, es: seq<Event>): State
    decreases |es|
  {
    if es == [] then s else Run(Apply(s, es[0]), es[1..])
  }

  lemma {:induction false} RunKeeps(s: State, es: seq<Event>)
    requires Inv(s)
    ensures Inv(Run(s, es)) && Run(s, es).maxKeys == s.maxKeys
    decreases |es|
  {
    if es != [] {
      ApplyKeeps(s, es[0]);
      RunKeeps(Apply(s, es[0]), es[1..]);
    }
  }

  // -------------------------------------------------------------------- the results

  /**
   In every run: two tasks of one client and key are never under way together, they start in call
   order whatever became of the earlier ones, and the number of tracked keys stays within the cap.
   */
  lemma OneAtATimeInCallOrder(maxKeys: nat, es: seq<Event>, a: nat, b: nat)
    ensures var s := Run(Initial(maxKeys), es);
      && (a < b < |s.calls| && s.calls[a].key == s.calls[b].key && !s.calls[b].phase.Waiting? ==>
            s.calls[a].phase.Closed?)
      && (a < b < |s.started| ==>
            && s.started[a] < |s.calls| && s.started[b] < |s.calls|
            && (s.calls[s.started[a]].key == s.calls[s.started[b]].key ==> s.started[a] < s.started[b]))
      && (maxKeys > 0 ==> |s.tails| <= maxKeys)
  {
    RunKeeps(Initial(maxKeys), es);
    var s := Run(Initial(maxKeys), es);
    if b < |s.calls| && !s.calls[b].phase.Waiting? {
      assert EarlierClosed(s.calls, b);
    }
  }

  /** In every run a key is tracked exactly while it has an unfinished call. */
  lemma TrackedIffUnfinished(maxKeys: nat, es: seq<Event>, key: string)
    ensures var s := Run(Initial(maxKeys), es);
      key in s.tails <==> exists c :: 0 <= c < |s.calls| && s.calls[c].key == key && !s.calls[c].phase.Closed?
  {
    RunKeeps(Initial(maxKeys), es);
  }

  /** A key's entry is removed only by the closing of the newest call of that key. */
  lemma OnlyNewestRemoves(s: State, e: Event, key: string)
    requires Inv(s)
    ensures key in s.tails && key !in Apply(s, e).tails ==>
      e == Close(s.tails[key]) && forall d :: s.tails[key] < d < |s.calls| ==> s.calls[d].key != key
  {}

  /** What entering does: a new call behind the tail of its key, or a refusal when the map is full. */
  lemma EnterAnswers(s: State, clientId: string, idempotencyKey: string)
    ensures var t := Apply(s, Enter(clientId, idempotencyKey)); var key := clientId + ":" + idempotencyKey;
      if s.maxKeys > 0 && key !in s.tails && |s.tails| >= s.maxKeys
      then t == s.(rejected := s.rejected + 1)
      else
        && |t.calls| == |s.calls| + 1 && t.calls[..|s.calls|] == s.calls && t.tails == s.tails[key := |s.calls|]
        && t.calls[|s.calls|].key == key && t.calls[|s.calls|].phase == Waiting
        && t.calls[|s.calls|].prev == (if key in s.tails then Some(s.tails[key]) else None)
        && t.rejected == s.rejected && t.started == s.started
  {
  }

  predicate OnlyPhase(s: State, t: State, c: nat, phase: Phase) {
    && c < |s.calls| && t.calls == s.calls[c := s.calls[c].(phase := phase)] && t.maxKeys == s.maxKeys
    && t.rejected == s.rejected
  }

  /** A task starts only when the tail before it has closed, settles as it ends, and then closes. */
  lemma PhasesAnswer(s: State, c: nat, ok: bool)
    requires c < |s.calls|
    ensures s.calls[c].phase.Waiting? && PrevClosed(s, c) ==>
      OnlyPhase(s, Apply(s, Begin(c)), c, Running) && Apply(s, Begin(c)).started == s.started + [c]
      && Apply(s, Begin(c)).tails == s.tails
    ensures !(s.calls[c].phase.Waiting? && PrevClosed(s, c)) ==> Apply(s, Begin(c)) == s
    ensures s.calls[c].phase.Running? ==>
      OnlyPhase(s, Apply(s, Settle(c, ok)), c, Settled(ok)) && Apply(s, Settle(c, ok)).tails == s.tails
    ensures s.calls[c].phase.Settled? ==>
      && OnlyPhase(s, Apply(s, Close(c)), c, Closed)
      && Apply(s, Close(c)).tails == if s.calls[c].key in s.tails && s.tails[s.calls[c].key] == c
                                     then s.tails - {s.calls[c].key} else s.tails
  {
  }

  /** No deadlock: the oldest unfinished call of any key can always take its next step. */
  lemma OldestCanStep(s: State, c: nat)
    requires Inv(s) && c < |s.calls| && !s.calls[c].phase.Closed? && EarlierClosed(s.calls, c)
    ensures var e := if s.calls[c].phase.Waiting? then Begin(c)
                     else if s.calls[c].phase.Running? then Settle(c, false) else Close(c);
      Apply(s, e).calls[c].phase != s.calls[c].phase
  {
    assert Chained(s.calls, c);
  }

  /** The second client id is the first one, a colon and the rest, which the first key then carries. */
  ghost predicate Runs(c1: string, k1: string, c2: string, k2: string) {
    exists d :: c2 == c1 + ":" + d && k1 == d + ":" + k2
  }

  lemma LongerIdRuns(c1: string, k1: string, c2: string, k2: string)
    requires BuildKey(c1, k1) == BuildKey(c2, k2) && |c1| < |c2|
    ensures Runs(c1, k1, c2, k2)
  {
    var key := BuildKey(c1, k1);
    var d := c2[|c1| + 1..];
    assert c2 == key[..|c2|] && c1 == key[..|c1|] && key[|c1|] == ':';
    assert c2 == c1 + ":" + d;
    assert k1 == key[|c1| + 1..] && k2 == key[|c2| + 1..] && key[|c2|] == ':';
    assert k1 == d + ":" + k2;
  }

  lemma RunsCollide(c1: string, k1: string, c2: string, k2: string)
    requires Runs(c1, k1, c2, k2)
    ensures BuildKey(c1, k1) == BuildKey(c2, k2)
  {
    var d :| c2 == c1 + ":" + d && k1 == d + ":" + k2;
    assert c1 + ":" + (d + ":" + k2) == (c1 + ":" + d) + ":" + k2;
  }

  /** Exactly when two calls share a key: the same pair, or one client id runs on into the other's key. */
  lemma KeysCollideIff(c1: string, k1: string, c2: string, k2: string)
    ensures BuildKey(c1, k1) == BuildKey(c2, k2) <==>
      (c1 == c2 && k1 == k2) || Runs(c1, k1, c2, k2) || Runs(c2, k2, c1, k1)
  {
    if BuildKey(c1, k1) == BuildKey(c2, k2) {
      if |c1| < |c2| {
        LongerIdRuns(c1, k1, c2, k2);
      } else if |c2| < |c1| {
        LongerIdRuns(c2, k2, c1, k1);
      } else {
        var key := BuildKey(c1, k1);
        assert c1 == key[..|c1|] && c2 == key[..|c1|] && k1 == key[|c1| + 1..] && k2 == key[|c1| + 1..];
      }
    } else {
      if Runs(c1, k1, c2, k2) { RunsCollide(c1, k1, c2, k2); }
      if Runs(c2, k2, c1, k1) { RunsCollide(c2, k2, c1, k1); }
    }
  }

  /** Two clients that share a key. */
  lemma ColonsCollide()
    ensures BuildKey("a:b", "c") == BuildKey("a", "b:c")
  {
  }

  /** Client ids without a colon never share a key. */
  lemma KeysAreDistinct(c1: string, k1: string, c2: string, k2: string)
    requires ':' !in c1 && ':' !in c2 && BuildKey(c1, k1) == BuildKey(c2, k2)
    ensures c1 == c2 && k1 == k2
  {
    KeysCollideIff(c1, k1, c2, k2);
  }

  // --------------------------------------------------------------------- the module

  /** The module-level map with its three moments: the call, the task's start, the tail's end. */
  class Tails {
    const maxKeys: nat
    var calls: seq<Call>
    var tails: map<string, nat>
    var rejected: nat
    ghost var started: seq<nat>

    ghost function Model(): State
      reads this
    {
      State(maxKeys, calls, tails, rejected, started)
    }

    constructor (maxKeys: nat)
      ensures Model() == Initial(maxKeys) && Inv(Model())
    {
      this.maxKeys, calls, tails, rejected, started := maxKeys, [], map[], 0, [];
    }

    method Chain(clientId: string, idempotencyKey: string) returns (call: Option<nat>)
      modifies this
      ensures Model() == Apply(old(Model()), Enter(clientId, idempotencyKey))
      ensures call.None? <==> Full(old(Model()), BuildKey(clientId, idempotencyKey))
    {
      var key := BuildKey(clientId, idempotencyKey);
      if maxKeys > 0 && key !in tails && |tails| >= maxKeys {
        rejected := rejected + 1;
        return None;
      }
      var prev := if key in tails then Some(tails[key]) else None;
      call := Some(|calls|);
      tails := tails[key := |calls|];
      calls := calls + [Call(key, prev, Waiting)];
    }

    method RunWith(clientId: string, idempotencyKey: string) returns (call: Option<nat>)
      requires Inv(Model())
      modifies this
      ensures Inv(Model()) && Model() == Apply(old(Model()), Enter(clientId, idempotencyKey))
      ensures call.None? <==> Full(old(Model()), BuildKey(clientId, idempotencyKey))
    {
      ApplyKeeps(Model(), Enter(clientId, idempotencyKey));
      call := Chain(clientId, idempotencyKey);
    }

    method TaskStarts(c: nat)
      requires Inv(Model()) && c < |calls| && calls[c].phase.Waiting? && PrevClosed(Model(), c)
      modifies this
      ensures Inv(Model()) && Model() == Apply(old(Model()), Begin(c))
    {
      ApplyKeeps(Model(), Begin(c));
      calls := calls[c := calls[c].(phase := Running)];
      started := started + [c];
    }

    method TailCloses(c: nat)
      requires Inv(Model()) && c < |calls| && calls[c].phase.Settled?
      modifies this
      ensures Inv(Model()) && Model() == Apply(old(Model()), Close(c))
    {
      ApplyKeeps(Model(), Close(c));
      var key := calls[c].key;
      calls := calls[c := calls[c].(phase := Closed)];
      if key in tails && tails[key] == c {
        tails := tails - {key};
      }
    }
  }
}
