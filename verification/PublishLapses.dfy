/**
 Exactly which lapsed leases let a second publish happen.
 */
module PublishLapses {
  import opened Options
  import opened IdempotentPublish
  import opened PublishSafety

  /** From here, without any further failure, one more publish is made than was due. */
  predicate EmitsAgain(s: Sys, es: seq<Step>) {
    !Run(s, es).degraded && |Run(s, es).emits| > 1
  }

  lemma {:induction false} FreshNat(used: set<nat>) returns (n: nat)
    ensures forall x :: x in used ==> x < n
  {
    if used == {} {
      n := 0;
    } else {
      var x :| x in used;
      n := FreshNat(used - {x});
      assert forall y :: y in used ==> y == x || y in used - {x};
      if n <= x { n := x + 1; }
    }
  }

  function WithLast(s: Sys, call: Call): Sys {
    s.(calls := s.calls + [call])
  }

  /** A new call on an idle process starts by looking for an entry. */
  lemma NewcomerLooks(s: Sys, p: nat, fp: nat)
    requires s.shared && p !in s.busy && p !in s.locals
    ensures var x := |s.calls|;
      Run(s, [Arrive(p, fp), Begin(x)]) == WithLast(s, Call(p, fp, Looking)).(busy := s.busy[p := x])
  {
    var x := |s.calls|;
    var t := WithLast(s, Call(p, fp, New));
    assert DoBegin(t, x).calls == WithLast(s, Call(p, fp, Looking)).calls;
    TwoSteps(s, Arrive(p, fp), Begin(x));
  }

  lemma TwoSteps(s: Sys, d: Step, e: Step)
    ensures Run(s, [d, e]) == Do(Do(s, d), e)
  {
    RunAppend(s, [d], e);
    RunAppend(s, [], d);
    assert [d, e] == [d] + [e] && [] + [d] == [d];
  }

  /** Finding no entry and a free lock, it takes the lock, re-checks and is about to emit. */
  lemma LookerReachesEmit(s: Sys, p: nat, fp: nat)
    requires s.lock.None? && s.entry.None?
    ensures var x := |s.calls|;
      Run(WithLast(s, Call(p, fp, Looking)), [GetEntry(x, Good), Acquire(x), Recheck(x, Good)])
      == WithLast(s, Call(p, fp, Emitting(true))).(lock := Some(x))
  {
    var x := |s.calls|;
    var t := WithLast(s, Call(p, fp, Looking));
    var u := WithLast(s, Call(p, fp, Wanting));
    var v := WithLast(s, Call(p, fp, Rechecking)).(lock := Some(x));
    var es := [GetEntry(x, Good), Acquire(x), Recheck(x, Good)];
    assert Do(t, es[0]) == u && Do(u, es[1]) == v;
    assert Do(v, es[2]) == WithLast(s, Call(p, fp, Emitting(true))).(lock := Some(x));
    ThreeSteps(t, es[0], es[1], es[2]);
  }

  lemma ThreeSteps(s: Sys, c: Step, d: Step, e: Step)
    ensures Run(s, [c, d, e]) == Do(Do(Do(s, c), d), e)
  {
    RunAppend(s, [c, d], e);
    TwoSteps(s, c, d);
    assert [c, d, e] == [c, d] + [e];
  }

  function EnterSteps(x: nat, p: nat, fp: nat): seq<Step> {
    [Arrive(p, fp), Begin(x)] + [GetEntry(x, Good), Acquire(x), Recheck(x, Good)]
  }

  lemma NewcomerReachesEmit(s: Sys, p: nat, fp: nat)
    requires s.shared && s.lock.None? && s.entry.None? && p !in s.busy && p !in s.locals
    ensures var x := |s.calls|;
      Run(s, EnterSteps(x, p, fp))
      == WithLast(s, Call(p, fp, Emitting(true))).(busy := s.busy[p := x], lock := Some(x))
  {
    var x := |s.calls|;
    NewcomerLooks(s, p, fp);
    LookerReachesEmit(s.(busy := s.busy[p := x]), p, fp);
    RunConcat(s, [Arrive(p, fp), Begin(x)], [GetEntry(x, Good), Acquire(x), Recheck(x, Good)]);
  }

  /** The holder, no longer covered by its lease, goes on to emit if it has not yet. */
  function HolderSteps(pc: Pc, h: nat): seq<Step> {
    if pc.Rechecking? then [Recheck(h, Good), Publish(h, true)]
    else if pc.Emitting? then [Publish(h, true)]
    else []
  }

  lemma HolderEmits(s: Sys, h: nat)
    requires h < |s.calls| && s.entry.None? && (s.calls[h].pc.Rechecking? || s.calls[h].pc.Emitting?)
    ensures var t := Run(s, HolderSteps(s.calls[h].pc, h));
      && |t.emits| == |s.emits| + 1 && t.degraded == s.degraded && |t.calls| == |s.calls|
      && forall c :: 0 <= c < |s.calls| && c != h ==> t.calls[c] == s.calls[c]
  {
    if s.calls[h].pc.Rechecking? {
      TwoSteps(s, Recheck(h, Good), Publish(h, true));
      assert Do(s, Recheck(h, Good)) == Go(s, h, Emitting(true));
    } else {
      RunAppend(s, [], Publish(h, true));
      assert [] + [Publish(h, true)] == [Publish(h, true)];
    }
  }

  /** A newcomer on process p takes the lock that lapsed, then the holder and the newcomer emit. */
  function SecondEmit(s: Sys, h: nat, p: nat): seq<Step>
    requires h < |s.calls|
  {
    EnterSteps(|s.calls|, p, 0) + HolderSteps(s.calls[h].pc, h) + [Publish(|s.calls|, true)]
  }

  lemma NeededLapseEmitsAgain(s: Sys, h: nat, p: nat)
    requires Safe(s) && s.shared && !s.degraded && s.lock == Some(h) && p !in s.busy && p !in s.locals
    ensures NeedsLease(s, h) ==> EmitsAgain(s.(lock := None), SecondEmit(s, h, p))
  {
    if NeedsLease(s, h) {
      var t := s.(lock := None);
      var x := |s.calls|;
      var enter, finish := EnterSteps(x, p, 0), HolderSteps(s.calls[h].pc, h);
      NewcomerReachesEmit(t, p, 0);
      var u := Run(t, enter);
      if finish != [] {
        HolderEmits(u, h);
      }
      var v := Run(u, finish);
      RunConcat(t, enter, finish);
      RunAppend(t, enter + finish, Publish(x, true));
      assert v.calls[x].pc == Emitting(true);
    }
  }

  /** A lease that is not needed: nothing that follows its lapse alone emits again. */
  lemma UnneededLapseIsHarmless(s: Sys, h: nat, es: seq<Step>)
    requires Safe(s) && s.shared && s.lock == Some(h) && !NeedsLease(s, h)
    ensures !EmitsAgain(s.(lock := None), es)
  {
    LapseSafe(s);
    RunSafe(s.(lock := None), es);
  }

  /**
   Exactly which lapses count. In every reachable state with the lock held, a second emit can
   follow the lapse without any other failure if and only if no entry is stored and the holder has
   emitted or still may. A holder that died before it emitted, or after it stored, may lapse.
   */
  lemma LapseHarmsIff(run: seq<Step>, h: nat)
    ensures var s := Run(Initial(true), run);
      !s.degraded && s.lock == Some(h) ==>
        ((exists es :: EmitsAgain(s.(lock := None), es)) <==> NeedsLease(s, h))
  {
    var s := Run(Initial(true), run);
    RunSafe(Initial(true), run);
    if !s.degraded && s.lock == Some(h) {
      if NeedsLease(s, h) {
        var p := FreshNat(s.busy.Keys + s.locals.Keys);
        NeededLapseEmitsAgain(s, h, p);
        assert EmitsAgain(s.(lock := None), SecondEmit(s, h, p));
      } else {
        forall es
          ensures !EmitsAgain(s.(lock := None), es)
        {
          UnneededLapseIsHarmless(s, h, es);
        }
      }
    }
  }

  /** A run and the system it leads to. */
  predicate Leads(es: seq<Step>, s: Sys) {
    s == Run(Initial(true), es)
  }

  lemma Then(es: seq<Step>, s: Sys, e: Step)
    ensures Leads(es, s) ==> Leads(es + [e], Do(s, e))
  {
    RunAppend(Initial(true), es, e);
  }

  /** Two replicas arrive, read no entry, and the first one takes the lock. */
  lemma RaceOpens() returns (es: seq<Step>, s: Sys)
    ensures Leads(es, s) && |s.calls| == 2
    ensures At(s, 0, Rechecking) && At(s, 1, Wanting) && s.lock == Some(0) && s.entry == None && s.emits == []
    ensures s.calls[0].fp == s.calls[1].fp == 7 && s.calls[0].proc == 0 && s.calls[1].proc == 1
  {
    es, s := [], Initial(true);
    Then(es, s, Arrive(0, 7)); es, s := es + [Arrive(0, 7)], Do(s, Arrive(0, 7));
    Then(es, s, Arrive(1, 7)); es, s := es + [Arrive(1, 7)], Do(s, Arrive(1, 7));
    Then(es, s, Begin(0)); es, s := es + [Begin(0)], DoBegin(s, 0);
    Then(es, s, Begin(1)); es, s := es + [Begin(1)], DoBegin(s, 1);
    Then(es, s, GetEntry(0, Good)); es, s := es + [GetEntry(0, Good)], Do(s, GetEntry(0, Good));
    Then(es, s, GetEntry(1, Good)); es, s := es + [GetEntry(1, Good)], Do(s, GetEntry(1, Good));
    Then(es, s, Acquire(0)); es, s := es + [Acquire(0)], Do(s, Acquire(0));
  }

  /**
   The `degraded` escape is real: if the first replica's lease lapses before it emits, both
   replicas pass their re-check and the same body is emitted twice.
   */
  lemma LapsedLeaseEmitsTwice() returns (es: seq<Step>)
    ensures Run(Initial(true), es).emits == [Emit(0, 0, 7), Emit(1, 1, 7)]
  {
    var s;
    es, s := RaceOpens();
    Then(es, s, Recheck(0, Good)); es, s := es + [Recheck(0, Good)], DoRecheck(s, 0, Good);
    Then(es, s, LeaseLapses); es, s := es + [LeaseLapses], Do(s, LeaseLapses);
    Then(es, s, Acquire(1)); es, s := es + [Acquire(1)], Do(s, Acquire(1));
    Then(es, s, Recheck(1, Good)); es, s := es + [Recheck(1, Good)], DoRecheck(s, 1, Good);
    Then(es, s, Publish(0, true)); es, s := es + [Publish(0, true)], DoPublish(s, 0, true);
    Then(es, s, Publish(1, true)); es, s := es + [Publish(1, true)], DoPublish(s, 1, true);
  }
}
