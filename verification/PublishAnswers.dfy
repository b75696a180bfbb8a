/**
 What a publish call must answer: a stored entry is replayed or is a conflict, whoever emitted
 answers "published", a failure has a cause, and a call that nobody disturbs goes through.
 */
module PublishAnswers {
  import opened Options
  import opened IdempotentPublish
  import opened PublishLapses

  // --------------------------------------------------------------- meeting an entry

  /** The answer to a body that meets an entry: the stored event, or a conflict for another body. */
  predicate Answers(r: Result, e: Entry, fp: nat) {
    if e.fp == fp then r == Replayed(e.eventId) else r == Conflict
  }

  predicate Returns(s: Sys, t: Sys, c: nat, r: Result) {
    && |t.calls| == |s.calls| && c < |t.calls| && t.calls[c].pc == Done(r)
    && t.emits == s.emits && t.entry == s.entry && t.locals == s.locals
  }

  /** A process that remembers the key answers from its own entry, without a word to the store. */
  lemma LocalEntryAnswers(s: Sys, c: nat)
    requires At(s, c, New) && s.calls[c].proc !in s.busy && s.calls[c].proc in s.locals
    ensures var t := Do(s, Begin(c)); var e := s.locals[s.calls[c].proc];
      && |t.calls| == |s.calls| && t.calls[c].pc.Done? && Returns(s, t, c, t.calls[c].pc.r)
      && Answers(t.calls[c].pc.r, e, s.calls[c].fp) && t.lock == s.lock
  {
  }

  /** The first look at the store, or a poll while another holds the lock. */
  lemma StoredEntryAnswers(s: Sys, c: nat)
    requires s.entry.Some? && (At(s, c, Looking) || At(s, c, Polling))
    ensures var t := Do(s, if s.calls[c].pc.Looking? then GetEntry(c, Good) else Poll(c, Good));
      && |t.calls| == |s.calls| && t.calls[c].pc.Done? && Returns(s, t, c, t.calls[c].pc.r)
      && Answers(t.calls[c].pc.r, s.entry.value, s.calls[c].fp) && t.lock == s.lock
  {
  }

  /** The look under the lock: the lock is given back and the same answer returned. */
  lemma RecheckedEntryAnswers(s: Sys, c: nat, failed: bool)
    requires s.entry.Some? && At(s, c, Rechecking)
    ensures var t := Do(Do(s, Recheck(c, Good)), ReleaseReplay(c, failed));
      && |t.calls| == |s.calls| && t.calls[c].pc.Done? && Returns(s, t, c, t.calls[c].pc.r)
      && Answers(t.calls[c].pc.r, s.entry.value, s.calls[c].fp)
      && (!failed ==> t.lock == if s.lock == Some(c) then None else s.lock)
  {
  }

  /** Without an entry the looks go on: to the lock, to another poll, to the emit. */
  lemma NoEntryGoesOn(s: Sys, c: nat)
    requires s.entry.None?
    ensures At(s, c, Looking) ==> At(Do(s, GetEntry(c, Good)), c, Wanting)
    ensures At(s, c, Polling) ==> Do(s, Poll(c, Good)) == s
    ensures At(s, c, Rechecking) ==> At(Do(s, Recheck(c, Good)), c, Emitting(true))
    ensures At(s, c, Wanting) && s.lock.Some? ==> At(Do(s, Acquire(c)), c, Polling)
    ensures At(s, c, Wanting) && s.lock.None? ==>
      At(Do(s, Acquire(c)), c, Rechecking) && Do(s, Acquire(c)).lock == Some(c)
  {
  }

  /** A read that throws fails the call, under the lock only after giving that back. */
  lemma FailedReadAnswers(s: Sys, c: nat)
    ensures At(s, c, Looking) ==> Returns(s, Do(s, GetEntry(c, Throws)), c, Failed)
    ensures At(s, c, Polling) ==> Returns(s, Do(s, Poll(c, Throws)), c, Failed)
    ensures At(s, c, Polling) ==> Returns(s, Do(s, PollTimeout(c)), c, Busy)
    ensures At(s, c, Rechecking) ==>
      var t := Do(Do(s, Recheck(c, Throws)), ReleaseReplay(c, false));
      Returns(s, t, c, Failed) && t.lock == if s.lock == Some(c) then None else s.lock
  {
  }

  /** A read that swallows its failure goes on as if there were no entry. */
  lemma SwallowedReadAnswers(s: Sys, c: nat)
    ensures At(s, c, Looking) ==> Do(s, GetEntry(c, Swallowed)) == s.(calls := s.calls[c := s.calls[c].(pc := Wanting)])
    ensures At(s, c, Polling) ==> Do(s, Poll(c, Swallowed)) == s
    ensures At(s, c, Rechecking) ==>
      var t := Do(s, Recheck(c, Swallowed));
      && t.calls == s.calls[c := s.calls[c].(pc := Emitting(true))]
      && t.lock == s.lock && t.entry == s.entry && (t.degraded <==> s.degraded || s.entry.Some?)
  {
  }

  /** A lock that cannot be asked for leaves the call to emit without it, perhaps behind a lock it took. */
  lemma LockErrorAnswers(s: Sys, c: nat, taken: bool)
    requires At(s, c, Wanting)
    ensures var t := Do(s, AcquireError(c, taken));
      && t.calls == s.calls[c := s.calls[c].(pc := Emitting(false))] && t.degraded && t.entry == s.entry
      && t.emits == s.emits && t.locals == s.locals
      && t.lock == (if s.lock.None? && taken then Some(c) else s.lock)
      && t.stuck == if s.lock.None? && taken then s.stuck + {c} else s.stuck
  {
  }

  /** What the world does: leases lapse, entries expire and calls arrive. */
  lemma WorldSteps(s: Sys, p: nat, proc: nat, fp: nat)
    ensures Do(s, LeaseLapses).lock == None && Do(s, LeaseLapses).calls == s.calls
    ensures Do(s, LeaseLapses).entry == s.entry && Do(s, LeaseLapses).emits == s.emits
    ensures Do(s, EntryExpires).entry == None && (s.entry.Some? ==> Do(s, EntryExpires).degraded)
    ensures p !in Do(s, LocalExpires(p)).locals && p in Do(s, LocalExpires(p)).lost
    ensures Do(s, Arrive(proc, fp)).calls == s.calls + [Call(proc, fp, New)]
  {
  }

  /** A process dies with its running call and its memory; the store stays as it is. */
  lemma CrashTakes(s: Sys, p: nat)
    ensures var t := Do(s, Crash(p));
      && p !in t.locals && p !in t.busy && p in t.lost && t.lock == s.lock && t.entry == s.entry
      && (p in s.busy && s.busy[p] < |s.calls| ==> t.calls == s.calls[s.busy[p] := s.calls[s.busy[p]].(pc := Dead)])
  {
  }

  // ------------------------------------------------------------- how a call moves on

  predicate FromEntry(r: Result) {
    r.Replayed? || r == Conflict
  }

  /** The moves of one call before its emit. */
  predicate FrontMove(e: Step, a: Pc, b: Pc) {
    match e
    case Begin(_) => a.New? && (b.Looking? || b == Emitting(false) || (b.Done? && FromEntry(b.r)))
    case GetEntry(_, read) =>
      a.Looking? && (b.Wanting? || (b.Done? && (FromEntry(b.r) || (read.Throws? && b.r == Failed))))
    case Acquire(_) => a.Wanting? && (b.Polling? || b.Rechecking?)
    case AcquireError(_, _) => a.Wanting? && b == Emitting(false)
    case Poll(_, read) => a.Polling? && b.Done? && (FromEntry(b.r) || (read.Throws? && b.r == Failed))
    case PollTimeout(_) => a.Polling? && b == Done(Busy)
    case Recheck(_, read) =>
      a.Rechecking? &&
      (b == Emitting(true) || (b.GivingBack? && (FromEntry(b.r) || (read.Throws? && b.r == Failed))))
    case _ => false
  }

  /** The moves of one call from its emit on. */
  predicate BackMove(e: Step, a: Pc, b: Pc) {
    match e
    case Publish(_, ok) =>
      a.Emitting? && if ok then b == Emitted(a.locked) else b == Releasing(Failed) || b == Done(Failed)
    case SaveLocal(_) => a.Emitted? && b == Persisting(a.locked)
    case Commit(_, _) => a.Persisting? && (b == Done(Published) || b == Releasing(Published))
    case CommitError(_, _) => a.Persisting? && b == Releasing(Published)
    case ReleaseReplay(_, _) => a.GivingBack? && b == Done(a.r)
    case Release(_, _) => a.Releasing? && b == Done(a.r)
    case Crash(_) => b.Dead?
    case _ => false
  }

  /** Does the step belong to this call? A crash belongs to nobody. */
  predicate Own(e: Step, c: nat) {
    match e
    case Arrive(_, _) => false
    case LeaseLapses => false
    case EntryExpires => false
    case LocalExpires(_) => false
    case Crash(_) => false
    case _ => e.c == c
  }

  predicate Moved(e: Step, c: nat, a: Pc, b: Pc) {
    || a == b
    || (Own(e, c) && (FrontMove(e, a, b) || BackMove(e, a, b)))
    || (e.Crash? && b.Dead?)
  }

  /** The step leaves the call where it was or moves it on as its own step may; only a publish emits. */
  predicate MovesOk(s: Sys, t: Sys, e: Step, c: nat) {
    && |s.calls| <= |t.calls| && (c < |s.calls| ==> Moved(e, c, s.calls[c].pc, t.calls[c].pc))
    && (|s.calls| <= c < |t.calls| ==> t.calls[c].pc.New?)
    && (!e.Publish? ==> t.emits == s.emits)
  }

  lemma BeginMoves(s: Sys, e: Step, c: nat)
    requires e.Begin?
    ensures MovesOk(s, Do(s, e), e, c)
  {
  }

  lemma GetEntryMoves(s: Sys, e: Step, c: nat)
    requires e.GetEntry?
    ensures MovesOk(s, Do(s, e), e, c)
  {
  }

  lemma AcquireMoves(s: Sys, e: Step, c: nat)
    requires e.Acquire? || e.AcquireError?
    ensures MovesOk(s, Do(s, e), e, c)
  {
  }

  lemma PollMoves(s: Sys, e: Step, c: nat)
    requires e.Poll? || e.PollTimeout?
    ensures MovesOk(s, Do(s, e), e, c)
  {
  }

  lemma RecheckMoves(s: Sys, e: Step, c: nat)
    requires e.Recheck?
    ensures MovesOk(s, Do(s, e), e, c)
  {
  }

  lemma EmitMoves(s: Sys, e: Step, c: nat)
    requires e.Publish? || e.SaveLocal?
    ensures MovesOk(s, Do(s, e), e, c)
  {
  }

  lemma CommitMoves(s: Sys, e: Step, c: nat)
    requires e.Commit?
    ensures MovesOk(s, Do(s, e), e, c)
  {
  }

  lemma CommitErrorMoves(s: Sys, e: Step, c: nat)
    requires e.CommitError?
    ensures MovesOk(s, Do(s, e), e, c)
  {
  }

  lemma ReleaseMoves(s: Sys, e: Step, c: nat)
    requires e.ReleaseReplay? || e.Release?
    ensures MovesOk(s, Do(s, e), e, c)
  {
  }

  lemma StepMoves(s: Sys, e: Step, c: nat)
    ensures MovesOk(s, Do(s, e), e, c)
  {
    match e
    case Begin(_) => BeginMoves(s, e, c);
    case GetEntry(_, _) => GetEntryMoves(s, e, c);
    case Acquire(_) => AcquireMoves(s, e, c);
    case AcquireError(_, _) => AcquireMoves(s, e, c);
    case Poll(_, _) => PollMoves(s, e, c);
    case PollTimeout(_) => PollMoves(s, e, c);
    case Recheck(_, _) => RecheckMoves(s, e, c);
    case Publish(_, _) => EmitMoves(s, e, c);
    case SaveLocal(_) => EmitMoves(s, e, c);
    case Commit(_, _) => CommitMoves(s, e, c);
    case CommitError(_, _) => CommitErrorMoves(s, e, c);
    case ReleaseReplay(_, _) => ReleaseMoves(s, e, c);
    case Release(_, _) => ReleaseMoves(s, e, c);
    case _ =>
  }

  // ------------------------------------------------------------ an answer stays given

  /** What a call is going to answer, once that is settled. */
  function Settled(pc: Pc): Option<Result> {
    match pc
    case GivingBack(r) => Some(r)
    case Releasing(r) => Some(r)
    case Done(r) => Some(r)
    case Emitted(_) => Some(Published)
    case Persisting(_) => Some(Published)
    case _ => None
  }

  /** No step changes a settled answer; only the death of the process can keep it from its caller. */
  lemma AnswerStays(s: Sys, e: Step, c: nat)
    requires c < |s.calls| && Settled(s.calls[c].pc).Some?
    ensures var t := Do(s, e);
      c < |t.calls| && (Settled(t.calls[c].pc) == Settled(s.calls[c].pc) || (e.Crash? && t.calls[c].pc.Dead?))
  {
    StepMoves(s, e, c);
    MoveKeepsAnswer(e, c, s.calls[c].pc, Do(s, e).calls[c].pc);
  }

  lemma FrontIsUnsettled(e: Step, a: Pc, b: Pc)
    requires FrontMove(e, a, b)
    ensures Settled(a).None?
  {
  }

  lemma BackKeepsAnswer(e: Step, a: Pc, b: Pc)
    requires BackMove(e, a, b) && !e.Crash?
    ensures Settled(a).Some? ==> Settled(b) == Settled(a)
  {
  }

  lemma MoveKeepsAnswer(e: Step, c: nat, a: Pc, b: Pc)
    requires Moved(e, c, a, b) && Settled(a).Some?
    ensures Settled(b) == Settled(a) || (e.Crash? && b.Dead?)
  {
    if Own(e, c) && BackMove(e, a, b) {
      BackKeepsAnswer(e, a, b);
    } else if Own(e, c) && FrontMove(e, a, b) {
      FrontIsUnsettled(e, a, b);
    }
  }

  /** The four ways a call can fail, and the one way it can be told to come back. */
  lemma FailureHasACause(s: Sys, e: Step, c: nat)
    requires c < |s.calls| && Settled(s.calls[c].pc).None?
    ensures var t := Do(s, e);
      && c < |t.calls|
      && (Settled(t.calls[c].pc) == Some(Failed) ==>
            || e == GetEntry(c, Throws) || e == Poll(c, Throws) || e == Recheck(c, Throws) || e == Publish(c, false))
      && (Settled(t.calls[c].pc) == Some(Busy) ==> e == PollTimeout(c))
  {
    StepMoves(s, e, c);
    MoveHasACause(e, c, s.calls[c].pc, Do(s, e).calls[c].pc);
  }

  predicate Fails(e: Step, c: nat) {
    e == GetEntry(c, Throws) || e == Poll(c, Throws) || e == Recheck(c, Throws) || e == Publish(c, false)
  }

  lemma FrontHasACause(e: Step, c: nat, a: Pc, b: Pc)
    requires Own(e, c) && FrontMove(e, a, b)
    ensures Settled(b) == Some(Failed) ==> Fails(e, c)
    ensures Settled(b) == Some(Busy) ==> e == PollTimeout(c)
    ensures Settled(b) != Some(Published)
  {
  }

  lemma BackHasACause(e: Step, c: nat, a: Pc, b: Pc)
    requires Own(e, c) && BackMove(e, a, b) && Settled(a).None?
    ensures Settled(b) == Some(Failed) ==> Fails(e, c)
    ensures Settled(b) != Some(Busy)
    ensures Settled(b) == Some(Published) ==> e == Publish(c, true)
  {
  }

  lemma MoveHasACause(e: Step, c: nat, a: Pc, b: Pc)
    requires Moved(e, c, a, b) && Settled(a).None?
    ensures Settled(b) == Some(Failed) ==> Fails(e, c)
    ensures Settled(b) == Some(Busy) ==> e == PollTimeout(c)
    ensures Settled(b) == Some(Published) ==> e == Publish(c, true)
  {
    if Own(e, c) && FrontMove(e, a, b) {
      FrontHasACause(e, c, a, b);
    } else if Own(e, c) && BackMove(e, a, b) {
      BackHasACause(e, c, a, b);
    }
  }

  // --------------------------------------------------------- who emitted answers so

  predicate EmitterOk(calls: seq<Call>, emits: seq<Emit>, c: nat) {
    c < |calls| && (calls[c].pc.Dead? || (Settled(calls[c].pc) == Some(Published) <==> EmittedBy(emits, c)))
  }

  predicate EmittersOk(s: Sys) {
    && (forall c :: 0 <= c < |s.calls| ==> EmitterOk(s.calls, s.emits, c))
    && (forall i :: 0 <= i < |s.emits| ==> s.emits[i].call < |s.calls|)
  }

  lemma EmitGrows(emits: seq<Emit>, x: Emit, c: nat)
    ensures EmittedBy(emits + [x], c) <==> EmittedBy(emits, c) || x.call == c
  {
    if EmittedBy(emits, c) {
      var i :| 0 <= i < |emits| && emits[i].call == c;
      assert (emits + [x])[i].call == c;
    }
    assert (emits + [x])[|emits|] == x;
  }

  /** A publish that succeeds from the emitting state adds that call's emit, and nothing else emits. */
  lemma PublishEmits(s: Sys, c: nat, ok: bool)
    ensures var t := Do(s, Publish(c, ok));
      t.emits == if ok && c < |s.calls| && s.calls[c].pc.Emitting?
                 then s.emits + [Emit(c, s.calls[c].proc, s.calls[c].fp)] else s.emits
  {
  }

  lemma StepEmitter(s: Sys, e: Step, c: nat)
    requires EmittersOk(s) && c < |Do(s, e).calls|
    ensures EmitterOk(Do(s, e).calls, Do(s, e).emits, c)
  {
    StepMoves(s, e, c);
    if e.Publish? {
      PublishEmits(s, e.c, e.ok);
      if e.c < |s.calls| { EmitGrows(s.emits, Emit(e.c, s.calls[e.c].proc, s.calls[e.c].fp), c); }
    }
    if c < |s.calls| {
      assert EmitterOk(s.calls, s.emits, c);
      var a, b := s.calls[c].pc, Do(s, e).calls[c].pc;
      if Settled(a).Some? { MoveKeepsAnswer(e, c, a, b); } else { MoveHasACause(e, c, a, b); }
    }
  }

  lemma StepEmitters(s: Sys, e: Step)
    requires EmittersOk(s)
    ensures EmittersOk(Do(s, e))
  {
    forall c | 0 <= c < |Do(s, e).calls|
      ensures EmitterOk(Do(s, e).calls, Do(s, e).emits, c)
    {
      StepEmitter(s, e, c);
    }
    StepMoves(s, e, 0);
    if e.Publish? { PublishEmits(s, e.c, e.ok); }
  }

  lemma {:induction false} RunEmitters(s: Sys, es: seq<Step>)
    requires EmittersOk(s)
    ensures EmittersOk(Run(s, es))
    decreases |es|
  {
    if es != [] {
      StepEmitters(s, es[0]);
      RunEmitters(Do(s, es[0]), es[1..]);
    }
  }

  /** In every run, degraded or not, a call that returned answers "published" exactly if it emitted. */
  lemma PublishedIffEmitted(shared: bool, es: seq<Step>, c: nat)
    ensures var s := Run(Initial(shared), es);
      c < |s.calls| && s.calls[c].pc.Done? ==> (s.calls[c].pc.r == Published <==> EmittedBy(s.emits, c))
  {
    RunEmitters(Initial(shared), es);
    var s := Run(Initial(shared), es);
    assert c < |s.calls| ==> EmitterOk(s.calls, s.emits, c);
  }

  // ----------------------------------------------------------- undisturbed, it goes through

  function FinishSteps(x: nat, combined: bool): seq<Step> {
    if combined then [Publish(x, true), SaveLocal(x), Commit(x, true)]
    else [Publish(x, true), SaveLocal(x), Commit(x, false), Release(x, false)]
  }

  lemma PublishLast(s: Sys, p: nat, fp: nat)
    ensures var x := |s.calls|;
      Do(WithLast(s, Call(p, fp, Emitting(true))), Publish(x, true))
      == WithLast(s.(emits := s.emits + [Emit(x, p, fp)]), Call(p, fp, Emitted(true)))
  {
  }

  lemma SaveLast(s: Sys, p: nat, fp: nat)
    ensures var x := |s.calls|;
      Do(WithLast(s, Call(p, fp, Emitted(true))), SaveLocal(x))
      == WithLast(s.(locals := s.locals[p := Entry(fp, x)]), Call(p, fp, Persisting(true)))
  {
  }

  lemma CommitLast(s: Sys, p: nat, fp: nat, combined: bool)
    requires s.lock == Some(|s.calls|)
    ensures var x := |s.calls|; var stored := s.(entry := Some(Entry(fp, x)));
      Do(WithLast(s, Call(p, fp, Persisting(true))), Commit(x, combined))
      == if combined then WithLast(stored, Call(p, fp, Done(Published))).(lock := None, busy := s.busy - {p})
         else WithLast(stored, Call(p, fp, Releasing(Published)))
  {
  }

  lemma ReleaseLast(s: Sys, p: nat, fp: nat)
    requires s.lock == Some(|s.calls|)
    ensures Do(WithLast(s, Call(p, fp, Releasing(Published))), Release(|s.calls|, false))
      == WithLast(s, Call(p, fp, Done(Published))).(lock := None, busy := s.busy - {p})
  {
  }

  /** From the emit on: the event is out, remembered locally and in the store, and the lock is free. */
  lemma EmitterFinishes(s: Sys, p: nat, fp: nat, combined: bool)
    requires s.lock == Some(|s.calls|)
    ensures var x := |s.calls|; var e := Entry(fp, x);
      Run(WithLast(s, Call(p, fp, Emitting(true))), FinishSteps(x, combined))
      == WithLast(s, Call(p, fp, Done(Published))).(emits := s.emits + [Emit(x, p, fp)], locals := s.locals[p := e],
                                                    entry := Some(e), lock := None, busy := s.busy - {p})
  {
    var x := |s.calls|;
    var e := Entry(fp, x);
    var out := s.(emits := s.emits + [Emit(x, p, fp)]);
    var mine := out.(locals := s.locals[p := e]);
    var stored := mine.(entry := Some(e));
    var s0 := WithLast(s, Call(p, fp, Emitting(true)));
    PublishLast(s, p, fp);
    SaveLast(out, p, fp);
    CommitLast(mine, p, fp, combined);
    ThreeSteps(s0, Publish(x, true), SaveLocal(x), Commit(x, combined));
    if !combined {
      ReleaseLast(stored, p, fp);
      RunAppend(s0, [Publish(x, true), SaveLocal(x), Commit(x, false)], Release(x, false));
      assert FinishSteps(x, false) == [Publish(x, true), SaveLocal(x), Commit(x, false)] + [Release(x, false)];
    }
  }

  /** With the lock free and nothing stored, a newcomer publishes and answers so. */
  lemma NewcomerPublishes(s: Sys, p: nat, fp: nat, combined: bool)
    requires s.shared && s.lock.None? && s.entry.None? && p !in s.busy && p !in s.locals
    ensures var x := |s.calls|; var t := Run(s, EnterSteps(x, p, fp) + FinishSteps(x, combined));
      && |t.calls| == x + 1 && t.calls[..x] == s.calls && t.calls[x] == Call(p, fp, Done(Published))
      && t.emits == s.emits + [Emit(x, p, fp)] && t.lock.None? && p !in t.busy
      && t.entry == Some(Entry(fp, x)) && p in t.locals && t.locals[p] == Entry(fp, x)
  {
    var x := |s.calls|;
    var u := s.(busy := s.busy[p := x], lock := Some(x));
    NewcomerReachesEmit(s, p, fp);
    EmitterFinishes(u, p, fp, combined);
    RunConcat(s, EnterSteps(x, p, fp), FinishSteps(x, combined));
    assert WithLast(s, Call(p, fp, Emitting(true))).(busy := s.busy[p := x], lock := Some(x))
        == WithLast(u, Call(p, fp, Emitting(true)));
  }

  /** With an entry stored, a newcomer on an idle process is answered from it. */
  lemma NewcomerIsAnswered(s: Sys, p: nat, fp: nat)
    requires s.shared && s.entry.Some? && p !in s.busy && p !in s.locals
    ensures var x := |s.calls|; var t := Run(s, [Arrive(p, fp), Begin(x)] + [GetEntry(x, Good)]);
      && |t.calls| == x + 1 && t.calls[..x] == s.calls && t.calls[x].pc.Done?
      && Answers(t.calls[x].pc.r, s.entry.value, fp) && t.emits == s.emits && p !in t.busy
  {
    var x := |s.calls|;
    NewcomerLooks(s, p, fp);
    RunAppend(s, [Arrive(p, fp), Begin(x)], GetEntry(x, Good));
  }
}
