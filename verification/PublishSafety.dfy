/**
 At most one publish: what every step of the protocol keeps while the shared store lets it down
 nowhere that matters.
 */
module PublishSafety {
  import opened Options
  import opened IdempotentPublish

  /** A result is only ever given for a reason that lies in the one emit. */
  predicate Justified(r: Result, c: nat, fp: nat, emits: seq<Emit>) {
    match r
    case Published => |emits| == 1 && emits[0].call == c && emits[0].fp == fp
    case Replayed(id) => |emits| == 1 && emits[0].call == id && emits[0].fp == fp
    case Conflict => |emits| == 1 && emits[0].fp != fp
    case Busy => true
    case Failed => true
  }

  predicate SafeCall(c: nat, call: Call, lock: Option<nat>, entry: Option<Entry>, emits: seq<Emit>) {
    match call.pc
    case Rechecking => lock == Some(c) || entry.Some?
    case GivingBack(r) => Justified(r, c, call.fp, emits) && (lock == Some(c) ==> emits == [] || entry.Some?)
    case Emitting(locked) => locked && lock == Some(c) && entry == None && emits == []
    case Emitted(locked) => locked && lock == Some(c) && entry == None && emits == [Emit(c, call.proc, call.fp)]
    case Persisting(locked) => locked && lock == Some(c) && entry == None && emits == [Emit(c, call.proc, call.fp)]
    case Releasing(r) => Justified(r, c, call.fp, emits) && (lock == Some(c) ==> emits == [] || entry.Some?)
    case Done(r) => Justified(r, c, call.fp, emits)
    case _ => true
  }

  predicate IsEntryOf(e: Entry, emits: seq<Emit>) {
    |emits| == 1 && emits[0].call == e.eventId && emits[0].fp == e.fp
  }

  predicate MidCommit(pc: Pc) {
    pc.Emitted? || pc.Persisting? || pc.Dead?
  }

  /** An emit is either recorded in the entry, or its call still holds the lock. */
  predicate Covered(calls: seq<Call>, lock: Option<nat>, entry: Option<Entry>, emits: seq<Emit>) {
    && |emits| <= 1
    && (entry.Some? ==> IsEntryOf(entry.value, emits))
    && (emits != [] && entry.None? ==>
          && lock == Some(emits[0].call)
          && emits[0].call < |calls| && MidCommit(calls[emits[0].call].pc))
  }

  predicate Safe(s: Sys) {
    SafeParts(s.calls, s.lock, s.entry, s.locals, s.emits)
  }

  predicate SafeParts(calls: seq<Call>, lock: Option<nat>, entry: Option<Entry>,
                      locals: map<nat, Entry>, emits: seq<Emit>)
  {
    && Covered(calls, lock, entry, emits)
    && (lock.Some? ==> lock.value < |calls|)
    && (forall p :: p in locals ==> IsEntryOf(locals[p], emits))
    && (forall c :: 0 <= c < |calls| ==> SafeCall(c, calls[c], lock, entry, emits))
  }

  /** Moving one call keeps the system safe if the new place is safe for that call. */
  lemma GoSafe(s: Sys, c: nat, pc: Pc)
    requires Safe(s) && c < |s.calls|
    requires SafeCall(c, s.calls[c].(pc := pc), s.lock, s.entry, s.emits)
    requires MidCommit(s.calls[c].pc) && s.entry.None? ==> MidCommit(pc)
    ensures Safe(Go(s, c, pc))
  {}

  /** A call that gives up the lock may stop caring about it. */
  lemma UnlockSafe(s: Sys, c: nat, r: Result)
    requires Safe(s) && c < |s.calls| && !MidCommit(s.calls[c].pc)
    requires Justified(r, c, s.calls[c].fp, s.emits)
    requires s.lock == Some(c) ==> s.emits == [] || s.entry.Some?
    ensures Safe(Return(Unlock(s, c), c, r))
  {}

  lemma AcquireSafe(s: Sys, c: nat)
    requires Safe(s) && c < |s.calls| && s.lock.None?
    ensures Safe(Go(s, c, Rechecking).(lock := Some(c)))
  {}

  lemma PublishSafe(s: Sys, c: nat)
    requires Safe(s) && At(s, c, Emitting(true))
    ensures Safe(DoPublish(s, c, true))
  {
  }

  lemma SaveLocalSafe(s: Sys, c: nat)
    requires Safe(s) && c < |s.calls| && s.calls[c].pc.Emitted?
    ensures Safe(DoSaveLocal(s, c))
  {
  }

  lemma CommitSafe(s: Sys, c: nat, combined: bool)
    requires Safe(s) && At(s, c, Persisting(true))
    ensures Safe(DoCommit(s, c, combined))
  {
  }

  lemma GiveBackSafe(s: Sys, c: nat, r: Result, failed: bool)
    requires Safe(s) && (At(s, c, GivingBack(r)) || At(s, c, Releasing(r)))
    ensures Safe(GiveBack(s, c, r, failed))
  {
    assert SafeCall(c, s.calls[c], s.lock, s.entry, s.emits);
    if failed {
      GoSafe(s, c, Done(r));
    } else {
      UnlockSafe(s, c, r);
    }
  }

  /** A lease that nobody needs any more may lapse. */
  lemma LapseSafe(s: Sys)
    requires Safe(s) && s.lock.Some? && !NeedsLease(s, s.lock.value)
    ensures Safe(s.(lock := None))
  {
  }

  lemma LookupSafe(s: Sys, c: nat, e: Entry)
    requires Safe(s) && c < |s.calls| && (s.calls[c].pc.New? || s.calls[c].pc.Looking? || s.calls[c].pc.Polling?)
    requires IsEntryOf(e, s.emits)
    ensures Safe(Return(s, c, Resolve(e, s.calls[c].fp)))
  {
  }

  lemma RecheckSafe(s: Sys, c: nat, read: Read)
    requires Safe(s) && At(s, c, Rechecking) && (read.Swallowed? ==> s.entry.None?)
    ensures Safe(DoRecheck(s, c, read))
  {
    assert SafeCall(c, s.calls[c], s.lock, s.entry, s.emits);
    if read.Throws? {
      GoSafe(s, c, GivingBack(Failed));
    } else if s.entry.Some? {
      GoSafe(s, c, GivingBack(Resolve(s.entry.value, s.calls[c].fp)));
    } else {
      GoSafe(s, c, Emitting(true));
    }
  }

  lemma CrashSafe(s: Sys, p: nat)
    requires Safe(s)
    ensures Safe(DoCrash(s, p))
  {
  }

  lemma SafeFrontStep(s: Sys, e: Step)
    requires Safe(s) && s.shared && !Do(s, e).degraded && BeforeEmit(e)
    ensures Safe(Do(s, e))
  {
    match e
    case Arrive(p, fp) =>
    case Begin(c) =>
      if At(s, c, New) && s.calls[c].proc !in s.busy {
        var p := s.calls[c].proc;
        if p in s.locals { LookupSafe(s, c, s.locals[p]); } else { GoSafe(s, c, Looking); }
      }
    case GetEntry(c, read) => ReadSafe(s, c, read);
    case Acquire(c) =>
      if At(s, c, Wanting) {
        if s.lock.Some? { GoSafe(s, c, Polling); } else { AcquireSafe(s, c); }
      }
    case Poll(c, read) => ReadSafe(s, c, read);
    case PollTimeout(c) => if At(s, c, Polling) { GoSafe(s, c, Done(Busy)); }
    case Recheck(c, read) => if At(s, c, Rechecking) { RecheckSafe(s, c, read); }
    case AcquireError(c, taken) =>
  }

  /** A failed read before the lock costs an answer at worst: the re-check is still to come. */
  lemma ReadSafe(s: Sys, c: nat, read: Read)
    requires Safe(s)
    ensures Safe(DoGetEntry(s, c, read)) && Safe(DoPoll(s, c, read))
  {
    if c < |s.calls| && (s.calls[c].pc.Looking? || s.calls[c].pc.Polling?) {
      GoSafe(s, c, Done(Failed));
      GoSafe(s, c, Wanting);
      if s.entry.Some? { LookupSafe(s, c, s.entry.value); }
    }
  }

  lemma SafeStep(s: Sys, e: Step)
    requires Safe(s) && s.shared && !Do(s, e).degraded
    ensures Safe(Do(s, e))
  {
    match e
    case ReleaseReplay(c, failed) =>
      if c < |s.calls| && s.calls[c].pc.GivingBack? { GiveBackSafe(s, c, s.calls[c].pc.r, failed); }
    case Publish(c, ok) =>
      if c < |s.calls| && s.calls[c].pc.Emitting? {
        assert SafeCall(c, s.calls[c], s.lock, s.entry, s.emits);
        if ok { PublishSafe(s, c); } else { GoSafe(s, c, Releasing(Failed)); }
      }
    case SaveLocal(c) =>
      if c < |s.calls| && s.calls[c].pc.Emitted? { SaveLocalSafe(s, c); }
    case Commit(c, combined) =>
      assert c < |s.calls| ==> SafeCall(c, s.calls[c], s.lock, s.entry, s.emits);
      if At(s, c, Persisting(true)) { CommitSafe(s, c, combined); }
    case Release(c, failed) =>
      if c < |s.calls| && s.calls[c].pc.Releasing? { GiveBackSafe(s, c, s.calls[c].pc.r, failed); }
    case LeaseLapses => if s.lock.Some? { LapseSafe(s); }
    case Crash(p) => CrashSafe(s, p);
    case LocalExpires(p) =>
    case EntryExpires =>
    case CommitError(c, applied) =>
    case _ => SafeFrontStep(s, e);
  }

  lemma DegradedStays(s: Sys, e: Step)
    ensures s.degraded ==> Do(s, e).degraded
    ensures Do(s, e).shared == s.shared
  {}

  lemma {:induction false} RunSafe(s: Sys, es: seq<Step>)
    requires s.shared && (!s.degraded ==> Safe(s))
    ensures Run(s, es).shared && (!Run(s, es).degraded ==> Safe(Run(s, es)))
    decreases |es|
  {
    if es != [] {
      var s1 := Do(s, es[0]);
      DegradedStays(s, es[0]);
      if !s1.degraded { SafeStep(s, es[0]); }
      RunSafe(s1, es[1..]);
    }
  }

  /**
   Main result. In every interleaving that is not degraded, crashes of lock holders, failed reads
   and lapses of leases that nobody needs included: at most one publish emits; every other success
   returns that emit's event id and had the same body; every conflict had a different body.
   */
  lemma AtMostOnePublish(es: seq<Step>)
    ensures var s := Run(Initial(true), es);
      !s.degraded ==>
        && |s.emits| <= 1
        && (forall c :: 0 <= c < |s.calls| && s.calls[c].pc.Done? ==>
              Justified(s.calls[c].pc.r, c, s.calls[c].fp, s.emits))
  {
    RunSafe(Initial(true), es);
    var s := Run(Initial(true), es);
    if !s.degraded {
      assert forall c :: 0 <= c < |s.calls| ==> SafeCall(c, s.calls[c], s.lock, s.entry, s.emits);
    }
  }
}
