/**
 What holds however badly the shared store behaves: the lock is given back, and a process that has
 not lost its local entry emits once.
 */
module PublishFallback {
  import opened Options
  import opened IdempotentPublish

  // --------------------------------------------------- the lock is always given back

  predicate Holding(pc: Pc) {
    match pc
    case Rechecking => true
    case GivingBack(_) => true
    case Emitting(locked) => locked
    case Emitted(locked) => locked
    case Persisting(locked) => locked
    case Releasing(_) => true
    case Dead => true
    case _ => false
  }

  predicate LockOwned(s: Sys) {
    Owned(s.calls, s.lock, s.stuck)
  }

  predicate Owned(calls: seq<Call>, lock: Option<nat>, stuck: set<nat>) {
    lock.Some? ==> lock.value < |calls| && (lock.value in stuck || Holding(calls[lock.value].pc))
  }

  lemma GoOwned(s: Sys, c: nat, pc: Pc)
    requires LockOwned(s) && c < |s.calls| && (Holding(s.calls[c].pc) ==> Holding(pc))
    ensures Owned(Go(s, c, pc).calls, s.lock, s.stuck)
  {}

  lemma GiveBackOwned(s: Sys, c: nat, r: Result, failed: bool)
    requires LockOwned(s) && c < |s.calls|
    ensures LockOwned(GiveBack(s, c, r, failed))
  {}

  lemma ReadsOwned(s: Sys, c: nat, read: Read)
    requires LockOwned(s)
    ensures LockOwned(DoGetEntry(s, c, read)) && LockOwned(DoPoll(s, c, read))
  {
  }

  lemma RecheckOwned(s: Sys, c: nat, read: Read)
    requires LockOwned(s)
    ensures LockOwned(DoRecheck(s, c, read))
  {
  }

  lemma AcquireOwned(s: Sys, c: nat, taken: bool)
    requires LockOwned(s)
    ensures LockOwned(DoAcquire(s, c)) && LockOwned(DoAcquireError(s, c, taken))
  {}

  lemma BeginOwned(s: Sys, c: nat)
    requires LockOwned(s)
    ensures LockOwned(DoBegin(s, c))
  {
  }

  lemma LockOwnedFront(s: Sys, e: Step)
    requires LockOwned(s) && BeforeEmit(e)
    ensures LockOwned(Do(s, e))
  {
    match e
    case Arrive(p, fp) =>
    case Begin(c) => BeginOwned(s, c);
    case GetEntry(c, read) => ReadsOwned(s, c, read);
    case Acquire(c) => AcquireOwned(s, c, false);
    case AcquireError(c, taken) => AcquireOwned(s, c, taken);
    case Poll(c, read) => ReadsOwned(s, c, read);
    case PollTimeout(c) => if At(s, c, Polling) { GoOwned(s, c, Done(Busy)); }
    case Recheck(c, read) => RecheckOwned(s, c, read);
  }

  lemma LockOwnedEmit(s: Sys, e: Step)
    requires LockOwned(s) && AroundEmit(e)
    ensures LockOwned(Do(s, e))
  {
    match e
    case Publish(c, ok) =>
      if c < |s.calls| && s.calls[c].pc.Emitting? {
        var locked := s.calls[c].pc.locked;
        GoOwned(s, c, if ok then Emitted(locked) else if locked then Releasing(Failed) else Done(Failed));
      }
    case SaveLocal(c) =>
      if c < |s.calls| && s.calls[c].pc.Emitted? { GoOwned(s, c, Persisting(s.calls[c].pc.locked)); }
    case Commit(c, combined) =>
      if At(s, c, Persisting(false)) { GoOwned(s, c, Done(Published)); }
      else if At(s, c, Persisting(true)) && !combined { GoOwned(s, c, Releasing(Published)); }
    case CommitError(c, applied) => if At(s, c, Persisting(true)) { GoOwned(s, c, Releasing(Published)); }
  }

  lemma LockOwnedStep(s: Sys, e: Step)
    requires LockOwned(s)
    ensures LockOwned(Do(s, e))
  {
    if BeforeEmit(e) {
      LockOwnedFront(s, e);
    } else if AroundEmit(e) {
      LockOwnedEmit(s, e);
    } else {
      match e
      case ReleaseReplay(c, failed) =>
        if c < |s.calls| && s.calls[c].pc.GivingBack? { GiveBackOwned(s, c, s.calls[c].pc.r, failed); }
      case Release(c, failed) =>
        if c < |s.calls| && s.calls[c].pc.Releasing? { GiveBackOwned(s, c, s.calls[c].pc.r, failed); }
      case Crash(p) => if p in s.busy && s.busy[p] < |s.calls| { GoOwned(s, s.busy[p], Dead); }
      case _ =>
    }
  }

  lemma {:induction false} RunLockOwned(s: Sys, es: seq<Step>)
    requires LockOwned(s)
    ensures LockOwned(Run(s, es))
    decreases |es|
  {
    if es != [] {
      LockOwnedStep(s, es[0]);
      RunLockOwned(Do(s, es[0]), es[1..]);
    }
  }

  /**
   In every run, degraded or not, a call that has returned does not own the lock, unless the
   store itself failed its release or took the lock while reporting an error.
   */
  lemma LockGivenBack(shared: bool, es: seq<Step>, c: nat)
    ensures var s := Run(Initial(shared), es);
      c < |s.calls| && s.calls[c].pc.Done? && c !in s.stuck ==> s.lock != Some(c)
  {
    RunLockOwned(Initial(shared), es);
  }

  // --------------------------------- what is left when the shared store misbehaves

  predicate Running(pc: Pc) {
    !pc.New? && !pc.Done? && !pc.Dead?
  }

  predicate NotEmitted(pc: Pc) {
    pc.Looking? || pc.Wanting? || pc.Polling? || pc.Rechecking? || pc.GivingBack? || pc.Emitting?
  }

  predicate EmitsBy(emits: seq<Emit>, p: nat) {
    exists i :: 0 <= i < |emits| && emits[i].proc == p
  }

  /** The per-process serializer: one running call per process for this key. */
  predicate Serial(calls: seq<Call>, busy: map<nat, nat>) {
    && (forall c :: 0 <= c < |calls| && Running(calls[c].pc) ==> calls[c].proc in busy && busy[calls[c].proc] == c)
    && (forall p :: p in busy ==> busy[p] < |calls| && calls[busy[p]].proc == p)
  }

  predicate Remembered(calls: seq<Call>, busy: map<nat, nat>, locals: map<nat, Entry>, p: nat) {
    p in locals || (p in busy && busy[p] < |calls| && calls[busy[p]].pc.Emitted?)
  }

  /** Until a process forgets: one emit, remembered from then on; a call on its way has none before it. */
  predicate Once(calls: seq<Call>, busy: map<nat, nat>, locals: map<nat, Entry>, emits: seq<Emit>, lost: set<nat>) {
    && Serial(calls, busy)
    && (forall i, j :: 0 <= i < j < |emits| && emits[i].proc == emits[j].proc ==> emits[i].proc in lost)
    && (forall i :: 0 <= i < |emits| && emits[i].proc !in lost ==> Remembered(calls, busy, locals, emits[i].proc))
    && (forall c :: 0 <= c < |calls| && NotEmitted(calls[c].pc) && calls[c].proc !in lost ==>
          !EmitsBy(emits, calls[c].proc))
  }

  predicate OncePerProcess(s: Sys) {
    Once(s.calls, s.busy, s.locals, s.emits, s.lost)
  }

  /** A running call moves on: a call that has not emitted may go anywhere except to `Emitted`. */
  lemma GoOnce(s: Sys, c: nat, pc: Pc)
    requires OncePerProcess(s) && c < |s.calls| && Running(s.calls[c].pc) && Running(pc)
    requires NotEmitted(pc) ==> NotEmitted(s.calls[c].pc)
    requires !s.calls[c].pc.Emitted?
    ensures OncePerProcess(Go(s, c, pc))
  {}

  /** A call returns once whatever it emitted is remembered locally. */
  lemma ReturnOnce(s: Sys, c: nat, r: Result)
    requires OncePerProcess(s) && c < |s.calls| && !s.calls[c].pc.Emitted?
    requires Running(s.calls[c].pc) || s.calls[c].proc !in s.busy
    ensures OncePerProcess(Return(s, c, r))
  {}

  lemma BeginOnce(s: Sys, c: nat)
    requires OncePerProcess(s)
    ensures OncePerProcess(DoBegin(s, c))
  {
    if At(s, c, New) && s.calls[c].proc !in s.busy {
      var p := s.calls[c].proc;
      if p in s.locals {
        ReturnOnce(s, c, Resolve(s.locals[p], s.calls[c].fp));
      } else {
        var t := DoBegin(s, c);
        assert p !in s.lost && EmitsBy(s.emits, p) ==> Remembered(s.calls, s.busy, s.locals, p);
        assert forall q :: Remembered(s.calls, s.busy, s.locals, q) ==> Remembered(t.calls, t.busy, t.locals, q);
      }
    }
  }

  lemma PublishOnce(s: Sys, c: nat)
    requires OncePerProcess(s) && c < |s.calls| && s.calls[c].pc.Emitting?
    ensures OncePerProcess(DoPublish(s, c, true))
  {
  }

  lemma SaveLocalOnce(s: Sys, c: nat)
    requires OncePerProcess(s) && c < |s.calls| && s.calls[c].pc.Emitted?
    ensures OncePerProcess(DoSaveLocal(s, c))
  {}

  lemma CrashOnce(s: Sys, p: nat)
    requires OncePerProcess(s)
    ensures OncePerProcess(DoCrash(s, p))
  {}

  lemma ReadOnce(s: Sys, c: nat, read: Read)
    requires OncePerProcess(s)
    ensures OncePerProcess(DoGetEntry(s, c, read)) && OncePerProcess(DoPoll(s, c, read))
  {
    if c < |s.calls| && (s.calls[c].pc.Looking? || s.calls[c].pc.Polling?) {
      ReturnOnce(s, c, Failed);
      GoOnce(s, c, Wanting);
      if s.entry.Some? { ReturnOnce(s, c, Resolve(s.entry.value, s.calls[c].fp)); }
    }
  }

  lemma OnceFront(s: Sys, e: Step)
    requires OncePerProcess(s) && BeforeEmit(e)
    ensures OncePerProcess(Do(s, e))
  {
    match e
    case Arrive(p, fp) =>
    case Begin(c) => BeginOnce(s, c);
    case GetEntry(c, read) => ReadOnce(s, c, read);
    case Acquire(c) => if At(s, c, Wanting) { GoOnce(s, c, if s.lock.Some? then Polling else Rechecking); }
    case AcquireError(c, taken) => if At(s, c, Wanting) { GoOnce(s, c, Emitting(false)); }
    case Poll(c, read) => ReadOnce(s, c, read);
    case PollTimeout(c) => if At(s, c, Polling) { ReturnOnce(s, c, Busy); }
    case Recheck(c, read) => if At(s, c, Rechecking) { GoOnce(s, c, Do(s, e).calls[c].pc); }
  }

  lemma OnceEmit(s: Sys, e: Step)
    requires OncePerProcess(s) && AroundEmit(e)
    ensures OncePerProcess(Do(s, e))
  {
    match e
    case Publish(c, ok) =>
      if c < |s.calls| && s.calls[c].pc.Emitting? {
        if ok { PublishOnce(s, c); }
        else if s.calls[c].pc.locked { GoOnce(s, c, Releasing(Failed)); }
        else { ReturnOnce(s, c, Failed); }
      }
    case SaveLocal(c) => if c < |s.calls| && s.calls[c].pc.Emitted? { SaveLocalOnce(s, c); }
    case Commit(c, combined) =>
      if At(s, c, Persisting(false)) || (At(s, c, Persisting(true)) && combined) { ReturnOnce(s, c, Published); }
      else if At(s, c, Persisting(true)) { GoOnce(s, c, Releasing(Published)); }
    case CommitError(c, applied) => if At(s, c, Persisting(true)) { GoOnce(s, c, Releasing(Published)); }
  }

  lemma OnceStep(s: Sys, e: Step)
    requires OncePerProcess(s)
    ensures OncePerProcess(Do(s, e))
  {
    if BeforeEmit(e) {
      OnceFront(s, e);
    } else if AroundEmit(e) {
      OnceEmit(s, e);
    } else {
      match e
      case ReleaseReplay(c, failed) =>
        if c < |s.calls| && s.calls[c].pc.GivingBack? { ReturnOnce(s, c, s.calls[c].pc.r); }
      case Release(c, failed) =>
        if c < |s.calls| && s.calls[c].pc.Releasing? { ReturnOnce(s, c, s.calls[c].pc.r); }
      case LocalExpires(p) =>
      case Crash(p) => CrashOnce(s, p);
      case _ =>
    }
  }

  lemma {:induction false} RunOnce(s: Sys, es: seq<Step>)
    requires OncePerProcess(s)
    ensures OncePerProcess(Run(s, es))
    decreases |es|
  {
    if es != [] {
      OnceStep(s, es[0]);
      RunOnce(Do(s, es[0]), es[1..]);
    }
  }

  /**
   The local fallback. In every run, with or without a shared store and however badly it behaved,
   a process that never lost its local entry has emitted at most once.
   */
  lemma AtMostOncePerProcess(shared: bool, es: seq<Step>, i: nat, j: nat)
    ensures var s := Run(Initial(shared), es);
      i < j < |s.emits| && s.emits[i].proc == s.emits[j].proc ==> s.emits[i].proc in s.lost
  {
    RunOnce(Initial(shared), es);
  }
}
