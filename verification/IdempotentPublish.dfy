/**
 The idempotent publish protocol (client_socket_event_publish.service.ts) for one client and one
 idempotency key: any number of calls on any number of processes, over a shared lock and entry.

 One step is one stretch of code between two awaits. A call's lock token and event id are drawn
 at random and never reused, so both are named by the call. `degraded` records that the shared
 store let the protocol down where it matters: a lease lapsed while its holder could still emit or
 had emitted and not stored, a re-check missed a stored entry, the lock could not be asked for, a
 commit did not take effect, or the entry expired. Every other failure leaves it alone.
 `lost` records the processes whose local entry expired, was evicted, or died with them.
 */
module IdempotentPublish {
  import opened Options

  datatype Entry = Entry(fp: nat, eventId: nat)

  datatype Emit = Emit(call: nat, proc: nat, fp: nat)

  datatype Result = Published | Replayed(eventId: nat) | Conflict | Busy | Failed

  /** A read of the shared entry works, fails silently as "no entry", or throws. */
  datatype Read = Good | Swallowed | Throws

  /** Where a call is. `locked` is false only on the local-only path. */
  datatype Pc =
    | New
    | Looking
    | Wanting
    | Polling
    | Rechecking
    | GivingBack(r: Result)
    | Emitting(locked: bool)
    | Emitted(locked: bool)
    | Persisting(locked: bool)
    | Releasing(r: Result)
    | Done(r: Result)
    | Dead

  datatype Call = Call(proc: nat, fp: nat, pc: Pc)

  datatype Sys = Sys(
    shared: bool,
    calls: seq<Call>,
    lock: Option<nat>,
    entry: Option<Entry>,
    locals: map<nat, Entry>,
    busy: map<nat, nat>,
    emits: seq<Emit>,
    degraded: bool,
    lost: set<nat>,
    stuck: set<nat>)

  /** Without a registered store every call is local-only, so only the local guarantee is left. */
  function Initial(shared: bool): Sys {
    Sys(shared, [], None, None, map[], map[], [], !shared, {}, {})
  }

  datatype Step =
    | Arrive(proc: nat, fp: nat)
    | Begin(c: nat)
    | GetEntry(c: nat, read: Read)
    | Acquire(c: nat)
    | AcquireError(c: nat, taken: bool)
    | Poll(c: nat, read: Read)
    | PollTimeout(c: nat)
    | Recheck(c: nat, read: Read)
    | ReleaseReplay(c: nat, failed: bool)
    | Publish(c: nat, ok: bool)
    | SaveLocal(c: nat)
    | Commit(c: nat, combined: bool)
    | CommitError(c: nat, applied: bool)
    | Release(c: nat, failed: bool)
    | LeaseLapses
    | EntryExpires
    | LocalExpires(proc: nat)
    | Crash(proc: nat)

  function Go(s: Sys, c: nat, pc: Pc): Sys
    requires c < |s.calls|
  {
    s.(calls := s.calls[c := s.calls[c].(pc := pc)])
  }

  /** The call returns; its process may run the next call for this key. */
  function Return(s: Sys, c: nat, r: Result): Sys
    requires c < |s.calls|
  {
    Go(s, c, Done(r)).(busy := s.busy - {s.calls[c].proc})
  }

  /** `resolveExistingIdempotencyEntry` on an entry that is present. */
  function Resolve(e: Entry, fp: nat): Result {
    if e.fp != fp then Conflict else Replayed(e.eventId)
  }

  function Unlock(s: Sys, c: nat): Sys {
    if s.lock == Some(c) then s.(lock := None) else s
  }

  predicate At(s: Sys, c: nat, pc: Pc) {
    c < |s.calls| && s.calls[c].pc == pc
  }

  /** `releaseLock` and return; the adapter logs and swallows a failed release. */
  function GiveBack(s: Sys, c: nat, r: Result, failed: bool): Sys
    requires c < |s.calls|
  {
    if failed then Return(s, c, r).(stuck := s.stuck + {c}) else Return(Unlock(s, c), c, r)
  }

  // A step that is not enabled leaves the system alone.

  function DoBegin(s: Sys, c: nat): Sys {
    if !At(s, c, New) || s.calls[c].proc in s.busy then s else
    var p := s.calls[c].proc;
    if p in s.locals then Return(s, c, Resolve(s.locals[p], s.calls[c].fp))
    else Go(s, c, if s.shared then Looking else Emitting(false)).(busy := s.busy[p := c])
  }

  function DoGetEntry(s: Sys, c: nat, read: Read): Sys {
    if !At(s, c, Looking) then s
    else if read.Throws? then Return(s, c, Failed)
    else if read.Swallowed? then Go(s, c, Wanting)
    else if s.entry.Some? then Return(s, c, Resolve(s.entry.value, s.calls[c].fp))
    else Go(s, c, Wanting)
  }

  function DoAcquire(s: Sys, c: nat): Sys {
    if !At(s, c, Wanting) then s
    else if s.lock.Some? then Go(s, c, Polling)
    else Go(s, c, Rechecking).(lock := Some(c))
  }

  /** The lock backend errs, perhaps after taking the lock: the call goes on local-only. */
  function DoAcquireError(s: Sys, c: nat, taken: bool): Sys {
    if !At(s, c, Wanting) then s else
    var s1 := if taken && s.lock.None? then s.(lock := Some(c), stuck := s.stuck + {c}) else s;
    Go(s1, c, Emitting(false)).(degraded := true)
  }

  function DoPoll(s: Sys, c: nat, read: Read): Sys {
    if !At(s, c, Polling) then s
    else if read.Throws? then Return(s, c, Failed)
    else if read.Swallowed? then s
    else if s.entry.Some? then Return(s, c, Resolve(s.entry.value, s.calls[c].fp))
    else s
  }

  function DoPollTimeout(s: Sys, c: nat): Sys {
    if !At(s, c, Polling) then s else Return(s, c, Busy)
  }

  function DoRecheck(s: Sys, c: nat, read: Read): Sys {
    if !At(s, c, Rechecking) then s
    else if read.Throws? then Go(s, c, GivingBack(Failed))
    else if read.Swallowed? then Go(s, c, Emitting(true)).(degraded := s.degraded || s.entry.Some?)
    else if s.entry.Some? then Go(s, c, GivingBack(Resolve(s.entry.value, s.calls[c].fp)))
    else Go(s, c, Emitting(true))
  }

  function DoReleaseReplay(s: Sys, c: nat, failed: bool): Sys {
    if c < |s.calls| && s.calls[c].pc.GivingBack? then GiveBack(s, c, s.calls[c].pc.r, failed) else s
  }

  function DoPublish(s: Sys, c: nat, ok: bool): Sys {
    if c >= |s.calls| || !s.calls[c].pc.Emitting? then s else
    var locked := s.calls[c].pc.locked;
    if ok then
      Go(s, c, Emitted(locked)).(emits := s.emits + [Emit(c, s.calls[c].proc, s.calls[c].fp)])
    else if locked then Go(s, c, Releasing(Failed))
    else Return(s, c, Failed)
  }

  function DoSaveLocal(s: Sys, c: nat): Sys {
    if c >= |s.calls| || !s.calls[c].pc.Emitted? then s else
    var p := s.calls[c].proc;
    Go(s, c, Persisting(s.calls[c].pc.locked)).(locals := s.locals[p := Entry(s.calls[c].fp, c)])
  }

  /** Store the entry; with the combined operation the lock goes in the same round trip. */
  function DoCommit(s: Sys, c: nat, combined: bool): Sys {
    if At(s, c, Persisting(false)) then Return(s, c, Published)
    else if At(s, c, Persisting(true)) then
      var s1 := s.(entry := Some(Entry(s.calls[c].fp, c)));
      if combined then Return(Unlock(s1, c), c, Published) else Go(s1, c, Releasing(Published))
    else s
  }

  /** A failed commit is only logged. */
  function DoCommitError(s: Sys, c: nat, applied: bool): Sys {
    if !At(s, c, Persisting(true)) then s else
    var s1 := if applied then s.(entry := Some(Entry(s.calls[c].fp, c))) else s;
    Go(s1, c, Releasing(Published)).(degraded := s.degraded || !applied)
  }

  function DoRelease(s: Sys, c: nat, failed: bool): Sys {
    if c < |s.calls| && s.calls[c].pc.Releasing? then GiveBack(s, c, s.calls[c].pc.r, failed) else s
  }

  predicate EmittedBy(emits: seq<Emit>, c: nat) {
    exists i :: 0 <= i < |emits| && emits[i].call == c
  }

  /** The holder may yet emit, or has emitted, and no entry says so. */
  predicate NeedsLease(s: Sys, h: nat) {
    && s.entry.None?
    && ((h < |s.calls| && (s.calls[h].pc.Rechecking? || s.calls[h].pc.Emitting?)) || EmittedBy(s.emits, h))
  }

  function DoLapse(s: Sys): Sys {
    if s.lock.None? then s else
    s.(lock := None, degraded := s.degraded || NeedsLease(s, s.lock.value))
  }

  function DoCrash(s: Sys, p: nat): Sys {
    var s1 := s.(locals := s.locals - {p}, lost := s.lost + {p}, busy := s.busy - {p});
    if p in s.busy && s.busy[p] < |s.calls| then Go(s1, s.busy[p], Dead) else s1
  }

  function Do(s: Sys, e: Step): Sys {
    match e
    case Arrive(p, fp) => s.(calls := s.calls + [Call(p, fp, New)])
    case Begin(c) => DoBegin(s, c)
    case GetEntry(c, read) => DoGetEntry(s, c, read)
    case Acquire(c) => DoAcquire(s, c)
    case AcquireError(c, taken) => DoAcquireError(s, c, taken)
    case Poll(c, read) => DoPoll(s, c, read)
    case PollTimeout(c) => DoPollTimeout(s, c)
    case Recheck(c, read) => DoRecheck(s, c, read)
    case ReleaseReplay(c, failed) => DoReleaseReplay(s, c, failed)
    case Publish(c, ok) => DoPublish(s, c, ok)
    case SaveLocal(c) => DoSaveLocal(s, c)
    case Commit(c, combined) => DoCommit(s, c, combined)
    case CommitError(c, applied) => DoCommitError(s, c, applied)
    case Release(c, failed) => DoRelease(s, c, failed)
    case LeaseLapses => DoLapse(s)
    case EntryExpires => if s.entry.None? then s else s.(entry := None, degraded := true)
    case LocalExpires(p) => s.(locals := s.locals - {p}, lost := s.lost + {p})
    case Crash(p) => DoCrash(s, p)
  }

  function Run(s: Sys, es: seq<Step>): Sys
    decreases |es|
  {
    if es == [] then s else Run(Do(s, es[0]), es[1..])
  }

  lemma {:induction false} RunConcat(s: Sys, a: seq<Step>, b: seq<Step>)
    ensures Run(s, a + b) == Run(Run(s, a), b)
    decreases |a|
  {
    if a == [] {
      assert a + b == b;
    } else {
      assert (a + b)[1..] == a[1..] + b;
      RunConcat(Do(s, a[0]), a[1..], b);
    }
  }

  lemma RunAppend(s: Sys, es: seq<Step>, e: Step)
    ensures Run(s, es + [e]) == Do(Run(s, es), e)
  {
    RunConcat(s, es, [e]);
    assert [e][1..] == [];
  }

  predicate BeforeEmit(e: Step) {
    e.Arrive? || e.Begin? || e.GetEntry? || e.Acquire? || e.AcquireError? || e.Poll? || e.PollTimeout? || e.Recheck?
  }

  predicate AroundEmit(e: Step) {
    e.Publish? || e.SaveLocal? || e.Commit? || e.CommitError?
  }
}
