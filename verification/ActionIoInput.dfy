/**
 Crash-safe input of an action I/O session (action_io_session.ts, action_io_checkpoint.ts): any
 number of processes, restarts and crashes over one checkpoint directory.

 The directory holds one file per input sequence number. A file is created exclusively, empty,
 and written once; its message id is drawn when it is written, so the message is named by the
 file. The remote side confirms only messages that were sent to it.
 */
module ActionIoInput {
  import opened Options

  /** `hash` is none for a close. `execution` is the session that claimed the file. */
  datatype Intent = Intent(execution: nat, stepLabel: string, hash: Option<nat>)

  datatype File = Incomplete | Complete(intent: Intent)

  datatype Pc =
    | Claiming
    | Filling
    | Sending
    | Confirming(own: bool)
    | Returned
    | Threw

  /** One run of `input`: what it wants to write and where it is. A crash is a `Threw`. */
  datatype Process = Process(wants: Intent, sequence: nat, pc: Pc)

  datatype Session = Session(
    first: nat,
    files: map<nat, File>,
    owner: map<nat, nat>,
    procs: seq<Process>,
    sent: seq<nat>,
    written: set<nat>,
    confirmed: set<nat>)

  const LIMIT := 8192

  datatype Step =
    | Start(wants: Intent)
    | Claim(p: nat)
    | Fill(p: nat)
    | Send(p: nat, definiteError: bool)
    | PollWritten(p: nat)
    | PollFails(p: nat)
    | Crash(p: nat)
    | RemoteWrites(k: nat)

  function Initial(first: nat): Session {
    Session(first, map[], map[], [], [], {}, {})
  }

  function Go(s: Session, p: nat, pc: Pc): Session
    requires p < |s.procs|
  {
    s.(procs := s.procs[p := s.procs[p].(pc := pc)])
  }

  predicate At(s: Session, p: nat, pc: Pc) {
    p < |s.procs| && s.procs[p].pc == pc
  }

  /** What `input` does with the intent it finds in an existing file. */
  function OnExisting(wants: Intent, found: File): Pc {
    match found
    case Incomplete => Threw
    case Complete(i) =>
      if i.execution != wants.execution then Threw
      else if i.stepLabel == wants.stepLabel then (if i.hash == wants.hash then Confirming(true) else Threw)
      else if i.hash.None? then Threw
      else Confirming(false)
  }

  function DoClaim(s: Session, p: nat): Session {
    if !At(s, p, Claiming) then s else
    var k := s.procs[p].sequence;
    if k >= LIMIT then Go(s, p, Threw)
    else if k in s.files then Go(s, p, OnExisting(s.procs[p].wants, s.files[k]))
    else Go(s, p, Filling).(files := s.files[k := Incomplete], owner := s.owner[k := p])
  }

  function DoFill(s: Session, p: nat): Session {
    if !At(s, p, Filling) then s else
    Go(s, p, Sending).(files := s.files[s.procs[p].sequence := Complete(s.procs[p].wants)])
  }

  /** The only dispatch of a file's message: by the process that claimed it fresh. */
  function DoSend(s: Session, p: nat, definiteError: bool): Session {
    if !At(s, p, Sending) then s else
    Go(s, p, if definiteError then Threw else Confirming(true)).(sent := s.sent + [s.procs[p].sequence])
  }

  /** The receipt says "written": the own step returns, a foreign one lets the loop go on. */
  function DoPollWritten(s: Session, p: nat): Session {
    if p >= |s.procs| || !s.procs[p].pc.Confirming? || s.procs[p].sequence !in s.written then s else
    var k := s.procs[p].sequence;
    var next := if s.procs[p].pc.own then s.procs[p].(pc := Returned)
                else s.procs[p].(pc := Claiming, sequence := k + 1);
    s.(procs := s.procs[p := next], confirmed := s.confirmed + {k})
  }

  function Do(s: Session, e: Step): Session {
    match e
    case Start(wants) => s.(procs := s.procs + [Process(wants, s.first, Claiming)])
    case Claim(p) => DoClaim(s, p)
    case Fill(p) => DoFill(s, p)
    case Send(p, definiteError) => DoSend(s, p, definiteError)
    case PollWritten(p) => DoPollWritten(s, p)
    case PollFails(p) => if p < |s.procs| && s.procs[p].pc.Confirming? then Go(s, p, Threw) else s
    case Crash(p) => if p < |s.procs| then Go(s, p, Threw) else s
    case RemoteWrites(k) => if k in s.sent then s.(written := s.written + {k}) else s
  }

  function Run(s: Session, es: seq<Step>): Session
    decreases |es|
  {
    if es == [] then s else Run(Do(s, es[0]), es[1..])
  }

  // ------------------------------------------------------------------ the invariant

  /** Another step's intent, and not a close. */
  predicate Open(i: Intent, own: string) {
    i.stepLabel != own && i.hash.Some?
  }

  /** File `k` is another step's, still open, and its message was confirmed. */
  predicate Passed(files: map<nat, File>, confirmed: set<nat>, k: nat, own: string) {
    k in files && files[k].Complete? && k in confirmed && Open(files[k].intent, own)
  }

  /** A process has walked past every file before its own position. */
  predicate Walked(s: Session, p: Process) {
    && s.first <= p.sequence
    && (forall k :: s.first <= k < p.sequence ==> Passed(s.files, s.confirmed, k, p.wants.stepLabel))
  }

  /** Before its dispatch a process owns its file, and nobody has sent that file's message. */
  predicate OwnsUnsent(s: Session, i: nat)
    requires i < |s.procs|
  {
    var p := s.procs[i];
    && (p.pc.Filling? || p.pc.Sending? ==>
          && p.sequence in s.owner && s.owner[p.sequence] == i && p.sequence in s.files && p.sequence !in s.sent)
    && (p.pc.Filling? ==> s.files[p.sequence].Incomplete?)
    && (p.pc.Sending? ==> s.files[p.sequence] == Complete(p.wants))
    && (p.pc.Confirming? ==>
          && p.sequence in s.files && s.files[p.sequence].Complete?
          && (p.pc.own ==> s.files[p.sequence] == Complete(p.wants))
          && (!p.pc.own ==> Open(s.files[p.sequence].intent, p.wants.stepLabel)))
    && (p.pc.Returned? ==>
          p.sequence in s.files && s.files[p.sequence] == Complete(p.wants) && p.sequence in s.confirmed)
  }

  /** Files: a gap-free prefix, each after a confirmed open predecessor with another label. */
  predicate FilesOk(first: nat, files: map<nat, File>, confirmed: set<nat>) {
    && (forall k :: k in files ==> first <= k)
    && (forall j, k :: first <= j < k && k in files ==>
          && j in files && files[j].Complete? && files[j].intent.hash.Some? && j in confirmed
          && (files[k].Complete? ==> files[j].intent.stepLabel != files[k].intent.stepLabel))
  }

  /** The send log is first, first + 1, ...; receipts only for what was sent. */
  predicate SentOk(s: Session) {
    && (forall i :: 0 <= i < |s.sent| ==>
          s.sent[i] == s.first + i && s.sent[i] in s.files && s.files[s.sent[i]].Complete?)
    && (forall k :: k in s.written ==> k in s.sent)
    && (forall k :: k in s.confirmed ==> k in s.written)
  }

  predicate ProcsOk(s: Session) {
    forall i :: 0 <= i < |s.procs| ==> Walked(s, s.procs[i]) && OwnsUnsent(s, i)
  }

  predicate Inv(s: Session) {
    ProcsOk(s) && FilesOk(s.first, s.files, s.confirmed) && SentOk(s)
  }

  // ------------------------------------------------------------------ preservation

  /** Nothing that a walk relied on is ever taken back. */
  lemma WalkedStays(s: Session, t: Session, p: Process)
    requires Walked(s, p) && s.first == t.first && s.confirmed <= t.confirmed
    requires forall k :: k in s.files && s.files[k].Complete? ==> k in t.files && t.files[k] == s.files[k]
    ensures Walked(t, p)
  {
    forall k | s.first <= k < p.sequence
      ensures Passed(t.files, t.confirmed, k, p.wants.stepLabel)
    {
      assert Passed(s.files, s.confirmed, k, p.wants.stepLabel);
    }
  }

  lemma GoKeeps(s: Session, p: nat, pc: Pc)
    requires Inv(s) && p < |s.procs| && OwnsUnsent(Go(s, p, pc), p)
    ensures Inv(Go(s, p, pc))
  {
  }

  lemma CreateFiles(s: Session, p: nat, f: File)
    requires Inv(s) && p < |s.procs|
    requires s.procs[p].sequence !in s.files || (At(s, p, Filling) && f == Complete(s.procs[p].wants))
    requires s.procs[p].sequence !in s.files ==> f.Incomplete?
    ensures FilesOk(s.first, s.files[s.procs[p].sequence := f], s.confirmed)
  {
    var k := s.procs[p].sequence;
    var files := s.files[k := f];
    assert Walked(s, s.procs[p]) && OwnsUnsent(s, p);
    forall j | s.first <= j < k
      ensures j in files && files[j].Complete? && files[j].intent.hash.Some? && j in s.confirmed
      ensures files[j].intent.stepLabel != s.procs[p].wants.stepLabel
    {
      assert Passed(s.files, s.confirmed, j, s.procs[p].wants.stepLabel);
    }
  }

  /** An exclusive create: the file was nobody's, so the claimer is its only owner. */
  lemma CreateKeeps(s: Session, p: nat)
    requires Inv(s) && At(s, p, Claiming) && s.procs[p].sequence < LIMIT && s.procs[p].sequence !in s.files
    ensures Inv(DoClaim(s, p))
  {
    var t := DoClaim(s, p);
    CreateFiles(s, p, Incomplete);
    forall i | 0 <= i < |t.procs|
      ensures Walked(t, t.procs[i]) && OwnsUnsent(t, i)
    {
      assert OwnsUnsent(s, i);
      WalkedStays(s, t, s.procs[i]);
      assert Walked(t, s.procs[i]);
    }
  }

  lemma FillKeeps(s: Session, p: nat)
    requires Inv(s) && At(s, p, Filling)
    ensures Inv(DoFill(s, p))
  {
    var t := DoFill(s, p);
    assert OwnsUnsent(s, p);
    CreateFiles(s, p, Complete(s.procs[p].wants));
    forall i | 0 <= i < |t.procs|
      ensures Walked(t, t.procs[i]) && OwnsUnsent(t, i)
    {
      assert OwnsUnsent(s, i);
      WalkedStays(s, t, s.procs[i]);
      assert Walked(t, s.procs[i]);
    }
  }

  lemma SentIff(s: Session, k: nat)
    requires SentOk(s)
    ensures k in s.sent <==> s.first <= k < s.first + |s.sent|
  {
    if s.first <= k < s.first + |s.sent| { assert s.sent[k - s.first] == k; }
  }

  /** Everything before the file being sent was confirmed, hence sent; nothing after it was. */
  lemma NextToSend(s: Session, p: nat)
    requires Inv(s) && At(s, p, Sending)
    ensures s.procs[p].sequence == s.first + |s.sent|
  {
    var k, n := s.procs[p].sequence, s.first + |s.sent|;
    assert Walked(s, s.procs[p]) && OwnsUnsent(s, p);
    SentIff(s, k);
    SentIff(s, n);
    forall j | s.first <= j < k
      ensures j in s.sent
    {
      assert Passed(s.files, s.confirmed, j, s.procs[p].wants.stepLabel);
    }
  }

  lemma SendKeeps(s: Session, p: nat, definiteError: bool)
    requires Inv(s) && At(s, p, Sending)
    ensures Inv(DoSend(s, p, definiteError))
  {
    NextToSend(s, p);
    var t := DoSend(s, p, definiteError);
    assert OwnsUnsent(s, p);
    forall i | 0 <= i < |t.procs|
      ensures Walked(t, t.procs[i]) && OwnsUnsent(t, i)
    {
      assert OwnsUnsent(s, i);
      WalkedStays(s, t, s.procs[i]);
      assert Walked(t, s.procs[i]);
    }
    assert SentOk(t);
  }

  lemma PollWrittenKeeps(s: Session, p: nat)
    requires Inv(s)
    ensures Inv(DoPollWritten(s, p))
  {
    if p < |s.procs| && s.procs[p].pc.Confirming? && s.procs[p].sequence in s.written {
      var t := DoPollWritten(s, p);
      assert OwnsUnsent(s, p);
      forall i | 0 <= i < |t.procs|
        ensures Walked(t, t.procs[i]) && OwnsUnsent(t, i)
      {
        assert OwnsUnsent(s, i);
        WalkedStays(s, t, s.procs[i]);
        assert Walked(t, s.procs[i]);
        if i == p && !s.procs[p].pc.own {
          var k := s.procs[p].sequence;
          assert Passed(t.files, t.confirmed, k, s.procs[p].wants.stepLabel);
          assert forall j :: t.first <= j < k ==> Passed(t.files, t.confirmed, j, s.procs[p].wants.stepLabel);
        }
      }
    }
  }

  lemma StartKeeps(s: Session, wants: Intent)
    requires Inv(s)
    ensures Inv(Do(s, Start(wants)))
  {
  }

  lemma RemoteKeeps(s: Session, k: nat)
    requires Inv(s)
    ensures Inv(Do(s, RemoteWrites(k)))
  {
  }

  lemma DoKeeps(s: Session, e: Step)
    requires Inv(s)
    ensures Inv(Do(s, e))
  {
    match e
    case Start(wants) => StartKeeps(s, wants);
    case Claim(p) =>
      if At(s, p, Claiming) {
        var k := s.procs[p].sequence;
        if k >= LIMIT { GoKeeps(s, p, Threw); }
        else if k in s.files { GoKeeps(s, p, OnExisting(s.procs[p].wants, s.files[k])); }
        else { CreateKeeps(s, p); }
      }
    case Fill(p) => if At(s, p, Filling) { FillKeeps(s, p); }
    case Send(p, definiteError) => if At(s, p, Sending) { SendKeeps(s, p, definiteError); }
    case PollWritten(p) => PollWrittenKeeps(s, p);
    case PollFails(p) => if p < |s.procs| { GoKeeps(s, p, Threw); }
    case Crash(p) => if p < |s.procs| { GoKeeps(s, p, Threw); }
    case RemoteWrites(k) => RemoteKeeps(s, k);
  }

  /** Files are write-once: what a directory holds, it keeps. */
  predicate Extends(s: Session, t: Session) {
    && s.first == t.first
    && (forall k :: k in s.files ==> k in t.files && (s.files[k].Complete? ==> t.files[k] == s.files[k]))
    && s.sent <= t.sent
  }

  lemma DoExtends(s: Session, e: Step)
    requires Inv(s)
    ensures Extends(s, Do(s, e))
  {
    if e.Fill? && At(s, e.p, Filling) {
      assert OwnsUnsent(s, e.p);
    }
  }

  lemma {:induction false} RunKeeps(s: Session, es: seq<Step>)
    requires Inv(s)
    ensures Inv(Run(s, es)) && Extends(s, Run(s, es))
    decreases |es|
  {
    if es != [] {
      DoKeeps(s, es[0]);
      DoExtends(s, es[0]);
      RunKeeps(Do(s, es[0]), es[1..]);
    }
  }

  // -------------------------------------------------------------------- the results

  /**
   Main result, over any crashes, restarts and concurrent processes: messages are sent in the
   order of their sequence numbers, each at most once and with none left out.
   */
  lemma SentExactlyInOrder(first: nat, es: seq<Step>, i: nat)
    ensures var s := Run(Initial(first), es);
      i < |s.sent| ==> s.sent[i] == first + i
  {
    RunKeeps(Initial(first), es);
  }

  /**
   Claimed numbers form a gap-free prefix with distinct labels; a number is claimed only after
   its predecessor was confirmed written; nothing follows a close.
   */
  lemma ClaimedPrefix(first: nat, es: seq<Step>, j: nat, k: nat)
    ensures var s := Run(Initial(first), es);
      first <= j < k && k in s.files ==>
        && j in s.files && j in s.confirmed && j in s.sent
        && s.files[j].Complete? && s.files[j].intent.hash.Some?
        && (s.files[k].Complete? ==> s.files[j].intent.stepLabel != s.files[k].intent.stepLabel)
  {
    RunKeeps(Initial(first), es);
  }

  /**
   A call that returned did its job exactly once: its step is on file under its own label, content
   and execution, its message was sent, at one place of the log, and confirmed.
   */
  lemma ReturnedMeansWritten(first: nat, es: seq<Step>, p: nat)
    ensures var s := Run(Initial(first), es);
      p < |s.procs| && s.procs[p].pc.Returned? ==>
        var k := s.procs[p].sequence;
        && k in s.files && s.files[k] == Complete(s.procs[p].wants)
        && k in s.confirmed && first <= k < first + |s.sent| && s.sent[k - first] == k
        && (forall j :: j in s.files && j != k && s.files[j].Complete? ==>
              s.files[j].intent.stepLabel != s.procs[p].wants.stepLabel)
  {
    RunKeeps(Initial(first), es);
    var s := Run(Initial(first), es);
    if p < |s.procs| && s.procs[p].pc.Returned? {
      assert OwnsUnsent(s, p);
      SentIff(s, s.procs[p].sequence);
    }
  }

  /** After a close has been claimed no later run creates another file. */
  lemma {:induction false} NothingAfterClose(s: Session, es: seq<Step>, k: nat)
    requires Inv(s) && k in s.files && s.files[k].Complete? && s.files[k].intent.hash.None?
    ensures forall j :: j in Run(s, es).files ==> j in s.files
    ensures forall j :: j in s.files ==> j <= k
  {
    RunKeeps(s, es);
    var t := Run(s, es);
    assert t.files[k] == s.files[k];
    forall j | j in t.files
      ensures j in s.files
    {
      assert j <= k;
    }
  }
}
