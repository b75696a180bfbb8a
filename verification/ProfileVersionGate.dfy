/**
 The profile version gate: `persistProfilePatch` in agent_self_profile.service.ts over a
 compare-and-set commit (`commitAgentProfileChange`), for one agent and any number of overlapping
 http, socket and pulled writes. A call reads the record, decides, and commits at any later time.
 Two writers stand outside the gate: the stub saved when an identity is bound, which only creates,
 and `deactivate`, which writes a whole record it has read back without comparing. The retention
 job may prune a revision or a dedupe key at any time.

 `log` lists the commits that took effect. The outcome of the document checksum, the document's
 uniqueness and the patch fingerprint come with the input; the clock is a parameter.
 */
module ProfileVersionGate {
  import opened Options
  import opened AgentProfile

  datatype Source = Http | Socket | PullSync

  datatype Agent = Agent(profile: Profile, updatedAt: Option<int>, version: int, lastLogin: Option<nat>)

  datatype Input = Input(patch: ProfilePatch, source: Source, updatedAt: Option<int>, lastLogin: Option<nat>,
                         remote: Option<int>, expected: Option<int>, dedupe: Option<nat>, fingerprint: nat,
                         documentValid: bool)

  datatype Refusal = InvalidDocument | UnexpectedVersion | ContentConflict | NameRequired

  /** What a call does after its read: refuse, return the record unchanged, or commit. */
  datatype Plan = Throws(reason: Refusal) | Quiet | Commit(create: bool, previous: int, next: Agent)

  predicate Versioned(input: Input) {
    input.source == PullSync && input.remote.Some?
  }

  predicate SameVersionedPull(a: Input, b: Input) {
    Versioned(a) && Versioned(b) && a.remote == b.remote
  }

  predicate Unversioned(input: Input) {
    input.source == PullSync && input.remote.None?
  }

  function UpdateAgent(a: Agent, input: Input, updatedAt: Option<int>, lastLogin: Option<nat>, version: int): Agent {
    Agent(Stored(Update(a.profile, input.patch)),
          if updatedAt.Some? then updatedAt else a.updatedAt,
          version,
          if lastLogin.Some? then lastLogin else a.lastLogin)
  }

  function EffectiveUpdatedAt(existing: Option<Agent>, input: Input, now: int): int {
    if input.updatedAt.Some? then input.updatedAt.value
    else if input.source == PullSync && existing.Some? && existing.value.updatedAt.Some? then
      existing.value.updatedAt.value
    else now
  }

  function NextVersion(existing: Option<Agent>, input: Input): int {
    if Versioned(input) then input.remote.value
    else if existing.None? then 1
    else existing.value.version + 1
  }

  /** No record yet. */
  function DecideCreate(input: Input, now: int): Plan {
    match Create(input.patch)
    case None => Throws(NameRequired)
    case Some(profile) =>
      Commit(true, 0, Agent(Stored(profile), Some(EffectiveUpdatedAt(None, input, now)), NextVersion(None, input),
                            input.lastLogin))
  }

  /** The checks that end a call on an existing record without a commit, in order. */
  function DecideExisting(existing: Agent, input: Input, now: int): Plan {
    var at := EffectiveUpdatedAt(Some(existing), input, now);
    if input.expected.Some? && input.expected.value != existing.version then Throws(UnexpectedVersion)
    else if Versioned(input) && input.remote.value < existing.version then Quiet
    else if Versioned(input) && input.remote.value == existing.version then
      if ContentEqual(existing.profile, Stored(Update(existing.profile, input.patch))) then Quiet
      else Throws(ContentConflict)
    else if Unversioned(input) && input.updatedAt.None? && existing.updatedAt.Some? then Quiet
    else if Unversioned(input) && existing.updatedAt.Some? && input.updatedAt.Some?
            && at < existing.updatedAt.value then
      Quiet
    else
      var candidate := UpdateAgent(existing, input, Some(at), input.lastLogin, existing.version);
      if Unversioned(input) && ContentEqual(existing.profile, candidate.profile)
         && existing.updatedAt == candidate.updatedAt && existing.lastLogin == candidate.lastLogin then Quiet
      else
        Commit(false, existing.version, candidate.(version := NextVersion(Some(existing), input)))
  }

  function Decide(existing: Option<Agent>, input: Input, now: int): Plan {
    if !input.documentValid then Throws(InvalidDocument)
    else if existing.None? then DecideCreate(input, now)
    else DecideExisting(existing.value, input, now)
  }

  // ---------------------------------------------------------------------- the system

  datatype Call = Call(input: Input, plan: Plan)

  datatype Entry = Entry(input: Input, create: bool, agent: Agent)

  /**
   `revisions` are the versions with a revision row, unique for the agent and version; `snapshots`
   are the records that deactivations have read.
   */
  datatype Sys = Sys(
    row: Option<Agent>,
    keys: map<nat, nat>,
    revisions: set<int>,
    calls: seq<Call>,
    snapshots: seq<Agent>,
    log: seq<Entry>)

  datatype Step =
    | Read(input: Input, now: int)
    | TryCommit(i: nat, documentFree: bool)
    | SaveStub(stub: Agent)
    | ReadSnapshot
    | WriteBack(k: nat)
    | PruneRevision(version: int)
    | PruneKey(key: nat)

  /**
   The transaction: the dedupe key first, then document uniqueness, create or compare-and-set, and
   the revision row. A revision that is already there violates its index, so the transaction rolls
   back and the call throws.
   */
  predicate Commits(s: Sys, i: nat, documentFree: bool) {
    && i < |s.calls| && s.calls[i].plan.Commit? && documentFree
    && (s.calls[i].input.dedupe.Some? ==> s.calls[i].input.dedupe.value !in s.keys)
    && (if s.calls[i].plan.create then s.row.None?
        else s.row.Some? && s.row.value.version == s.calls[i].plan.previous)
    && s.calls[i].plan.next.version !in s.revisions
  }

  function DoCommit(s: Sys, c: Call): Sys
    requires c.plan.Commit?
  {
    s.(row := Some(c.plan.next),
       keys := if c.input.dedupe.Some? then s.keys[c.input.dedupe.value := c.input.fingerprint] else s.keys,
       revisions := s.revisions + {c.plan.next.version},
       log := s.log + [Entry(c.input, c.plan.create, c.plan.next)])
  }

  function Do(s: Sys, e: Step): Sys {
    match e
    case Read(input, now) => s.(calls := s.calls + [Call(input, Decide(s.row, input, now))])
    case TryCommit(i, documentFree) => if Commits(s, i, documentFree) then DoCommit(s, s.calls[i]) else s
    case SaveStub(stub) => if s.row.None? then s.(row := Some(stub)) else s
    case ReadSnapshot => if s.row.Some? then s.(snapshots := s.snapshots + [s.row.value]) else s
    case WriteBack(k) => if k < |s.snapshots| && s.row.Some? then s.(row := Some(s.snapshots[k])) else s
    case PruneRevision(version) => s.(revisions := s.revisions - {version})
    case PruneKey(key) => s.(keys := s.keys - {key})
  }

  /** Any record, any used keys and any revisions, and no write under way. */
  function From(row: Option<Agent>, keys: map<nat, nat>, revisions: set<int>): Sys {
    Sys(row, keys, revisions, [], [], [])
  }

  function Run(s: Sys, es: seq<Step>): Sys
    decreases |es|
  {
    if es == [] then s else Run(Do(s, es[0]), es[1..])
  }

  // ------------------------------------------------------------------- the invariant

  /** The patch leaves the name alone when applied to the record it made. */
  predicate NameSettled(patch: ProfilePatch, create: bool) {
    create ==> patch.name.Some? && Trim(patch.name.value) == patch.name.value
  }

  /** Applying the patch again to its own result is seen as equal exactly when the name is settled. */
  predicate Echoes(profile: Profile, patch: ProfilePatch, create: bool) {
    ContentEqual(profile, Stored(Update(profile, patch))) <==> NameSettled(patch, create)
  }

  predicate CommitOk(input: Input, create: bool, next: Agent) {
    && input.documentValid
    && (Versioned(input) ==> next.version == input.remote.value)
    && Echoes(next.profile, input.patch, create)
  }

  predicate CallOk(c: Call) {
    c.plan.Commit? ==>
      CommitOk(c.input, c.plan.create, c.plan.next) && (!c.plan.create ==> c.plan.previous < c.plan.next.version)
  }

  predicate LogOk(log: seq<Entry>) {
    && (forall i, j :: 0 <= i < j < |log| ==> log[i].agent.version < log[j].agent.version)
    && (forall i :: 0 <= i < |log| ==> CommitOk(log[i].input, log[i].create, log[i].agent))
  }

  /** Once something was committed, the record is the last commit. */
  predicate RowIsLast(row: Option<Agent>, log: seq<Entry>) {
    log != [] ==> row.Some? && log[|log| - 1].agent == row.value
  }

  /** A snapshot is the record, or it is of an older version that a commit has replaced. */
  predicate SnapshotOk(snapshot: Agent, row: Option<Agent>, log: seq<Entry>) {
    row.Some? && (snapshot == row.value || (log != [] && snapshot.version < row.value.version))
  }

  predicate CallsOk(calls: seq<Call>) {
    forall i :: 0 <= i < |calls| ==> CallOk(calls[i])
  }

  predicate SnapshotsOk(snapshots: seq<Agent>, row: Option<Agent>, log: seq<Entry>) {
    forall k :: 0 <= k < |snapshots| ==> SnapshotOk(snapshots[k], row, log)
  }

  predicate Inv(s: Sys) {
    LogOk(s.log) && RowIsLast(s.row, s.log) && CallsOk(s.calls) && SnapshotsOk(s.snapshots, s.row, s.log)
  }

  /** What keeps the gate whole: a write-back restores the version that stands. */
  predicate Fresh(s: Sys, e: Step) {
    e.WriteBack? && e.k < |s.snapshots| && s.row.Some? ==> s.snapshots[e.k].version == s.row.value.version
  }

  predicate AllFresh(s: Sys, es: seq<Step>)
    decreases |es|
  {
    es == [] || (Fresh(s, es[0]) && AllFresh(Do(s, es[0]), es[1..]))
  }

  // -------------------------------------------------------------- the steps keep it

  lemma CreateOk(input: Input, now: int)
    requires input.documentValid
    ensures CallOk(Call(input, DecideCreate(input, now)))
  {
    if Create(input.patch).Some? {
      UpdateAfterCreate(input.patch);
    }
  }

  lemma ExistingOk(existing: Agent, input: Input, now: int)
    requires input.documentValid
    ensures CallOk(Call(input, DecideExisting(existing, input, now)))
  {
    UpdateTwice(existing.profile, input.patch);
  }

  lemma ReadKeeps(s: Sys, input: Input, now: int)
    requires Inv(s)
    ensures Inv(Do(s, Read(input, now)))
  {
    if input.documentValid {
      CreateOk(input, now);
      if s.row.Some? { ExistingOk(s.row.value, input, now); }
    }
    assert CallOk(Call(input, Decide(s.row, input, now)));
  }

  lemma LogGrows(log: seq<Entry>, e: Entry)
    requires LogOk(log) && CommitOk(e.input, e.create, e.agent)
    requires log != [] ==> log[|log| - 1].agent.version < e.agent.version
    ensures LogOk(log + [e])
  {
    assert forall i :: 0 <= i < |log| ==> log[i].agent.version < e.agent.version;
  }

  /** A commit that the transaction lets through is newer than the record. */
  lemma CommitIsNewer(s: Sys, i: nat, documentFree: bool)
    requires Inv(s) && Commits(s, i, documentFree)
    ensures s.row.Some? ==> s.row.value.version < s.calls[i].plan.next.version
    ensures s.log != [] ==> s.log[|s.log| - 1].agent.version < s.calls[i].plan.next.version
    ensures s.row.None? ==> s.log == [] && s.snapshots == []
  {
    assert CallOk(s.calls[i]);
    assert s.snapshots != [] ==> SnapshotOk(s.snapshots[0], s.row, s.log);
  }

  lemma CommitKeeps(s: Sys, i: nat, documentFree: bool)
    requires Inv(s)
    ensures Inv(Do(s, TryCommit(i, documentFree)))
  {
    if Commits(s, i, documentFree) {
      CommitIsNewer(s, i, documentFree);
      assert CallOk(s.calls[i]);
      NewerKeeps(s, s.calls[i]);
    }
  }

  lemma NewerKeeps(s: Sys, c: Call)
    requires Inv(s) && c.plan.Commit? && CommitOk(c.input, c.plan.create, c.plan.next)
    requires s.row.Some? ==> s.row.value.version < c.plan.next.version
    requires s.log != [] ==> s.log[|s.log| - 1].agent.version < c.plan.next.version
    ensures Inv(DoCommit(s, c))
  {
    var e := Entry(c.input, c.plan.create, c.plan.next);
    LogGrows(s.log, e);
    SnapshotsAge(s.snapshots, s.row, s.log, e);
  }

  lemma SnapshotsAge(snapshots: seq<Agent>, row: Option<Agent>, log: seq<Entry>, e: Entry)
    requires SnapshotsOk(snapshots, row, log) && (row.Some? ==> row.value.version < e.agent.version)
    ensures SnapshotsOk(snapshots, Some(e.agent), log + [e])
  {
  }

  lemma StubKeeps(s: Sys, stub: Agent)
    requires Inv(s)
    ensures Inv(Do(s, SaveStub(stub)))
  {
    assert forall k :: 0 <= k < |s.snapshots| ==> SnapshotOk(s.snapshots[k], s.row, s.log);
  }

  lemma SnapshotKeeps(s: Sys)
    requires Inv(s)
    ensures Inv(Do(s, ReadSnapshot))
  {
  }

  /** A write-back keeps the gate whole if and only if it restores the version that stands. */
  lemma WriteBackKeepsIff(s: Sys, k: nat)
    requires Inv(s)
    ensures Inv(Do(s, WriteBack(k))) <==> Fresh(s, WriteBack(k))
    ensures Fresh(s, WriteBack(k)) ==> Do(s, WriteBack(k)) == s
  {
    assert k < |s.snapshots| ==> SnapshotOk(s.snapshots[k], s.row, s.log);
  }

  lemma StepKeepsIff(s: Sys, e: Step)
    requires Inv(s)
    ensures Inv(Do(s, e)) <==> Fresh(s, e)
  {
    match e
    case Read(input, now) => ReadKeeps(s, input, now);
    case TryCommit(i, documentFree) => CommitKeeps(s, i, documentFree);
    case SaveStub(stub) => StubKeeps(s, stub);
    case ReadSnapshot => SnapshotKeeps(s);
    case WriteBack(k) => WriteBackKeepsIff(s, k);
    case _ =>
  }

  lemma {:induction false} RunKeeps(s: Sys, es: seq<Step>)
    requires Inv(s) && AllFresh(s, es)
    ensures Inv(Run(s, es))
    decreases |es|
  {
    if es != [] {
      StepKeepsIff(s, es[0]);
      RunKeeps(Do(s, es[0]), es[1..]);
    }
  }

  // -------------------------------------------------------------------- the results

  predicate LastThroughout(s: Sys, es: seq<Step>)
    decreases |es|
  {
    RowIsLast(s.row, s.log) && (es == [] || LastThroughout(Do(s, es[0]), es[1..]))
  }

  /** A stale write-back puts an older record in the place of the last commit. */
  lemma StaleParts(s: Sys, e: Step)
    requires Inv(s) && !Fresh(s, e)
    ensures !RowIsLast(Do(s, e).row, Do(s, e).log)
  {
    assert SnapshotOk(s.snapshots[e.k], s.row, s.log);
  }

  lemma {:induction false} LastIff(s: Sys, es: seq<Step>)
    requires Inv(s)
    ensures LastThroughout(s, es) <==> AllFresh(s, es)
    decreases |es|
  {
    if es != [] {
      if Fresh(s, es[0]) {
        StepKeepsIff(s, es[0]);
        LastIff(Do(s, es[0]), es[1..]);
      } else {
        StaleParts(s, es[0]);
      }
    }
  }

  /**
   From any record, the record is the last commit throughout a run if and only if every write-back
   restored the version that stood.
   */
  lemma GateHoldsIff(row: Option<Agent>, keys: map<nat, nat>, revisions: set<int>, es: seq<Step>)
    ensures LastThroughout(From(row, keys, revisions), es) <==> AllFresh(From(row, keys, revisions), es)
  {
    LastIff(From(row, keys, revisions), es);
  }

  /** Nothing falls back below a version that once stood. */
  predicate Above(s: Sys, base: int) {
    s.row.Some? && base <= s.row.value.version && forall k :: 0 <= k < |s.log| ==> base < s.log[k].agent.version
  }

  lemma StaysAbove(s: Sys, e: Step, base: int)
    requires Inv(s) && Fresh(s, e) && Above(s, base)
    ensures Above(Do(s, e), base)
  {
    match e
    case TryCommit(i, documentFree) =>
      if Commits(s, i, documentFree) { CommitIsNewer(s, i, documentFree); }
    case WriteBack(k) => WriteBackKeepsIff(s, k);
    case _ =>
  }

  lemma {:induction false} RunStaysAbove(s: Sys, es: seq<Step>, base: int)
    requires Inv(s) && AllFresh(s, es) && Above(s, base)
    ensures Above(Run(s, es), base)
    decreases |es|
  {
    if es != [] {
      StaysAbove(s, es[0], base);
      StepKeepsIff(s, es[0]);
      RunStaysAbove(Do(s, es[0]), es[1..], base);
    }
  }

  /**
   Over any mix of overlapping writes, from any record, committed profile versions strictly
   increase, and all of them are above the version of the record that stood at the start.
   */
  lemma VersionsIncrease(row: Option<Agent>, keys: map<nat, nat>, revisions: set<int>, es: seq<Step>, i: nat, j: nat)
    ensures AllFresh(From(row, keys, revisions), es) ==>
      var log := Run(From(row, keys, revisions), es).log;
      && (i < j < |log| ==> log[i].agent.version < log[j].agent.version)
      && (row.Some? && i < |log| ==> row.value.version < log[i].agent.version)
  {
    if AllFresh(From(row, keys, revisions), es) {
      RunKeeps(From(row, keys, revisions), es);
      if row.Some? { RunStaysAbove(From(row, keys, revisions), es, row.value.version); }
    }
  }

  /** A committed versioned pull without an expected version. */
  predicate Pulled(s: Sys, i: nat) {
    i < |s.log| && Versioned(s.log[i].input) && s.log[i].input.expected.None?
  }

  /**
   What a redelivery is told. After a versioned pulled profile was committed, reading it again
   in any later state never plans a commit: it quietly returns the record, except for a record
   that it created from an untrimmed name and that nothing replaced since, which is a conflict.
   */
  lemma RedeliveryIsQuietIff(row: Option<Agent>, keys: map<nat, nat>, revisions: set<int>, es: seq<Step>, i: nat,
                             now: int)
    ensures var s := Run(From(row, keys, revisions), es);
      AllFresh(From(row, keys, revisions), es) && Pulled(s, i) ==>
        var e := s.log[i]; var plan := Decide(s.row, e.input, now);
        && (plan.Quiet? <==> i < |s.log| - 1 || NameSettled(e.input.patch, e.create))
        && (!plan.Quiet? ==> plan == Throws(ContentConflict))
  {
    var s := Run(From(row, keys, revisions), es);
    if AllFresh(From(row, keys, revisions), es) && Pulled(s, i) {
      RunKeeps(From(row, keys, revisions), es);
      assert CommitOk(s.log[i].input, s.log[i].create, s.log[i].agent);
    }
  }

  /** The exception does not arise from pulled profiles as parsed: their name is already trimmed. */
  lemma ParsedProfilesAreQuiet(row: Option<Agent>, keys: map<nat, nat>, revisions: set<int>, es: seq<Step>, i: nat,
                               now: int, raw: string)
    ensures var s := Run(From(row, keys, revisions), es);
      AllFresh(From(row, keys, revisions), es) && Pulled(s, i) && s.log[i].input.patch.name == Some(Trim(raw)) ==>
        Decide(s.row, s.log[i].input, now).Quiet?
  {
    RedeliveryIsQuietIff(row, keys, revisions, es, i, now);
    TrimTwice(raw);
  }

  /** Nor does it arise once a stub was saved: the first profile write is then an update. */
  lemma StubbedRecordsAreQuiet(stub: Agent, keys: map<nat, nat>, revisions: set<int>, es: seq<Step>, i: nat, now: int)
    ensures var s := Run(From(Some(stub), keys, revisions), es);
      AllFresh(From(Some(stub), keys, revisions), es) && Pulled(s, i) ==> Decide(s.row, s.log[i].input, now).Quiet?
  {
    RedeliveryIsQuietIff(Some(stub), keys, revisions, es, i, now);
    UpdatesOnly(From(Some(stub), keys, revisions), es, i);
  }

  /** With a record in place nothing is ever created. */
  lemma {:induction false} UpdatesOnly(s: Sys, es: seq<Step>, i: nat)
    requires s.row.Some? && forall k :: 0 <= k < |s.log| ==> !s.log[k].create
    ensures var t := Run(s, es); t.row.Some? && (i < |t.log| ==> !t.log[i].create)
    decreases |es|
  {
    if es != [] {
      UpdatesOnly(Do(s, es[0]), es[1..], i);
    }
  }

  /**
   What a stale write-back costs: over an older record a pulled profile plans its commit again,
   exactly when that record's version is below the profile's own.
   */
  lemma WriteBackReopensIff(restored: Agent, input: Input, now: int)
    requires input.documentValid && Versioned(input) && input.expected.None?
    ensures Decide(Some(restored), input, now).Commit? <==> restored.version < input.remote.value
  {
  }

  /** The exception is real: a padded name, created and delivered again. */
  lemma PaddedNameConflicts(patch: ProfilePatch, version: int, now: int, later: int)
    requires patch.name == Some(" a")
    ensures var input := Input(patch, PullSync, None, None, Some(version), None, None, 0, true);
      var s := Run(From(None, map[], {}), [Read(input, now), TryCommit(0, true)]);
      Decide(s.row, input, later) == Throws(ContentConflict)
  {
    var input := Input(patch, PullSync, None, None, Some(version), None, None, 0, true);
    var es := [Read(input, now), TryCommit(0, true)];
    var start := From(None, map[], {});
    var mid := Do(start, es[0]);
    assert Trim(" a") == Trim("a") == "a";
    assert es[1..] == [es[1]];
    assert Run(start, es) == Run(mid, [es[1]]) == Do(mid, es[1]);
    CreateOk(input, now);
  }
}
