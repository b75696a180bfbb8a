/**
 What the unique revision row adds to the profile gate in every run, stale write-backs included: a
 version commits once while its revision is kept, and exactly what it takes to commit again.
 */
module ProfileRevisions {
  import opened Options
  import opened AgentProfile
  import opened ProfileVersionGate

  // ------------------------------------------------------------ what every run keeps

  /** Without any condition on write-backs: entries are well made, and a commit leaves a record. */
  predicate Made(s: Sys) {
    && CallsOk(s.calls) && (s.log != [] ==> s.row.Some?)
    && forall i :: 0 <= i < |s.log| ==> CommitOk(s.log[i].input, s.log[i].create, s.log[i].agent)
  }

  lemma ReadMakes(s: Sys, input: Input, now: int)
    requires Made(s)
    ensures Made(Do(s, Read(input, now)))
  {
    if input.documentValid {
      CreateOk(input, now);
      if s.row.Some? { ExistingOk(s.row.value, input, now); }
    }
    assert CallOk(Call(input, Decide(s.row, input, now)));
  }

  lemma DoMakes(s: Sys, e: Step)
    requires Made(s)
    ensures Made(Do(s, e))
  {
    match e
    case Read(input, now) => ReadMakes(s, input, now);
    case TryCommit(i, documentFree) =>
      if Commits(s, i, documentFree) { assert CallOk(s.calls[i]); }
    case _ =>
  }

  lemma {:induction false} RunMakes(s: Sys, es: seq<Step>)
    requires Made(s)
    ensures Made(Run(s, es))
    decreases |es|
  {
    if es != [] {
      DoMakes(s, es[0]);
      RunMakes(Do(s, es[0]), es[1..]);
    }
  }

  /** If the i-th commit is of this version, its revision stands and no later commit is of it. */
  predicate Kept(s: Sys, v: int, i: nat) {
    i < |s.log| && s.log[i].agent.version == v ==>
      v in s.revisions && forall j :: i < j < |s.log| ==> s.log[j].agent.version != v
  }

  /** The version's revision is pruned at a moment when the i-th commit is on file. */
  predicate PrunedAfter(s: Sys, es: seq<Step>, v: int, i: nat)
    decreases |es|
  {
    es != [] && ((es[0] == PruneRevision(v) && i < |s.log|) || PrunedAfter(Do(s, es[0]), es[1..], v, i))
  }

  lemma DoKept(s: Sys, e: Step, v: int, i: nat)
    requires Kept(s, v, i) && !(e == PruneRevision(v) && i < |s.log|)
    ensures Kept(Do(s, e), v, i)
  {
  }

  lemma {:induction false} RunKept(s: Sys, es: seq<Step>, v: int, i: nat)
    requires Kept(s, v, i) && !PrunedAfter(s, es, v, i)
    ensures Kept(Run(s, es), v, i)
    decreases |es|
  {
    if es != [] {
      DoKept(s, es[0], v, i);
      RunKept(Do(s, es[0]), es[1..], v, i);
    }
  }

  // -------------------------------------------------------------------- the results

  /** In every run, however stale its write-backs, a version commits once until its revision is pruned. */
  lemma VersionsAreDistinct(row: Option<Agent>, keys: map<nat, nat>, revisions: set<int>, es: seq<Step>, i: nat,
                            j: nat)
    ensures var s := From(row, keys, revisions); var log := Run(s, es).log;
      i < j < |log| && log[i].agent.version == log[j].agent.version ==> PrunedAfter(s, es, log[i].agent.version, i)
  {
    var s := From(row, keys, revisions);
    var log := Run(s, es).log;
    if i < j < |log| && !PrunedAfter(s, es, log[i].agent.version, i) {
      RunKept(s, es, log[i].agent.version, i);
    }
  }

  /**
   A versioned pulled profile commits at most once in every run, however often or late it is
   delivered. A second commit takes both of two things: its revision was pruned since the first,
   and some write-back did not restore the version that stood.
   */
  lemma PulledCommitsOnce(row: Option<Agent>, keys: map<nat, nat>, revisions: set<int>, es: seq<Step>, i: nat, j: nat)
    ensures var s := From(row, keys, revisions); var log := Run(s, es).log;
      i < j < |log| && SameVersionedPull(log[i].input, log[j].input) ==>
        PrunedAfter(s, es, log[i].input.remote.value, i) && !AllFresh(s, es)
  {
    var s := From(row, keys, revisions);
    var log := Run(s, es).log;
    RunMakes(s, es);
    if i < j < |log| && SameVersionedPull(log[i].input, log[j].input) {
      assert CommitOk(log[i].input, log[i].create, log[i].agent);
      assert CommitOk(log[j].input, log[j].create, log[j].agent);
      VersionsAreDistinct(row, keys, revisions, es, i, j);
      VersionsIncrease(row, keys, revisions, es, i, j);
    }
  }

  /** One more delivery: the call reads, decides and tries its commit undisturbed. */
  function Deliver(s: Sys, input: Input, now: int): Sys {
    Do(Do(s, Read(input, now)), TryCommit(|s.calls|, true))
  }

  /** Nothing was committed: record, revisions and log stand as they did. */
  predicate NothingCommitted(s: Sys, t: Sys) {
    t.row == s.row && t.revisions == s.revisions && t.keys == s.keys && t.log == s.log
  }

  predicate KeyFree(s: Sys, input: Input) {
    input.dedupe.Some? ==> input.dedupe.value !in s.keys
  }

  /** What a delivery commits, from its plan. */
  lemma DeliverIs(s: Sys, input: Input, now: int)
    ensures var plan := Decide(s.row, input, now); var t := Deliver(s, input, now);
      if plan.Commit? && KeyFree(s, input) && plan.next.version !in s.revisions
      then t.log == s.log + [Entry(input, plan.create, plan.next)] && t.row == Some(plan.next)
      else NothingCommitted(s, t)
  {
    var plan := Decide(s.row, input, now);
    assert plan.Commit? && plan.create ==> s.row.None?;
    assert plan.Commit? && !plan.create ==> s.row.Some? && plan.previous == s.row.value.version;
  }

  /**
   Exactly when a committed pulled profile commits again. In every state of every run its delivery
   commits if and only if its revision is gone, the record stands below its version and its
   dedupe key, if any, is not on file; otherwise nothing is committed.
   */
  lemma CommitsAgainIff(row: Option<Agent>, keys: map<nat, nat>, revisions: set<int>, es: seq<Step>, i: nat,
                        now: int)
    ensures var s := Run(From(row, keys, revisions), es);
      Pulled(s, i) ==>
        var input := s.log[i].input; var v := input.remote.value; var t := Deliver(s, input, now);
        if v !in s.revisions && s.row.Some? && s.row.value.version < v && KeyFree(s, input)
        then |t.log| == |s.log| + 1 && t.log[|s.log|].agent.version == v
        else NothingCommitted(s, t)
  {
    var start := From(row, keys, revisions);
    var s := Run(start, es);
    RunMakes(start, es);
    if Pulled(s, i) {
      assert CommitOk(s.log[i].input, s.log[i].create, s.log[i].agent);
      WriteBackReopensIff(s.row.value, s.log[i].input, now);
      DeliverIs(s, s.log[i].input, now);
    }
  }

  /** What a stale write-back does while the revision is kept: the profile is refused, not committed again. */
  lemma KeptRevisionRefuses(row: Option<Agent>, keys: map<nat, nat>, revisions: set<int>, es: seq<Step>, i: nat,
                            now: int)
    ensures var start := From(row, keys, revisions); var s := Run(start, es);
      Pulled(s, i) && !PrunedAfter(start, es, s.log[i].input.remote.value, i) ==>
        NothingCommitted(s, Deliver(s, s.log[i].input, now))
  {
    var start := From(row, keys, revisions);
    var s := Run(start, es);
    RunMakes(start, es);
    if Pulled(s, i) && !PrunedAfter(start, es, s.log[i].input.remote.value, i) {
      assert CommitOk(s.log[i].input, s.log[i].create, s.log[i].agent);
      RunKept(start, es, s.log[i].input.remote.value, i);
      CommitsAgainIff(row, keys, revisions, es, i, now);
    }
  }

  /**
   An http or socket write on an existing record commits exactly if the next version has no revision
   yet, so a record that a write-back left below a kept revision takes no such write at all.
   */
  lemma DirectWriteIff(s: Sys, input: Input, now: int)
    requires s.row.Some? && input.source != PullSync && input.documentValid && KeyFree(s, input)
    requires input.expected.Some? ==> input.expected.value == s.row.value.version
    ensures var t := Deliver(s, input, now);
      if s.row.value.version + 1 !in s.revisions
      then |t.log| == |s.log| + 1 && t.log[|s.log|].agent.version == s.row.value.version + 1
      else NothingCommitted(s, t)
  {
    DeliverIs(s, input, now);
  }

  /** The delivery commits a version below `last`. */
  predicate CommitsBelow(s: Sys, input: Input, last: int, now: int) {
    var t := Deliver(s, input, now);
    |t.log| > |s.log| && t.log[|s.log|].agent.version < last
  }

  predicate FreeBelow(s: Sys, w: int, last: int)
    requires s.row.Some?
  {
    s.row.value.version < w < last && w !in s.revisions
  }

  /**
   Exactly when the order of versions can break: some delivery commits below the last committed
   version if and only if a version between the record's and that one has no revision. While the
   record is the last commit there is none in between.
   */
  lemma ReordersIff(s: Sys, last: int, now: int)
    requires s.row.Some?
    ensures (exists input :: CommitsBelow(s, input, last, now)) <==> (exists w :: FreeBelow(s, w, last))
  {
    forall input | CommitsBelow(s, input, last, now)
      ensures FreeBelow(s, Decide(s.row, input, now).next.version, last)
    {
      DeliverIs(s, input, now);
      ExistingOk(s.row.value, input, now);
    }
    forall w | FreeBelow(s, w, last)
      ensures CommitsBelow(s, Pull(NoChange, w), last, now)
    {
      WriteBackReopensIff(s.row.value, Pull(NoChange, w), now);
      DeliverIs(s, Pull(NoChange, w), now);
    }
  }

  // ------------------------------------------------------------------ concrete runs

  function Pull(patch: ProfilePatch, version: int): Input {
    Input(patch, PullSync, None, None, Some(version), None, None, 0, true)
  }

  function Direct(patch: ProfilePatch): Input {
    Input(patch, Http, None, None, None, None, None, 0, true)
  }

  /** A deactivation reads the stub, a pulled profile commits, the stub is written back. */
  function RestoreSteps(input: Input, now: int): seq<Step> {
    [ReadSnapshot, Read(input, now), TryCommit(0, true), WriteBack(0)]
  }

  /** The state after that: the stub again, and the commit on file. */
  function Restored(stub: Agent, patch: ProfilePatch, version: int, now: int): Sys
    requires stub.version < version
  {
    var c := Call(Pull(patch, version), Decide(Some(stub), Pull(patch, version), now));
    WriteBackReopensIff(stub, Pull(patch, version), now);
    Sys(Some(stub), map[], {version}, [c], [stub], [Entry(c.input, c.plan.create, c.plan.next)])
  }

  lemma RestoreLeads(stub: Agent, patch: ProfilePatch, version: int, now: int)
    requires stub.version < version
    ensures Run(From(Some(stub), map[], {}), RestoreSteps(Pull(patch, version), now))
      == Restored(stub, patch, version, now)
  {
    var input := Pull(patch, version);
    var s := From(Some(stub), map[], {});
    var es := RestoreSteps(input, now);
    WriteBackReopensIff(stub, input, now);
    var c := Call(input, Decide(Some(stub), input, now));
    var s1 := s.(snapshots := [stub]);
    var s2 := s1.(calls := [c]);
    var s3 := DoCommit(s2, c);
    assert Do(s, es[0]) == s1 && Do(s1, es[1]) == s2 && Do(s2, es[2]) == s3;
    assert s3.revisions == {version};
    FourSteps(s, es);
  }

  /** With the revision pruned, a stale deactivation lets every pulled profile commit twice. */
  lemma StaleDeactivationCommitsTwice(stub: Agent, patch: ProfilePatch, version: int, now: int)
    requires stub.version < version
    ensures var input := Pull(patch, version);
      var s := Run(From(Some(stub), map[], {}), RestoreSteps(input, now));
      var t := Deliver(Do(s, PruneRevision(version)), input, now);
      |t.log| == 2 && t.log[0].input == t.log[1].input == input
      && t.log[0].agent.version == t.log[1].agent.version == version
  {
    var s := Restored(stub, patch, version, now);
    RestoreLeads(stub, patch, version, now);
    WriteBackReopensIff(stub, Pull(patch, version), now);
    DeliverIs(Do(s, PruneRevision(version)), Pull(patch, version), now);
  }

  /** Without pruning, a stale deactivation lets a later commit have a lower version. */
  lemma StaleDeactivationReorders(stub: Agent, patch: ProfilePatch, version: int, now: int, direct: ProfilePatch)
    requires stub.version + 1 < version
    ensures var s := Run(From(Some(stub), map[], {}), RestoreSteps(Pull(patch, version), now));
      var log := Deliver(s, Direct(direct), now).log;
      |log| == 2 && log[0].agent.version == version && log[1].agent.version == stub.version + 1
  {
    RestoreLeads(stub, patch, version, now);
    DirectWriteIff(Restored(stub, patch, version, now), Direct(direct), now);
  }

  /** If the pulled version was the very next one, the record takes no direct write any more. */
  lemma StaleDeactivationBlocks(stub: Agent, patch: ProfilePatch, now: int, direct: ProfilePatch, later: int)
    ensures var s := Run(From(Some(stub), map[], {}), RestoreSteps(Pull(patch, stub.version + 1), now));
      NothingCommitted(s, Deliver(s, Direct(direct), later))
  {
    RestoreLeads(stub, patch, stub.version + 1, now);
    DirectWriteIff(Restored(stub, patch, stub.version + 1, now), Direct(direct), later);
  }

  lemma StepOff(s: Sys, es: seq<Step>, k: nat)
    requires k < |es|
    ensures Run(s, es[k..]) == Run(Do(s, es[k]), es[k + 1..])
  {
    assert es[k..][0] == es[k] && es[k..][1..] == es[k + 1..];
  }

  lemma FourSteps(s: Sys, es: seq<Step>)
    requires |es| == 4
    ensures Run(s, es) == Do(Do(Do(Do(s, es[0]), es[1]), es[2]), es[3])
  {
    var t := Do(Do(s, es[0]), es[1]);
    assert es[0..] == es;
    StepOff(s, es, 0);
    StepOff(Do(s, es[0]), es, 1);
    StepOff(t, es, 2);
    StepOff(Do(t, es[2]), es, 3);
  }
}
