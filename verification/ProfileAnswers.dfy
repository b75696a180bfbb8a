/**
 What a profile write must decide, case by case on its fields: which calls are refused, which return
 quietly, and exactly what record a commit would write.
 */
module ProfileAnswers {
  import opened Options
  import opened AgentProfile
  import opened ProfileVersionGate

  /** The patch applied to the profile, with the document in its stored form. */
  predicate Patches(was: Profile, patch: ProfilePatch, now: Profile) {
    var q := Update(was, patch);
    now == q.(document := StoredDocument(q.document))
  }

  function Or<T>(a: Option<T>, b: Option<T>): Option<T> {
    if a.Some? then a else b
  }

  /** An invalid document refuses every call. */
  lemma InvalidDocumentAnswers(row: Option<Agent>, input: Input, now: int)
    ensures Decide(row, input, now) == Throws(InvalidDocument) <==> !input.documentValid
  {
  }

  /** Without a record: a commit of a new one, or the demand for a name. */
  lemma CreateAnswers(input: Input, now: int)
    requires input.documentValid
    ensures var plan := Decide(None, input, now);
      if input.patch.name.Some? && !Spaces(input.patch.name.value) then
        && plan.Commit? && plan.create
        && plan.next.version == (if input.source == PullSync && input.remote.Some? then input.remote.value else 1)
        && plan.next.updatedAt == Some(if input.updatedAt.Some? then input.updatedAt.value else now)
        && plan.next.lastLogin == input.lastLogin && plan.next.profile.name == Trim(input.patch.name.value)
        && plan.next.profile.(name := "") ==
             Stored(Update(Profile("", None, None, None, None, None, None, NoAddress, None), input.patch)).(name := "")
      else plan == Throws(NameRequired)
  {
    CreateIff(input.patch);
    if Create(input.patch).Some? {
      CreateIsUpdateOfNothing(input.patch, "");
    }
  }

  /** An expected version that is not the record's refuses the call. */
  lemma ExpectedAnswers(a: Agent, input: Input, now: int)
    requires input.documentValid && input.expected.Some? && input.expected.value != a.version
    ensures Decide(Some(a), input, now) == Throws(UnexpectedVersion)
  {
  }

  predicate ExpectationMet(a: Agent, input: Input) {
    input.documentValid && (input.expected.Some? ==> input.expected.value == a.version)
  }

  /** An http or socket write always commits the patched record under the next version. */
  lemma DirectAnswers(a: Agent, input: Input, now: int)
    requires ExpectationMet(a, input) && input.source != PullSync
    ensures var plan := Decide(Some(a), input, now);
      && plan.Commit? && !plan.create && plan.previous == a.version && plan.next.version == a.version + 1
      && Patches(a.profile, input.patch, plan.next.profile)
      && plan.next.updatedAt == Some(if input.updatedAt.Some? then input.updatedAt.value else now)
      && plan.next.lastLogin == Or(input.lastLogin, a.lastLogin)
  {
  }

  /** A pulled profile with a version: older is skipped, equal must agree, newer commits as it is. */
  lemma VersionedAnswers(a: Agent, input: Input, now: int)
    requires ExpectationMet(a, input) && input.source == PullSync && input.remote.Some?
    ensures var plan := Decide(Some(a), input, now); var v := input.remote.value;
      && (v < a.version ==> plan == Quiet)
      && (v == a.version ==>
            plan == if Blanked(Stored(Update(a.profile, input.patch))) == Blanked(a.profile) then Quiet
                    else Throws(ContentConflict))
      && (v > a.version ==>
            && plan.Commit? && !plan.create && plan.previous == a.version && plan.next.version == v
            && Patches(a.profile, input.patch, plan.next.profile)
            && plan.next.updatedAt == Or(Or(input.updatedAt, a.updatedAt), Some(now))
            && plan.next.lastLogin == Or(input.lastLogin, a.lastLogin))
  {
    ContentEqualIff(a.profile, Stored(Update(a.profile, input.patch)));
  }

  /** The pulled profile without a version is out of date, or cannot be told to be newer. */
  predicate Outdated(a: Agent, input: Input) {
    a.updatedAt.Some? && (input.updatedAt.None? || input.updatedAt.value < a.updatedAt.value)
  }

  /** It would change nothing: not the content, not the time, not the user. */
  predicate ChangesNothing(a: Agent, input: Input, now: int) {
    && Blanked(Stored(Update(a.profile, input.patch))) == Blanked(a.profile)
    && Or(input.updatedAt, Some(now)) == a.updatedAt
    && Or(input.lastLogin, a.lastLogin) == a.lastLogin
  }

  /** A pulled profile without a version commits exactly if it is not outdated and changes something. */
  lemma UnversionedAnswers(a: Agent, input: Input, now: int)
    requires ExpectationMet(a, input) && input.source == PullSync && input.remote.None?
    ensures var plan := Decide(Some(a), input, now);
      if Outdated(a, input) || ChangesNothing(a, input, now) then plan == Quiet
      else
        && plan.Commit? && !plan.create && plan.previous == a.version && plan.next.version == a.version + 1
        && Patches(a.profile, input.patch, plan.next.profile)
        && plan.next.updatedAt == Or(input.updatedAt, Some(now))
        && plan.next.lastLogin == Or(input.lastLogin, a.lastLogin)
  {
    ContentEqualIff(a.profile, Stored(Update(a.profile, input.patch)));
  }

  /** A commit that goes through writes the planned record, its key and its revision, and logs it. */
  lemma CommitAnswers(s: Sys, i: nat, documentFree: bool)
    ensures var t := Do(s, TryCommit(i, documentFree));
      if Commits(s, i, documentFree) then
        var c := s.calls[i];
        && t.row == Some(c.plan.next) && t.revisions == s.revisions + {c.plan.next.version}
        && t.log == s.log + [Entry(c.input, c.plan.create, c.plan.next)] && t.calls == s.calls
        && t.keys == if c.input.dedupe.Some? then s.keys[c.input.dedupe.value := c.input.fingerprint] else s.keys
      else t == s
  {
  }

  /** The transaction goes through exactly if nothing it checks stands against it. */
  lemma CommitsIff(s: Sys, i: nat, documentFree: bool)
    requires i < |s.calls| && s.calls[i].plan.Commit?
    ensures Commits(s, i, documentFree) <==>
      var c := s.calls[i];
      && documentFree && !(c.input.dedupe.Some? && c.input.dedupe.value in s.keys)
      && (c.plan.create <==> s.row.None?) && (s.row.Some? ==> s.row.value.version == c.plan.previous)
      && c.plan.next.version !in s.revisions
  {
  }

  /** The other steps: a read adds its call, a stub only fills a gap, a deactivation reads and restores. */
  lemma OtherStepsAnswer(s: Sys, input: Input, now: int, stub: Agent, k: nat, v: int, key: nat)
    ensures Do(s, Read(input, now)) == s.(calls := s.calls + [Call(input, Decide(s.row, input, now))])
    ensures Do(s, SaveStub(stub)) == if s.row.None? then s.(row := Some(stub)) else s
    ensures s.row.Some? ==> Do(s, ReadSnapshot) == s.(snapshots := s.snapshots + [s.row.value])
    ensures s.row.Some? && k < |s.snapshots| ==> Do(s, WriteBack(k)) == s.(row := Some(s.snapshots[k]))
    ensures Do(s, PruneRevision(v)) == s.(revisions := s.revisions - {v})
    ensures Do(s, PruneKey(key)) == s.(keys := s.keys - {key})
  {
  }
}
