/**
 What `input` must do with what it finds, and that it gets through: a restarted step waits for the
 receipt of its own message and returns without sending again, and a new step passes every
 confirmed step before it and is sent and confirmed itself.
 */
module ActionIoProgress {
  import opened Options
  import opened ActionIoInput

  // -------------------------------------------------------------- one claim, one poll

  /** Nothing but this process has changed. */
  predicate OnlyMoved(s: Session, t: Session, p: nat) {
    && t.first == s.first && t.files == s.files && t.owner == s.owner && t.sent == s.sent && t.written == s.written
    && |t.procs| == |s.procs| && p < |s.procs| && t.procs[p].wants == s.procs[p].wants
    && forall q :: 0 <= q < |s.procs| && q != p ==> t.procs[q] == s.procs[q]
  }

  /** The process meets a complete file of its own session under the number it is at. */
  predicate Meets(s: Session, p: nat, i: Intent) {
    && At(s, p, Claiming) && s.procs[p].sequence < LIMIT && s.procs[p].sequence in s.files
    && s.files[s.procs[p].sequence] == Complete(i) && i.execution == s.procs[p].wants.execution
  }

  /** Its own step, the same content: it waits for the receipt, and with it returns. Nothing is sent. */
  lemma OwnStepReturns(s: Session, p: nat, i: Intent)
    requires Meets(s, p, i) && i.stepLabel == s.procs[p].wants.stepLabel && i.hash == s.procs[p].wants.hash
    ensures var t := Do(s, Claim(p)); var u := Do(t, PollWritten(p)); var k := s.procs[p].sequence;
      && OnlyMoved(s, t, p) && t.procs[p].sequence == k && t.procs[p].pc == Confirming(true)
      && t.confirmed == s.confirmed
      && (k in s.written ==>
            OnlyMoved(s, u, p) && u.procs[p].sequence == k && u.procs[p].pc == Returned
            && u.confirmed == s.confirmed + {k})
      && (k !in s.written ==> u == t)
  {
  }

  /** Its own label with another content is an error. */
  lemma OwnLabelOtherContentThrows(s: Session, p: nat, i: Intent)
    requires Meets(s, p, i) && i.stepLabel == s.procs[p].wants.stepLabel && i.hash != s.procs[p].wants.hash
    ensures var t := Do(s, Claim(p)); OnlyMoved(s, t, p) && t.procs[p].pc == Threw && t.confirmed == s.confirmed
  {
  }

  /** Another step that is still open: with its receipt the process goes on to the next number. */
  lemma OpenStepIsPassed(s: Session, p: nat, i: Intent)
    requires Meets(s, p, i) && i.stepLabel != s.procs[p].wants.stepLabel && i.hash.Some?
    ensures var t := Do(s, Claim(p)); var u := Do(t, PollWritten(p)); var k := s.procs[p].sequence;
      && OnlyMoved(s, t, p) && t.procs[p].sequence == k && t.procs[p].pc == Confirming(false)
      && (k in s.written ==>
            OnlyMoved(s, u, p) && u.procs[p].sequence == k + 1 && u.procs[p].pc == Claiming
            && u.confirmed == s.confirmed + {k})
      && (k !in s.written ==> u == t)
  {
  }

  /** Another step that closed the input, another session's file, a torn file, or too many: an error. */
  lemma DeadEndThrows(s: Session, p: nat)
    requires At(s, p, Claiming)
    requires var k := s.procs[p].sequence;
      || k >= LIMIT
      || (k in s.files && s.files[k].Incomplete?)
      || (k in s.files && s.files[k].Complete? && s.files[k].intent.execution != s.procs[p].wants.execution)
      || (k in s.files && s.files[k].Complete? && s.files[k].intent.stepLabel != s.procs[p].wants.stepLabel
          && s.files[k].intent.hash.None?)
    ensures var t := Do(s, Claim(p)); OnlyMoved(s, t, p) && t.procs[p].pc == Threw && t.confirmed == s.confirmed
  {
  }

  /** A free number: claimed, written, sent once, and with the receipt the process returns. */
  function FreshSteps(p: nat, k: nat): seq<Step> {
    [Claim(p), Fill(p), Send(p, false), RemoteWrites(k), PollWritten(p)]
  }

  lemma FreshNumberReturns(s: Session, p: nat)
    requires At(s, p, Claiming) && s.procs[p].sequence < LIMIT && s.procs[p].sequence !in s.files
    ensures var k := s.procs[p].sequence; var t := Run(s, FreshSteps(p, k));
      && |t.procs| == |s.procs| && t.procs[p] == s.procs[p].(pc := Returned)
      && t.files == s.files[k := Complete(s.procs[p].wants)] && t.sent == s.sent + [k]
      && t.written == s.written + {k} && t.confirmed == s.confirmed + {k}
      && forall q :: 0 <= q < |s.procs| && q != p ==> t.procs[q] == s.procs[q]
  {
    var k := s.procs[p].sequence;
    var es := FreshSteps(p, k);
    var wants := s.procs[p].wants;
    var s1 := Go(s, p, Filling).(files := s.files[k := Incomplete], owner := s.owner[k := p]);
    var s2 := Go(s1, p, Sending).(files := s.files[k := Complete(wants)]);
    var s3 := Go(s2, p, Confirming(true)).(sent := s.sent + [k]);
    assert Do(s, es[0]) == s1;
    assert Do(s1, es[1]) == s2 by { assert s1.files[k := Complete(wants)] == s.files[k := Complete(wants)]; }
    assert Do(s2, es[2]) == s3;
    assert k in s3.sent;
    FiveSteps(s, es);
  }

  /** A send that failed for certain throws; one with an unknown outcome goes on to the receipt. */
  lemma SendAnswers(s: Session, p: nat, definiteError: bool)
    requires At(s, p, Sending)
    ensures var t := Do(s, Send(p, definiteError));
      && t.sent == s.sent + [s.procs[p].sequence] && |t.procs| == |s.procs| && t.files == s.files
      && t.procs[p].pc == if definiteError then Threw else Confirming(true)
  {
  }

  // ---------------------------------------------------------------------- whole walks

  lemma StepOff(s: Session, es: seq<Step>, k: nat)
    requires k < |es|
    ensures Run(s, es[k..]) == Run(Do(s, es[k]), es[k + 1..])
  {
    assert es[k..][0] == es[k] && es[k..][1..] == es[k + 1..];
  }

  lemma FiveSteps(s: Session, es: seq<Step>)
    requires |es| == 5
    ensures Run(s, es) == Do(Do(Do(Do(Do(s, es[0]), es[1]), es[2]), es[3]), es[4])
  {
    var t := Do(Do(s, es[0]), es[1]);
    var u := Do(Do(t, es[2]), es[3]);
    assert es[0..] == es;
    StepOff(s, es, 0);
    StepOff(Do(s, es[0]), es, 1);
    StepOff(t, es, 2);
    StepOff(Do(t, es[2]), es, 3);
    StepOff(u, es, 4);
  }

  lemma TwoSteps(s: Session, d: Step, e: Step)
    ensures Run(s, [d, e]) == Do(Do(s, d), e)
  {
    var es := [d, e];
    assert es[0..] == es;
    StepOff(s, es, 0);
    StepOff(Do(s, d), es, 1);
  }

  lemma {:induction false} RunConcat(s: Session, a: seq<Step>, b: seq<Step>)
    ensures Run(s, a + b) == Run(Run(s, a), b)
    decreases |a|
  {
    if a == [] {
      assert a + b == b;
    } else {
      assert (a + b)[1..] == a[1..] + b;
      RunConcat(Do(s, a[0]), a[1..], b);
    }
  }

  /** Claim and poll, once for each number. */
  function WalkSteps(p: nat, count: nat): seq<Step> {
    if count == 0 then [] else [Claim(p), PollWritten(p)] + WalkSteps(p, count - 1)
  }

  /** The file is another step of this session, open, and its message was written. */
  predicate Passable(s: Session, k: nat, wants: Intent) {
    && k in s.files && s.files[k].Complete? && s.files[k].intent.execution == wants.execution
    && s.files[k].intent.stepLabel != wants.stepLabel && s.files[k].intent.hash.Some? && k in s.written
  }

  /** A process walks past any number of passable files, and nothing is sent. */
  lemma {:induction false} WalksPast(s: Session, p: nat, count: nat)
    requires At(s, p, Claiming) && s.procs[p].sequence + count <= LIMIT
    requires forall k :: s.procs[p].sequence <= k < s.procs[p].sequence + count ==> Passable(s, k, s.procs[p].wants)
    ensures var t := Run(s, WalkSteps(p, count));
      OnlyMoved(s, t, p) && t.procs[p].sequence == s.procs[p].sequence + count && t.procs[p].pc == Claiming
    decreases count
  {
    if count > 0 {
      var k := s.procs[p].sequence;
      assert Passable(s, k, s.procs[p].wants);
      OpenStepIsPassed(s, p, s.files[k].intent);
      TwoSteps(s, Claim(p), PollWritten(p));
      var u := Run(s, [Claim(p), PollWritten(p)]);
      forall j | k + 1 <= j < k + count
        ensures Passable(u, j, u.procs[p].wants)
      {
        assert Passable(s, j, s.procs[p].wants);
      }
      WalksPast(u, p, count - 1);
      RunConcat(s, [Claim(p), PollWritten(p)], WalkSteps(p, count - 1));
    }
  }

  /** The process that a restart adds. */
  function Started(s: Session, wants: Intent): Session {
    Do(s, Start(wants))
  }

  lemma StartAnswers(s: Session, wants: Intent)
    ensures var t := Started(s, wants); var p := |s.procs|;
      && |t.procs| == p + 1 && t.procs[..p] == s.procs && t.procs[p] == Process(wants, s.first, Claiming)
      && t.files == s.files && t.sent == s.sent && t.written == s.written && t.confirmed == s.confirmed
      && t.first == s.first
  {
  }

  /**
   A restarted step returns. In every reachable state, if file m holds this very step, its message
   was written and every file before it belongs to the session, a new process walks to m and
   returns there, whatever crashed before, and nothing is sent.
   */
  lemma RestartReturns(first: nat, es: seq<Step>, wants: Intent, m: nat)
    ensures var s := Run(Initial(first), es); var p := |s.procs|;
      Resumable(s, wants, m) ==>
        var t := Run(Started(s, wants), WalkSteps(p, m - s.first) + [Claim(p), PollWritten(p)]);
        |t.procs| == p + 1 && t.procs[p].pc == Returned && t.procs[p].sequence == m && t.sent == s.sent
  {
    var s := Run(Initial(first), es);
    RunKeeps(Initial(first), es);
    if Resumable(s, wants, m) {
      forall k | s.first <= k < m
        ensures Passable(s, k, wants)
      {
        assert k in s.confirmed;
      }
      ResumeReturns(s, wants, m);
    }
  }

  lemma ResumeReturns(s: Session, wants: Intent, m: nat)
    requires s.first <= m < LIMIT && m in s.files && s.files[m] == Complete(wants) && m in s.written
    requires forall k :: s.first <= k < m ==> Passable(s, k, wants)
    ensures var p := |s.procs|;
      var t := Run(Started(s, wants), WalkSteps(p, m - s.first) + [Claim(p), PollWritten(p)]);
      |t.procs| == p + 1 && t.procs[p].pc == Returned && t.procs[p].sequence == m && t.sent == s.sent
  {
    var p := |s.procs|;
    var t := Started(s, wants);
    StartAnswers(s, wants);
    forall k | s.first <= k < m
      ensures Passable(t, k, wants)
    {
      assert Passable(s, k, wants);
    }
    WalksPast(t, p, m - s.first);
    var u := Run(t, WalkSteps(p, m - s.first));
    OwnStepReturns(u, p, wants);
    TwoSteps(u, Claim(p), PollWritten(p));
    RunConcat(t, WalkSteps(p, m - s.first), [Claim(p), PollWritten(p)]);
  }

  /** File m is this step, written, and every file before it is of the same session. */
  predicate Resumable(s: Session, wants: Intent, m: nat) {
    && s.first <= m < LIMIT && m in s.files && s.files[m] == Complete(wants) && m in s.written
    && forall k :: s.first <= k < m && k in s.files && s.files[k].Complete? ==>
         s.files[k].intent.execution == wants.execution
  }

  /**
   A new step goes through. If all numbers below m are taken by open, written steps of the session
   with other labels and m is free, a new process walks to m, sends its input there exactly once
   and returns with the receipt.
   */
  lemma NewStepReturns(s: Session, wants: Intent, m: nat)
    requires s.first <= m < LIMIT && m !in s.files
    requires forall k :: s.first <= k < m ==> Passable(s, k, wants)
    ensures var p := |s.procs|; var t := Run(Started(s, wants), WalkSteps(p, m - s.first) + FreshSteps(p, m));
      && |t.procs| == p + 1 && t.procs[p].pc == Returned && t.procs[p].sequence == m
      && t.sent == s.sent + [m] && t.files == s.files[m := Complete(wants)]
  {
    var p := |s.procs|;
    var t := Started(s, wants);
    StartAnswers(s, wants);
    forall k | s.first <= k < m
      ensures Passable(t, k, wants)
    {
      assert Passable(s, k, wants);
    }
    WalksPast(t, p, m - s.first);
    var u := Run(t, WalkSteps(p, m - s.first));
    FreshNumberReturns(u, p);
    RunConcat(t, WalkSteps(p, m - s.first), FreshSteps(p, m));
  }
}
