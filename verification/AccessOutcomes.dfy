/**
 How the tables stand once all overlapping calls have finished. A pair can be wrong in four ways: an
 approved request without an access row, a row without an approval, a pending request without a
 token, and a token without an open request. Each way has the writes that cause it and the writes
 that settle it. A run ends in agreement exactly if every cause was settled later, whatever happened
 in between.
 */
module AccessOutcomes {
  import opened Options
  import opened AccessLifecycle
  import opened AccessAgreement
  import opened AccessInterleaving

  datatype Fault = RowMissing | RowStray | TokenMissing | TokenStray

  ghost predicate Wrong(db: Db, p: Pair, f: Fault) {
    match f
    case RowMissing => IsApproved(db.requests, p) && p !in db.access
    case RowStray => p in db.access && !IsApproved(db.requests, p)
    case TokenMissing => IsPending(db.requests, p) && !HasToken(db.tokens, p)
    case TokenStray => HasToken(db.tokens, p) && !Undecided(db.requests, p)
  }

  // ------------------------------------------------------- what a step does to a pair

  /** The flight's write commits and has a row for the pair. */
  predicate Writes(s: Sys, e: Step, p: Pair) {
    && e.Write? && e.i < |s.flights| && WriteRows(s.db, s.flights[e.i]).Some?
    && HasRow(s.flights[e.i], p)
  }

  /** The step sets an existing request to a status other than pending. */
  predicate Sets(s: Sys, e: Step, p: Pair) {
    e.Mark? && e.pair == p && e.status != Pending && p in s.db.requests
  }

  predicate Drops(e: Step, p: Pair) {
    e.DropAccess? && p in e.pairs
  }

  /** The step decides the pair's pending request. */
  predicate Decides(s: Sys, e: Step, p: Pair) {
    (e.Approve? || e.Reject?) && e.pair == p && IsPending(s.db.requests, p)
  }

  predicate Owns(tokens: map<nat, Token>, id: nat, p: Pair) {
    id in tokens && tokens[id].pair == p
  }

  /** The step deletes the pair's token, be it for a decision on another pair. */
  ghost predicate TakesToken(s: Sys, e: Step, p: Pair) {
    match e
    case DropToken(id) => Owns(s.db.tokens, id, p)
    case Approve(q, consume) => IsPending(s.db.requests, q) && Consumed(s.db.tokens, q, consume, p)
    case Reject(q, consume) => IsPending(s.db.requests, q) && Consumed(s.db.tokens, q, consume, p)
    case _ => false
  }

  ghost predicate Consumed(tokens: map<nat, Token>, q: Pair, consume: Option<nat>, p: Pair) {
    match consume
    case Some(id) => Owns(tokens, id, p)
    case None => q == p && HasToken(tokens, p)
  }

  /** The write leaves the pair wrong in this way, however it stood before. */
  ghost predicate Causes(s: Sys, e: Step, p: Pair, f: Fault) {
    match f
    case RowMissing =>
      || (Drops(e, p) && IsApproved(s.db.requests, p))
      || (Sets(s, e, p) && e.status == Approved && p !in s.db.access)
    case RowStray =>
      p in s.db.access && ((Sets(s, e, p) && e.status != Approved) || Writes(s, e, p))
    case TokenMissing =>
      TakesToken(s, e, p) && IsPending(s.db.requests, p) && !Decides(s, e, p)
    case TokenStray =>
      && HasToken(s.db.tokens, p)
      && ((Sets(s, e, p) && e.status != Expired) || (Decides(s, e, p) && !TakesToken(s, e, p)))
  }

  /** The write leaves the pair not wrong in this way, however it stood before. */
  ghost predicate Settles(s: Sys, e: Step, p: Pair, f: Fault) {
    match f
    case RowMissing =>
      (e.Revoke? && e.pair == p) || (Sets(s, e, p) && e.status != Approved) || Writes(s, e, p)
    case RowStray =>
      || (e.Revoke? && e.pair == p) || Drops(e, p) || (Sets(s, e, p) && e.status == Approved)
      || (e.Approve? && Decides(s, e, p))
    case TokenMissing => Decides(s, e, p) || Sets(s, e, p) || Writes(s, e, p)
    case TokenStray => TakesToken(s, e, p) || (Sets(s, e, p) && e.status == Expired) || Writes(s, e, p)
  }

  // ----------------------------------------------------------------------- one step

  ghost predicate OutcomeOk(s: Sys, t: Db, e: Step, p: Pair, f: Fault) {
    Wrong(t, p, f) <==> Causes(s, e, p, f) || (Wrong(s.db, p, f) && !Settles(s, e, p, f))
  }

  lemma UpsertPair(db: Db, row: Row, p: Pair)
    requires row.request.status == Pending && !Collides(db.tokens, row)
    ensures var t := Upsert(db, row);
      && t.access == db.access
      && (row.pair == p ==> IsPending(t.requests, p) && HasToken(t.tokens, p))
      && (row.pair != p ==> SameRequest(db.requests, t.requests, p))
      && (row.pair != p ==> (HasToken(t.tokens, p) <==> HasToken(db.tokens, p)))
  {
    var t := Upsert(db, row);
    if row.pair == p {
      assert Owns(t.tokens, row.tokenId, p);
    } else {
      if HasToken(db.tokens, p) { TokenStays(db.tokens, t.tokens, p); }
      if HasToken(t.tokens, p) { TokenStays(t.tokens, db.tokens, p); }
    }
  }

  /** A committed write leaves its pairs pending with a token, and every other pair alone. */
  lemma {:induction false} WritePair(db: Db, rows: seq<Row>, p: Pair)
    requires forall k :: 0 <= k < |rows| ==> rows[k].request.status == Pending
    ensures WriteRows(db, rows).Some? ==>
      var t := WriteRows(db, rows).value;
      && t.access == db.access
      && (HasRow(rows, p) ==> IsPending(t.requests, p) && HasToken(t.tokens, p))
      && (!HasRow(rows, p) ==> SameRequest(db.requests, t.requests, p))
      && (!HasRow(rows, p) ==> (HasToken(t.tokens, p) <==> HasToken(db.tokens, p)))
    decreases |rows|
  {
    if rows != [] && !Collides(db.tokens, rows[0]) {
      UpsertPair(db, rows[0], p);
      WritePair(Upsert(db, rows[0]), rows[1..], p);
      HasRowFront(rows, p);
    }
  }

  lemma HasRowFront(rows: seq<Row>, p: Pair)
    requires rows != []
    ensures HasRow(rows, p) <==> rows[0].pair == p || HasRow(rows[1..], p)
  {
    assert forall k :: 1 <= k < |rows| ==> rows[k] == rows[1..][k - 1];
  }

  lemma WriteOutcome(s: Sys, i: nat, p: Pair, f: Fault, cfg: Config)
    requires FlightsOk(s.flights, cfg)
    ensures OutcomeOk(s, DoWrite(s, i).db, Write(i), p, f)
  {
    if i < |s.flights| {
      assert forall k :: 0 <= k < |s.flights[i]| ==> RowOk(s.flights[i][k], cfg);
      WritePair(s.db, s.flights[i], p);
    }
  }

  /** Deleting one token takes a pair's only token exactly if it owns that. */
  lemma DeletePair(db: Db, id: nat, p: Pair)
    requires OneTokenEach(db.tokens)
    ensures HasToken(DeleteToken(db, id).tokens, p) <==> HasToken(db.tokens, p) && !Owns(db.tokens, id, p)
  {
    var t := DeleteToken(db, id);
    if HasToken(db.tokens, p) {
      var x :| x in db.tokens && db.tokens[x].pair == p;
      assert x != id ==> x in t.tokens && t.tokens[x].pair == p;
    }
  }

  lemma ConsumePair(db: Db, q: Pair, consume: Option<nat>, p: Pair)
    requires OneTokenEach(db.tokens)
    ensures HasToken(Consume(db, q, consume).tokens, p) <==>
      HasToken(db.tokens, p) && !Consumed(db.tokens, q, consume, p)
  {
    match consume
    case Some(id) => DeletePair(db, id, p);
    case None =>
      var t := Consume(db, q, consume);
      if HasToken(db.tokens, p) && q != p {
        var x :| x in db.tokens && db.tokens[x].pair == p;
        assert x in t.tokens && t.tokens[x].pair == p;
      }
  }

  lemma DecideRows(s: Sys, e: Step, p: Pair, f: Fault, cfg: Config)
    requires (e.Approve? || e.Reject?) && OfRows(f)
    ensures OutcomeOk(s, Do(s, e, cfg).db, e, p, f)
  {
  }

  lemma DecideTokens(s: Sys, e: Step, p: Pair, f: Fault, cfg: Config)
    requires OneTokenEach(s.db.tokens) && (e.Approve? || e.Reject?) && !OfRows(f)
    ensures OutcomeOk(s, Do(s, e, cfg).db, e, p, f)
  {
    ConsumePair(s.db, e.pair, e.consume, p);
  }

  lemma MarkOutcome(s: Sys, e: Step, p: Pair, f: Fault, cfg: Config)
    requires e.Mark? || e.Revoke? || e.DropAccess? || e.ReadRequests?
    ensures OutcomeOk(s, Do(s, e, cfg).db, e, p, f)
  {
  }

  /** A pair is wrong after a write exactly if the write causes it, or it was and the write does not settle it. */
  lemma StepOutcome(s: Sys, e: Step, p: Pair, f: Fault, cfg: Config)
    requires FlightsOk(s.flights, cfg) && OneTokenEach(s.db.tokens)
    ensures Wrong(Do(s, e, cfg).db, p, f) <==> Causes(s, e, p, f) || (Wrong(s.db, p, f) && !Settles(s, e, p, f))
  {
    if e.Write? {
      WriteOutcome(s, e.i, p, f, cfg);
    } else if e.Approve? || e.Reject? {
      if OfRows(f) { DecideRows(s, e, p, f, cfg); } else { DecideTokens(s, e, p, f, cfg); }
    } else if e.DropToken? {
      DeletePair(s.db, e.id, p);
    } else {
      MarkOutcome(s, e, p, f, cfg);
    }
  }

  // ------------------------------------------------------------------------- a run

  ghost predicate CausedAt(s: Sys, es: seq<Step>, k: nat, p: Pair, f: Fault, cfg: Config) {
    k < |es| && Causes(Run(s, es[..k], cfg), es[k], p, f)
  }

  ghost predicate SettledAt(s: Sys, es: seq<Step>, k: nat, p: Pair, f: Fault, cfg: Config) {
    k < |es| && Settles(Run(s, es[..k], cfg), es[k], p, f)
  }

  /** Some write of the run made the pair wrong and none after it settled that. */
  ghost predicate Unsettled(s: Sys, es: seq<Step>, p: Pair, f: Fault, cfg: Config) {
    exists k :: StandsFrom(s, es, k, p, f, cfg)
  }

  lemma {:induction false} RunSplits(s: Sys, es: seq<Step>, cfg: Config)
    requires es != []
    ensures Run(s, es, cfg) == Do(Run(s, es[..|es| - 1], cfg), es[|es| - 1], cfg)
    decreases |es|
  {
    if |es| > 1 {
      RunSplits(Do(s, es[0], cfg), es[1..], cfg);
      assert es[1..][..|es| - 2] == es[..|es| - 1][1..];
    } else {
      assert es[..0] == [] && es[1..] == [];
    }
  }

  /** Nothing settles the fault after position k. */
  ghost predicate StandsFrom(s: Sys, es: seq<Step>, k: nat, p: Pair, f: Fault, cfg: Config) {
    CausedAt(s, es, k, p, f, cfg) && forall j :: k < j ==> !SettledAt(s, es, j, p, f, cfg)
  }

  /** Before its last write a run is the shorter run. */
  lemma SameBefore(s: Sys, es: seq<Step>, k: nat, p: Pair, f: Fault, cfg: Config)
    requires es != [] && k < |es| - 1
    ensures var front := es[..|es| - 1];
      && (CausedAt(s, es, k, p, f, cfg) <==> CausedAt(s, front, k, p, f, cfg))
      && (SettledAt(s, es, k, p, f, cfg) <==> SettledAt(s, front, k, p, f, cfg))
  {
    assert es[..|es| - 1][..k] == es[..k];
  }

  lemma StandsLonger(s: Sys, es: seq<Step>, k: nat, p: Pair, f: Fault, cfg: Config)
    requires es != [] && k < |es| - 1
    ensures var n := |es| - 1;
      StandsFrom(s, es, k, p, f, cfg) <==>
        StandsFrom(s, es[..n], k, p, f, cfg) && !SettledAt(s, es, n, p, f, cfg)
  {
    var n := |es| - 1;
    forall j: nat | k <= j < n
      ensures CausedAt(s, es, j, p, f, cfg) <==> CausedAt(s, es[..n], j, p, f, cfg)
      ensures SettledAt(s, es, j, p, f, cfg) <==> SettledAt(s, es[..n], j, p, f, cfg)
    {
      SameBefore(s, es, j, p, f, cfg);
    }
  }

  /** The last write of a run: what it adds to what was unsettled before it. */
  lemma UnsettledGrows(s: Sys, es: seq<Step>, p: Pair, f: Fault, cfg: Config)
    requires es != []
    ensures var n := |es| - 1;
      Unsettled(s, es, p, f, cfg) <==>
        CausedAt(s, es, n, p, f, cfg)
        || (Unsettled(s, es[..n], p, f, cfg) && !SettledAt(s, es, n, p, f, cfg))
  {
    var n := |es| - 1;
    assert CausedAt(s, es, n, p, f, cfg) ==> StandsFrom(s, es, n, p, f, cfg);
    forall k: nat | k < n
      ensures StandsFrom(s, es, k, p, f, cfg) <==>
        StandsFrom(s, es[..n], k, p, f, cfg) && !SettledAt(s, es, n, p, f, cfg)
    {
      StandsLonger(s, es, k, p, f, cfg);
    }
  }

  /** From a state in which the pair is right, it ends wrong exactly if some cause stayed unsettled. */
  lemma {:induction false} WrongIffUnsettled(s: Sys, es: seq<Step>, p: Pair, f: Fault, cfg: Config)
    requires Inv(s, cfg) && !Wrong(s.db, p, f)
    ensures Wrong(Run(s, es, cfg).db, p, f) <==> Unsettled(s, es, p, f, cfg)
    decreases |es|
  {
    if es != [] {
      var n := |es| - 1;
      WrongIffUnsettled(s, es[..n], p, f, cfg);
      RunKeeps(s, es[..n], cfg);
      RunSplits(s, es, cfg);
      StepOutcome(Run(s, es[..n], cfg), es[n], p, f, cfg);
      UnsettledGrows(s, es, p, f, cfg);
    }
  }

  /** The tables agree exactly if no pair is wrong in any way. */
  lemma AgreesIffNoneWrong(db: Db, cfg: Config)
    requires OneTokenEach(db.tokens) && RetriesBounded(db.requests, cfg.maxRetries)
    ensures Agreement(db, cfg) <==> forall p, f :: !Wrong(db, p, f)
  {
    if Agreement(db, cfg) {
      forall p, f
        ensures !Wrong(db, p, f)
      {
        assert p in db.access <==> IsApproved(db.requests, p);
      }
    }
    if forall p, f :: !Wrong(db, p, f) {
      NoneWrongAgrees(db);
    }
  }

  lemma NoneWrongAgrees(db: Db)
    requires forall p, f :: !Wrong(db, p, f)
    ensures AccessAgrees(db.requests, db.access) && PendingHaveTokens(db.requests, db.tokens)
    ensures TokensAreOpen(db.requests, db.tokens)
  {
    forall p
      ensures p in db.access <==> IsApproved(db.requests, p)
      ensures IsPending(db.requests, p) ==> HasToken(db.tokens, p)
      ensures HasToken(db.tokens, p) ==> Undecided(db.requests, p)
    {
      assert !Wrong(db, p, RowMissing) && !Wrong(db, p, RowStray);
      assert !Wrong(db, p, TokenMissing) && !Wrong(db, p, TokenStray);
    }
    forall id | id in db.tokens
      ensures Undecided(db.requests, db.tokens[id].pair)
    {
      assert HasToken(db.tokens, db.tokens[id].pair);
    }
  }

  /**
   In every interleaving of writes from empty tables, requests, tokens and access rows agree at the
   end of the run if and only if every write that parted them was settled by a later one.
   */
  lemma EndsInAgreementIff(es: seq<Step>, cfg: Config)
    ensures Agreement(Run(Start(), es, cfg).db, cfg) <==> forall p, f :: !Unsettled(Start(), es, p, f, cfg)
  {
    var t := Run(Start(), es, cfg).db;
    RunKeeps(Start(), es, cfg);
    AgreesIffNoneWrong(t, cfg);
    forall p, f
      ensures Wrong(t, p, f) <==> Unsettled(Start(), es, p, f, cfg)
    {
      WrongIffUnsettled(Start(), es, p, f, cfg);
    }
  }

  // ------------------------------------------------------------------ finished calls

  predicate OfRows(f: Fault) {
    f == RowMissing || f == RowStray
  }

  /**
   A removal that has finished, whatever it had read: among the listed pairs it leaves wrong
   exactly those approved by now that it had not read as approved, whose row is missing, and those
   it marked that have a token again, which is stray.
   */
  lemma FinishedRemoval(db: Db, seen: map<Pair, Request>, client: nat, agents: seq<nat>, p: Pair, f: Fault)
    requires Names(client, agents, p)
    ensures OfRows(f) ==>
      (Wrong(RemoveAfter(db, seen, client, agents), p, f) <==>
         f == RowMissing && IsApproved(db.requests, p) && !IsApproved(seen, p))
    ensures !OfRows(f) ==>
      (Wrong(RemoveAfter(db, seen, client, agents), p, f) <==>
         if IsApproved(seen, p) && p in db.requests then f == TokenStray && HasToken(db.tokens, p)
         else Wrong(db, p, f))
  {
  }

  /** Every pair that is not listed stands as it did. */
  lemma RemovalSparesOthers(db: Db, seen: map<Pair, Request>, client: nat, agents: seq<nat>, p: Pair, f: Fault)
    requires !Names(client, agents, p)
    ensures Wrong(RemoveAfter(db, seen, client, agents), p, f) <==> Wrong(db, p, f)
  {
  }

  /**
   An expiry that has finished leaves wrong the pair it expires exactly if that has a row by now. Any
   other pair stands as it did, unless the token that the link named was its own.
   */
  lemma FinishedExpiry(db: Db, id: nat, q: Pair, able: bool, approve: bool, p: Pair, f: Fault)
    requires q in db.requests && OneTokenEach(db.tokens)
    ensures var t := FollowLink(db, id, Expire(q), able, approve).0;
      && (p == q ==> (Wrong(t, p, f) <==> f == RowStray && p in db.access))
      && (p != q && (OfRows(f) || !Owns(db.tokens, id, p)) ==> (Wrong(t, p, f) <==> Wrong(db, p, f)))
  {
    DeletePair(SetStatus(db, q, Expired), id, p);
  }
}
