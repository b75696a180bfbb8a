/**
 Which interleavings keep requests, tokens and access rows in agreement: a guard for each write,
 on what stands in the tables just before it, that holds exactly if the write keeps the agreement.
 */
module AccessRaces {
  import opened Options
  import opened AccessLifecycle
  import opened AccessAgreement
  import opened AccessInterleaving

  /** The tokens' part of the agreement. */
  ghost predicate TokensAgree(db: Db) {
    PendingHaveTokens(db.requests, db.tokens) && OneTokenEach(db.tokens) && TokensAreOpen(db.requests, db.tokens)
  }

  /** The write does not part access rows from approvals. */
  predicate AccessGuard(s: Sys, e: Step) {
    match e
    case Write(i) =>
      i < |s.flights| && WriteRows(s.db, s.flights[i]).Some? ==> NoneInAccess(s.flights[i], s.db.access)
    case Mark(p, status) => status == Pending || p !in s.db.requests || (p in s.db.access <==> status == Approved)
    case DropAccess(pairs) => pairs !! s.db.access
    case _ => true
  }

  predicate Consumes(db: Db, p: Pair, consume: Option<nat>) {
    IsPending(db.requests, p) && consume.Some? ==> consume.value in db.tokens && db.tokens[consume.value].pair == p
  }

  /** The write leaves every pending request its token and no token to a decided request. */
  ghost predicate TokenGuard(s: Sys, e: Step) {
    match e
    case Approve(p, consume) => Consumes(s.db, p, consume)
    case Reject(p, consume) => Consumes(s.db, p, consume)
    case Mark(p, status) =>
      status == Pending || status == Expired || p !in s.db.requests || !HasToken(s.db.tokens, p)
    case DropToken(id) => id in s.db.tokens ==> !IsPending(s.db.requests, s.db.tokens[id].pair)
    case _ => true
  }

  // ------------------------------------------------------------------- access rows

  lemma AccessIff(s: Sys, e: Step, cfg: Config)
    requires FlightsOk(s.flights, cfg) && AccessAgrees(s.db.requests, s.db.access)
    ensures var t := Do(s, e, cfg); AccessAgrees(t.db.requests, t.db.access) <==> AccessGuard(s, e)
  {
    match e
    case Write(i) =>
      if i < |s.flights| {
        assert forall k :: 0 <= k < |s.flights[i]| ==> RowOk(s.flights[i][k], cfg);
        WriteAccessIff(s.db, s.flights[i]);
      }
    case Mark(p, status) => MarkAccessIff(s.db, p, status);
    case Approve(p, consume) =>
    case Reject(p, consume) =>
    case Revoke(p) =>
    case DropToken(id) =>
    case DropAccess(pairs) =>
      assert forall p :: p in pairs && p in s.db.access ==> IsApproved(s.db.requests, p);
    case ReadRequests(client, work, ids, now) =>
  }

  lemma MarkAccessIff(db: Db, p: Pair, status: Status)
    requires AccessAgrees(db.requests, db.access)
    ensures AccessAgrees(SetStatus(db, p, status).requests, db.access) <==>
      p !in db.requests || (p in db.access <==> status == Approved)
  {
    var t := SetStatus(db, p, status);
    assert forall q :: q != p ==> (IsApproved(t.requests, q) <==> IsApproved(db.requests, q));
    assert p in db.requests ==> (IsApproved(t.requests, p) <==> status == Approved);
  }

  // ------------------------------------------------------------------------ tokens

  /** A decision takes exactly the request's token, or it strands one. */
  lemma DecideTokensIff(db: Db, p: Pair, consume: Option<nat>, approve: bool)
    requires TokensAgree(db) && IsPending(db.requests, p)
    ensures TokensAgree(if approve then ApproveTxn(db, p, consume) else RejectTxn(db, p, consume)) <==>
      Consumes(db, p, consume)
  {
    var t := if approve then ApproveTxn(db, p, consume) else RejectTxn(db, p, consume);
    assert HasToken(db.tokens, p);
    var id :| id in db.tokens && db.tokens[id].pair == p;
    if Consumes(db, p, consume) {
      ConsumeEither(db, p, id);
      forall q | IsPending(t.requests, q)
        ensures HasToken(t.tokens, q)
      {
        assert IsPending(db.requests, q);
        TokenStays(db.tokens, t.tokens, q);
      }
    } else {
      assert id in t.tokens && !Undecided(t.requests, t.tokens[id].pair);
    }
  }

  lemma MarkTokensIff(db: Db, p: Pair, status: Status)
    requires TokensAgree(db) && status != Pending
    ensures TokensAgree(SetStatus(db, p, status)) <==> status == Expired || p !in db.requests || !HasToken(db.tokens, p)
  {
    var t := SetStatus(db, p, status);
    assert forall q :: IsPending(t.requests, q) ==> IsPending(db.requests, q);
    if p in db.requests && status != Expired && HasToken(db.tokens, p) {
      var id :| id in db.tokens && db.tokens[id].pair == p;
      assert !Undecided(t.requests, t.tokens[id].pair);
    }
  }

  lemma DropTokenIff(db: Db, id: nat)
    requires TokensAgree(db)
    ensures TokensAgree(DeleteToken(db, id)) <==> (id in db.tokens ==> !IsPending(db.requests, db.tokens[id].pair))
  {
    var t := DeleteToken(db, id);
    if id in db.tokens && IsPending(db.requests, db.tokens[id].pair) {
      assert !HasToken(t.tokens, db.tokens[id].pair);
    } else {
      forall q | IsPending(t.requests, q)
        ensures HasToken(t.tokens, q)
      {
        TokenStays(db.tokens, t.tokens, q);
      }
    }
  }

  lemma UpsertTokens(db: Db, row: Row)
    requires TokensAgree(db) && row.request.status == Pending && !Collides(db.tokens, row)
    ensures TokensAgree(Upsert(db, row))
  {
    var t := Upsert(db, row);
    forall p | IsPending(t.requests, p)
      ensures HasToken(t.tokens, p)
    {
      if p == row.pair {
        assert row.tokenId in t.tokens && t.tokens[row.tokenId].pair == p;
      } else {
        assert IsPending(db.requests, p);
        TokenStays(db.tokens, t.tokens, p);
      }
    }
  }

  lemma {:induction false} WriteTokens(db: Db, rows: seq<Row>)
    requires TokensAgree(db) && forall k :: 0 <= k < |rows| ==> rows[k].request.status == Pending
    ensures WriteRows(db, rows).Some? ==> TokensAgree(WriteRows(db, rows).value)
    decreases |rows|
  {
    if rows != [] && !Collides(db.tokens, rows[0]) {
      UpsertTokens(db, rows[0]);
      WriteTokens(Upsert(db, rows[0]), rows[1..]);
    }
  }

  lemma RevokeTokens(db: Db, p: Pair)
    requires TokensAgree(db)
    ensures TokensAgree(RevokeTxn(db, p))
  {
    var t := RevokeTxn(db, p);
    assert forall q :: IsPending(t.requests, q) ==> IsPending(db.requests, q);
  }

  lemma TokensIff(s: Sys, e: Step, cfg: Config)
    requires FlightsOk(s.flights, cfg) && TokensAgree(s.db)
    ensures TokensAgree(Do(s, e, cfg).db) <==> TokenGuard(s, e)
  {
    match e
    case Write(i) =>
      if i < |s.flights| {
        assert forall k :: 0 <= k < |s.flights[i]| ==> RowOk(s.flights[i][k], cfg);
        WriteTokens(s.db, s.flights[i]);
      }
    case Approve(p, consume) => if IsPending(s.db.requests, p) { DecideTokensIff(s.db, p, consume, true); }
    case Reject(p, consume) => if IsPending(s.db.requests, p) { DecideTokensIff(s.db, p, consume, false); }
    case Mark(p, status) => if status != Pending { MarkTokensIff(s.db, p, status); }
    case DropToken(id) => DropTokenIff(s.db, id);
    case Revoke(p) => RevokeTokens(s.db, p);
    case DropAccess(pairs) =>
    case ReadRequests(client, work, ids, now) =>
  }

  // -------------------------------------------------------------------- the results

  ghost predicate Guard(s: Sys, e: Step) {
    AccessGuard(s, e) && TokenGuard(s, e)
  }

  /** One write keeps the whole agreement if and only if its guard holds. */
  lemma StepAgreesIff(s: Sys, e: Step, cfg: Config)
    requires Inv(s, cfg) && Agreement(s.db, cfg)
    ensures Agreement(Do(s, e, cfg).db, cfg) <==> Guard(s, e)
  {
    AccessIff(s, e, cfg);
    TokensIff(s, e, cfg);
    DoKeeps(s, e, cfg);
  }

  ghost predicate AgreesThroughout(s: Sys, es: seq<Step>, cfg: Config)
    decreases |es|
  {
    Agreement(s.db, cfg) && (es == [] || AgreesThroughout(Do(s, es[0], cfg), es[1..], cfg))
  }

  ghost predicate Guarded(s: Sys, es: seq<Step>, cfg: Config)
    decreases |es|
  {
    es == [] || (Guard(s, es[0]) && Guarded(Do(s, es[0], cfg), es[1..], cfg))
  }

  lemma {:induction false} AgreesIffGuarded(s: Sys, es: seq<Step>, cfg: Config)
    requires Inv(s, cfg) && Agreement(s.db, cfg)
    ensures AgreesThroughout(s, es, cfg) <==> Guarded(s, es, cfg)
    decreases |es|
  {
    if es != [] {
      StepAgreesIff(s, es[0], cfg);
      DoKeeps(s, es[0], cfg);
      if Guard(s, es[0]) {
        AgreesIffGuarded(Do(s, es[0], cfg), es[1..], cfg);
      }
    }
  }

  /**
   In every interleaving of writes from empty tables, the tables agree in every state of the run
   if and only if every write met its guard.
   */
  lemma RunAgreesIff(es: seq<Step>, cfg: Config)
    ensures AgreesThroughout(Start(), es, cfg) <==> Guarded(Start(), es, cfg)
  {
    AgreesIffGuarded(Start(), es, cfg);
  }
}
