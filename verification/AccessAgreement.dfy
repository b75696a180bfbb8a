/**
 Requests, tokens and access rows agree: every call keeps the agreement, so every run of whole
 calls does, and which late writes of overlapping calls would break it.
 */
module AccessAgreement {
  import opened Options
  import opened AccessLifecycle

  // ------------------------------------------------------------- every write keeps it

  lemma TokenStays(tokens: map<nat, Token>, more: map<nat, Token>, p: Pair)
    requires HasToken(tokens, p)
    requires forall id :: id in tokens && tokens[id].pair == p ==> id in more && more[id] == tokens[id]
    ensures HasToken(more, p)
  {
  }

  /** Moving a request out of `pending` together with its only token. */
  lemma CloseKeeps(db: Db, p: Pair, status: Status, id: nat, cfg: Config)
    requires Agreement(db, cfg) && id in db.tokens && db.tokens[id].pair == p && status != Pending
    ensures var t := DeleteToken(SetStatus(db, p, status), id);
      && PendingHaveTokens(t.requests, t.tokens) && OneTokenEach(t.tokens)
      && TokensAreOpen(t.requests, t.tokens) && RetriesBounded(t.requests, cfg.maxRetries)
  {
    var t := DeleteToken(SetStatus(db, p, status), id);
    forall q | IsPending(t.requests, q)
      ensures HasToken(t.tokens, q)
    {
      assert IsPending(db.requests, q);
      TokenStays(db.tokens, t.tokens, q);
    }
  }

  /** The request's only token is the one a caller names, so both ways to consume agree. */
  lemma ConsumeEither(db: Db, p: Pair, id: nat)
    requires OneTokenEach(db.tokens) && id in db.tokens && db.tokens[id].pair == p
    ensures Consume(db, p, None) == Consume(db, p, Some(id))
  {
  }

  lemma DecideKeeps(db: Db, p: Pair, consume: Option<nat>, approve: bool, cfg: Config)
    requires Agreement(db, cfg) && IsPending(db.requests, p)
    requires consume.Some? ==> consume.value in db.tokens && db.tokens[consume.value].pair == p
    ensures Agreement(if approve then ApproveTxn(db, p, consume) else RejectTxn(db, p, consume), cfg)
  {
    assert HasToken(db.tokens, p);
    var id :| id in db.tokens && db.tokens[id].pair == p;
    assert consume.Some? ==> consume.value == id;
    ConsumeEither(db, p, id);
    CloseKeeps(db, p, if approve then Approved else Rejected, id, cfg);
  }

  lemma ByTokenKeeps(db: Db, id: nat, now: int, able: bool, approve: bool, cfg: Config)
    requires Agreement(db, cfg)
    ensures Agreement(DecideByToken(db, id, now, able, approve).0, cfg)
  {
    match ReadLink(db, id, now)
    case NoToken =>
    case Orphan =>
    case Expire(p) => CloseKeeps(db, p, Expired, id, cfg);
    case Stale =>
      var p := db.tokens[id].pair;
      assert SetStatus(db, p, db.requests[p].status) == db;
      CloseKeeps(db, p, db.requests[p].status, id, cfg);
    case Decide(p) => DecideKeeps(db, p, Some(id), approve, cfg);
  }

  lemma PollKeeps(db: Db, id: nat, now: int, cfg: Config)
    requires Agreement(db, cfg)
    ensures Agreement(Poll(db, id, now), cfg)
  {
  }

  lemma RevokeKeeps(db: Db, p: Pair, cfg: Config)
    requires Agreement(db, cfg)
    ensures Agreement(RevokeTxn(db, p), cfg)
  {
  }

  lemma RemoveKeeps(db: Db, client: nat, agents: seq<nat>, cfg: Config)
    requires Agreement(db, cfg)
    ensures Agreement(RemoveByClient(db, client, agents), cfg)
  {
  }

  /** One more agent handled by `removeApprovedAccess`. */
  lemma RevokeOneMore(requests: map<Pair, Request>, seen: map<Pair, Request>, client: nat, agents: seq<nat>,
                      agent: nat)
    ensures var p := Pair(client, agent); var sofar := RemoveStatuses(requests, seen, client, agents);
      RemoveStatuses(requests, seen, client, agents + [agent]) ==
        if IsApproved(seen, p) && p in requests then sofar[p := sofar[p].(status := Revoked)] else sofar
  {
  }

  lemma SweepKeeps(db: Db, cutoff: int, cfg: Config)
    requires Agreement(db, cfg)
    ensures Agreement(Sweep(db, cutoff), cfg)
  {
    var t := Sweep(db, cutoff);
    forall p | IsPending(t.requests, p)
      ensures HasToken(t.tokens, p)
    {
      assert IsPending(db.requests, p);
      TokenStays(db.tokens, t.tokens, p);
    }
  }

  /** A row as `requestAccess` builds it. */
  predicate RowOk(row: Row, cfg: Config) {
    row.request.status == Pending && (cfg.maxRetries > 0 ==> row.request.retryCount <= cfg.maxRetries)
  }

  lemma UpsertKeeps(db: Db, row: Row, cfg: Config)
    requires Agreement(db, cfg) && RowOk(row, cfg) && row.pair !in db.access && !Collides(db.tokens, row)
    ensures Agreement(Upsert(db, row), cfg)
  {
    var t := Upsert(db, row);
    forall p | IsPending(t.requests, p)
      ensures HasToken(t.tokens, p)
    {
      if p == row.pair {
        assert row.tokenId in t.tokens && t.tokens[row.tokenId].pair == p;
      } else {
        assert IsPending(db.requests, p);
        TokenStays(db.tokens, t.tokens, p);
      }
    }
  }

  lemma {:induction false} WriteKeeps(db: Db, rows: seq<Row>, cfg: Config)
    requires Agreement(db, cfg)
    requires forall k :: 0 <= k < |rows| ==> RowOk(rows[k], cfg) && rows[k].pair !in db.access
    ensures WriteRows(db, rows).Some? ==> Agreement(WriteRows(db, rows).value, cfg)
    decreases |rows|
  {
    if rows != [] && !Collides(db.tokens, rows[0]) {
      UpsertKeeps(db, rows[0], cfg);
      WriteKeeps(Upsert(db, rows[0]), rows[1..], cfg);
    }
  }

  predicate RowFits(row: Row, client: nat, agents: seq<nat>, cfg: Config) {
    RowOk(row, cfg) && row.pair.agent in agents && row.pair == Pair(client, row.pair.agent)
  }

  predicate RowsFit(plan: Plan, client: nat, agents: seq<nat>, cfg: Config) {
    plan.Plan? ==> forall k :: 0 <= k < |plan.rows| ==> RowFits(plan.rows[k], client, agents, cfg)
  }

  lemma NextRowsFit(plan: Plan, requests: map<Pair, Request>, p: Pair, tokenId: nat, now: int, agents: seq<nat>,
                    cfg: Config)
    requires RetriesBounded(requests, cfg.maxRetries) && RowsFit(plan, p.client, agents, cfg)
    ensures var next := PlanNext(plan, Classify(requests, p, now, cfg), p, tokenId, now + cfg.ttl);
      RowsFit(next, p.client, agents + [p.agent], cfg)
  {
  }

  /** Every row the loop builds is pending, within the retry bound and for a listed agent. */
  lemma {:induction false} PlanRowsFit(requests: map<Pair, Request>, client: nat, work: seq<nat>, ids: nat -> nat,
                                       now: int, cfg: Config)
    requires RetriesBounded(requests, cfg.maxRetries)
    ensures RowsFit(PlanFor(requests, client, work, ids, now, cfg), client, work, cfg)
    decreases |work|
  {
    if work != [] {
      var n := |work| - 1;
      PlanRowsFit(requests, client, work[..n], ids, now, cfg);
      NextRowsFit(PlanFor(requests, client, work[..n], ids, now, cfg), requests, Pair(client, work[n]), ids(n), now,
                  work[..n], cfg);
      assert work == work[..n] + [work[n]];
    }
  }

  lemma RequestKeeps(db: Db, client: nat, agents: seq<nat>, known: bool, owned: bool, ids: nat -> nat, now: int,
                     cfg: Config)
    requires Agreement(db, cfg)
    ensures Agreement(RequestAccess(db, client, agents, known, owned, ids, now, cfg).0, cfg)
  {
    var work := WithoutAccess(db.access, client, Unique(agents));
    var plan := PlanFor(db.requests, client, work, ids, now, cfg);
    PlanRowsFit(db.requests, client, work, ids, now, cfg);
    if plan.Plan? {
      assert forall k :: 0 <= k < |plan.rows| ==> RowFits(plan.rows[k], client, work, cfg);
      WriteKeeps(db, plan.rows, cfg);
    }
  }

  lemma CallKeeps(db: Db, c: Call, cfg: Config)
    requires Agreement(db, cfg)
    ensures Agreement(DoCall(db, c, cfg), cfg)
  {
    match c
    case CallRequest(client, agents, known, owned, ids, now) =>
      RequestKeeps(db, client, agents, known, owned, ids, now, cfg);
    case CallRetry(client, p, known, owned, ids, now) =>
      RequestKeeps(db, client, [p.agent], known, owned, ids, now, cfg);
    case CallRemove(client, agents) => RemoveKeeps(db, client, agents, cfg);
    case CallToken(id, now, able, approve) => ByTokenKeeps(db, id, now, able, approve, cfg);
    case CallOwner(p, owner, able, approve) =>
      if IsPending(db.requests, p) { DecideKeeps(db, p, None, approve, cfg); }
    case CallPoll(id, now) => PollKeeps(db, id, now, cfg);
    case CallRevoke(p, owner) => RevokeKeeps(db, p, cfg);
    case CallSweep(cutoff) => SweepKeeps(db, cutoff, cfg);
  }

  // -------------------------------------------------------------------- the results

  lemma {:induction false} CallsKeep(db: Db, cs: seq<Call>, cfg: Config)
    requires Agreement(db, cfg)
    ensures Agreement(RunCalls(db, cs, cfg), cfg)
    decreases |cs|
  {
    if cs != [] {
      CallKeeps(db, cs[0], cfg);
      CallsKeep(DoCall(db, cs[0], cfg), cs[1..], cfg);
    }
  }

  /** In every run of whole calls from empty tables, requests, tokens and access rows agree. */
  lemma TablesAgree(cs: seq<Call>, cfg: Config)
    ensures Agreement(RunCalls(Db(map[], map[], {}), cs, cfg), cfg)
  {
    CallsKeep(Db(map[], map[], {}), cs, cfg);
  }

  /**
   A poll that persists an expiry keeps the link answering "expired": a later decision through
   the same token is told so, and only that decision removes the token.
   */
  lemma PollKeepsLinkExpired(db: Db, id: nat, now: int, later: int, able: bool, approve: bool)
    requires ReadLink(db, id, now).Expire? && now <= later
    ensures DecideByToken(Poll(db, id, now), id, later, able, approve).1 == LinkExpired
    ensures id !in DecideByToken(Poll(db, id, now), id, later, able, approve).0.tokens
    ensures IsPending(db.requests, db.tokens[id].pair) ==>
      Poll(db, id, now).requests[db.tokens[id].pair].status == Expired
  {
  }

  /** A link works once: after any answer but `Ineligible` the same token is unknown. */
  lemma LinkWorksOnce(db: Db, id: nat, now: int, later: int, able: bool, approve: bool, again: bool)
    requires DecideByToken(db, id, now, able, approve).1 != Ineligible
    ensures DecideByToken(DecideByToken(db, id, now, able, approve).0, id, later, able, again).1 == InvalidToken
  {
  }

  /** Each agent is in the list its verdict names, and a row is built for those not debounced. */
  ghost predicate Partitioned(plan: Plan, requests: map<Pair, Request>, client: nat, agents: seq<nat>, now: int,
                              cfg: Config) {
    plan.Plan? ==>
      && (forall a :: a in plan.created <==> a in agents && Classify(requests, Pair(client, a), now, cfg).Open?)
      && (forall a :: a in plan.reopened <==> a in agents && Classify(requests, Pair(client, a), now, cfg).Reopen?)
      && (forall a :: a in plan.debounced <==> a in agents && Classify(requests, Pair(client, a), now, cfg).Debounced?)
      && |plan.created| + |plan.reopened| + |plan.debounced| == |agents|
      && |plan.rows| == |plan.created| + |plan.reopened|
  }

  /** The lists a request answers with are a partition of the agents it worked on. */
  lemma {:induction false} PlanPartitions(requests: map<Pair, Request>, client: nat, work: seq<nat>,
                                          ids: nat -> nat, now: int, cfg: Config)
    ensures Partitioned(PlanFor(requests, client, work, ids, now, cfg), requests, client, work, now, cfg)
    decreases |work|
  {
    if work != [] {
      var n := |work| - 1;
      PlanPartitions(requests, client, work[..n], ids, now, cfg);
      assert work == work[..n] + [work[n]];
    }
  }

  /** The retry limit stops a call exactly when some listed agent has used up its retries. */
  lemma {:induction false} StopsIffExhausted(requests: map<Pair, Request>, client: nat, work: seq<nat>,
                                             ids: nat -> nat, now: int, cfg: Config)
    ensures PlanFor(requests, client, work, ids, now, cfg).Stopped? <==>
      cfg.maxRetries > 0 && exists k :: 0 <= k < |work| && Exhausted(requests, Pair(client, work[k]), cfg.maxRetries)
    decreases |work|
  {
    if work != [] {
      var n := |work| - 1;
      StopsIffExhausted(requests, client, work[..n], ids, now, cfg);
      assert forall k :: 0 <= k < n ==> work[..n][k] == work[k];
    }
  }

  predicate Exhausted(requests: map<Pair, Request>, p: Pair, maxRetries: nat) {
    p in requests && requests[p].status != Pending && requests[p].retryCount >= maxRetries
  }

  // -------------------------------------------------------- what whole calls must be

  /**
   The expiry write is unconditional, so a call that read an expired link leaves the tables in
   agreement exactly if the request has not been approved since. A token belongs to one request
   for good, so the token may be gone by then but not be another's.
   */
  lemma LateExpiryKeepsIff(db: Db, id: nat, p: Pair, able: bool, approve: bool, cfg: Config)
    requires Agreement(db, cfg) && p in db.requests && (id in db.tokens ==> db.tokens[id].pair == p)
    ensures Agreement(FollowLink(db, id, Expire(p), able, approve).0, cfg) <==> !IsApproved(db.requests, p)
  {
    if id in db.tokens {
      CloseKeeps(db, p, Expired, id, cfg);
    }
    var t := FollowLink(db, id, Expire(p), able, approve).0;
    assert IsApproved(db.requests, p) ==> p in t.access && !IsApproved(t.requests, p);
    assert !IsApproved(db.requests, p) ==> forall q :: IsApproved(t.requests, q) <==> IsApproved(db.requests, q);
    assert id !in db.tokens ==> t.tokens == db.tokens;
  }

  /** A committed write of pending rows takes the approval of exactly its pairs away. */
  lemma {:induction false} ApprovedAfterWrite(db: Db, rows: seq<Row>, q: Pair)
    requires forall k :: 0 <= k < |rows| ==> rows[k].request.status == Pending
    ensures WriteRows(db, rows).Some? ==>
      var t := WriteRows(db, rows).value;
      && t.access == db.access
      && (IsApproved(t.requests, q) <==>
            IsApproved(db.requests, q) && forall k :: 0 <= k < |rows| ==> rows[k].pair != q)
    decreases |rows|
  {
    if rows != [] && !Collides(db.tokens, rows[0]) {
      ApprovedAfterWrite(Upsert(db, rows[0]), rows[1..], q);
      assert forall k :: 1 <= k < |rows| ==> rows[k] == rows[1..][k - 1];
    }
  }

  predicate NoneInAccess(rows: seq<Row>, access: set<Pair>) {
    forall k :: 0 <= k < |rows| ==> rows[k].pair !in access
  }

  /** A write of pending rows keeps access rows and approvals in step exactly if it meets no access row. */
  lemma WriteAccessIff(db: Db, rows: seq<Row>)
    requires AccessAgrees(db.requests, db.access)
    requires forall k :: 0 <= k < |rows| ==> rows[k].request.status == Pending
    ensures WriteRows(db, rows).Some? ==>
      var t := WriteRows(db, rows).value;
      (AccessAgrees(t.requests, t.access) <==> NoneInAccess(rows, db.access))
  {
    if WriteRows(db, rows).Some? {
      var t := WriteRows(db, rows).value;
      forall q
        ensures t.access == db.access
        ensures IsApproved(t.requests, q) <==>
          IsApproved(db.requests, q) && forall k :: 0 <= k < |rows| ==> rows[k].pair != q
      {
        ApprovedAfterWrite(db, rows, q);
      }
      forall k | 0 <= k < |rows| && rows[k].pair in db.access
        ensures !IsApproved(t.requests, rows[k].pair)
      {
        ApprovedAfterWrite(db, rows, rows[k].pair);
      }
    }
  }

  /** Likewise rows built before an approval and written after it: exactly then. */
  lemma LateReopenKeepsIff(db: Db, rows: seq<Row>, cfg: Config)
    requires Agreement(db, cfg) && forall k :: 0 <= k < |rows| ==> RowOk(rows[k], cfg)
    ensures WriteRows(db, rows).Some? ==>
      (Agreement(WriteRows(db, rows).value, cfg) <==> NoneInAccess(rows, db.access))
  {
    WriteAccessIff(db, rows);
    if NoneInAccess(rows, db.access) {
      WriteKeeps(db, rows, cfg);
    }
  }

  /**
   A removal marks what it had read as approved, so it leaves the tables in agreement exactly if
   every listed request approved by now was approved then, and none of those it marks has been
   opened again.
   */
  lemma LateRemovalKeepsIff(db: Db, seen: map<Pair, Request>, client: nat, agents: seq<nat>, cfg: Config)
    requires Agreement(db, cfg)
    ensures Agreement(RemoveAfter(db, seen, client, agents), cfg) <==>
      forall p :: p in db.requests && Names(client, agents, p) ==>
        (IsApproved(db.requests, p) ==> IsApproved(seen, p)) && (IsApproved(seen, p) ==> !HasToken(db.tokens, p))
  {
    var t := RemoveAfter(db, seen, client, agents);
    assert forall p :: IsPending(t.requests, p) ==> IsPending(db.requests, p);
    assert forall p :: Names(client, agents, p) && IsApproved(db.requests, p) && !IsApproved(seen, p) ==>
      IsApproved(t.requests, p) && p !in t.access;
    assert forall p :: p in db.requests && Names(client, agents, p) && IsApproved(seen, p) ==>
      !Undecided(t.requests, p);
  }

  /**
   A concrete removal that overlaps an approval: it reads the request as pending, the approval
   commits, and then the removal deletes the new row and skips the status. The request stays
   approved with no access row.
   */
  lemma OverlappingRemovalDisagrees()
    ensures var p := Pair(1, 2); var start := Db(map[p := Request(Pending, 0, 0)], map[7 := Token(p, 10)], {});
      && Agreement(start, Config(0, 5, 10))
      && var mid := DecideByToken(start, 7, 9, true, true).0; var end := RemoveAfter(mid, start.requests, 1, [2]);
         end.access == {} && IsApproved(end.requests, p)
  {
    var p := Pair(1, 2);
    var start := Db(map[p := Request(Pending, 0, 0)], map[7 := Token(p, 10)], {});
    assert 7 in start.tokens && start.tokens[7].pair == p;
  }

  /**
   A concrete pair of overlapping calls: both read one pending request through one token, the
   first just before it expires and the second just after; the first approves, then the second
   writes. The access row stays and the request says expired.
   */
  lemma OverlappingCallsDisagree()
    ensures var p := Pair(1, 2); var start := Db(map[p := Request(Pending, 0, 0)], map[7 := Token(p, 10)], {});
      && Agreement(start, Config(0, 5, 10))
      && var first := ReadLink(start, 7, 9); var second := ReadLink(start, 7, 10);
         var mid := FollowLink(start, 7, first, true, true).0; var end := FollowLink(mid, 7, second, true, true).0;
         end.access == {p} && p in end.requests && end.requests[p].status == Expired
  {
    var p := Pair(1, 2);
    var start := Db(map[p := Request(Pending, 0, 0)], map[7 := Token(p, 10)], {});
    assert 7 in start.tokens && start.tokens[7].pair == p;
  }
}
