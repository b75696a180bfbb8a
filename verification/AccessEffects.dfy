/**
 What the calls of the access lifecycle do to one request: which row a request call writes, the
 moves a status can make, and what the retry count counts.
 */
module AccessEffects {
  import opened AccessLifecycle
  import opened AccessAgreement

  // ------------------------------------------------------ what a call does to a request

  /** No pair has two rows. */
  predicate DistinctPairs(rows: seq<Row>) {
    forall i, j :: 0 <= i < j < |rows| ==> rows[i].pair != rows[j].pair
  }

  predicate TokenOf(tokens: map<nat, Token>, row: Row) {
    row.tokenId in tokens && tokens[row.tokenId] == Token(row.pair, row.expiresAt)
  }

  /** A committed write leaves exactly its rows and their tokens, and every other request alone. */
  lemma {:induction false} WrittenExactly(db: Db, rows: seq<Row>, p: Pair)
    requires DistinctPairs(rows)
    ensures WriteRows(db, rows).Some? ==>
      var t := WriteRows(db, rows).value;
      && t.access == db.access
      && (!HasRow(rows, p) ==> SameRequest(db.requests, t.requests, p))
      && (forall k :: 0 <= k < |rows| && rows[k].pair == p ==>
            p in t.requests && t.requests[p] == rows[k].request && TokenOf(t.tokens, rows[k]))
      && (forall id :: id in db.tokens && db.tokens[id].pair == p && !HasRow(rows, p) ==>
            id in t.tokens && t.tokens[id] == db.tokens[id])
    decreases |rows|
  {
    if rows != [] && WriteRows(db, rows).Some? {
      var u := Upsert(db, rows[0]);
      WrittenExactly(u, rows[1..], p);
      if rows[0].pair == p {
        assert !HasRow(rows[1..], p);
        assert TokenOf(u.tokens, rows[0]);
      } else {
        assert HasRow(rows[1..], p) ==> HasRow(rows, p);
        assert HasRow(rows, p) ==> HasRow(rows[1..], p) by {
          if HasRow(rows, p) {
            var k :| 0 <= k < |rows| && rows[k].pair == p;
            assert rows[1..][k - 1].pair == p;
          }
        }
      }
    }
  }

  predicate Distinct(xs: seq<nat>) {
    forall i, j :: 0 <= i < j < |xs| ==> xs[i] != xs[j]
  }

  lemma {:induction false} WithoutAccessDistinct(access: set<Pair>, client: nat, agents: seq<nat>)
    requires Distinct(agents)
    ensures Distinct(WithoutAccess(access, client, agents))
    decreases |agents|
  {
    if agents != [] {
      var n := |agents| - 1;
      WithoutAccessDistinct(access, client, agents[..n]);
      var front := WithoutAccess(access, client, agents[..n]);
      assert forall i :: 0 <= i < |front| ==> front[i] in front;
    }
  }

  /** The row is what its pair's classification calls for. */
  predicate RowFrom(row: Row, requests: map<Pair, Request>, client: nat, agents: seq<nat>, now: int, cfg: Config) {
    var v := Classify(requests, row.pair, now, cfg);
    && row.pair == Pair(client, row.pair.agent) && row.pair.agent in agents && row.expiresAt == now + cfg.ttl
    && (v == Reopen(row.request) || v == Open(row.request))
  }

  /** One row for each listed agent that is not debounced, and no other. */
  ghost predicate RowsMatch(plan: Plan, requests: map<Pair, Request>, client: nat, agents: seq<nat>, now: int,
                            cfg: Config) {
    plan.Plan? ==>
      && DistinctPairs(plan.rows)
      && (forall k :: 0 <= k < |plan.rows| ==> RowFrom(plan.rows[k], requests, client, agents, now, cfg))
      && (forall a :: a in agents && !Classify(requests, Pair(client, a), now, cfg).Debounced? ==>
            HasRow(plan.rows, Pair(client, a)))
  }

  lemma NextRowsMatch(plan: Plan, requests: map<Pair, Request>, client: nat, agents: seq<nat>, agent: nat,
                      tokenId: nat, now: int, cfg: Config)
    requires RowsMatch(plan, requests, client, agents, now, cfg) && agent !in agents
    ensures var p := Pair(client, agent); var v := Classify(requests, p, now, cfg);
      RowsMatch(PlanNext(plan, v, p, tokenId, now + cfg.ttl), requests, client, agents + [agent], now, cfg)
  {
    var p := Pair(client, agent);
    var v := Classify(requests, p, now, cfg);
    var next := PlanNext(plan, v, p, tokenId, now + cfg.ttl);
    if next.Plan? {
      assert forall k :: 0 <= k < |plan.rows| ==> RowFrom(plan.rows[k], requests, client, agents, now, cfg);
      assert v.Reopen? || v.Open? ==> next.rows[|plan.rows|].pair == p;
      forall a | a in agents + [agent] && !Classify(requests, Pair(client, a), now, cfg).Debounced?
        ensures HasRow(next.rows, Pair(client, a))
      {
        if a != agent {
          var k :| 0 <= k < |plan.rows| && plan.rows[k].pair == Pair(client, a);
          assert next.rows[k].pair == Pair(client, a);
        }
      }
    }
  }

  lemma {:induction false} PlanMatches(requests: map<Pair, Request>, client: nat, work: seq<nat>, ids: nat -> nat,
                                       now: int, cfg: Config)
    requires Distinct(work)
    ensures RowsMatch(PlanFor(requests, client, work, ids, now, cfg), requests, client, work, now, cfg)
    decreases |work|
  {
    if work != [] {
      var n := |work| - 1;
      PlanMatches(requests, client, work[..n], ids, now, cfg);
      assert work == work[..n] + [work[n]];
      NextRowsMatch(PlanFor(requests, client, work[..n], ids, now, cfg), requests, client, work[..n], work[n], ids(n),
                    now, cfg);
    }
  }

  /** Pending afterwards; unless debounced, asked again just now with a link of full lifetime. */
  ghost predicate AskedNow(db: Db, t: Db, p: Pair, now: int, cfg: Config) {
    && IsPending(t.requests, p)
    && if Debounces(db.requests, p, now, cfg) then t.requests[p] == db.requests[p]
       else
         && t.requests[p].requestedAt == now && HasTokenUntil(t.tokens, p, now + cfg.ttl)
         && t.requests[p].retryCount == RetriesSoFar(db.requests, p) + if Reopens(db.requests, p) then 1 else 0
  }

  function RetriesSoFar(requests: map<Pair, Request>, p: Pair): nat {
    if p in requests then requests[p].retryCount else 0
  }

  /** Asking again after a decision, an expiry or a revocation. */
  predicate Reopens(requests: map<Pair, Request>, p: Pair) {
    p in requests && requests[p].status != Pending
  }

  ghost predicate HasTokenUntil(tokens: map<nat, Token>, p: Pair, expiresAt: int) {
    exists id :: id in tokens && tokens[id] == Token(p, expiresAt)
  }

  lemma PlanEffect(db: Db, plan: Plan, client: nat, agents: seq<nat>, now: int, cfg: Config, p: Pair)
    requires plan.Plan? && RowsMatch(plan, db.requests, client, agents, now, cfg)
    ensures WriteRows(db, plan.rows).Some? ==>
      var t := WriteRows(db, plan.rows).value;
      if p.client == client && p.agent in agents then AskedNow(db, t, p, now, cfg)
      else SameRequest(db.requests, t.requests, p)
  {
    WrittenExactly(db, plan.rows, p);
    WhichRow(plan, db.requests, client, agents, now, cfg, p);
    if HasRow(plan.rows, p) && WriteRows(db, plan.rows).Some? {
      var k :| 0 <= k < |plan.rows| && plan.rows[k].pair == p;
      assert RowFrom(plan.rows[k], db.requests, client, agents, now, cfg);
      assert TokenOf(WriteRows(db, plan.rows).value.tokens, plan.rows[k]);
    }
  }

  /**
   What an answered request call did to one pair: a listed agent without access was asked for
   now or debounced, and every other request is as it was.
   */
  lemma RequestEffect(db: Db, client: nat, agents: seq<nat>, ids: nat -> nat, now: int, cfg: Config, p: Pair)
    ensures RequestAccess(db, client, agents, true, true, ids, now, cfg).1.Listed? ==>
      var t := RequestAccess(db, client, agents, true, true, ids, now, cfg).0;
      if p.client == client && p.agent in agents && p !in db.access then AskedNow(db, t, p, now, cfg)
      else SameRequest(db.requests, t.requests, p)
  {
    var work := WithoutAccess(db.access, client, Unique(agents));
    var plan := PlanFor(db.requests, client, work, ids, now, cfg);
    WithoutAccessDistinct(db.access, client, Unique(agents));
    PlanMatches(db.requests, client, work, ids, now, cfg);
    assert p == Pair(p.client, p.agent);
    assert p.client == client ==> (p.agent in work <==> p.agent in agents && p !in db.access);
    if work != [] && plan.Plan? {
      PlanEffect(db, plan, client, work, now, cfg, p);
    }
  }

  /** The pending request that a call leaves alone. */
  predicate Debounces(requests: map<Pair, Request>, p: Pair, now: int, cfg: Config) {
    IsPending(requests, p) && cfg.debounce > 0 && 0 <= now - requests[p].requestedAt < cfg.debounce
  }

  lemma WhichRow(plan: Plan, requests: map<Pair, Request>, client: nat, agents: seq<nat>, now: int, cfg: Config,
                 p: Pair)
    requires plan.Plan? && RowsMatch(plan, requests, client, agents, now, cfg)
    ensures var listed := p.client == client && p.agent in agents;
      && (HasRow(plan.rows, p) <==> listed && !Debounces(requests, p, now, cfg))
      && (forall k :: 0 <= k < |plan.rows| && plan.rows[k].pair == p ==>
            RowFrom(plan.rows[k], requests, client, agents, now, cfg))
  {
    assert p == Pair(p.client, p.agent);
    if HasRow(plan.rows, p) {
      var k :| 0 <= k < |plan.rows| && plan.rows[k].pair == p;
      assert RowFrom(plan.rows[k], requests, client, agents, now, cfg);
    }
  }

  // ------------------------------------------------------------- the lifecycle diagram

  /** The only moves of a request: decided or lapsed from pending, revoked, and asked again. */
  predicate LegalMove(a: Status, b: Status) {
    match a
    case Pending => b != Revoked
    case Approved => b == Approved || b == Revoked
    case _ => b == a || b == Pending
  }

  predicate Reopened(a: map<Pair, Request>, b: map<Pair, Request>, p: Pair) {
    Reopens(a, p) && IsPending(b, p)
  }

  /** One call, seen from one pair: a legal move, and one retry counted exactly for a reopening. */
  predicate Moves(a: map<Pair, Request>, b: map<Pair, Request>, p: Pair) {
    && (p in a ==> p in b && LegalMove(a[p].status, b[p].status))
    && (p !in a && p in b ==> b[p].status == Pending)
    && RetriesSoFar(b, p) == RetriesSoFar(a, p) + if Reopened(a, b, p) then 1 else 0
  }

  lemma RequestMoves(db: Db, client: nat, agents: seq<nat>, known: bool, owned: bool, ids: nat -> nat, now: int,
                     cfg: Config, p: Pair)
    requires Agreement(db, cfg)
    ensures Moves(db.requests, RequestAccess(db, client, agents, known, owned, ids, now, cfg).0.requests, p)
  {
    if known && owned && RequestAccess(db, client, agents, known, owned, ids, now, cfg).1.Listed? {
      RequestEffect(db, client, agents, ids, now, cfg, p);
      assert p !in db.access ==> !IsApproved(db.requests, p);
    }
  }

  lemma TokenMoves(db: Db, id: nat, now: int, able: bool, approve: bool, cfg: Config, p: Pair)
    requires Agreement(db, cfg)
    ensures Moves(db.requests, DecideByToken(db, id, now, able, approve).0.requests, p)
  {
    assert id in db.tokens ==> Undecided(db.requests, db.tokens[id].pair);
  }

  lemma CallMoves(db: Db, c: Call, cfg: Config, p: Pair)
    requires Agreement(db, cfg)
    ensures Moves(db.requests, DoCall(db, c, cfg).requests, p)
  {
    match c
    case CallRequest(client, agents, known, owned, ids, now) =>
      RequestMoves(db, client, agents, known, owned, ids, now, cfg, p);
    case CallRetry(client, q, known, owned, ids, now) =>
      RequestMoves(db, client, [q.agent], known, owned, ids, now, cfg, p);
    case CallToken(id, now, able, approve) => TokenMoves(db, id, now, able, approve, cfg, p);
    case CallRemove(client, agents) =>
    case CallOwner(q, owner, able, approve) =>
    case CallPoll(id, now) =>
    case CallRevoke(q, owner) =>
    case CallSweep(cutoff) =>
  }

  /** How often the pair was asked for again after a decision, an expiry or a revocation. */
  function Reopenings(db: Db, cs: seq<Call>, cfg: Config, p: Pair): nat
    decreases |cs|
  {
    if cs == [] then 0 else
    var t := DoCall(db, cs[0], cfg);
    (if Reopened(db.requests, t.requests, p) then 1 else 0) + Reopenings(t, cs[1..], cfg, p)
  }

  lemma {:induction false} RetriesAdd(db: Db, cs: seq<Call>, cfg: Config, p: Pair)
    requires Agreement(db, cfg)
    ensures RetriesSoFar(RunCalls(db, cs, cfg).requests, p) == RetriesSoFar(db.requests, p) + Reopenings(db, cs, cfg, p)
    decreases |cs|
  {
    if cs != [] {
      CallKeeps(db, cs[0], cfg);
      CallMoves(db, cs[0], cfg, p);
      RetriesAdd(DoCall(db, cs[0], cfg), cs[1..], cfg, p);
    }
  }

  /** In every run the retry count is the number of reopenings; resends of a pending one are free. */
  lemma RetriesAreReopenings(cs: seq<Call>, cfg: Config, p: Pair)
    ensures var start := Db(map[], map[], {});
      RetriesSoFar(RunCalls(start, cs, cfg).requests, p) == Reopenings(start, cs, cfg, p)
  {
    RetriesAdd(Db(map[], map[], {}), cs, cfg, p);
  }

  /** A link decides exactly when it is known, not lapsed, its request pending and the grant possible. */
  lemma DoneIffDecided(db: Db, id: nat, now: int, able: bool, approve: bool)
    ensures var r := DecideByToken(db, id, now, able, approve);
      && (r.1 == Done <==>
            id in db.tokens && now < db.tokens[id].expiresAt && IsPending(db.requests, db.tokens[id].pair) && able)
      && (r.1 == Done ==>
            var p := db.tokens[id].pair;
            && id !in r.0.tokens && p in r.0.requests
            && r.0.requests[p].status == (if approve then Approved else Rejected)
            && r.0.access == if approve then db.access + {p} else db.access)
  {
  }
}
