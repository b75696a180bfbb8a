/**
 The access lifecycle as the services run it: loops over agents and rows, ordered writes to the
 three tables, and the batched expiry sweep. Each method is proved to leave the tables exactly
 as the corresponding call of `AccessLifecycle` says.
 */
module AccessService {
  import opened Options
  import opened AccessLifecycle
  import opened AccessAgreement

  /** `[...new Set(xs)]`. */
  method Deduplicate(xs: seq<nat>) returns (unique: seq<nat>)
    ensures unique == Unique(xs)
  {
    unique := [];
    for i := 0 to |xs|
      invariant unique == Unique(xs[..i])
    {
      assert xs[..i + 1][..i] == xs[..i];
      if xs[i] !in unique { unique := unique + [xs[i]]; }
    }
    assert xs[..|xs|] == xs;
  }

  method SplitByAccess(access: set<Pair>, client: nat, agents: seq<nat>)
    returns (already: seq<nat>, work: seq<nat>)
    ensures already == WithAccess(access, client, agents) && work == WithoutAccess(access, client, agents)
  {
    already, work := [], [];
    for i := 0 to |agents|
      invariant already == WithAccess(access, client, agents[..i])
      invariant work == WithoutAccess(access, client, agents[..i])
    {
      assert agents[..i + 1][..i] == agents[..i];
      if Pair(client, agents[i]) in access { already := already + [agents[i]]; }
      else { work := work + [agents[i]]; }
    }
    assert agents[..|agents|] == agents;
  }

  /** The loop stays stopped: what comes after the first exhausted agent does not matter. */
  lemma {:induction false} StoppedStays(requests: map<Pair, Request>, client: nat, work: seq<nat>, i: nat,
                                        ids: nat -> nat, now: int, cfg: Config)
    requires i <= |work| && PlanFor(requests, client, work[..i], ids, now, cfg).Stopped?
    ensures PlanFor(requests, client, work, ids, now, cfg) == PlanFor(requests, client, work[..i], ids, now, cfg)
    decreases |work|
  {
    if i == |work| {
      assert work[..i] == work;
    } else {
      var n := |work| - 1;
      assert work[..n][..i] == work[..i];
      StoppedStays(requests, client, work[..n], i, ids, now, cfg);
    }
  }

  /** The classifying loop, which returns at the first agent past its retries. */
  method ClassifyAll(requests: map<Pair, Request>, client: nat, work: seq<nat>, ids: nat -> nat, now: int,
                     cfg: Config) returns (plan: Plan)
    ensures plan == PlanFor(requests, client, work, ids, now, cfg)
  {
    plan := Plan([], [], [], []);
    for i := 0 to |work|
      invariant plan.Plan? && plan == PlanFor(requests, client, work[..i], ids, now, cfg)
    {
      var p := Pair(client, work[i]);
      assert work[..i + 1][..i] == work[..i];
      plan := PlanNext(plan, Classify(requests, p, now, cfg), p, ids(i), now + cfg.ttl);
      if plan.Stopped? {
        StoppedStays(requests, client, work, i + 1, ids, now, cfg);
        return;
      }
    }
    assert work[..|work|] == work;
  }

  class Tables {
    var requests: map<Pair, Request>
    var tokens: map<nat, Token>
    var access: set<Pair>

    function Contents(): Db
      reads this
    {
      Db(requests, tokens, access)
    }

    constructor ()
      ensures Contents() == Db(map[], map[], {})
    {
      requests, tokens, access := map[], map[], {};
    }

    /** `writePendingRequests`: upserts in one transaction, rolled back on a key violation. */
    method WritePendingRequests(rows: seq<Row>) returns (ok: bool)
      modifies this
      ensures ok == WriteRows(old(Contents()), rows).Some?
      ensures Contents() == if ok then WriteRows(old(Contents()), rows).value else old(Contents())
    {
      var tx := Contents();
      for i := 0 to |rows|
        invariant Contents() == old(Contents())
        invariant WriteRows(old(Contents()), rows) == WriteRows(tx, rows[i..])
      {
        assert rows[i..][0] == rows[i] && rows[i..][1..] == rows[i + 1..];
        if Collides(tx.tokens, rows[i]) { return false; }
        tx := Upsert(tx, rows[i]);
      }
      requests, tokens := tx.requests, tx.tokens;
      access := tx.access;
      ok := true;
    }

    method RequestAccess(client: nat, agents: seq<nat>, known: bool, owned: bool, ids: nat -> nat, now: int,
                         cfg: Config) returns (answer: Answer)
      modifies this
      ensures (Contents(), answer) ==
        AccessLifecycle.RequestAccess(old(Contents()), client, agents, known, owned, ids, now, cfg)
    {
      if !known { return Refused; }
      var unique := Deduplicate(agents);
      var already, work := SplitByAccess(access, client, unique);
      if work == [] { return Listed([], already, [], [], []); }
      if !owned { return Refused; }
      var plan := ClassifyAll(requests, client, work, ids, now, cfg);
      if plan.Stopped? { return RetryLimit(plan.agent); }
      var ok := WritePendingRequests(plan.rows);
      if !ok { return WriteFailed; }
      answer := Listed(AgentsOf(plan.rows), already, plan.created, plan.reopened, plan.debounced);
    }

    /** `removeApprovedAccess` undisturbed: read, then the writes below. */
    method RemoveApprovedAccess(client: nat, agents: seq<nat>)
      modifies this
      ensures Contents() == RemoveByClient(old(Contents()), client, agents)
    {
      FinishRemoval(requests, client, agents);
    }

    /** Its writes, whatever happened since the read: the rows go, then what was seen approved is marked. */
    method FinishRemoval(seen: map<Pair, Request>, client: nat, agents: seq<nat>)
      modifies this
      ensures Contents() == RemoveAfter(old(Contents()), seen, client, agents)
    {
      var unique := Deduplicate(agents);
      access := set p | p in access && !Names(client, unique, p);
      RevokeApproved(seen, client, unique);
    }

    method RevokeApproved(seen: map<Pair, Request>, client: nat, unique: seq<nat>)
      modifies this`requests
      ensures requests == RemoveStatuses(old(requests), seen, client, unique)
    {
      ghost var before := requests;
      for i := 0 to |unique|
        invariant requests == RemoveStatuses(before, seen, client, unique[..i])
      {
        RevokeOneMore(before, seen, client, unique[..i], unique[i]);
        var p := Pair(client, unique[i]);
        if IsApproved(seen, p) && p in requests {
          requests := requests[p := requests[p].(status := Revoked)];
        }
        assert unique[..i + 1] == unique[..i] + [unique[i]];
      }
      assert unique[..|unique|] == unique;
    }

    method ApprovePendingAndGrantAccess(p: Pair, consume: Option<nat>) returns (granted: bool)
      modifies this
      ensures Contents() == ApproveTxn(old(Contents()), p, consume)
      ensures granted == IsPending(old(requests), p)
    {
      if !IsPending(requests, p) { return false; }
      requests := requests[p := requests[p].(status := Approved)];
      access := access + {p};
      match consume {
        case Some(id) => tokens := tokens - {id};
        case None => tokens := TokensExceptOf(tokens, p);
      }
      granted := true;
    }

    method RejectPendingAndConsumeToken(p: Pair, consume: Option<nat>) returns (rejected: bool)
      modifies this
      ensures Contents() == RejectTxn(old(Contents()), p, consume)
      ensures rejected == IsPending(old(requests), p)
    {
      if !IsPending(requests, p) { return false; }
      requests := requests[p := requests[p].(status := Rejected)];
      match consume {
        case Some(id) => tokens := tokens - {id};
        case None => tokens := TokensExceptOf(tokens, p);
      }
      rejected := true;
    }

    method RevokeAccess(p: Pair) returns (hadAccess: bool)
      modifies this
      ensures Contents() == RevokeTxn(old(Contents()), p) && hadAccess == (p in old(access))
      ensures access == old(access) - {p} && tokens == old(tokens) && requests.Keys == old(requests).Keys
      ensures forall q :: q in requests ==>
        requests[q] == if q == p && old(requests)[q].status == Approved then old(requests)[q].(status := Revoked)
                       else old(requests)[q]
    {
      hadAccess := p in access;
      access := access - {p};
      if IsApproved(requests, p) { requests := requests[p := requests[p].(status := Revoked)]; }
    }

    /** `approveByToken` and `rejectByToken`: the reads and checks in order, then the writes. */
    method DecideByToken(id: nat, now: int, able: bool, approve: bool) returns (outcome: Outcome)
      modifies this
      ensures (Contents(), outcome) == AccessLifecycle.DecideByToken(old(Contents()), id, now, able, approve)
    {
      if id !in tokens { return InvalidToken; }
      var token := tokens[id];
      if token.pair !in requests {
        tokens := tokens - {id};
        return RequestMissing;
      }
      var request := requests[token.pair];
      if IsExpired(token.expiresAt, now) {
        requests := requests[token.pair := request.(status := Expired)];
        tokens := tokens - {id};
        return LinkExpired;
      }
      if request.status != Pending {
        tokens := tokens - {id};
        return AlreadyProcessed;
      }
      if !able { return Ineligible; }
      var won: bool;
      if approve {
        won := ApprovePendingAndGrantAccess(token.pair, Some(id));
      } else {
        won := RejectPendingAndConsumeToken(token.pair, Some(id));
        tokens := if won then tokens else tokens - {id};
      }
      outcome := if won then Done else AlreadyProcessed;
    }

    /** One sweep transaction over a batch of tokens; answers how many requests and tokens. */
    method ExpireBatchTxn(batch: set<nat>) returns (expired: nat, deleted: nat)
      requires batch <= tokens.Keys && OneTokenEach(tokens)
      requires forall id :: id in batch ==> tokens[id].pair in requests
      modifies this`requests, this`tokens
      ensures Contents() == ExpireBatch(old(Contents()), batch)
      ensures expired == |batch| && deleted == |batch|
    {
      var pairs := PairsOf(tokens, batch);
      PairsOfSize(tokens, batch);
      expired, deleted := |pairs|, |batch|;
      requests := map p | p in requests :: if p in pairs then requests[p].(status := Expired) else requests[p];
      tokens := tokens - batch;
    }

    /** `sweepExpiredClientAgentAccessData`: two batched loops with one cutoff. */
    method SweepExpired(cutoff: int, batchSize: nat) returns (requestsExpired: nat, tokensDeleted: nat)
      requires batchSize > 0 && OneTokenEach(tokens)
      modifies this
      ensures Contents() == Sweep(old(Contents()), cutoff)
      ensures requestsExpired == |Candidates(old(Contents()), cutoff)|
      ensures tokensDeleted == |DueTokens(old(tokens), cutoff)|
    {
      ghost var start := Contents();
      requestsExpired := ExpirePending(cutoff, batchSize);
      FirstPhase(start, cutoff);
      tokensDeleted := DeleteDue(cutoff, batchSize);
      DueInTwoPhases(start, cutoff);
      tokensDeleted := requestsExpired + tokensDeleted;
    }

    /** The first loop: batches of pending requests whose token is past the cutoff. */
    method ExpirePending(cutoff: int, batchSize: nat) returns (expired: nat)
      requires batchSize > 0 && OneTokenEach(tokens)
      modifies this`requests, this`tokens
      ensures Contents() == ExpireBatch(old(Contents()), Candidates(old(Contents()), cutoff))
      ensures expired == |Candidates(old(Contents()), cutoff)|
    {
      ghost var start := Contents();
      ghost var all := Candidates(start, cutoff);
      ghost var done: set<nat> := {};
      expired := 0;
      var more := true;
      assert ExpireBatch(start, {}) == start;
      while more
        invariant done <= all && Contents() == ExpireBatch(start, done) && expired == |done|
        invariant !more ==> done == all
        decreases all - done, more
      {
        var left := Candidates(Contents(), cutoff);
        var batch := OldestFirst(left, tokens, batchSize);
        OneMoreBatch(start, done, batch, left, cutoff);
        var count, _ := ExpireBatchTxn(batch);
        done := done + batch;
        expired := expired + count;
        more := count >= batchSize;
      }
    }

    /** The second loop: batches of tokens past the cutoff, whatever their request says. */
    method DeleteDue(cutoff: int, batchSize: nat) returns (deleted: nat)
      requires batchSize > 0
      modifies this`tokens
      ensures tokens == old(tokens) - DueTokens(old(tokens), cutoff)
      ensures deleted == |DueTokens(old(tokens), cutoff)|
    {
      ghost var start := tokens;
      ghost var due := DueTokens(start, cutoff);
      ghost var done: set<nat> := {};
      deleted := 0;
      var more := true;
      while more
        invariant done <= due && tokens == start - done && deleted == |done|
        invariant !more ==> done == due
        decreases due - done, more
      {
        assert DueTokens(tokens, cutoff) == due - done;
        var batch := OldestFirst(DueTokens(tokens, cutoff), tokens, batchSize);
        tokens := tokens - batch;
        assert start - done - batch == start - (done + batch);
        done := done + batch;
        deleted := deleted + |batch|;
        more := |batch| >= batchSize;
      }
    }
  }

  // ------------------------------------------------------------------ sweep lemmas

  /** With one token per request, a batch touches as many requests as tokens. */
  lemma {:induction false} PairsOfSize(tokens: map<nat, Token>, ids: set<nat>)
    requires ids <= tokens.Keys && OneTokenEach(tokens)
    ensures |PairsOf(tokens, ids)| == |ids|
  {
    if ids != {} {
      var id :| id in ids;
      PairsOfSize(tokens, ids - {id});
      assert PairsOf(tokens, ids) == PairsOf(tokens, ids - {id}) + {tokens[id].pair};
    }
  }

  /** After some batches, exactly the other candidates are left. */
  lemma CandidatesLeft(start: Db, done: set<nat>, cutoff: int)
    requires OneTokenEach(start.tokens) && done <= Candidates(start, cutoff)
    ensures Candidates(ExpireBatch(start, done), cutoff) == Candidates(start, cutoff) - done
  {
  }

  lemma BatchesCompose(start: Db, done: set<nat>, batch: set<nat>)
    requires done <= start.tokens.Keys && batch <= start.tokens.Keys && done !! batch
    ensures ExpireBatch(ExpireBatch(start, done), batch) == ExpireBatch(start, done + batch)
  {
  }

  /** One more batch: it is disjoint from what was done and the effects add up. */
  lemma OneMoreBatch(start: Db, done: set<nat>, batch: set<nat>, left: set<nat>, cutoff: int)
    requires OneTokenEach(start.tokens) && done <= Candidates(start, cutoff)
    requires left == Candidates(ExpireBatch(start, done), cutoff) && batch <= left
    ensures done + batch <= Candidates(start, cutoff) && |done + batch| == |done| + |batch|
    ensures batch == left ==> done + batch == Candidates(start, cutoff)
    ensures batch != {} ==> Candidates(start, cutoff) - (done + batch) < Candidates(start, cutoff) - done
    ensures ExpireBatch(ExpireBatch(start, done), batch) == ExpireBatch(start, done + batch)
  {
    CandidatesLeft(start, done, cutoff);
    assert done <= start.tokens.Keys && batch <= start.tokens.Keys;
    BatchesCompose(start, done, batch);
    if batch != {} {
      var id :| id in batch;
      assert id in Candidates(start, cutoff) - done;
    }
  }

  /** Expiring every candidate is the whole effect of the sweep on requests. */
  lemma FirstPhase(start: Db, cutoff: int)
    ensures ExpireBatch(start, Candidates(start, cutoff)).requests == Sweep(start, cutoff).requests
    ensures Candidates(start, cutoff) <= DueTokens(start.tokens, cutoff)
  {
  }

  /** The two loops together remove every due token once. */
  lemma DueInTwoPhases(start: Db, cutoff: int)
    ensures var all := Candidates(start, cutoff); var rest := DueTokens(start.tokens - all, cutoff);
      && |DueTokens(start.tokens, cutoff)| == |all| + |rest|
      && start.tokens - all - rest == Sweep(start, cutoff).tokens
  {
    var all := Candidates(start, cutoff);
    var rest := DueTokens(start.tokens - all, cutoff);
    SplitDue(start.tokens, all, cutoff);
    assert start.tokens - all - rest == start.tokens - (all + rest);
  }

  lemma SplitDue(tokens: map<nat, Token>, all: set<nat>, cutoff: int)
    requires all <= DueTokens(tokens, cutoff)
    ensures all + DueTokens(tokens - all, cutoff) == DueTokens(tokens, cutoff)
    ensures |DueTokens(tokens, cutoff)| == |all| + |DueTokens(tokens - all, cutoff)|
  {
  }

  /** `ORDER BY expires_at ASC LIMIT n`. */
  method OldestFirst(ids: set<nat>, tokens: map<nat, Token>, limit: nat) returns (batch: set<nat>)
    requires ids <= tokens.Keys
    ensures batch <= ids && |batch| == (if |ids| < limit then |ids| else limit)
    ensures |ids| < limit ==> batch == ids
    ensures forall x, y :: x in batch && y in ids - batch ==> tokens[x].expiresAt <= tokens[y].expiresAt
  {
    batch := {};
    var rest := ids;
    while rest != {} && |batch| < limit
      invariant batch !! rest && batch + rest == ids && |batch| <= limit && |batch| + |rest| == |ids|
      invariant forall x, y :: x in batch && y in rest ==> tokens[x].expiresAt <= tokens[y].expiresAt
      decreases rest
    {
      var oldest := Oldest(rest, tokens);
      batch, rest := batch + {oldest}, rest - {oldest};
    }
    assert ids - batch == rest;
  }

  method Oldest(ids: set<nat>, tokens: map<nat, Token>) returns (oldest: nat)
    requires ids != {} && ids <= tokens.Keys
    ensures oldest in ids && forall x :: x in ids ==> tokens[oldest].expiresAt <= tokens[x].expiresAt
  {
    oldest :| oldest in ids;
    var rest := ids - {oldest};
    while rest != {}
      invariant rest <= ids && oldest in ids
      invariant forall x :: x in ids - rest ==> tokens[oldest].expiresAt <= tokens[x].expiresAt
      decreases rest
    {
      var next :| next in rest;
      rest := rest - {next};
      if tokens[next].expiresAt < tokens[oldest].expiresAt { oldest := next; }
    }
  }
}
