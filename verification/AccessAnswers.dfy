/**
 What every access call must do, on the fields of the tables: which pairs it changes and how, what
 it answers and when, and that it leaves everything else alone.
 */
module AccessAnswers {
  import opened Options
  import opened AccessLifecycle
  import opened AccessAgreement
  import opened AccessEffects

  /** Requests other than this pair's are the same. */
  predicate OthersSame(a: map<Pair, Request>, b: map<Pair, Request>, p: Pair) {
    a.Keys == b.Keys && forall q :: q in a && q != p ==> a[q] == b[q]
  }

  // ----------------------------------------------------------- revocation and removal

  /** A revocation takes the row, revokes an approved request, and touches nothing else. */
  lemma RevokeAnswers(db: Db, p: Pair, owner: bool, cfg: Config)
    ensures var t := DoCall(db, CallRevoke(p, owner), cfg);
      && (!owner ==> t == db)
      && (owner ==>
            && t.access == db.access - {p} && t.tokens == db.tokens && OthersSame(db.requests, t.requests, p)
            && (p in db.requests ==>
                  t.requests[p] == if db.requests[p].status == Approved then db.requests[p].(status := Revoked)
                                   else db.requests[p]))
  {
  }

  /** A removal takes the rows of the listed pairs and revokes those it had read as approved. */
  lemma RemovalAnswers(db: Db, seen: map<Pair, Request>, client: nat, agents: seq<nat>, p: Pair)
    ensures var t := RemoveAfter(db, seen, client, agents); var listed := p.client == client && p.agent in agents;
      && (p in t.access <==> p in db.access && !listed) && t.tokens == db.tokens && t.requests.Keys == db.requests.Keys
      && (p in db.requests ==>
            t.requests[p] == if listed && p in seen && seen[p].status == Approved
                             then db.requests[p].(status := Revoked) else db.requests[p])
  {
  }

  /** Undisturbed, the client holds none of the listed agents afterwards and none is approved. */
  lemma RemoveAnswers(db: Db, client: nat, agents: seq<nat>, cfg: Config, p: Pair)
    ensures var t := DoCall(db, CallRemove(client, agents), cfg);
      && (p.client == client && p.agent in agents ==> p !in t.access && !IsApproved(t.requests, p))
      && (!(p.client == client && p.agent in agents) ==>
            (p in t.access <==> p in db.access) && SameRequest(db.requests, t.requests, p))
  {
  }

  // ---------------------------------------------------------------------- decisions

  /** The request is decided, the row follows an approval, and no token of the pair is left. */
  ghost predicate Decided(db: Db, t: Db, p: Pair, approve: bool) {
    && OthersSame(db.requests, t.requests, p) && p in db.requests
    && t.requests[p] == db.requests[p].(status := if approve then Approved else Rejected)
    && t.access == if approve then db.access + {p} else db.access
  }

  /** An owner's answer: one outcome for each case, and a decision exactly in the last. */
  lemma OwnerAnswers(db: Db, p: Pair, owner: bool, able: bool, approve: bool)
    ensures var r := DecideByOwner(db, p, owner, able, approve);
      && (p !in db.requests ==> r == (db, RequestMissing))
      && (p in db.requests && !owner ==> r == (db, NotOwner))
      && (p in db.requests && owner && db.requests[p].status != Pending ==> r == (db, AlreadyProcessed))
      && (p in db.requests && owner && db.requests[p].status == Pending && !able ==> r == (db, Ineligible))
      && (p in db.requests && owner && db.requests[p].status == Pending && able ==>
            && r.1 == Done && Decided(db, r.0, p, approve)
            && forall id :: id in r.0.tokens <==> id in db.tokens && db.tokens[id].pair != p)
  {
  }

  /** A link's answer: one outcome for each case of what it finds. */
  lemma LinkAnswers(db: Db, id: nat, now: int, able: bool, approve: bool)
    ensures var r := DecideByToken(db, id, now, able, approve);
      && (id !in db.tokens ==> r == (db, InvalidToken))
      && (id in db.tokens ==>
            var p := db.tokens[id].pair; var lapsed := db.tokens[id].expiresAt <= now;
            && (p !in db.requests ==> r.1 == RequestMissing && r.0 == db.(tokens := db.tokens - {id}))
            && (p in db.requests && lapsed ==>
                  && r.1 == LinkExpired && r.0.access == db.access && r.0.tokens == db.tokens - {id}
                  && OthersSame(db.requests, r.0.requests, p)
                  && r.0.requests[p] == db.requests[p].(status := Expired))
            && (p in db.requests && !lapsed && db.requests[p].status != Pending ==>
                  r.1 == AlreadyProcessed && r.0 == db.(tokens := db.tokens - {id}))
            && (p in db.requests && !lapsed && db.requests[p].status == Pending && !able ==> r == (db, Ineligible))
            && (p in db.requests && !lapsed && db.requests[p].status == Pending && able ==>
                  r.1 == Done && Decided(db, r.0, p, approve) && r.0.tokens == db.tokens - {id}))
  {
  }

  /** A decision that lost the race: an approval leaves the token, a rejection deletes it. */
  lemma LostDecisionAnswers(db: Db, id: nat, p: Pair, approve: bool)
    requires !IsPending(db.requests, p)
    ensures var r := FollowLink(db, id, Decide(p), true, approve);
      r.1 == AlreadyProcessed && r.0 == if approve then db else db.(tokens := db.tokens - {id})
  {
  }

  /** A poll changes one thing at most: a pending request with a lapsed token becomes expired. */
  lemma PollAnswers(db: Db, id: nat, now: int, cfg: Config)
    ensures var t := DoCall(db, CallPoll(id, now), cfg);
      var due := id in db.tokens && db.tokens[id].expiresAt <= now && IsPending(db.requests, db.tokens[id].pair);
      && t.tokens == db.tokens && t.access == db.access
      && (!due ==> t == db)
      && (due ==> OthersSame(db.requests, t.requests, db.tokens[id].pair)
                  && t.requests[db.tokens[id].pair] == db.requests[db.tokens[id].pair].(status := Expired))
  {
  }

  // ---------------------------------------------------------------------- the sweep

  /** A sweep deletes exactly the lapsed tokens and expires exactly the pending requests that had one. */
  lemma SweepAnswers(db: Db, cutoff: int, cfg: Config, p: Pair, id: nat)
    ensures var t := DoCall(db, CallSweep(cutoff), cfg);
      && (id in t.tokens <==> id in db.tokens && db.tokens[id].expiresAt >= cutoff)
      && (id in t.tokens ==> t.tokens[id] == db.tokens[id])
      && t.access == db.access && t.requests.Keys == db.requests.Keys
      && (p in db.requests ==>
            t.requests[p] == if IsPending(db.requests, p) && HasLapsed(db.tokens, p, cutoff)
                             then db.requests[p].(status := Expired) else db.requests[p])
  {
  }

  predicate HasLapsed(tokens: map<nat, Token>, p: Pair, cutoff: int) {
    exists id :: id in tokens && tokens[id].pair == p && tokens[id].expiresAt < cutoff
  }

  // -------------------------------------------------------------------- the requests

  /**
   The answer of a request call, list by list: who already has access, who is new, who is asked for
   again, who was debounced, and that the first write list is the second and third together.
   */
  lemma RequestLists(db: Db, client: nat, agents: seq<nat>, ids: nat -> nat, now: int, cfg: Config, a: nat)
    ensures var r := RequestAccess(db, client, agents, true, true, ids, now, cfg).1; var p := Pair(client, a);
      r.Listed? ==>
        && (a in r.already <==> a in agents && p in db.access)
        && (a in r.created <==> a in agents && p !in db.access && p !in db.requests)
        && (a in r.debounced <==> a in agents && p !in db.access && Debounces(db.requests, p, now, cfg))
        && (a in r.reopened <==>
              a in agents && p !in db.access && p in db.requests && !Debounces(db.requests, p, now, cfg))
        && (a in r.requested <==> a in r.created || a in r.reopened)
  {
    var unique := Unique(agents);
    var work := WithoutAccess(db.access, client, unique);
    var r := RequestAccess(db, client, agents, true, true, ids, now, cfg).1;
    AnswerIsPlan(db, client, agents, ids, now, cfg);
    WithoutAccessDistinct(db.access, client, unique);
    PlanLists(db.requests, client, work, ids, now, cfg, a);
    assert a in unique <==> a in agents;
    assert a in work <==> a in agents && Pair(client, a) !in db.access;
  }

  lemma AnswerIsPlan(db: Db, client: nat, agents: seq<nat>, ids: nat -> nat, now: int, cfg: Config)
    ensures var r := RequestAccess(db, client, agents, true, true, ids, now, cfg).1; var unique := Unique(agents);
      var plan := PlanFor(db.requests, client, WithoutAccess(db.access, client, unique), ids, now, cfg);
      r.Listed? ==>
        && plan.Plan?
        && r == Listed(AgentsOf(plan.rows), WithAccess(db.access, client, unique), plan.created, plan.reopened,
                       plan.debounced)
  {
    var unique := Unique(agents);
    var already := WithAccess(db.access, client, unique);
    var work := WithoutAccess(db.access, client, unique);
    var plan := PlanFor(db.requests, client, work, ids, now, cfg);
    var r := RequestAccess(db, client, agents, true, true, ids, now, cfg).1;
    if work == [] {
      assert plan == Plan([], [], [], []) && r == Listed([], already, [], [], []);
    } else if plan.Stopped? {
      assert r == RetryLimit(plan.agent);
    } else if WriteRows(db, plan.rows).None? {
      assert r == WriteFailed;
    } else {
      assert r == Listed(AgentsOf(plan.rows), already, plan.created, plan.reopened, plan.debounced);
    }
  }

  /** The lists of a plan, agent by agent. */
  lemma PlanLists(requests: map<Pair, Request>, client: nat, work: seq<nat>, ids: nat -> nat, now: int, cfg: Config,
                  a: nat)
    requires Distinct(work)
    ensures var plan := PlanFor(requests, client, work, ids, now, cfg); var p := Pair(client, a);
      plan.Plan? ==>
        && (a in plan.created <==> a in work && p !in requests)
        && (a in plan.debounced <==> a in work && Debounces(requests, p, now, cfg))
        && (a in plan.reopened <==> a in work && p in requests && !Debounces(requests, p, now, cfg))
        && (a in AgentsOf(plan.rows) <==> a in work && !Debounces(requests, p, now, cfg))
  {
    var plan := PlanFor(requests, client, work, ids, now, cfg);
    PlanPartitions(requests, client, work, ids, now, cfg);
    PlanMatches(requests, client, work, ids, now, cfg);
    if plan.Plan? {
      if a in work { NotExhausted(requests, client, work, ids, now, cfg, a); }
      VerdictOf(requests, Pair(client, a), now, cfg);
      WhichRow(plan, requests, client, work, now, cfg, Pair(client, a));
      RowAgents(plan, requests, client, work, now, cfg, a);
    }
  }

  lemma VerdictOf(requests: map<Pair, Request>, p: Pair, now: int, cfg: Config)
    ensures var v := Classify(requests, p, now, cfg);
      && (v.Open? <==> p !in requests)
      && (v.Debounced? <==> Debounces(requests, p, now, cfg))
      && (v.TooManyRetries? || (v.Reopen? <==> p in requests && !Debounces(requests, p, now, cfg)))
  {
  }

  /** No listed agent of a plan that went through had used up its retries. */
  lemma NotExhausted(requests: map<Pair, Request>, client: nat, work: seq<nat>, ids: nat -> nat, now: int,
                     cfg: Config, a: nat)
    requires PlanFor(requests, client, work, ids, now, cfg).Plan? && a in work
    ensures !Classify(requests, Pair(client, a), now, cfg).TooManyRetries?
  {
    StopsIffExhausted(requests, client, work, ids, now, cfg);
    var k :| 0 <= k < |work| && work[k] == a;
    assert !(cfg.maxRetries > 0 && Exhausted(requests, Pair(client, work[k]), cfg.maxRetries));
  }

  lemma RowAgents(plan: Plan, requests: map<Pair, Request>, client: nat, work: seq<nat>, now: int, cfg: Config, a: nat)
    requires plan.Plan? && RowsMatch(plan, requests, client, work, now, cfg)
    ensures a in AgentsOf(plan.rows) <==> HasRow(plan.rows, Pair(client, a))
  {
    var agents := AgentsOf(plan.rows);
    if a in agents {
      var k :| 0 <= k < |agents| && agents[k] == a;
      assert RowFrom(plan.rows[k], requests, client, work, now, cfg);
    }
    if HasRow(plan.rows, Pair(client, a)) {
      var k :| 0 <= k < |plan.rows| && plan.rows[k].pair == Pair(client, a);
      assert agents[k] == a;
    }
  }

  /** When a request call refuses, stops or fails, nothing is written. */
  lemma RefusedRequestChangesNothing(db: Db, client: nat, agents: seq<nat>, known: bool, owned: bool, ids: nat -> nat,
                                     now: int, cfg: Config)
    ensures var r := RequestAccess(db, client, agents, known, owned, ids, now, cfg);
      && (!r.1.Listed? ==> r.0 == db)
      && (!known ==> r.1 == Refused)
      && (known && !owned && (exists a :: a in agents && Pair(client, a) !in db.access) ==> r.1 == Refused)
      && (r.1 == Refused ==> !known || !owned)
  {
    var unique := Unique(agents);
    var work := WithoutAccess(db.access, client, unique);
    if known && !owned && exists a :: a in agents && Pair(client, a) !in db.access {
      var a :| a in agents && Pair(client, a) !in db.access;
      assert a in work;
    }
  }

  /** A retry is refused to strangers, answered at once where access stands, and else asks again. */
  lemma RetryAnswers(db: Db, client: nat, p: Pair, known: bool, owned: bool, ids: nat -> nat, now: int, cfg: Config)
    ensures var r := RetryByClient(db, client, p, known, owned, ids, now, cfg);
      && (p !in db.requests || p.client != client ==> r == (db, Refused))
      && (p in db.requests && p.client == client && db.requests[p].status == Approved && p in db.access ==>
            r == (db, Listed([], [p.agent], [], [], [])))
      && (p in db.requests && p.client == client && !(db.requests[p].status == Approved && p in db.access) ==>
            r == RequestAccess(db, client, [p.agent], known, owned, ids, now, cfg))
  {
  }

  /** What a successful retry does: the pair is pending, asked for now unless debounced. */
  lemma RetryAsksAgain(db: Db, p: Pair, ids: nat -> nat, now: int, cfg: Config)
    requires p in db.requests && p !in db.access
    ensures var r := RetryByClient(db, p.client, p, true, true, ids, now, cfg);
      r.1.Listed? ==> AskedNow(db, r.0, p, now, cfg)
  {
    RequestEffect(db, p.client, [p.agent], ids, now, cfg, p);
  }

  // ------------------------------------------------------------ the order of the lists

  /** In `xs`, `a` occurs before any `b`. */
  predicate Before(xs: seq<nat>, a: nat, b: nat) {
    exists m :: 0 <= m <= |xs| && a in xs[..m] && b !in xs[..m]
  }

  /** The list follows the order in which its values first occur in `xs`. */
  predicate InOrder(r: seq<nat>, xs: seq<nat>) {
    forall i, j :: 0 <= i < j < |r| ==> Before(xs, r[i], r[j])
  }

  predicate Within(r: seq<nat>, xs: seq<nat>) {
    forall i :: 0 <= i < |r| ==> r[i] in xs
  }

  lemma OneMoreInOrder(r: seq<nat>, xs: seq<nat>, taken: bool)
    requires xs != []
    requires var front := xs[..|xs| - 1]; Within(r, front) && InOrder(r, front) && (taken ==> xs[|xs| - 1] !in front)
    ensures var s := r + (if taken then [xs[|xs| - 1]] else []); Within(s, xs) && InOrder(s, xs)
  {
    var n := |xs| - 1;
    var s := r + (if taken then [xs[n]] else []);
    forall i, j | 0 <= i < j < |s| ensures Before(xs, s[i], s[j]) {
      if j < |r| {
        assert Before(xs[..n], r[i], r[j]);
        var m :| 0 <= m <= n && r[i] in xs[..n][..m] && r[j] !in xs[..n][..m];
        assert xs[..n][..m] == xs[..m];
      } else {
        assert s[i] in xs[..n] && s[j] == xs[n];
      }
    }
  }

  lemma {:induction false} UniqueInOrder(xs: seq<nat>)
    ensures Within(Unique(xs), xs) && InOrder(Unique(xs), xs)
    decreases |xs|
  {
    if xs != [] {
      var n := |xs| - 1;
      UniqueInOrder(xs[..n]);
      OneMoreInOrder(Unique(xs[..n]), xs, xs[n] !in xs[..n]);
    }
  }

  lemma {:induction false} SplitInOrder(access: set<Pair>, client: nat, agents: seq<nat>)
    requires Distinct(agents)
    ensures Within(WithoutAccess(access, client, agents), agents)
    ensures InOrder(WithoutAccess(access, client, agents), agents)
    decreases |agents|
  {
    if agents != [] {
      var n := |agents| - 1;
      SplitInOrder(access, client, agents[..n]);
      OneMoreInOrder(WithoutAccess(access, client, agents[..n]), agents, Pair(client, agents[n]) !in access);
    }
  }

  predicate Sorted(plan: Plan, work: seq<nat>) {
    plan.Plan? ==>
      && Within(plan.created, work) && InOrder(plan.created, work)
      && Within(plan.reopened, work) && InOrder(plan.reopened, work)
      && Within(plan.debounced, work) && InOrder(plan.debounced, work)
      && Within(AgentsOf(plan.rows), work) && InOrder(AgentsOf(plan.rows), work)
  }

  lemma NextInOrder(plan: Plan, work: seq<nat>, v: Verdict, p: Pair, id: nat, expiresAt: int)
    requires work != [] && Distinct(work) && p.agent == work[|work| - 1]
    requires plan.Plan? && !v.TooManyRetries? && Sorted(plan, work[..|work| - 1])
    ensures Sorted(PlanNext(plan, v, p, id, expiresAt), work)
  {
    OneMoreInOrder(plan.created, work, v.Open?);
    OneMoreInOrder(plan.reopened, work, v.Reopen?);
    OneMoreInOrder(plan.debounced, work, v.Debounced?);
    OneMoreInOrder(AgentsOf(plan.rows), work, !v.Debounced?);
    if !v.Debounced? {
      AgentsGrow(plan.rows, Row(p, v.request, id, expiresAt));
      assert PlanNext(plan, v, p, id, expiresAt).rows == plan.rows + [Row(p, v.request, id, expiresAt)];
    }
    assert forall r: seq<nat> :: r + [] == r;
  }

  lemma AgentsGrow(rows: seq<Row>, row: Row)
    ensures AgentsOf(rows + [row]) == AgentsOf(rows) + [row.pair.agent]
  {
    assert (rows + [row])[..|rows|] == rows;
  }

  lemma {:induction false} PlanInOrder(requests: map<Pair, Request>, client: nat, work: seq<nat>, ids: nat -> nat,
                                       now: int, cfg: Config)
    requires Distinct(work)
    ensures Sorted(PlanFor(requests, client, work, ids, now, cfg), work)
    decreases |work|
  {
    if work != [] {
      var n := |work| - 1;
      PlanInOrder(requests, client, work[..n], ids, now, cfg);
      var plan := PlanFor(requests, client, work[..n], ids, now, cfg);
      var v := Classify(requests, Pair(client, work[n]), now, cfg);
      if plan.Plan? && !v.TooManyRetries? {
        NextInOrder(plan, work, v, Pair(client, work[n]), ids(n), now + cfg.ttl);
      }
    }
  }

  lemma ThroughOrder(r: seq<nat>, mid: seq<nat>, xs: seq<nat>)
    requires Within(r, mid) && InOrder(r, mid) && InOrder(mid, xs)
    ensures InOrder(r, xs)
  {
    forall i, j | 0 <= i < j < |r| ensures Before(xs, r[i], r[j]) {
      assert Before(mid, r[i], r[j]);
      var m :| 0 <= m <= |mid| && r[i] in mid[..m] && r[j] !in mid[..m];
      var a :| 0 <= a < m && mid[a] == r[i];
      var b :| 0 <= b < |mid| && mid[b] == r[j];
      assert b < m ==> mid[..m][b] == r[j];
    }
  }

  /** Every list the loop makes follows the order in which the call first named its agents. */
  lemma ListsInOrder(db: Db, client: nat, agents: seq<nat>, ids: nat -> nat, now: int, cfg: Config)
    ensures var r := RequestAccess(db, client, agents, true, true, ids, now, cfg).1;
      r.Listed? ==>
        && InOrder(r.requested, agents) && InOrder(r.created, agents) && InOrder(r.reopened, agents)
        && InOrder(r.debounced, agents)
  {
    var unique := Unique(agents);
    var work := WithoutAccess(db.access, client, unique);
    var r := RequestAccess(db, client, agents, true, true, ids, now, cfg).1;
    if r.Listed? {
      UniqueInOrder(agents);
      SplitInOrder(db.access, client, unique);
      WithoutAccessDistinct(db.access, client, unique);
      PlanInOrder(db.requests, client, work, ids, now, cfg);
      AnswerIsPlan(db, client, agents, ids, now, cfg);
      ThroughOrder(work, unique, agents);
      ThroughOrder(r.requested, work, agents);
      ThroughOrder(r.created, work, agents);
      ThroughOrder(r.reopened, work, agents);
      ThroughOrder(r.debounced, work, agents);
    }
  }
}
