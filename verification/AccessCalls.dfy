/**
 Every call of the access lifecycle as writes of the interleaving machine. The writes of a call
 are fixed by what it has read; each lemma runs them in any system, however stale the read, and
 finds what the call itself would leave. With other calls' writes in between the same list is
 simply part of a longer run.
 */
module AccessCalls {
  import opened Options
  import opened AccessLifecycle
  import opened AccessAgreement
  import opened AccessInterleaving

  lemma {:induction false} RunConcat(s: Sys, a: seq<Step>, b: seq<Step>, cfg: Config)
    ensures Run(s, a + b, cfg) == Run(Run(s, a, cfg), b, cfg)
    decreases |a|
  {
    if a == [] {
      assert a + b == b;
    } else {
      assert (a + b)[1..] == a[1..] + b;
      RunConcat(Do(s, a[0], cfg), a[1..], b, cfg);
    }
  }

  lemma RunOne(s: Sys, e: Step, cfg: Config)
    ensures Run(s, [e], cfg) == Do(s, e, cfg)
  {
    assert [e][1..] == [];
  }

  lemma RunTwo(s: Sys, d: Step, e: Step, cfg: Config)
    ensures Run(s, [d, e], cfg) == Do(Do(s, d, cfg), e, cfg)
  {
    RunConcat(s, [d], [e], cfg);
    RunOne(s, d, cfg);
    RunOne(Do(s, d, cfg), e, cfg);
    assert [d] + [e] == [d, e];
  }

  // --------------------------------------------------------- decisions and polls

  /** A lost rejection deletes the token; after a won one that deletion finds nothing. */
  function LinkWrites(id: nat, plan: LinkPlan, able: bool, approve: bool): seq<Step> {
    match plan
    case NoToken => []
    case Orphan => [DropToken(id)]
    case Expire(p) => [Mark(p, Expired), DropToken(id)]
    case Stale => [DropToken(id)]
    case Decide(p) =>
      if !able then []
      else if approve then [Approve(p, Some(id))]
      else [Reject(p, Some(id)), DropToken(id)]
  }

  /** A decision through a link, from whatever it had read. */
  lemma LinkCallIsSteps(s: Sys, id: nat, plan: LinkPlan, able: bool, approve: bool, cfg: Config)
    ensures Run(s, LinkWrites(id, plan, able, approve), cfg).db == FollowLink(s.db, id, plan, able, approve).0
  {
    match plan
    case NoToken =>
    case Orphan => RunOne(s, DropToken(id), cfg);
    case Expire(p) => RunTwo(s, Mark(p, Expired), DropToken(id), cfg);
    case Stale => RunOne(s, DropToken(id), cfg);
    case Decide(p) =>
      RunOne(s, Approve(p, Some(id)), cfg);
      RunTwo(s, Reject(p, Some(id)), DropToken(id), cfg);
      assert s.db.tokens - {id} - {id} == s.db.tokens - {id};
  }

  function OwnerWrites(seen: map<Pair, Request>, p: Pair, owner: bool, able: bool, approve: bool): seq<Step> {
    if !owner || !IsPending(seen, p) || !able then []
    else [if approve then Approve(p, None) else Reject(p, None)]
  }

  lemma OwnerCallIsSteps(s: Sys, p: Pair, owner: bool, able: bool, approve: bool, cfg: Config)
    ensures Run(s, OwnerWrites(s.db.requests, p, owner, able, approve), cfg).db
      == DecideByOwner(s.db, p, owner, able, approve).0
  {
    RunOne(s, if approve then Approve(p, None) else Reject(p, None), cfg);
  }

  function PollWrites(seen: Db, id: nat, now: int): seq<Step> {
    match ReadLink(seen, id, now)
    case Expire(p) => if IsPending(seen.requests, p) then [Mark(p, Expired)] else []
    case _ => []
  }

  lemma PollIsSteps(s: Sys, id: nat, now: int, cfg: Config)
    ensures Run(s, PollWrites(s.db, id, now), cfg).db == Poll(s.db, id, now)
  {
    if ReadLink(s.db, id, now).Expire? {
      RunOne(s, Mark(ReadLink(s.db, id, now).pair, Expired), cfg);
    }
  }

  // ------------------------------------------------------------ requests and removals

  /** A request call that reads everything at once, and writes. */
  lemma RequestCallIsSteps(s: Sys, client: nat, agents: seq<nat>, ids: nat -> nat, now: int, cfg: Config)
    ensures var work := WithoutAccess(s.db.access, client, Unique(agents));
      Run(s, [ReadRequests(client, work, ids, now), Write(|s.flights|)], cfg).db
      == RequestAccess(s.db, client, agents, true, true, ids, now, cfg).0
  {
    var work := WithoutAccess(s.db.access, client, Unique(agents));
    RunTwo(s, ReadRequests(client, work, ids, now), Write(|s.flights|), cfg);
    ReadThenWrite(s, client, work, ids, now, cfg);
  }

  /** Nothing if the plan stopped or its rows collide, otherwise its rows. */
  function Planned(db: Db, plan: Plan): Db {
    if plan.Plan? && WriteRows(db, plan.rows).Some? then WriteRows(db, plan.rows).value else db
  }

  lemma ReadThenWrite(s: Sys, client: nat, work: seq<nat>, ids: nat -> nat, now: int, cfg: Config)
    ensures DoWrite(DoRead(s, client, work, ids, now, cfg), |s.flights|).db
      == Planned(s.db, PlanFor(s.db.requests, client, work, ids, now, cfg))
  {
    var t := DoRead(s, client, work, ids, now, cfg);
    var plan := PlanFor(s.db.requests, client, work, ids, now, cfg);
    assert t.db == s.db && (plan.Plan? ==> t.flights[|s.flights|] == plan.rows);
  }

  /** One status write for each listed agent whose request was read as approved. */
  function MarkWrites(seen: map<Pair, Request>, client: nat, agents: seq<nat>): seq<Step>
    decreases |agents|
  {
    if agents == [] then [] else
    var n := |agents| - 1;
    MarkWrites(seen, client, agents[..n]) + LastMark(seen, Pair(client, agents[n]))
  }

  function LastMark(seen: map<Pair, Request>, p: Pair): seq<Step> {
    if IsApproved(seen, p) then [Mark(p, Revoked)] else []
  }

  function PairsFor(client: nat, agents: seq<nat>): set<Pair> {
    set a | a in agents :: Pair(client, a)
  }

  function RemovalWrites(seen: map<Pair, Request>, client: nat, agents: seq<nat>): seq<Step> {
    [DropAccess(PairsFor(client, agents))] + MarkWrites(seen, client, agents)
  }

  lemma {:induction false} MarksAreStatuses(s: Sys, seen: map<Pair, Request>, client: nat, agents: seq<nat>,
                                            cfg: Config)
    ensures Run(s, MarkWrites(seen, client, agents), cfg) == Statuses(s, seen, client, agents)
    decreases |agents|
  {
    if agents == [] {
      assert RemoveStatuses(s.db.requests, seen, client, agents) == s.db.requests;
    } else {
      var n := |agents| - 1;
      MarksAreStatuses(s, seen, client, agents[..n], cfg);
      RunConcat(s, MarkWrites(seen, client, agents[..n]), LastMark(seen, Pair(client, agents[n])), cfg);
      LastMarkIsStatus(s, seen, client, agents[..n], agents[n], cfg);
      assert agents[..n] + [agents[n]] == agents;
    }
  }

  function Statuses(s: Sys, seen: map<Pair, Request>, client: nat, agents: seq<nat>): Sys {
    s.(db := s.db.(requests := RemoveStatuses(s.db.requests, seen, client, agents)))
  }

  lemma LastMarkIsStatus(s: Sys, seen: map<Pair, Request>, client: nat, agents: seq<nat>, a: nat, cfg: Config)
    ensures Run(Statuses(s, seen, client, agents), LastMark(seen, Pair(client, a)), cfg)
      == Statuses(s, seen, client, agents + [a])
  {
    RunOne(Statuses(s, seen, client, agents), Mark(Pair(client, a), Revoked), cfg);
    RevokeOneMore(s.db.requests, seen, client, agents, a);
  }

  /** A removal by the client, from whatever it had read. */
  lemma RemovalIsSteps(s: Sys, seen: map<Pair, Request>, client: nat, agents: seq<nat>, cfg: Config)
    ensures Run(s, RemovalWrites(seen, client, agents), cfg).db == RemoveAfter(s.db, seen, client, agents)
  {
    var drop := DropAccess(PairsFor(client, agents));
    RunConcat(s, [drop], MarkWrites(seen, client, agents), cfg);
    RunOne(s, drop, cfg);
    MarksAreStatuses(Do(s, drop, cfg), seen, client, agents, cfg);
    assert forall p :: p in PairsFor(client, agents) <==> Names(client, agents, p);
  }

  // ------------------------------------------------------------------------ the sweep

  function Ids(ids: seq<nat>): set<nat> {
    set id | id in ids
  }

  /** One sweep transaction over the tokens it selected: each request expires, each token goes. */
  function SweepWrites(seen: map<nat, Token>, ids: seq<nat>): seq<Step>
    decreases |ids|
  {
    if ids == [] then [] else
    var n := |ids| - 1;
    SweepWrites(seen, ids[..n]) +
    if ids[n] in seen then [Mark(seen[ids[n]].pair, Expired), DropToken(ids[n])] else []
  }

  lemma {:induction false} SweepBatchIsSteps(s: Sys, ids: seq<nat>, cfg: Config)
    ensures Run(s, SweepWrites(s.db.tokens, ids), cfg) == s.(db := ExpireBatch(s.db, Ids(ids)))
    decreases |ids|
  {
    if ids == [] {
      assert ExpireBatch(s.db, Ids(ids)) == s.db;
    } else {
      var n := |ids| - 1;
      var front := SweepWrites(s.db.tokens, ids[..n]);
      SweepBatchIsSteps(s, ids[..n], cfg);
      OneMoreExpired(s.db, Ids(ids[..n]), ids[n]);
      assert Ids(ids) == Ids(ids[..n]) + {ids[n]};
      if ids[n] in s.db.tokens {
        var mark, drop := Mark(s.db.tokens[ids[n]].pair, Expired), DropToken(ids[n]);
        RunConcat(s, front, [mark, drop], cfg);
        RunTwo(Run(s, front, cfg), mark, drop, cfg);
      } else {
        assert SweepWrites(s.db.tokens, ids) == front;
      }
    }
  }

  lemma OneMoreExpired(db: Db, done: set<nat>, id: nat)
    ensures var t := ExpireBatch(db, done);
      ExpireBatch(db, done + {id}) ==
        if id in db.tokens then DeleteToken(SetStatus(t, db.tokens[id].pair, Expired), id) else t
  {
    assert PairsOf(db.tokens, done + {id}) ==
      PairsOf(db.tokens, done) + if id in db.tokens then {db.tokens[id].pair} else {};
  }

  function DropWrites(ids: seq<nat>): seq<Step>
    decreases |ids|
  {
    if ids == [] then [] else DropWrites(ids[..|ids| - 1]) + [DropToken(ids[|ids| - 1])]
  }

  /** A batch of the second loop. */
  lemma {:induction false} DropBatchIsSteps(s: Sys, ids: seq<nat>, cfg: Config)
    ensures Run(s, DropWrites(ids), cfg) == s.(db := s.db.(tokens := s.db.tokens - Ids(ids)))
    decreases |ids|
  {
    if ids == [] {
      assert s.db.tokens - Ids(ids) == s.db.tokens;
    } else {
      var n := |ids| - 1;
      DropBatchIsSteps(s, ids[..n], cfg);
      RunConcat(s, DropWrites(ids[..n]), [DropToken(ids[n])], cfg);
      RunOne(Run(s, DropWrites(ids[..n]), cfg), DropToken(ids[n]), cfg);
      assert Ids(ids) == Ids(ids[..n]) + {ids[n]};
      assert s.db.tokens - Ids(ids[..n]) - {ids[n]} == s.db.tokens - Ids(ids);
    }
  }
}
