/**
 The access lifecycle at the level of single database writes: any number of service calls in
 flight, each write taking effect at any later moment, whatever its call had read before.

 A request call keeps the rows it built from its own, possibly stale, read. Every other write is
 allowed with any arguments at any time. `AccessCalls` shows that the writes of every call, fixed
 by what it has read, are such steps, so every interleaving of calls is a run of this machine.
 `rounds` counts how often a pair was set to pending and `log` lists the decisions that took
 effect; both are bookkeeping that no write consults.
 */
module AccessInterleaving {
  import opened Options
  import opened AccessLifecycle
  import opened AccessAgreement

  datatype Decision = Decision(pair: Pair, round: nat, approved: bool)

  datatype Sys = Sys(db: Db, flights: seq<seq<Row>>, rounds: map<Pair, nat>, log: seq<Decision>)

  datatype Step =
    | ReadRequests(client: nat, work: seq<nat>, ids: nat -> nat, now: int)
    | Write(i: nat)
    | Approve(pair: Pair, consume: Option<nat>)
    | Reject(pair: Pair, consume: Option<nat>)
    | Revoke(pair: Pair)
    | Mark(pair: Pair, status: Status)
    | DropToken(id: nat)
    | DropAccess(pairs: set<Pair>)

  function RoundOf(rounds: map<Pair, nat>, p: Pair): nat {
    if p in rounds then rounds[p] else 0
  }

  function NextRounds(rounds: map<Pair, nat>, rows: seq<Row>): map<Pair, nat>
    decreases |rows|
  {
    if rows == [] then rounds
    else NextRounds(rounds[rows[0].pair := RoundOf(rounds, rows[0].pair) + 1], rows[1..])
  }

  function DoRead(s: Sys, client: nat, work: seq<nat>, ids: nat -> nat, now: int, cfg: Config): Sys {
    match PlanFor(s.db.requests, client, work, ids, now, cfg)
    case Stopped(_) => s
    case Plan(rows, _, _, _) => s.(flights := s.flights + [rows])
  }

  function DoWrite(s: Sys, i: nat): Sys {
    if i >= |s.flights| then s
    else match WriteRows(s.db, s.flights[i])
    case None => s
    case Some(db) => s.(db := db, rounds := NextRounds(s.rounds, s.flights[i]))
  }

  function DoDecide(s: Sys, p: Pair, consume: Option<nat>, approve: bool): Sys {
    if !IsPending(s.db.requests, p) then s
    else s.(db := if approve then ApproveTxn(s.db, p, consume) else RejectTxn(s.db, p, consume),
            log := s.log + [Decision(p, RoundOf(s.rounds, p), approve)])
  }

  function Do(s: Sys, e: Step, cfg: Config): Sys {
    match e
    case ReadRequests(client, work, ids, now) => DoRead(s, client, work, ids, now, cfg)
    case Write(i) => DoWrite(s, i)
    case Approve(p, consume) => DoDecide(s, p, consume, true)
    case Reject(p, consume) => DoDecide(s, p, consume, false)
    case Revoke(p) => s.(db := RevokeTxn(s.db, p))
    case Mark(p, status) => if status == Pending then s else s.(db := SetStatus(s.db, p, status))
    case DropToken(id) => s.(db := DeleteToken(s.db, id))
    case DropAccess(pairs) => s.(db := s.db.(access := s.db.access - pairs))
  }

  function Start(): Sys {
    Sys(Db(map[], map[], {}), [], map[], [])
  }

  function Run(s: Sys, es: seq<Step>, cfg: Config): Sys
    decreases |es|
  {
    if es == [] then s else Run(Do(s, es[0], cfg), es[1..], cfg)
  }

  // ------------------------------------------------------------------- the invariant

  /** Decisions on one pair are for ever later rounds, none later than the current one. */
  ghost predicate LogOk(log: seq<Decision>, rounds: map<Pair, nat>) {
    && (forall i, j :: 0 <= i < j < |log| && log[i].pair == log[j].pair ==> log[i].round < log[j].round)
    && (forall i :: 0 <= i < |log| ==> log[i].round <= RoundOf(rounds, log[i].pair))
  }

  /** A pending request's round has no decision yet. */
  ghost predicate PendingUndecided(log: seq<Decision>, rounds: map<Pair, nat>, requests: map<Pair, Request>) {
    forall i :: 0 <= i < |log| && IsPending(requests, log[i].pair) ==> log[i].round < RoundOf(rounds, log[i].pair)
  }

  ghost predicate WasApproved(log: seq<Decision>, p: Pair) {
    exists i :: 0 <= i < |log| && log[i].pair == p && log[i].approved
  }

  ghost predicate AccessWasApproved(log: seq<Decision>, access: set<Pair>) {
    forall p :: p in access ==> WasApproved(log, p)
  }

  ghost predicate FlightsOk(flights: seq<seq<Row>>, cfg: Config) {
    forall i, k :: 0 <= i < |flights| && 0 <= k < |flights[i]| ==> RowOk(flights[i][k], cfg)
  }

  ghost predicate Inv(s: Sys, cfg: Config) {
    && LogOk(s.log, s.rounds)
    && PendingUndecided(s.log, s.rounds, s.db.requests)
    && AccessWasApproved(s.log, s.db.access)
    && FlightsOk(s.flights, cfg)
    && RetriesBounded(s.db.requests, cfg.maxRetries)
    && OneTokenEach(s.db.tokens)
  }

  // ------------------------------------------------------------------ the steps keep it

  lemma ReadKeeps(s: Sys, client: nat, work: seq<nat>, ids: nat -> nat, now: int, cfg: Config)
    requires Inv(s, cfg)
    ensures Inv(DoRead(s, client, work, ids, now, cfg), cfg)
  {
    PlanRowsFit(s.db.requests, client, work, ids, now, cfg);
    var plan := PlanFor(s.db.requests, client, work, ids, now, cfg);
    if plan.Plan? {
      assert forall k :: 0 <= k < |plan.rows| ==> RowFits(plan.rows[k], client, work, cfg);
    }
  }

  /** One row written: a new round, which no decision has reached. */
  lemma RowKeeps(db: Db, rounds: map<Pair, nat>, log: seq<Decision>, row: Row, cfg: Config)
    requires LogOk(log, rounds) && PendingUndecided(log, rounds, db.requests)
    requires RetriesBounded(db.requests, cfg.maxRetries) && OneTokenEach(db.tokens)
    requires RowOk(row, cfg) && !Collides(db.tokens, row)
    ensures var t := Upsert(db, row); var next := rounds[row.pair := RoundOf(rounds, row.pair) + 1];
      && LogOk(log, next) && PendingUndecided(log, next, t.requests)
      && RetriesBounded(t.requests, cfg.maxRetries) && OneTokenEach(t.tokens) && t.access == db.access
  {
  }

  lemma {:induction false} RowsKeep(db: Db, rounds: map<Pair, nat>, log: seq<Decision>, rows: seq<Row>, cfg: Config)
    requires LogOk(log, rounds) && PendingUndecided(log, rounds, db.requests)
    requires RetriesBounded(db.requests, cfg.maxRetries) && OneTokenEach(db.tokens)
    requires forall k :: 0 <= k < |rows| ==> RowOk(rows[k], cfg)
    ensures WriteRows(db, rows).Some? ==>
      var t := WriteRows(db, rows).value; var next := NextRounds(rounds, rows);
      && LogOk(log, next) && PendingUndecided(log, next, t.requests)
      && RetriesBounded(t.requests, cfg.maxRetries) && OneTokenEach(t.tokens) && t.access == db.access
    decreases |rows|
  {
    if rows != [] && !Collides(db.tokens, rows[0]) {
      RowKeeps(db, rounds, log, rows[0], cfg);
      RowsKeep(Upsert(db, rows[0]), rounds[rows[0].pair := RoundOf(rounds, rows[0].pair) + 1], log, rows[1..], cfg);
    }
  }

  lemma WriteKeeps(s: Sys, i: nat, cfg: Config)
    requires Inv(s, cfg)
    ensures Inv(DoWrite(s, i), cfg)
  {
    if i < |s.flights| {
      RowsKeep(s.db, s.rounds, s.log, s.flights[i], cfg);
    }
  }

  lemma ApprovedStays(log: seq<Decision>, d: Decision, access: set<Pair>)
    requires AccessWasApproved(log, access)
    ensures AccessWasApproved(log + [d], access)
    ensures d.approved ==> AccessWasApproved(log + [d], access + {d.pair})
  {
    var more := log + [d];
    forall p | p in access
      ensures WasApproved(more, p)
    {
      assert WasApproved(log, p);
      var i :| 0 <= i < |log| && log[i].pair == p && log[i].approved;
      assert more[i].pair == p && more[i].approved;
    }
    assert more[|log|] == d;
  }

  lemma DecideKeeps(s: Sys, p: Pair, consume: Option<nat>, approve: bool, cfg: Config)
    requires Inv(s, cfg)
    ensures Inv(DoDecide(s, p, consume, approve), cfg)
  {
    ApprovedStays(s.log, Decision(p, RoundOf(s.rounds, p), approve), s.db.access);
  }

  lemma DoKeeps(s: Sys, e: Step, cfg: Config)
    requires Inv(s, cfg)
    ensures Inv(Do(s, e, cfg), cfg)
  {
    match e
    case ReadRequests(client, work, ids, now) => ReadKeeps(s, client, work, ids, now, cfg);
    case Write(i) => WriteKeeps(s, i, cfg);
    case Approve(p, consume) => DecideKeeps(s, p, consume, true, cfg);
    case Reject(p, consume) => DecideKeeps(s, p, consume, false, cfg);
    case Revoke(p) =>
    case Mark(p, status) =>
    case DropToken(id) =>
    case DropAccess(pairs) =>
  }

  lemma {:induction false} RunKeeps(s: Sys, es: seq<Step>, cfg: Config)
    requires Inv(s, cfg)
    ensures Inv(Run(s, es, cfg), cfg)
    decreases |es|
  {
    if es != [] {
      DoKeeps(s, es[0], cfg);
      RunKeeps(Do(s, es[0], cfg), es[1..], cfg);
    }
  }

  // --------------------------------------------------------------------- the results

  /**
   Single winner. In every interleaving two decisions on one pair belong to different rounds:
   each time a request is set to pending it is approved or rejected at most once.
   */
  lemma EachRoundDecidedOnce(es: seq<Step>, cfg: Config, i: nat, j: nat)
    ensures var log := Run(Start(), es, cfg).log;
      i < j < |log| && log[i].pair == log[j].pair ==> log[i].round < log[j].round
  {
    RunKeeps(Start(), es, cfg);
  }

  /** The retry count never passes a positive maximum, stale reads included. */
  lemma RetryBoundHolds(es: seq<Step>, cfg: Config, p: Pair)
    ensures var db := Run(Start(), es, cfg).db;
      cfg.maxRetries > 0 && p in db.requests ==> db.requests[p].retryCount <= cfg.maxRetries
  {
    RunKeeps(Start(), es, cfg);
  }

  /** Nobody holds access to an agent without an approval of that pair, and links never double. */
  lemma AccessOnlyByApproval(es: seq<Step>, cfg: Config, p: Pair)
    ensures var s := Run(Start(), es, cfg);
      (p in s.db.access ==> WasApproved(s.log, p)) && OneTokenEach(s.db.tokens)
  {
    RunKeeps(Start(), es, cfg);
  }
}
