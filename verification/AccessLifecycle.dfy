/**
 The client-to-agent access lifecycle: requests, approval tokens and access rows, and every
 service call that moves them (client_agent_access_request.service.ts,
 client_agent_access_decision.service.ts, the approval transactions, the pending-request writer
 and the expiry sweep). A request is named by its (client, agent) pair: the pair is unique in
 the table and the upsert never changes a row's id.

 Each write of the source is one function on the database; a service call composes them.
 Client, agent and ownership lookups become flags, and every clock reading is a parameter.
 */
module AccessLifecycle {
  import opened Options

  datatype Status = Pending | Approved | Rejected | Expired | Revoked

  datatype Pair = Pair(client: nat, agent: nat)

  datatype Request = Request(status: Status, requestedAt: int, retryCount: nat)

  datatype Token = Token(pair: Pair, expiresAt: int)

  datatype Db = Db(requests: map<Pair, Request>, tokens: map<nat, Token>, access: set<Pair>)

  /** Debounce window and token lifetime in milliseconds; `maxRetries` 0 means no bound. */
  datatype Config = Config(debounce: int, maxRetries: nat, ttl: int)

  /** A request and its new approval token, ready to be written. */
  datatype Row = Row(pair: Pair, request: Request, tokenId: nat, expiresAt: int)

  // ------------------------------------------------------------------ single writes

  predicate IsPending(requests: map<Pair, Request>, p: Pair) {
    p in requests && requests[p].status == Pending
  }

  predicate IsApproved(requests: map<Pair, Request>, p: Pair) {
    p in requests && requests[p].status == Approved
  }

  predicate IsExpired(expiresAt: int, now: int) {
    expiresAt <= now
  }

  function SetStatus(db: Db, p: Pair, status: Status): Db {
    if p in db.requests
    then db.(requests := db.requests[p := db.requests[p].(status := status)])
    else db
  }

  function DeleteToken(db: Db, id: nat): Db {
    db.(tokens := db.tokens - {id})
  }

  function TokensExceptOf(tokens: map<nat, Token>, p: Pair): map<nat, Token> {
    map id | id in tokens && tokens[id].pair != p :: tokens[id]
  }

  /** The token named by the caller, or every token of the request. */
  function Consume(db: Db, p: Pair, consume: Option<nat>): Db {
    match consume
    case Some(id) => DeleteToken(db, id)
    case None => db.(tokens := TokensExceptOf(db.tokens, p))
  }

  /** Compare-and-set on `pending`, then the access row and the token, in one transaction. */
  function ApproveTxn(db: Db, p: Pair, consume: Option<nat>): Db {
    if !IsPending(db.requests, p) then db
    else Consume(SetStatus(db, p, Approved).(access := db.access + {p}), p, consume)
  }

  function RejectTxn(db: Db, p: Pair, consume: Option<nat>): Db {
    if !IsPending(db.requests, p) then db
    else Consume(SetStatus(db, p, Rejected), p, consume)
  }

  function RevokeTxn(db: Db, p: Pair): Db {
    var dropped := db.(access := db.access - {p});
    if IsApproved(db.requests, p) then SetStatus(dropped, p, Revoked) else dropped
  }

  /** One request per pair and one token per request; a foreign token id is a key violation. */
  predicate Collides(tokens: map<nat, Token>, row: Row) {
    row.tokenId in tokens && tokens[row.tokenId].pair != row.pair
  }

  function Upsert(db: Db, row: Row): Db {
    db.(requests := db.requests[row.pair := row.request],
        tokens := TokensExceptOf(db.tokens, row.pair)[row.tokenId := Token(row.pair, row.expiresAt)])
  }

  /** All rows in one transaction, or nothing. */
  function WriteRows(db: Db, rows: seq<Row>): Option<Db>
    decreases |rows|
  {
    if rows == [] then Some(db)
    else if Collides(db.tokens, rows[0]) then None
    else WriteRows(Upsert(db, rows[0]), rows[1..])
  }

  predicate HasRow(rows: seq<Row>, p: Pair) {
    exists k :: 0 <= k < |rows| && rows[k].pair == p
  }

  predicate SameRequest(a: map<Pair, Request>, b: map<Pair, Request>, p: Pair) {
    (p in a <==> p in b) && (p in a ==> a[p] == b[p])
  }

  // ---------------------------------------------------------------- requesting access

  datatype Verdict = Debounced | TooManyRetries | Reopen(request: Request) | Open(request: Request)

  predicate RetryEligible(status: Status) {
    status == Rejected || status == Expired || status == Revoked
  }

  predicate CountsAsRetry(status: Status) {
    status != Pending && (RetryEligible(status) || status == Approved)
  }

  function Classify(requests: map<Pair, Request>, p: Pair, now: int, cfg: Config): Verdict {
    if p !in requests then Open(Request(Pending, now, 0)) else
    var existing := requests[p];
    var elapsed := now - existing.requestedAt;
    if existing.status == Pending && cfg.debounce > 0 && 0 <= elapsed < cfg.debounce then Debounced
    else if CountsAsRetry(existing.status) && cfg.maxRetries > 0 && existing.retryCount >= cfg.maxRetries then
      TooManyRetries
    else
      Reopen(Request(Pending, now,
                     if CountsAsRetry(existing.status) then existing.retryCount + 1 else existing.retryCount))
  }

  /** What the classifying loop has collected, or the agent it stopped at. */
  datatype Plan =
    | Stopped(agent: nat)
    | Plan(rows: seq<Row>, created: seq<nat>, reopened: seq<nat>, debounced: seq<nat>)

  function PlanNext(plan: Plan, verdict: Verdict, p: Pair, tokenId: nat, expiresAt: int): Plan {
    if plan.Stopped? then plan
    else match verdict
    case Debounced => plan.(debounced := plan.debounced + [p.agent])
    case TooManyRetries => Stopped(p.agent)
    case Reopen(r) =>
      plan.(rows := plan.rows + [Row(p, r, tokenId, expiresAt)], reopened := plan.reopened + [p.agent])
    case Open(r) =>
      plan.(rows := plan.rows + [Row(p, r, tokenId, expiresAt)], created := plan.created + [p.agent])
  }

  /** The loop over the agents that still need access; `ids(k)` is the k-th new token id. */
  function PlanFor(requests: map<Pair, Request>, client: nat, work: seq<nat>, ids: nat -> nat, now: int,
                   cfg: Config): Plan
    decreases |work|
  {
    if work == [] then Plan([], [], [], []) else
    var n := |work| - 1;
    var p := Pair(client, work[n]);
    PlanNext(PlanFor(requests, client, work[..n], ids, now, cfg), Classify(requests, p, now, cfg), p, ids(n),
             now + cfg.ttl)
  }

  /** Each value once, at its first occurrence. */
  function Unique(xs: seq<nat>): (r: seq<nat>)
    ensures forall x :: x in r <==> x in xs
    ensures forall i, j :: 0 <= i < j < |r| ==> r[i] != r[j]
    decreases |xs|
  {
    if xs == [] then [] else
    var n := |xs| - 1;
    Unique(xs[..n]) + (if xs[n] in xs[..n] then [] else [xs[n]])
  }

  function WithAccess(access: set<Pair>, client: nat, agents: seq<nat>): (r: seq<nat>)
    ensures forall a :: a in r <==> a in agents && Pair(client, a) in access
    decreases |agents|
  {
    if agents == [] then [] else
    var n := |agents| - 1;
    WithAccess(access, client, agents[..n]) + (if Pair(client, agents[n]) in access then [agents[n]] else [])
  }

  function WithoutAccess(access: set<Pair>, client: nat, agents: seq<nat>): (r: seq<nat>)
    ensures forall a :: a in r <==> a in agents && Pair(client, a) !in access
    decreases |agents|
  {
    if agents == [] then [] else
    var n := |agents| - 1;
    WithoutAccess(access, client, agents[..n]) + (if Pair(client, agents[n]) in access then [] else [agents[n]])
  }

  datatype Answer =
    | Refused
    | RetryLimit(agent: nat)
    | WriteFailed
    | Listed(requested: seq<nat>, already: seq<nat>, created: seq<nat>, reopened: seq<nat>, debounced: seq<nat>)

  function AgentsOf(rows: seq<Row>): (r: seq<nat>)
    ensures |r| == |rows| && forall k :: 0 <= k < |r| ==> r[k] == rows[k].pair.agent
  {
    if rows == [] then [] else AgentsOf(rows[..|rows| - 1]) + [rows[|rows| - 1].pair.agent]
  }

  /** The database and the answer after `requestAccess`. */
  function RequestAccess(db: Db, client: nat, agents: seq<nat>, known: bool, owned: bool, ids: nat -> nat,
                         now: int, cfg: Config): (Db, Answer) {
    if !known then (db, Refused) else
    var unique := Unique(agents);
    var already := WithAccess(db.access, client, unique);
    var work := WithoutAccess(db.access, client, unique);
    if work == [] then (db, Listed([], already, [], [], []))
    else if !owned then (db, Refused)
    else
      var plan := PlanFor(db.requests, client, work, ids, now, cfg);
      if plan.Stopped? then (db, RetryLimit(plan.agent))
      else
        var written := WriteRows(db, plan.rows);
        if written.None? then (db, WriteFailed)
        else (written.value, Listed(AgentsOf(plan.rows), already, plan.created, plan.reopened, plan.debounced))
  }

  /** `retryRequestByClient`: approved with access is answered at once, the rest asks again. */
  function RetryByClient(db: Db, client: nat, p: Pair, known: bool, owned: bool, ids: nat -> nat, now: int,
                         cfg: Config): (Db, Answer) {
    if p !in db.requests || p.client != client then (db, Refused)
    else if IsApproved(db.requests, p) && p in db.access then (db, Listed([], [p.agent], [], [], []))
    else RequestAccess(db, client, [p.agent], known, owned, ids, now, cfg)
  }

  predicate Names(client: nat, agents: seq<nat>, p: Pair) {
    p.client == client && p.agent in agents
  }

  /** The listed requests that were approved when they were read become revoked. */
  function RemoveStatuses(requests: map<Pair, Request>, seen: map<Pair, Request>, client: nat, agents: seq<nat>)
    : map<Pair, Request>
  {
    map p | p in requests ::
      if Names(client, agents, p) && IsApproved(seen, p) then requests[p].(status := Revoked) else requests[p]
  }

  /** The writes of `removeApprovedAccess` after it has read the requests as `seen`. */
  function RemoveAfter(db: Db, seen: map<Pair, Request>, client: nat, agents: seq<nat>): Db {
    Db(RemoveStatuses(db.requests, seen, client, agents),
       db.tokens,
       set p | p in db.access && !Names(client, agents, p))
  }

  function RemoveByClient(db: Db, client: nat, agents: seq<nat>): Db {
    RemoveAfter(db, db.requests, client, agents)
  }

  // ------------------------------------------------------------------------ deciding

  datatype Outcome = Done | InvalidToken | RequestMissing | NotOwner | LinkExpired | AlreadyProcessed | Ineligible

  /** What a token link leads to, from what the call has read. */
  datatype LinkPlan =
    | NoToken
    | Orphan
    | Expire(pair: Pair)
    | Stale
    | Decide(pair: Pair)

  function ReadLink(db: Db, id: nat, now: int): LinkPlan {
    if id !in db.tokens then NoToken else
    var p := db.tokens[id].pair;
    if p !in db.requests then Orphan
    else if IsExpired(db.tokens[id].expiresAt, now) then Expire(p)
    else if db.requests[p].status != Pending then Stale
    else Decide(p)
  }

  /** The writes that follow; `able` stands for the grant checks and a transaction that commits. */
  function FollowLink(db: Db, id: nat, plan: LinkPlan, able: bool, approve: bool): (Db, Outcome) {
    match plan
    case NoToken => (db, InvalidToken)
    case Orphan => (DeleteToken(db, id), RequestMissing)
    case Expire(p) => (DeleteToken(SetStatus(db, p, Expired), id), LinkExpired)
    case Stale => (DeleteToken(db, id), AlreadyProcessed)
    case Decide(p) =>
      if !able then (db, Ineligible)
      else if approve then
        if IsPending(db.requests, p) then (ApproveTxn(db, p, Some(id)), Done) else (db, AlreadyProcessed)
      else
        if IsPending(db.requests, p) then (RejectTxn(db, p, Some(id)), Done)
        else (DeleteToken(db, id), AlreadyProcessed)
  }

  function DecideByToken(db: Db, id: nat, now: int, able: bool, approve: bool): (Db, Outcome) {
    FollowLink(db, id, ReadLink(db, id, now), able, approve)
  }

  function DecideByOwner(db: Db, p: Pair, owner: bool, able: bool, approve: bool): (Db, Outcome) {
    if p !in db.requests then (db, RequestMissing)
    else if !owner then (db, NotOwner)
    else if !IsPending(db.requests, p) then (db, AlreadyProcessed)
    else if !able then (db, Ineligible)
    else (if approve then ApproveTxn(db, p, None) else RejectTxn(db, p, None), Done)
  }

  /** A status poll persists the expiry of a pending request and keeps its token. */
  function Poll(db: Db, id: nat, now: int): Db {
    match ReadLink(db, id, now)
    case Expire(p) => if IsPending(db.requests, p) then SetStatus(db, p, Expired) else db
    case _ => db
  }

  // ------------------------------------------------------------------------ sweeping

  function PairsOf(tokens: map<nat, Token>, ids: set<nat>): set<Pair> {
    set id | id in ids && id in tokens :: tokens[id].pair
  }

  /** Tokens past the cutoff whose request is still pending, and all tokens past the cutoff. */
  function Candidates(db: Db, cutoff: int): set<nat> {
    set id | id in db.tokens && db.tokens[id].expiresAt < cutoff && IsPending(db.requests, db.tokens[id].pair)
  }

  function DueTokens(tokens: map<nat, Token>, cutoff: int): set<nat> {
    set id | id in tokens && tokens[id].expiresAt < cutoff
  }

  /** One sweep transaction: the requests of these tokens expire, the tokens go. */
  function ExpireBatch(db: Db, batch: set<nat>): Db {
    var pairs := PairsOf(db.tokens, batch);
    Db(map p | p in db.requests :: if p in pairs then db.requests[p].(status := Expired) else db.requests[p],
       db.tokens - batch,
       db.access)
  }

  /** The whole sweep at once. */
  function Sweep(db: Db, cutoff: int): Db {
    var pairs := PairsOf(db.tokens, DueTokens(db.tokens, cutoff));
    Db(map p | p in db.requests ::
         if p in pairs && db.requests[p].status == Pending
         then db.requests[p].(status := Expired) else db.requests[p],
       map id | id in db.tokens && db.tokens[id].expiresAt >= cutoff :: db.tokens[id],
       db.access)
  }

  // -------------------------------------------------------------- the machine of calls

  datatype Call =
    | CallRequest(client: nat, agents: seq<nat>, known: bool, owned: bool, ids: nat -> nat, now: int)
    | CallRetry(client: nat, pair: Pair, known: bool, owned: bool, ids: nat -> nat, now: int)
    | CallRemove(client: nat, agents: seq<nat>)
    | CallToken(id: nat, now: int, able: bool, approve: bool)
    | CallOwner(pair: Pair, owner: bool, able: bool, approve: bool)
    | CallPoll(id: nat, now: int)
    | CallRevoke(pair: Pair, owner: bool)
    | CallSweep(cutoff: int)

  function DoCall(db: Db, c: Call, cfg: Config): Db {
    match c
    case CallRequest(client, agents, known, owned, ids, now) =>
      RequestAccess(db, client, agents, known, owned, ids, now, cfg).0
    case CallRetry(client, p, known, owned, ids, now) =>
      RetryByClient(db, client, p, known, owned, ids, now, cfg).0
    case CallRemove(client, agents) => RemoveByClient(db, client, agents)
    case CallToken(id, now, able, approve) => DecideByToken(db, id, now, able, approve).0
    case CallOwner(p, owner, able, approve) => DecideByOwner(db, p, owner, able, approve).0
    case CallPoll(id, now) => Poll(db, id, now)
    case CallRevoke(p, owner) => if owner then RevokeTxn(db, p) else db
    case CallSweep(cutoff) => Sweep(db, cutoff)
  }

  function RunCalls(db: Db, cs: seq<Call>, cfg: Config): Db
    decreases |cs|
  {
    if cs == [] then db else RunCalls(DoCall(db, cs[0], cfg), cs[1..], cfg)
  }

  // ------------------------------------------------------------------- the invariant

  /** An access row exists exactly for the approved requests. */
  ghost predicate AccessAgrees(requests: map<Pair, Request>, access: set<Pair>) {
    forall p :: p in access <==> IsApproved(requests, p)
  }

  ghost predicate HasToken(tokens: map<nat, Token>, p: Pair) {
    exists id :: id in tokens && tokens[id].pair == p
  }

  ghost predicate PendingHaveTokens(requests: map<Pair, Request>, tokens: map<nat, Token>) {
    forall p :: IsPending(requests, p) ==> HasToken(tokens, p)
  }

  ghost predicate OneTokenEach(tokens: map<nat, Token>) {
    forall i, j :: i in tokens && j in tokens && tokens[i].pair == tokens[j].pair ==> i == j
  }

  predicate Undecided(requests: map<Pair, Request>, p: Pair) {
    p in requests && (requests[p].status == Pending || requests[p].status == Expired)
  }

  /** Tokens exist only for pending or expired requests. */
  ghost predicate TokensAreOpen(requests: map<Pair, Request>, tokens: map<nat, Token>) {
    forall id :: id in tokens ==> Undecided(requests, tokens[id].pair)
  }

  ghost predicate RetriesBounded(requests: map<Pair, Request>, maxRetries: nat) {
    maxRetries > 0 ==> forall p :: p in requests ==> requests[p].retryCount <= maxRetries
  }

  ghost predicate Agreement(db: Db, cfg: Config) {
    && AccessAgrees(db.requests, db.access)
    && PendingHaveTokens(db.requests, db.tokens)
    && OneTokenEach(db.tokens)
    && TokensAreOpen(db.requests, db.tokens)
    && RetriesBounded(db.requests, cfg.maxRetries)
  }
}
