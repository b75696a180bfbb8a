/**
 Per-agent single flight (`joinFlight`, `createFlight`, `forget` and `close` in
 agent_snapshot_refresher.ts) as steps between awaits. A flight's promise is its index.

 `cleared` is how many flights existed when the table was last cleared; until the refresher is
 closed it is zero.
 */
module SnapshotFlights {

  datatype Outcome = Success | Offline | RefreshError | PresenceError | Cancelled

  /** Waiting for the coordinator, resolving its outcome, settled, and forgotten. */
  datatype Phase = Waiting | Resolving(outcome: Outcome) | Settled | Forgotten

  datatype Flight = Flight(agent: nat, cache: bool, phase: Phase)

  /** `recent` holds the flight whose result was stored for each agent. */
  datatype Sys = Sys(inFlight: map<nat, nat>, flights: seq<Flight>, completions: set<nat>, recent: map<nat, nat>,
                     closing: bool, cleared: nat)

  datatype Step =
    | Join(agent: nat, cache: bool)
    | WorkDone(f: nat, outcome: Outcome)
    | Resolve(f: nat)
    | Forget(f: nat)
    | RecentExpires(agent: nat)
    | BeginShutdown
    | ClearTable

  function SetFlight(s: Sys, f: nat, flight: Flight): Sys
    requires f < |s.flights|
  {
    s.(flights := s.flights[f := flight])
  }

  /** Join the agent's flight, or open one; a list caller marks it for the recent results. */
  function DoJoin(s: Sys, agent: nat, cache: bool): Sys {
    if agent !in s.inFlight then
      s.(inFlight := s.inFlight[agent := |s.flights|],
         flights := s.flights + [Flight(agent, cache, Waiting)],
         completions := s.completions + {|s.flights|})
    else if cache && s.inFlight[agent] < |s.flights| then
      SetFlight(s, s.inFlight[agent], s.flights[s.inFlight[agent]].(cache := true))
    else s
  }

  function DoWorkDone(s: Sys, f: nat, outcome: Outcome): Sys {
    if f < |s.flights| && s.flights[f].phase.Waiting?
    then SetFlight(s, f, s.flights[f].(phase := Resolving(outcome)))
    else s
  }

  predicate Stores(s: Sys, f: nat)
    requires f < |s.flights| && s.flights[f].phase.Resolving?
  {
    s.flights[f].cache && !s.closing && !s.flights[f].phase.outcome.Cancelled?
    && !s.flights[f].phase.outcome.PresenceError?
  }

  function DoResolve(s: Sys, f: nat): Sys {
    if f >= |s.flights| || !s.flights[f].phase.Resolving? then s else
    var t := SetFlight(s, f, s.flights[f].(phase := Settled));
    if Stores(s, f) then t.(recent := s.recent[s.flights[f].agent := f]) else t
  }

  /** Only the flight that is still the agent's own is taken out. */
  function DoForget(s: Sys, f: nat): Sys {
    if f >= |s.flights| || !s.flights[f].phase.Settled? then s else
    var t := SetFlight(s, f, s.flights[f].(phase := Forgotten)).(completions := s.completions - {f});
    var agent := s.flights[f].agent;
    if agent in s.inFlight && s.inFlight[agent] == f then t.(inFlight := s.inFlight - {agent}) else t
  }

  function Do(s: Sys, e: Step): Sys {
    match e
    case Join(agent, cache) => DoJoin(s, agent, cache)
    case WorkDone(f, outcome) => DoWorkDone(s, f, outcome)
    case Resolve(f) => DoResolve(s, f)
    case Forget(f) => DoForget(s, f)
    case RecentExpires(agent) => s.(recent := s.recent - {agent})
    case BeginShutdown => s.(closing := true, recent := map[])
    case ClearTable => if s.closing then s.(inFlight := map[], cleared := |s.flights|) else s
  }

  function Start(): Sys {
    Sys(map[], [], {}, map[], false, 0)
  }

  function Run(s: Sys, es: seq<Step>): Sys
    decreases |es|
  {
    if es == [] then s else Run(Do(s, es[0]), es[1..])
  }

  // ------------------------------------------------------------------- the invariant

  predicate Open(flights: seq<Flight>, f: nat) {
    f < |flights| && !flights[f].phase.Forgotten?
  }

  /** An entry is an open flight of its agent, opened since the table was last cleared. */
  ghost predicate EntriesOk(inFlight: map<nat, nat>, flights: seq<Flight>, cleared: nat) {
    forall a :: a in inFlight ==>
      cleared <= inFlight[a] && Open(flights, inFlight[a]) && flights[inFlight[a]].agent == a
  }

  /** Every open flight since then is its agent's entry. */
  ghost predicate OpenAreEntries(inFlight: map<nat, nat>, flights: seq<Flight>, cleared: nat) {
    forall f :: cleared <= f && Open(flights, f) ==>
      flights[f].agent in inFlight && inFlight[flights[f].agent] == f
  }

  ghost predicate CompletionsOk(completions: set<nat>, flights: seq<Flight>) {
    forall f :: f in completions <==> Open(flights, f)
  }

  predicate SettledForList(flights: seq<Flight>, f: nat, agent: nat) {
    && f < |flights| && flights[f].agent == agent && flights[f].cache
    && (flights[f].phase.Settled? || flights[f].phase.Forgotten?)
  }

  predicate SameAgent(flights: seq<Flight>, f: nat, g: nat) {
    f < |flights| && g < |flights| && flights[f].agent == flights[g].agent
  }

  /** A stored result belongs to a list-joined flight of that agent that has settled. */
  ghost predicate RecentOk(recent: map<nat, nat>, flights: seq<Flight>) {
    forall a :: a in recent ==> SettledForList(flights, recent[a], a)
  }

  ghost predicate Inv(s: Sys) {
    && EntriesOk(s.inFlight, s.flights, s.cleared)
    && OpenAreEntries(s.inFlight, s.flights, s.cleared)
    && CompletionsOk(s.completions, s.flights)
    && RecentOk(s.recent, s.flights)
    && (s.closing ==> s.recent == map[]) && (s.cleared > 0 ==> s.closing) && s.cleared <= |s.flights|
  }

  /** A new flight is the newest and its agent had none open. */
  lemma OpenKeeps(s: Sys, agent: nat, cache: bool)
    requires Inv(s) && agent !in s.inFlight
    ensures Inv(DoJoin(s, agent, cache))
  {
  }

  lemma MarkKeeps(s: Sys, f: nat)
    requires Inv(s) && f < |s.flights|
    ensures Inv(SetFlight(s, f, s.flights[f].(cache := true)))
  {
  }

  lemma JoinKeeps(s: Sys, agent: nat, cache: bool)
    requires Inv(s)
    ensures Inv(DoJoin(s, agent, cache))
  {
    if agent !in s.inFlight {
      OpenKeeps(s, agent, cache);
    } else if cache {
      MarkKeeps(s, s.inFlight[agent]);
    }
  }

  lemma ForgetKeeps(s: Sys, f: nat)
    requires Inv(s)
    ensures Inv(DoForget(s, f))
  {
    var t := DoForget(s, f);
    assert forall g :: g != f ==> (Open(t.flights, g) <==> Open(s.flights, g));
  }

  lemma WorkDoneKeeps(s: Sys, f: nat, outcome: Outcome)
    requires Inv(s)
    ensures Inv(DoWorkDone(s, f, outcome))
  {
  }

  lemma ResolveKeeps(s: Sys, f: nat)
    requires Inv(s)
    ensures Inv(DoResolve(s, f))
  {
  }

  lemma DoKeeps(s: Sys, e: Step)
    requires Inv(s)
    ensures Inv(Do(s, e))
  {
    match e
    case Join(agent, cache) => JoinKeeps(s, agent, cache);
    case WorkDone(f, outcome) => WorkDoneKeeps(s, f, outcome);
    case Resolve(f) => ResolveKeeps(s, f);
    case Forget(f) => ForgetKeeps(s, f);
    case RecentExpires(agent) =>
    case BeginShutdown =>
    case ClearTable =>
  }

  lemma {:induction false} RunKeeps(s: Sys, es: seq<Step>)
    requires Inv(s)
    ensures Inv(Run(s, es))
    decreases |es|
  {
    if es != [] {
      DoKeeps(s, es[0]);
      RunKeeps(Do(s, es[0]), es[1..]);
    }
  }

  // -------------------------------------------------------------------- the results

  /** Until the table is cleared by closing, an agent has at most one unfinished flight. */
  lemma OneFlightPerAgent(es: seq<Step>, f: nat, g: nat)
    ensures var s := Run(Start(), es);
      s.cleared <= f && s.cleared <= g && Open(s.flights, f) && Open(s.flights, g) && SameAgent(s.flights, f, g) ==>
        f == g
    ensures var s := Run(Start(), es); !s.closing ==> s.cleared == 0
  {
    RunKeeps(Start(), es);
  }

  /** The completions that closing awaits are those of the unfinished flights, all of them. */
  lemma ClosingAwaitsAll(es: seq<Step>, f: nat)
    ensures var s := Run(Start(), es); f in s.completions <==> Open(s.flights, f)
  {
    RunKeeps(Start(), es);
  }

  /** Forgetting one flight never drops another that is still open, even after a clear. */
  lemma ForgetDropsNoOther(es: seq<Step>, f: nat, g: nat)
    ensures var s := Run(Start(), es); var t := Do(s, Forget(f));
      g != f && s.cleared <= g && Open(s.flights, g) ==>
        Open(t.flights, g) && s.flights[g].agent in t.inFlight && t.inFlight[s.flights[g].agent] == g
  {
    RunKeeps(Start(), es);
    var s := Run(Start(), es);
    DoKeeps(s, Forget(f));
    assert g != f && Open(s.flights, g) ==> Open(Do(s, Forget(f)).flights, g);
  }

  /** A caller joins the agent's unfinished flight when there is one, and opens no second. */
  lemma JoinSharesTheFlight(es: seq<Step>, f: nat, cache: bool)
    ensures var s := Run(Start(), es);
      s.cleared <= f && Open(s.flights, f) ==>
        var t := DoJoin(s, s.flights[f].agent, cache);
        |t.flights| == |s.flights| && t.inFlight == s.inFlight && t.inFlight[s.flights[f].agent] == f
        && t.flights[f].cache == (s.flights[f].cache || cache)
  {
    RunKeeps(Start(), es);
  }

  /** The recent results come only from list-joined flights, and there are none while closing. */
  lemma RecentOnlyFromLists(es: seq<Step>, a: nat)
    ensures var s := Run(Start(), es);
      a in s.recent ==> !s.closing && SettledForList(s.flights, s.recent[a], a)
  {
    RunKeeps(Start(), es);
  }

  // ------------------------------------------------------------------ what a step does

  predicate OthersSame(a: seq<Flight>, b: seq<Flight>, f: nat) {
    |a| == |b| && forall g :: 0 <= g < |a| && g != f ==> b[g] == a[g]
  }

  /** The first caller for an agent opens a flight that waits for the coordinator. */
  lemma FirstJoinOpens(s: Sys, agent: nat, cache: bool)
    requires agent !in s.inFlight
    ensures var t := Do(s, Join(agent, cache)); var f := |s.flights|;
      && t.flights == s.flights + [Flight(agent, cache, Waiting)] && t.inFlight == s.inFlight[agent := f]
      && t.completions == s.completions + {f} && t.recent == s.recent && t.closing == s.closing
  {
  }

  /** The coordinator's outcome is resolved as given, for that flight alone. */
  lemma OutcomeIsTaken(s: Sys, f: nat, outcome: Outcome)
    requires f < |s.flights| && s.flights[f].phase.Waiting?
    ensures var t := Do(s, WorkDone(f, outcome));
      && OthersSame(s.flights, t.flights, f) && t.flights[f] == s.flights[f].(phase := Resolving(outcome))
      && t.inFlight == s.inFlight && t.recent == s.recent && t.completions == s.completions
  {
  }

  /** A resolved flight settles; its result is kept exactly if a list joined and no exception holds. */
  lemma ResolveStoresIff(s: Sys, f: nat)
    requires f < |s.flights| && s.flights[f].phase.Resolving?
    ensures var t := Do(s, Resolve(f)); var o := s.flights[f].phase.outcome;
      && OthersSame(s.flights, t.flights, f) && t.flights[f] == s.flights[f].(phase := Settled)
      && t.inFlight == s.inFlight && t.completions == s.completions
      && t.recent == if s.flights[f].cache && !s.closing && o != Cancelled && o != PresenceError
                     then s.recent[s.flights[f].agent := f] else s.recent
  {
  }

  /** A settled flight is forgotten: out of the completions, and the agent's next caller opens a new one. */
  lemma ForgottenIsGone(s: Sys, f: nat, cache: bool)
    requires Inv(s) && f < |s.flights| && s.flights[f].phase.Settled? && s.cleared <= f
    ensures var t := Do(s, Forget(f)); var agent := s.flights[f].agent; var u := Do(t, Join(agent, cache));
      && OthersSame(s.flights, t.flights, f) && t.flights[f].phase == Forgotten && t.completions == s.completions - {f}
      && t.inFlight == s.inFlight - {agent}
      && u.inFlight == t.inFlight[agent := |s.flights|] && |u.flights| == |s.flights| + 1
      && u.flights[|s.flights|] == Flight(agent, cache, Waiting)
  {
  }

  /**
   Closing empties the recent results at once and, when everything has drained, the table; an
   entry of the recent results may also expire by itself.
  */
  lemma ClosingEmpties(s: Sys, agent: nat)
    ensures var t := Do(s, BeginShutdown); var u := Do(t, ClearTable);
      && t.closing && t.recent == map[] && t.inFlight == s.inFlight && t.flights == s.flights
      && u.inFlight == map[] && u.flights == s.flights && u.closing
    ensures Do(s, RecentExpires(agent)) == s.(recent := map a | a in s.recent && a != agent :: s.recent[a])
  {
  }

  // ---------------------------------------------------------------------- the class

  /** The refresher's own fields; promises are indices into `flights`. */
  class Refresher {
    var inFlight: map<nat, nat>
    var flights: seq<Flight>
    var completions: set<nat>
    var recent: map<nat, nat>
    var closing: bool
    ghost var cleared: nat

    ghost function Model(): Sys
      reads this
    {
      Sys(inFlight, flights, completions, recent, closing, cleared)
    }

    constructor ()
      ensures Model() == Start() && Inv(Model())
    {
      inFlight, flights, completions, recent, closing, cleared := map[], [], {}, map[], false, 0;
    }

    method JoinFlight(agent: nat, cache: bool) returns (f: nat)
      requires Inv(Model())
      modifies this
      ensures Inv(Model()) && Model() == DoJoin(old(Model()), agent, cache)
      ensures agent in inFlight && inFlight[agent] == f && Open(flights, f) && flights[f].agent == agent
    {
      JoinKeeps(Model(), agent, cache);
      if agent !in inFlight {
        f := |flights|;
        flights := flights + [Flight(agent, cache, Waiting)];
        completions := completions + {f};
        inFlight := inFlight[agent := f];
      } else {
        f := inFlight[agent];
        if cache { flights := flights[f := flights[f].(cache := true)]; }
      }
    }

    method ForgetFlight(f: nat)
      requires Inv(Model()) && f < |flights| && flights[f].phase.Settled?
      modifies this
      ensures Inv(Model()) && Model() == DoForget(old(Model()), f)
    {
      ForgetKeeps(Model(), f);
      var agent := flights[f].agent;
      flights := flights[f := flights[f].(phase := Forgotten)];
      completions := completions - {f};
      if agent in inFlight && inFlight[agent] == f { inFlight := inFlight - {agent}; }
    }
  }
}
