/** The bounded negotiation between the domain expert and the data layer. */
module Planning {
  import opened Options
  import opened Contracts

  const MAX_NEGOTIATION_ROUNDS: nat := 5
  const MAX_UNCHANGED_ROUNDS: nat := 2

  // --- the two parties, as arbitrary functions --------------------------------

  /** The part of a capability assessment the planner itself reads. */
  datatype Evidence = Evidence(unsupported: seq<string>, unnecessary: seq<string>)

  /**
   What a revision leaves behind. `SameObject`: the proposal was changed in place and handed back.
   `AnotherObject`: something else came back, and the proposal may have been changed too.
   */
  datatype Reply = SameObject(plan: Plan) | AnotherObject(proposal: Plan, revised: Plan)

  function ProposalAfter(r: Reply): Plan { if r.SameObject? then r.plan else r.proposal }

  function Revised(r: Reply): Plan { if r.SameObject? then r.plan else r.revised }

  /** One conversation: who opens with what, and how each side answers in each round. */
  datatype Talk = Talk(hypothesis: Plan, expert: (Plan, Evidence, nat) -> Reply, dataLayer: (Plan, nat) -> Evidence)

  // --- reading the expert's mind ----------------------------------------------

  /** An empty request for input on an answerable plan. */
  predicate AsksNothing(p: Plan) {
    p.decision == States(NeedsUserInput) && p.openQuestions == [] && p.answerable
  }

  /** What `_decision_of` returns. */
  function DecisionIn(p: Plan): Option<Decision> {
    if p.decision == States(NeedsUserInput) && p.openQuestions == [] then
      Some(if p.answerable then Agreed else Unsupported)
    else if p.decision.States? then Some(p.decision.decision)
    else if !p.answerable then Some(Unsupported)
    else if p.openQuestions != [] then None
    else if !p.isHypothesis then Some(Agreed)
    else None
  }

  /** What `_decision_of` leaves in the requirement. */
  function Settled(p: Plan): Plan {
    if AsksNothing(p) then p.(warnings := p.warnings + [AskedNothing], decision := States(Agreed)) else p
  }

  method DecisionOf(requirement: Requirement) returns (decision: Option<Decision>)
    modifies requirement
    ensures decision == DecisionIn(old(requirement.plan))
    ensures requirement.plan == Settled(old(requirement.plan))
  {
    var stated := requirement.plan.decision;
    if stated == States(NeedsUserInput) && requirement.plan.openQuestions == [] {
      if requirement.plan.answerable {
        requirement.Warn(AskedNothing);
        requirement.plan := requirement.plan.(decision := States(Agreed));
        return Some(Agreed);
      }
      return Some(Unsupported);
    }
    if stated.States? {
      return Some(stated.decision);
    }
    if !requirement.plan.answerable {
      return Some(Unsupported);
    }
    if requirement.plan.openQuestions != [] {
      return None;
    }
    return if !requirement.plan.isHypothesis then Some(Agreed) else None;
  }

  // --- what an exchange changed -----------------------------------------------

  /** `[x for x in xs if x not in ys]` */
  function Minus(xs: seq<string>, ys: seq<string>): seq<string> {
    if xs == [] then [] else (if xs[0] in ys then [] else [xs[0]]) + Minus(xs[1..], ys)
  }

  function When(condition: bool, change: Change): seq<Change> { if condition then [change] else [] }

  /** The seven parts of a plan whose changes are reported. */
  datatype Reported = Reported(fields: seq<string>, rows: Option<int>, calculation: Option<string>, curveFamily: string,
                               temporal: TemporalScope, openQuestions: seq<string>, isHypothesis: bool)

  function ReportedParts(p: Plan): Reported {
    Reported(p.fields, p.rows, p.calculation, p.curveFamily, p.temporal, p.openQuestions, p.isHypothesis)
  }

  function Diff(before: Reported, after: Reported, seen: Evidence): seq<Change> {
    var dropped := Minus(before.fields, after.fields);
    var added := Minus(after.fields, before.fields);
    var resolved := Minus(before.openQuestions, after.openQuestions);
    When(dropped != [], FieldsDropped(dropped, OnEvidence(dropped, seen)))
    + When(added != [], FieldsAdded(added))
    + When(before.rows != after.rows, RowWindow(before.rows, after.rows))
    + When(before.calculation != after.calculation, CalculationChanged(before.calculation, after.calculation))
    + When(before.curveFamily != after.curveFamily, CurveFamilyChanged(before.curveFamily, after.curveFamily))
    + When(before.temporal != after.temporal, PeriodChanged(before.temporal, after.temporal))
    + When(resolved != [], QuestionsResolved(|resolved|))
    + When(before.isHypothesis && !after.isHypothesis, HypothesisPromoted)
  }

  predicate OnEvidence(dropped: seq<string>, seen: Evidence) {
    exists i | 0 <= i < |dropped| :: dropped[i] in seen.unsupported || dropped[i] in seen.unnecessary
  }

  function DescribeChanges(before: Plan, after: Plan, seen: Evidence): seq<Change> {
    Diff(ReportedParts(before), ReportedParts(after), seen)
  }

  // --- the conversation without its counters ----------------------------------

  /** One exchange: the plan on the table, what the data layer said of it, what the expert made of that. */
  datatype Round = Round(standing: Plan, evidence: Evidence, reply: Reply,
                         decision: Option<Decision>, changes: seq<Change>, after: Plan)

  /** The decision, the changes and the plan left behind are read off the reply. */
  predicate ReadOff(r: Round) {
    && r.decision == DecisionIn(Revised(r.reply))
    && r.changes == DescribeChanges(ProposalAfter(r.reply), Revised(r.reply), r.evidence)
    && r.after == Settled(Revised(r.reply))
  }

  /** The round reached no decision and changed nothing. */
  predicate Quiet(r: Round) { r.decision.None? && r.changes == [] }

  /** The plan on the table after the rounds so far. */
  function PlanAfter(hypothesis: Plan, trail: seq<Round>): Plan {
    if trail == [] then hypothesis else trail[|trail| - 1].after
  }

  /** Round `r`, the `k`th, is played by the parties of `t`. */
  ghost predicate Played(t: Talk, k: nat, r: Round) {
    && r.evidence == t.dataLayer(r.standing, k)
    && r.reply == t.expert(r.standing, r.evidence, k)
    && ReadOff(r)
  }

  /** Each round starts from what the one before left. */
  ghost predicate Follows(t: Talk, trail: seq<Round>) {
    forall i | 0 <= i < |trail| :: Linked(t, trail, i)
  }

  ghost predicate Linked(t: Talk, trail: seq<Round>, i: nat)
    requires i < |trail|
  {
    Played(t, i + 1, trail[i]) && trail[i].standing == if i == 0 then t.hypothesis else trail[i - 1].after
  }

  /** A reason to stop after round `i`, counted from 0. */
  predicate Stops(trail: seq<Round>, i: nat)
    requires i < |trail|
  {
    trail[i].decision.Some? || (i > 0 && Quiet(trail[i - 1]) && Quiet(trail[i]))
  }

  /** The conversation went on until its first reason to stop, and no longer than five rounds. */
  ghost predicate Complete(trail: seq<Round>) {
    && 1 <= |trail| <= MAX_NEGOTIATION_ROUNDS
    && (forall i | 0 <= i < |trail| - 1 :: !Stops(trail, i))
    && (Stops(trail, |trail| - 1) || |trail| == MAX_NEGOTIATION_ROUNDS)
  }

  function OutcomeOf(trail: seq<Round>): Outcome
    requires trail != []
  {
    var last := trail[|trail| - 1];
    if last.decision.Some? then Decided(last.decision.value, |trail|)
    else if Stops(trail, |trail| - 1) then Stalled(|trail|)
    else RanOut
  }

  function FinalDecisionOf(trail: seq<Round>): Decision
    requires trail != []
  {
    var last := trail[|trail| - 1];
    if last.decision.Some? then last.decision.value else CannotReachAgreement
  }

  /** The plan returned: an undecided end is recorded in it. */
  function FinalPlan(trail: seq<Round>): Plan
    requires trail != []
  {
    var last := trail[|trail| - 1];
    if last.decision.Some? then last.after
    else last.after.(warnings := last.after.warnings + [NegotiationEnded(OutcomeOf(trail))])
  }

  function TurnsOf(trail: seq<Round>): seq<Turn> {
    if trail == [] then [Turn(0, DomainExpert, InitialHypothesis, [])]
    else
      var k := |trail|;
      var r := trail[k - 1];
      TurnsOf(trail[..k - 1]) + TurnsOfRound(k, r)
  }

  function TurnsOfRound(k: nat, r: Round): seq<Turn> {
    [Turn(k, McpAgent, if k == 1 then CapabilityAssessment else Validation, []),
     Turn(k, DomainExpert, if r.decision.Some? then FinalDecision else Revision, r.changes)]
  }

  /** What the data layer is asked, round by round. */
  function RequestsOf(trail: seq<Round>): (requests: seq<CapabilityRequest>)
    ensures |requests| == |trail|
    ensures forall i | 0 <= i < |trail| :: requests[i] == AsCapabilityRequest(trail[i].standing)
  {
    seq(|trail|, i requires 0 <= i < |trail| => AsCapabilityRequest(trail[i].standing))
  }

  // --- the conversation as it runs --------------------------------------------

  /** The data layer's side: it answers from an arbitrary function and the calls are recorded. */
  class DataLayerPort {
    const answers: (Plan, nat) -> Evidence
    var catalogueReads: nat
    var requests: seq<CapabilityRequest>

    constructor (answers: (Plan, nat) -> Evidence)
      ensures this.answers == answers && catalogueReads == 0 && requests == []
    {
      this.answers := answers;
      catalogueReads, requests := 0, [];
    }

    method Catalogue()
      modifies this`catalogueReads
      ensures catalogueReads == old(catalogueReads) + 1
    {
      catalogueReads := catalogueReads + 1;
    }

    method Assess(requirement: Requirement, round: nat) returns (evidence: Evidence)
      modifies this`requests
      ensures evidence == answers(requirement.plan, round)
      ensures requests == old(requests) + [AsCapabilityRequest(requirement.plan)]
    {
      evidence := answers(requirement.plan, round);
      requests := requests + [AsCapabilityRequest(requirement.plan)];
    }
  }

  /** `expert.revise`, on the objects themselves. */
  method Revise(proposal: Requirement, reply: Reply) returns (revised: Requirement)
    modifies proposal
    ensures reply.SameObject? ==> revised == proposal
    ensures reply.AnotherObject? ==> fresh(revised)
    ensures proposal.plan == ProposalAfter(reply) && revised.plan == Revised(reply)
  {
    proposal.plan := ProposalAfter(reply);
    if reply.SameObject? {
      revised := proposal;
    } else {
      revised := new Requirement(reply.revised);
    }
  }

  /** Deciding first cannot hide a change: the diff does not read what `_decision_of` writes. */
  lemma SettlingReportsNothing(p: Plan)
    ensures ReportedParts(Settled(p)) == ReportedParts(p)
  {
  }

  /** One round: assess, revise, decide, compare. */
  method PlayRound(t: Talk, round: nat, requirement: Requirement, negotiation: Negotiation, port: DataLayerPort)
    returns (revised: Requirement, decision: Option<Decision>, changes: seq<Change>, ghost played: Round)
    requires port.answers == t.dataLayer
    modifies requirement, negotiation`turns, port`requests
    ensures Played(t, round, played) && played.standing == old(requirement.plan)
    ensures revised == requirement || fresh(revised)
    ensures revised.plan == played.after && decision == played.decision && changes == played.changes
    ensures negotiation.turns == old(negotiation.turns) + TurnsOfRound(round, played)
    ensures port.requests == old(port.requests) + [AsCapabilityRequest(played.standing)]
  {
    var phase := if round == 1 then CapabilityAssessment else Validation;
    ghost var standing := requirement.plan;
    var evidence := port.Assess(requirement, round);
    negotiation.Say(round, McpAgent, phase, []);
    var reply := t.expert(requirement.plan, evidence, round);
    revised := Revise(requirement, reply);
    decision := DecisionOf(revised);
    changes := DescribeChanges(requirement.plan, revised.plan, evidence);
    SettlingReportsNothing(ProposalAfter(reply));
    SettlingReportsNothing(Revised(reply));
    negotiation.Say(round, DomainExpert, if decision.Some? then FinalDecision else Revision, changes);
    played := Round(standing, evidence, reply, decision, changes, revised.plan);
  }

  lemma {:induction false} FollowsExtends(t: Talk, trail: seq<Round>, r: Round)
    requires Follows(t, trail) && Played(t, |trail| + 1, r) && r.standing == PlanAfter(t.hypothesis, trail)
    ensures Follows(t, trail + [r])
  {
    forall i | 0 <= i <= |trail| ensures Linked(t, trail + [r], i) {
      if i < |trail| {
        assert Linked(t, trail, i);
      }
    }
  }

  lemma {:induction false} TurnsExtend(trail: seq<Round>, r: Round)
    ensures TurnsOf(trail + [r]) == TurnsOf(trail) + TurnsOfRound(|trail| + 1, r)
  {
    var more := trail + [r];
    assert more[..|more| - 1] == trail;
    assert more[|more| - 1] == r;
  }

  lemma {:induction false} RequestsExtend(trail: seq<Round>, r: Round)
    ensures RequestsOf(trail + [r]) == RequestsOf(trail) + [AsCapabilityRequest(r.standing)]
  {
    var left, right := RequestsOf(trail + [r]), RequestsOf(trail) + [AsCapabilityRequest(r.standing)];
    forall i | 0 <= i <= |trail| ensures left[i] == right[i] {
      assert (trail + [r])[i] == if i < |trail| then trail[i] else r;
    }
  }

  lemma StopsExtend(trail: seq<Round>, r: Round)
    ensures forall i | 0 <= i < |trail| :: Stops(trail + [r], i) == Stops(trail, i)
  {
  }

  /** The record of the conversation so far. */
  ghost predicate Recorded(t: Talk, trail: seq<Round>, plan: Plan, turns: seq<Turn>,
                           before: seq<CapabilityRequest>, requests: seq<CapabilityRequest>) {
    && Follows(t, trail) && plan == PlanAfter(t.hypothesis, trail)
    && turns == TurnsOf(trail) && requests == before + RequestsOf(trail)
  }

  lemma {:induction false} RecordExtends(t: Talk, trail: seq<Round>, r: Round, turns: seq<Turn>,
                                         before: seq<CapabilityRequest>,
                      requests: seq<CapabilityRequest>)
    requires Recorded(t, trail, r.standing, turns, before, requests) && Played(t, |trail| + 1, r)
    ensures Recorded(t, trail + [r], r.after, turns + TurnsOfRound(|trail| + 1, r), before,
                     requests + [AsCapabilityRequest(r.standing)])
  {
    FollowsExtends(t, trail, r);
    TurnsExtend(trail, r);
    RequestsExtend(trail, r);
  }

  /** How many quiet rounds the conversation ends in, when it has not stopped. */
  function QuietEnd(trail: seq<Round>): nat {
    if trail != [] && Quiet(trail[|trail| - 1]) then 1 else 0
  }

  lemma StopsAtTheEnd(trail: seq<Round>, r: Round)
    ensures Stops(trail + [r], |trail|) <==> r.decision.Some? || (r.changes == [] && QuietEnd(trail) == 1)
    ensures QuietEnd(trail + [r]) == if Quiet(r) then 1 else 0
  {
  }

  method Advance(t: Talk, ghost trail: seq<Round>, requirement: Requirement, negotiation: Negotiation,
                 port: DataLayerPort, ghost before: seq<CapabilityRequest>)
    returns (revised: Requirement, decision: Option<Decision>, changes: seq<Change>, ghost played: Round)
    requires port.answers == t.dataLayer && negotiation.roundsUsed == |trail| + 1
    requires Recorded(t, trail, requirement.plan, negotiation.turns, before, port.requests)
    modifies requirement, negotiation`turns, port`requests
    ensures revised == requirement || fresh(revised)
    ensures decision == played.decision && changes == played.changes
    ensures Recorded(t, trail + [played], revised.plan, negotiation.turns, before, port.requests)
  {
    ghost var turns, requests := negotiation.turns, port.requests;
    revised, decision, changes, played := PlayRound(t, negotiation.roundsUsed, requirement, negotiation, port);
    RecordExtends(t, trail, played, turns, before, requests);
  }

  method Commit(ghost trail: seq<Round>, negotiation: Negotiation, decision: Decision)
    requires trail != [] && trail[|trail| - 1].decision == Some(decision) && negotiation.roundsUsed == |trail|
    modifies negotiation`decision, negotiation`outcome
    ensures FinalPlan(trail) == trail[|trail| - 1].after
    ensures negotiation.decision == FinalDecisionOf(trail) && negotiation.outcome == OutcomeOf(trail)
  {
    negotiation.decision := decision;
    negotiation.outcome := Decided(decision, negotiation.roundsUsed);
  }

  method GiveUp(ghost trail: seq<Round>, requirement: Requirement, negotiation: Negotiation, outcome: Outcome)
    requires trail != [] && trail[|trail| - 1].decision.None? && outcome == OutcomeOf(trail)
    requires requirement.plan == trail[|trail| - 1].after
    modifies requirement, negotiation`decision, negotiation`outcome
    ensures requirement.plan == FinalPlan(trail)
    ensures negotiation.decision == FinalDecisionOf(trail) && negotiation.outcome == OutcomeOf(trail)
  {
    negotiation.decision := CannotReachAgreement;
    negotiation.outcome := outcome;
    requirement.Warn(NegotiationEnded(outcome));
  }

  ghost predicate Undisturbed(trail: seq<Round>) { forall i | 0 <= i < |trail| :: !Stops(trail, i) }

  /** One pass of the loop; `done` when it returns from inside. */
  method PassOnce(t: Talk, ghost trail: seq<Round>, requirement: Requirement, negotiation: Negotiation,
                  port: DataLayerPort, ghost before: seq<CapabilityRequest>, quietRounds: nat)
    returns (revised: Requirement, quietNow: nat, done: bool, ghost longer: seq<Round>)
    requires port.answers == t.dataLayer && negotiation.roundsUsed == |trail| + 1
    requires Recorded(t, trail, requirement.plan, negotiation.turns, before, port.requests)
    requires Undisturbed(trail) && quietRounds == QuietEnd(trail)
    modifies requirement, negotiation`turns, negotiation`decision, negotiation`outcome, port`requests
    ensures revised == requirement || fresh(revised)
    ensures |longer| == |trail| + 1 && longer[..|trail|] == trail
    ensures Follows(t, longer)
    ensures negotiation.turns == TurnsOf(longer) && port.requests == before + RequestsOf(longer)
    ensures done == Stops(longer, |trail|)
    ensures done ==>
              && revised.plan == FinalPlan(longer)
              && negotiation.decision == FinalDecisionOf(longer) && negotiation.outcome == OutcomeOf(longer)
    ensures !done ==> revised.plan == PlanAfter(t.hypothesis, longer) && quietNow == QuietEnd(longer)
    ensures forall i | 0 <= i < |trail| :: !Stops(longer, i)
  {
    var decision, changes;
    ghost var played;
    revised, decision, changes, played := Advance(t, trail, requirement, negotiation, port, before);
    StopsExtend(trail, played);
    StopsAtTheEnd(trail, played);
    longer := trail + [played];
    quietNow, done := 0, true;
    if decision.Some? {
      Commit(longer, negotiation, decision.value);
      return;
    }
    quietNow := if changes == [] then quietRounds + 1 else 0;
    if quietNow >= MAX_UNCHANGED_ROUNDS {
      GiveUp(longer, revised, negotiation, Stalled(negotiation.roundsUsed));
      return;
    }
    done := false;
  }

  method Negotiate(t: Talk, hypothesis: Requirement, port: DataLayerPort)
    returns (requirement: Requirement, negotiation: Negotiation, ghost trail: seq<Round>)
    requires hypothesis.plan == t.hypothesis && port.answers == t.dataLayer
    modifies hypothesis, port`requests
    ensures requirement == hypothesis || fresh(requirement)
    ensures Follows(t, trail) && Complete(trail)
    ensures negotiation.held && negotiation.roundsUsed == |trail|
    ensures requirement.plan == FinalPlan(trail)
    ensures negotiation.decision == FinalDecisionOf(trail) && negotiation.outcome == OutcomeOf(trail)
    ensures negotiation.turns == TurnsOf(trail)
    ensures port.requests == old(port.requests) + RequestsOf(trail)
  {
    negotiation := new Negotiation(true);
    requirement := hypothesis;
    trail := [];
    negotiation.Say(0, DomainExpert, InitialHypothesis, []);
    var quietRounds := 0;
    for round := 1 to MAX_NEGOTIATION_ROUNDS + 1
      invariant |trail| == round - 1 && negotiation.roundsUsed == round - 1
      invariant requirement == hypothesis || fresh(requirement)
      invariant fresh(negotiation) && negotiation.held
      invariant Recorded(t, trail, requirement.plan, negotiation.turns, old(port.requests), port.requests)
      invariant Undisturbed(trail) && quietRounds == QuietEnd(trail)
    {
      negotiation.roundsUsed := round;
      var done;
      requirement, quietRounds, done, trail :=
        PassOnce(t, trail, requirement, negotiation, port, old(port.requests), quietRounds);
      if done {
        return;
      }
    }
    assert !Stops(trail, |trail| - 1);
    GiveUp(trail, requirement, negotiation, RanOut);
  }

  /** `DataPlanner.plan`, from the hypothesis on. */
  method MakePlan(t: Talk, hypothesis: Requirement, port: DataLayerPort)
    returns (requirement: Requirement, negotiation: Negotiation, ghost trail: seq<Round>)
    requires hypothesis.plan == t.hypothesis && port.answers == t.dataLayer
    requires port.catalogueReads == 0 && port.requests == []
    modifies hypothesis, port
    ensures negotiation.held == t.hypothesis.answerable && negotiation.roundsUsed == |trail|
    ensures !negotiation.held ==>
              && trail == [] && requirement == hypothesis && requirement.plan == t.hypothesis
              && negotiation.decision == Unsupported && negotiation.turns == []
              && negotiation.outcome == NotHeld(t.hypothesis.blockedBy)
    ensures negotiation.held ==>
              && Follows(t, trail) && Complete(trail)
              && requirement.plan == FinalPlan(trail)
              && negotiation.decision == FinalDecisionOf(trail) && negotiation.outcome == OutcomeOf(trail)
              && negotiation.turns == TurnsOf(trail)
    ensures port.requests == RequestsOf(trail)
    ensures port.catalogueReads + |port.requests| == 1 + negotiation.roundsUsed <= 1 + MAX_NEGOTIATION_ROUNDS
  {
    port.Catalogue();
    if !hypothesis.plan.answerable {
      requirement, trail := hypothesis, [];
      negotiation := new Negotiation(false);
      negotiation.decision := Unsupported;
      negotiation.outcome := NotHeld(hypothesis.plan.blockedBy);
    } else {
      requirement, negotiation, trail := Negotiate(t, hypothesis, port);
    }
  }
}
