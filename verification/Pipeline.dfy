/** One user turn, as the orchestrator runs it over its specialists. */
module Pipeline {
  import opened Options
  import opened Contracts
  import P = Planning
  import E = Expert
  import X = ExpertRuns
  import V = Validation
  import G = Preflight
  import C = Clarification

  // --- what the specialists may answer ----------------------------------------

  /** A skill's result; a completed one may still lack its artifact. */
  datatype Result<A> = Completed(artifact: Option<A>) | NeedsInput(asked: string) | Canceled | Failed(kind: string)

  datatype NegotiationRecord = NegotiationRecord(held: bool, decision: Decision, roundsUsed: nat)

  datatype PlanArtifact = PlanArtifact(requirement: Option<Plan>, negotiation: Option<NegotiationRecord>)

  datatype Execution = Execution(calculation: Option<V.Calculation>, curveDate: Option<string>)

  datatype Route = Direct | Clarify | DataRequest

  /** The orchestrator model's reading of a question. */
  datatype Reading = Reading(route: Route, task: string, question: string, options: seq<string>)

  /** Everyone the turn depends on. A `nat` argument is the number of specialist calls already made. */
  datatype World = World(
    classify: (string, bool) -> Reading,
    gate: C.Surroundings,
    desk: E.Desk,
    gateAnswers: nat -> bool,
    choices: nat -> seq<string>,
    derive: nat -> Result<PlanArtifact>,
    execute: nat -> Result<Execution>,
    validatorAnswers: nat -> bool,
    provide: nat -> Result<Execution>,
    parse: string -> Option<real>)

  // --- the calls --------------------------------------------------------------

  datatype Call =
    | CheckCompleteness(question: string, rounds: nat, alreadyClarified: bool)
    | ListDataChoices
    | DeriveRequirement(about: string, task: string, prior: Option<Plan>)
    | ExecutePlan(plan: Plan)
    | ValidateResult(agreed: Plan)
    | ProvideInput

  // --- what the user gets -----------------------------------------------------

  datatype Answer =
    | OrchestratorAnswers
    | AsksUser
    | GateAsks(missing: seq<G.FieldSpec>)
    | RelaysQuestion
    | AccountUnavailable
    | ReasoningFailed
    | NeedsDecision
    | Declined(reason: Option<string>)
    | NoAgreement
    | SpecialistFailed
    | Rejected(mismatches: seq<V.Finding>)
    | Composed
    | Cancelled

  datatype Waiting = Waiting(question: string, task: string, agreedPlan: Option<Plan>)

  datatype AgentOutcome = AgentOutcome(answer: Answer, route: Route, requirement: Option<Plan>,
                                       calculation: Option<V.Calculation>, validation: Option<V.ResultValidation>,
                                       waiting: Option<Waiting>, clarification: Option<C.Pending>)

  function Plain(answer: Answer, route: Route, requirement: Option<Plan>): AgentOutcome {
    AgentOutcome(answer, route, requirement, None, None, None, None)
  }

  // --- where plans come from --------------------------------------------------

  /** The record of a finished negotiation of the real expert. */
  ghost predicate Negotiated(desk: E.Desk, p: Plan, n: NegotiationRecord, c: X.Case, trail: seq<P.Round>) {
    && c.desk == desk && X.Held(c, trail) && p == P.FinalPlan(trail)
    && n == NegotiationRecord(true, P.FinalDecisionOf(trail), |trail|)
  }

  ghost predicate Recorded(desk: E.Desk, p: Plan, n: NegotiationRecord) {
    if n.held then exists c, trail :: Negotiated(desk, p, n, c, trail)
    else n.decision == Unsupported && n.roundsUsed == 0
  }

  /** The artifacts of a derivation are what the planner produced. */
  ghost predicate Genuine(desk: E.Desk, r: Result<PlanArtifact>) {
    r.Completed? && r.artifact.Some? && r.artifact.value.requirement.Some? && r.artifact.value.negotiation.Some? ==>
      Recorded(desk, r.artifact.value.requirement.value, r.artifact.value.negotiation.value)
  }

  ghost predicate Honest(w: World) { forall k: nat :: Genuine(w.desk, w.derive(k)) }

  /** The plan came out of a held negotiation that ended in agreement. */
  ghost predicate AgreedPlan(desk: E.Desk, p: Plan) {
    exists c, trail :: Negotiated(desk, p, NegotiationRecord(true, Agreed, |trail|), c, trail)
  }

  // --- the sequences of calls a turn may make ---------------------------------

  /** From an agreed plan on: its execution, and perhaps the validation of what it returned. */
  ghost predicate RunCalls(desk: E.Desk, made: seq<Call>, p: Plan) {
    AgreedPlan(desk, p) && (made == [ExecutePlan(p)] || made == [ExecutePlan(p), ValidateResult(p)])
  }

  /** A derivation, and the run of the plan it agreed, if it agreed one. */
  ghost predicate DeriveCalls(desk: E.Desk, made: seq<Call>) {
    && made != [] && made[0].DeriveRequirement?
    && (|made| == 1 || exists p :: RunCalls(desk, made[1..], p))
  }

  /** Every turn started from a question. */
  ghost predicate HandleCalls(desk: E.Desk, made: seq<Call>) {
    || made == [] || made == [ListDataChoices]
    || (made[0].CheckCompleteness? && (|made| == 1 || made[1..] == [ListDataChoices] || DeriveCalls(desk, made[1..])))
  }

  /** Every turn started from an answer to a specialist. */
  ghost predicate ResumeCalls(desk: E.Desk, made: seq<Call>) {
    DeriveCalls(desk, made) || (made != [] && made[0] == ProvideInput && HandleCalls(desk, made[1..]))
  }

  const VALIDATED_CALCULATIONS: seq<string> := ["compute_var", "compute_dv01", "run_stress", "price_portfolio"]

  predicate IsValidated(p: Plan) { p.calculation.Some? && p.calculation.value in VALIDATED_CALCULATIONS }

  lemma ValidatedIsNamed(p: Plan)
    requires IsValidated(p)
    ensures Names(p.calculation)
  {
  }

  /** The plan a derivation agreed, if it did. */
  function AgreedBy(r: Result<PlanArtifact>): Option<Plan> {
    if !r.Completed? || r.artifact.None? || r.artifact.value.negotiation.None? then None
    else if r.artifact.value.negotiation.value.held && r.artifact.value.negotiation.value.decision == Agreed then
      r.artifact.value.requirement
    else None
  }

  /** What the derivation's artifacts come to: the plan, and what was decided of it. */
  method ReadDerivation(ghost desk: E.Desk, r: Result<PlanArtifact>, revalidating: bool)
    returns (p: Option<Plan>, decision: Decision)
    requires Genuine(desk, r)
    ensures p == if r.Completed? && r.artifact.Some? then r.artifact.value.requirement else None
    ensures p.Some? && decision == Agreed <==> AgreedBy(r).Some?
    ensures p.Some? && decision == Agreed ==> AgreedBy(r) == p && AgreedPlan(desk, p.value)
    ensures p.Some? ==> decision != NeedsUserInput && decision == RecordOf(r).decision
  {
    p, decision := None, Unsupported;
    if r.Completed? && r.artifact.Some? && r.artifact.value.requirement.Some? {
      p := r.artifact.value.requirement;
      var n := r.artifact.value.negotiation;
      var record := if n.Some? then n.value else NegotiationRecord(true, CannotReachAgreement, 0);
      assert record == RecordOf(r);
      decision := if record.held || revalidating then record.decision else Unsupported;
      GenuineDecision(desk, r, record);
    }
  }

  /** What the user is told of a plan that was not agreed. */
  function Told(decision: Decision, p: Plan): Answer {
    if p.blockedBy == "account" then AccountUnavailable
    else if p.blockedBy == "model" then ReasoningFailed
    else if decision == NeedsUserInput then NeedsDecision
    else if decision == Unsupported then Declined(p.unanswerableReason)
    else NoAgreement
  }

  /** What the user is told of a derivation that agreed nothing. */
  function Explanation(r: Result<PlanArtifact>): Answer {
    if !r.Completed? || r.artifact.None? || r.artifact.value.requirement.None? then SpecialistFailed
    else Told(RecordOf(r).decision, r.artifact.value.requirement.value)
  }

  /** The record of a derivation; a missing one reads as a negotiation that got nowhere. */
  function RecordOf(r: Result<PlanArtifact>): NegotiationRecord
    requires r.Completed? && r.artifact.Some?
  {
    if r.artifact.value.negotiation.Some? then r.artifact.value.negotiation.value
    else NegotiationRecord(true, CannotReachAgreement, 0)
  }

  /** A plan is executed exactly when the derivation agreed one, and it is that plan. */
  ghost predicate RunsWhatWasAgreed(made: seq<Call>, r: Result<PlanArtifact>) {
    && (|made| > 1 <==> AgreedBy(r).Some?)
    && (|made| > 1 ==> made[1] == ExecutePlan(AgreedBy(r).value))
  }

  lemma {:induction false} DeriveThen(desk: E.Desk, first: Call, ran: seq<Call>, r: Result<PlanArtifact>)
    requires first.DeriveRequirement?
    requires if AgreedBy(r).Some? then RunCalls(desk, ran, AgreedBy(r).value) else ran == []
    ensures DeriveCalls(desk, [first] + ran) && RunsWhatWasAgreed([first] + ran, r)
  {
    assert ([first] + ran)[1..] == ran;
  }

  lemma Regrouped(a: seq<Call>, b: seq<Call>, c: seq<Call>)
    ensures a + b + c == a + (b + c)
  {
  }

  lemma {:induction false} CheckThen(desk: E.Desk, first: Call, more: seq<Call>)
    requires first.CheckCompleteness? && (more == [] || more == [ListDataChoices] || DeriveCalls(desk, more))
    ensures HandleCalls(desk, [first] + more)
  {
    assert ([first] + more)[1..] == more;
  }

  /** An outcome from past the gate: it asks nothing of the gate's, the router's or the negotiation's own. */
  predicate AfterTheGate(o: AgentOutcome) {
    o.clarification.None? && !o.answer.NeedsDecision? && !o.answer.GateAsks? && !o.answer.AsksUser?
  }

  class Intent {
    var route: Route
    var task: string
    var question: string
    var options: seq<string>

    constructor (r: Reading)
      ensures route == r.route && task == r.task && question == r.question && options == r.options
    {
      route, task, question, options := r.route, r.task, r.question, r.options;
    }
  }

  /** The turn so far, and the calls it has made. */
  class AgentPipeline {
    const world: World
    var calls: seq<Call>

    constructor (world: World)
      ensures this.world == world && calls == []
    {
      this.world := world;
      calls := [];
    }

    method Ask(call: Call)
      modifies this`calls
      ensures calls == old(calls) + [call]
    {
      calls := calls + [call];
    }

    /** `_validate_result`: only for the calculations worth it, and only if the validator answers. */
    method ValidateOutcome(p: Plan, e: Execution) returns (v: Option<V.ResultValidation>)
      modifies this`calls
      ensures calls == old(calls) + if IsValidated(p) then [ValidateResult(p)] else []
      ensures v.Some? <==> IsValidated(p) && world.validatorAnswers(|old(calls)|)
      ensures v.Some? ==> (V.Blocking(v.value) <==> !V.Honours(p, e.calculation, e.curveDate, world.parse))
    {
      if !IsValidated(p) {
        return None;
      }
      var k := |calls|;
      Ask(ValidateResult(p));
      if !world.validatorAnswers(k) {
        return None;
      }
      var judged := V.ValidateResult(p, e.calculation, e.curveDate, world.parse);
      v := Some(judged);
    }

    /** `_compose` */
    method Compose(p: Plan, e: Execution) returns (o: AgentOutcome)
      modifies this`calls
      ensures calls == old(calls) + if IsValidated(p) then [ValidateResult(p)] else []
      ensures o.requirement == Some(p) && o.clarification.None? && o.waiting.None?
      ensures o.answer.Composed? || o.answer.Rejected?
      ensures o.answer.Composed? ==> o.calculation == e.calculation
      ensures o.answer.Rejected? ==> o.calculation.None?
      ensures IsValidated(p) && world.validatorAnswers(|old(calls)|) ==>
                (o.answer.Composed? <==> V.Honours(p, e.calculation, e.curveDate, world.parse))
      ensures !(IsValidated(p) && world.validatorAnswers(|old(calls)|)) ==> o.answer.Composed?
    {
      var v := ValidateOutcome(p, e);
      if v.Some? && V.Blocking(v.value) {
        return AgentOutcome(Rejected(v.value.mismatches), DataRequest, Some(p), None, v, None, None);
      }
      return AgentOutcome(Composed, DataRequest, Some(p), e.calculation, v, None, None);
    }

    /** `_relay_question` */
    method RelayQuestion(intent: Intent, asked: string, p: Option<Plan>) returns (o: AgentOutcome)
      modifies intent
      ensures intent.route == Clarify && intent.question == asked && intent.task == old(intent.task)
      ensures o.answer == RelaysQuestion && o.route == Clarify
      ensures o.requirement == p && o.calculation.None? && o.validation.None? && o.clarification.None?
      ensures o.waiting == Some(Waiting(if intent.task != "" then intent.task else asked, intent.task, p))
    {
      intent.route := Clarify;
      intent.question := asked;
      o := AgentOutcome(RelaysQuestion, Clarify, p, None, None,
                        Some(Waiting(if intent.task != "" then intent.task else intent.question, intent.task, p)),
                        None);
    }

    /** `_not_agreed` */
    method NotAgreed(decision: Decision, p: Plan) returns (o: AgentOutcome)
      requires decision != Agreed
      ensures o.requirement == Some(p) && o.calculation.None? && o.clarification.None? && o.waiting.None?
      ensures o.answer == Told(decision, p) && (o.route == Clarify <==> o.answer.NeedsDecision?)
    {
      if p.blockedBy == "account" {
        return Plain(AccountUnavailable, DataRequest, Some(p));
      }
      if p.blockedBy == "model" {
        return Plain(ReasoningFailed, DataRequest, Some(p));
      }
      if decision == NeedsUserInput {
        return Plain(NeedsDecision, Clarify, Some(p));
      }
      return Plain(if decision == Unsupported then Declined(p.unanswerableReason) else NoAgreement, DataRequest,
                   Some(p));
    }

    /** A figure is shown only after a run; in a validated calculation only as the validator, if it answered, allows. */
    ghost predicate FigureIsChecked(o: AgentOutcome, made: seq<Call>)
      reads this
    {
      o.answer.Composed? ==>
        && o.requirement.Some? && made != [] && |calls| > 0
        && (IsValidated(o.requirement.value) ==>
              && made[|made| - 1] == ValidateResult(o.requirement.value)
              && (world.validatorAnswers(|calls| - 1) ==>
                    o.calculation.Some? && V.Delivers(o.requirement.value, o.calculation.value, world.parse)))
    }

    /** Composing, with what is known of the figure it shows. */
    method ComposeChecked(p: Plan, e: Execution) returns (o: AgentOutcome, ghost more: seq<Call>)
      requires calls != []
      modifies this`calls
      ensures calls == old(calls) + more && (more == [] || more == [ValidateResult(p)])
      ensures AfterTheGate(o) && o.requirement == Some(p)
      ensures o.answer.Composed? && IsValidated(p) ==>
                && more == [ValidateResult(p)]
                && (world.validatorAnswers(|calls| - 1) ==>
                      o.calculation.Some? && V.Delivers(p, o.calculation.value, world.parse))
    {
      o := Compose(p, e);
      more := if IsValidated(p) then [ValidateResult(p)] else [];
      if IsValidated(p) {
        ValidatedIsNamed(p);
      }
    }

    /** `execute_data_plan` and what follows it, for a plan that was agreed. */
    method RunPlan(intent: Intent, p: Plan) returns (o: AgentOutcome, ghost made: seq<Call>)
      requires AgreedPlan(world.desk, p)
      modifies this`calls, intent
      ensures calls == old(calls) + made && RunCalls(world.desk, made, p)
      ensures AfterTheGate(o) && FigureIsChecked(o, made)
    {
      var k := |calls|;
      Ask(ExecutePlan(p));
      made := [ExecutePlan(p)];
      var execution := world.execute(k);
      if execution.NeedsInput? {
        o := RelayQuestion(intent, execution.asked, Some(p));
      } else if !execution.Completed? {
        o := Plain(SpecialistFailed, DataRequest, Some(p));
      } else {
        ghost var more;
        var e := if execution.artifact.Some? then execution.artifact.value else Execution(None, None);
        o, more := ComposeChecked(p, e);
        Regrouped(old(calls), made, more);
        made := made + more;
      }
    }

    /** After a derivation: run the plan it agreed, or say why there is none. */
    method RunOrDecline(intent: Intent, p: Option<Plan>, decision: Decision)
      returns (o: AgentOutcome, ghost ran: seq<Call>)
      requires p.Some? && decision == Agreed ==> AgreedPlan(world.desk, p.value)
      requires p.Some? ==> decision != NeedsUserInput
      modifies this`calls, intent
      ensures calls == old(calls) + ran
      ensures if p.Some? && decision == Agreed then RunCalls(world.desk, ran, p.value) else ran == []
      ensures AfterTheGate(o) && FigureIsChecked(o, ran)
      ensures ran == [] ==> o.answer == if p.None? then SpecialistFailed else Told(decision, p.value)
    {
      ran := [];
      if p.None? {
        o := Plain(SpecialistFailed, DataRequest, None);
      } else if decision != Agreed {
        o := NotAgreed(decision, p.value);
      } else {
        o, ran := RunPlan(intent, p.value);
      }
    }

    /** A derivation and what follows it; revalidating, an unheld negotiation is taken at its word. */
    method DeriveAndRun(intent: Intent, question: string, task: string, prior: Option<Plan>, revalidating: bool)
      returns (o: AgentOutcome, ghost made: seq<Call>)
      requires Honest(world)
      modifies this`calls, intent
      ensures calls == old(calls) + made && DeriveCalls(world.desk, made)
      ensures made[0] == DeriveRequirement(question, task, prior)
      ensures RunsWhatWasAgreed(made, world.derive(|old(calls)|))
      ensures |made| == 1 ==> o.answer == Explanation(world.derive(|old(calls)|))
      ensures AfterTheGate(o) && FigureIsChecked(o, made)
    {
      var k := |calls|;
      var first := DeriveRequirement(question, task, prior);
      Ask(first);
      var p, decision := ReadDerivation(world.desk, world.derive(k), revalidating);
      if revalidating && p.Some? {
        intent.task := p.value.task;
      }
      ghost var ran;
      o, ran := RunOrDecline(intent, p, decision);
      made := [first] + ran;
      Regrouped(old(calls), [first], ran);
      DeriveThen(world.desk, first, ran, world.derive(k));
    }

    /** `_completeness`: no verdict when the gate does not answer. */
    method Completeness(question: string, rounds: nat, alreadyClarified: bool) returns (v: Option<G.Verdict>)
      modifies this`calls
      ensures calls == old(calls) + [CheckCompleteness(question, rounds, alreadyClarified)]
      ensures v == if world.gateAnswers(|old(calls)|)
                   then Some(G.Assess(world.gate.settings, world.gate.extract, question, rounds, alreadyClarified))
                   else None
    {
      var k := |calls|;
      Ask(CheckCompleteness(question, rounds, alreadyClarified));
      v := if world.gateAnswers(k)
           then Some(G.Assess(world.gate.settings, world.gate.extract, question, rounds, alreadyClarified))
           else None;
    }

    /** `_clarify_from_gate`: the data layer's choices are read only when the missing field has some. */
    method ClarifyFromGate(question: string, intent: Intent, v: G.Verdict, rounds: nat)
      returns (o: AgentOutcome, ghost made: seq<Call>)
      modifies this`calls, intent
      ensures calls == old(calls) + made && (made == [] || made == [ListDataChoices])
      ensures made == [ListDataChoices] <==> exists i | 0 <= i < |v.missing| :: v.missing[i].optionsFrom == G.Scenarios
      ensures o.answer == GateAsks(v.missing) && o.route == Clarify == intent.route
      ensures o.clarification == Some(C.Pending(question, rounds + 1)) && o.calculation.None?
    {
      made := [];
      if exists i | 0 <= i < |v.missing| :: v.missing[i].optionsFrom == G.Scenarios {
        var k := |calls|;
        Ask(ListDataChoices);
        made := [ListDataChoices];
        intent.options := if world.choices(k) != [] then world.choices(k) else intent.options;
      }
      intent.route := Clarify;
      o := AgentOutcome(GateAsks(v.missing), Clarify, None, None, None, None, Some(C.Pending(question, rounds + 1)));
    }

    /** What the gate leaves pending when it answers; nothing when it does not. */
    function GateLeaves(question: string, rounds: nat, alreadyClarified: bool, answers: bool): Option<C.Pending> {
      if answers && !G.Assess(world.gate.settings, world.gate.extract, question, rounds, alreadyClarified).complete
      then Some(C.Pending(question, rounds + 1)) else None
    }

    /** The gate's part of a data request: an outcome when it stops the turn. */
    method PassGate(question: string, intent: Intent, rounds: nat, alreadyClarified: bool)
      returns (o: Option<AgentOutcome>, ghost made: seq<Call>)
      modifies this`calls, intent
      ensures calls == old(calls) + made
      ensures made != [] && made[0] == CheckCompleteness(question, rounds, alreadyClarified)
      ensures made[1..] == [] || made[1..] == [ListDataChoices]
      ensures var left := GateLeaves(question, rounds, alreadyClarified, world.gateAnswers(|old(calls)|));
              && (o.Some? <==> left.Some?)
              && (o.Some? ==> o.value.clarification == left && o.value.answer.GateAsks?)
      ensures o.None? ==> |made| == 1 && intent.task == old(intent.task)
    {
      var v := Completeness(question, rounds, alreadyClarified);
      made := [CheckCompleteness(question, rounds, alreadyClarified)];
      o := None;
      if v.Some? && !v.value.complete {
        var asked;
        ghost var more;
        asked, more := ClarifyFromGate(question, intent, v.value, rounds);
        assert (made + more)[1..] == more;
        made := made + more;
        o := Some(asked);
      }
    }

    /** `_data_request`: the gate first, then the derivation. */
    method RequestData(question: string, intent: Intent, rounds: nat, alreadyClarified: bool)
      returns (o: AgentOutcome, ghost made: seq<Call>)
      requires Honest(world)
      modifies this`calls, intent
      ensures calls == old(calls) + made && HandleCalls(world.desk, made)
      ensures made != [] && made[0] == CheckCompleteness(question, rounds, alreadyClarified)
      ensures o.clarification == GateLeaves(question, rounds, alreadyClarified, world.gateAnswers(|old(calls)|))
      ensures o.clarification.Some? <==> o.answer.GateAsks?
      ensures !o.answer.NeedsDecision? && !o.answer.AsksUser? && FigureIsChecked(o, made)
    {
      var stopped;
      stopped, made := PassGate(question, intent, rounds, alreadyClarified);
      assert made == [made[0]] + made[1..];
      if stopped.Some? {
        CheckThen(world.desk, made[0], made[1..]);
        return stopped.value, made;
      }
      ghost var more;
      o, more := DeriveAndRun(intent, question, intent.task, None, false);
      CheckThen(world.desk, made[0], more);
      Regrouped(old(calls), made, more);
      made := made + more;
    }

    /** `handle` */
    method Handle(text: string, already: bool, pending: Option<C.Pending>)
      returns (o: AgentOutcome, ghost made: seq<Call>)
      requires Honest(world)
      modifies this`calls
      ensures calls == old(calls) + made && HandleCalls(world.desk, made)
      ensures o.clarification.Some? ==> o.clarification == C.StopAtGate(world.gate, text, already, pending)
      ensures o.clarification.Some? <==> o.answer.GateAsks?
      ensures already || pending.Some? ==> made != [ListDataChoices] && !o.answer.AsksUser?
      ensures !o.answer.NeedsDecision? && FigureIsChecked(o, made)
    {
      var (question, rounds) := C.Merge(text, pending);
      var clarified := already || pending.Some?;
      var intent := new Intent(world.classify(question, clarified));
      if clarified && intent.route == Clarify {
        intent.route := DataRequest;
        intent.task := if intent.task != "" then intent.task else question;
      }
      if intent.route == Direct {
        o, made := Plain(OrchestratorAnswers, Direct, None), [];
      } else if intent.route == Clarify {
        Ask(ListDataChoices);
        o, made := Plain(AsksUser, Clarify, None), [ListDataChoices];
      } else {
        o, made := RequestData(question, intent, rounds, clarified);
      }
    }

    /** `_revalidate` */
    method Revalidate(waiting: Waiting, stated: string, reply: string)
      returns (o: AgentOutcome, ghost made: seq<Call>)
      requires Honest(world)
      modifies this`calls
      ensures calls == old(calls) + made && DeriveCalls(world.desk, made)
      ensures made[0].DeriveRequirement? && made[0].prior == waiting.agreedPlan
      ensures AfterTheGate(o) && FigureIsChecked(o, made)
    {
      var question := if waiting.question != "" then waiting.question else reply;
      var task := if waiting.task != "" then waiting.task else question;
      var intent := new Intent(Reading(DataRequest, task, "", []));
      o, made := DeriveAndRun(intent, question + " (" + stated + ")", task, waiting.agreedPlan, true);
    }

    /** The specialist's task is gone: the reply is a question of its own, already clarified. */
    method StartOver(reply: string, ghost before: seq<Call>, ghost first: Call)
      returns (o: AgentOutcome, ghost made: seq<Call>)
      requires Honest(world) && calls == before + [first]
      modifies this`calls
      ensures calls == before + made && made != [] && made[0] == first && HandleCalls(world.desk, made[1..])
      ensures !o.answer.NeedsDecision?
      ensures if |made| > 1 then FigureIsChecked(o, made) else !o.answer.Composed?
    {
      ghost var more;
      o, more := Handle(reply, true, None);
      made := [first] + more;
      Regrouped(before, [first], more);
      assert made[1..] == more;
    }

    /**
     The answer goes to the specialist that asked. A resumed execution is composed as it came: no requirement,
     no validation.
     */
    method ResumeTask(reply: string) returns (o: AgentOutcome, ghost made: seq<Call>)
      requires Honest(world)
      modifies this`calls
      ensures calls == old(calls) + made && made != [] && made[0] == ProvideInput && HandleCalls(world.desk, made[1..])
      ensures !o.answer.NeedsDecision?
      ensures |made| > 1 ==> FigureIsChecked(o, made)
      ensures o.answer.Composed? && |made| == 1 ==>
                o.requirement.None? && o.validation.None? && world.provide(|old(calls)|).Completed?
    {
      var k := |calls|;
      Ask(ProvideInput);
      made := [ProvideInput];
      var result := world.provide(k);
      if result == Failed("no_pending_task") {
        o, made := StartOver(reply, old(calls), ProvideInput);
      } else {
        o := ReadResumed(result);
      }
    }

    /** What an ordinary resumed result says. */
    method ReadResumed(result: Result<Execution>) returns (o: AgentOutcome)
      ensures o.requirement.None? && o.validation.None? && !o.answer.NeedsDecision?
      ensures o.answer.Composed? <==> result.Completed?
      ensures result.NeedsInput? ==> o.answer == RelaysQuestion && o.waiting.Some?
      ensures result.Completed? ==>
                o.calculation == if result.artifact.Some? then result.artifact.value.calculation else None
    {
      if result.NeedsInput? {
        var intent := new Intent(Reading(Clarify, "", "", []));
        o := RelayQuestion(intent, result.asked, None);
      } else if result.Canceled? {
        o := Plain(Cancelled, Direct, None);
      } else if !result.Completed? {
        o := Plain(SpecialistFailed, DataRequest, None);
      } else {
        var e := if result.artifact.Some? then result.artifact.value else Execution(None, None);
        o := AgentOutcome(Composed, DataRequest, None, e.calculation, None, None, None);
      }
    }

    /** `resume`. `material` says whether the reply changes what is being asked. */
    method Resume(waiting: Waiting, stated: string, reply: string, material: bool)
      returns (o: AgentOutcome, ghost made: seq<Call>)
      requires Honest(world)
      modifies this`calls
      ensures calls == old(calls) + made && ResumeCalls(world.desk, made)
      ensures made[0] == ProvideInput <==> !material
      ensures !o.answer.NeedsDecision?
      ensures material || |made| > 1 ==> FigureIsChecked(o, made)
      ensures !material && o.answer.Composed? && |made| == 1 ==>
                o.requirement.None? && o.validation.None? && world.provide(|old(calls)|).Completed?
    {
      if material {
        o, made := Revalidate(waiting, stated, reply);
      } else {
        o, made := ResumeTask(reply);
      }
    }
  }

  lemma {:induction false} GenuineDecision(desk: E.Desk, plan: Result<PlanArtifact>, record: NegotiationRecord)
    requires Genuine(desk, plan) && plan.Completed? && plan.artifact.Some? && plan.artifact.value.requirement.Some?
    requires record == if plan.artifact.value.negotiation.Some? then plan.artifact.value.negotiation.value
                       else NegotiationRecord(true, CannotReachAgreement, 0)
    ensures record.decision != NeedsUserInput
    ensures record.decision == Agreed ==> record.held && AgreedPlan(desk, plan.artifact.value.requirement.value)
    ensures !record.held ==> record.decision == Unsupported
  {
    var p := plan.artifact.value.requirement.value;
    if plan.artifact.value.negotiation.Some? && record.held {
      var c, trail :| Negotiated(desk, p, record, c, trail);
      X.NeverNeedsUserInput(c, trail);
    }
  }
}
