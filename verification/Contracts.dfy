/** What the agents say to each other: the requirement and the negotiation record. */
module Contracts {
  import opened Options

  datatype Decision = Agreed | NeedsUserInput | Unsupported | CannotReachAgreement

  /** `Requirement.decision`: absent, one of the four, or some other text. */
  datatype Stated = Silent | States(decision: Decision) | Unrecognised(text: string)

  datatype TemporalScope = TemporalScope(asOf: Option<string>, start: Option<string>, end: Option<string>,
                                         lookbackDays: Option<int>)

  /** A text that is there and not empty: Python's `if text`. */
  predicate Names(text: Option<string>) { text.Some? && text.value != "" }

  datatype Verdict = Required | NotNeeded | Unavailable

  datatype FieldNote = FieldNote(name: string, verdict: Verdict, reason: string)

  /** A calculation parameter after the range checks. */
  datatype Param = Number(value: real) | Word(text: string) | Amounts(values: seq<real>)

  /** The warnings the agents add, by what they say. */
  datatype Warning =
    | UngroundedRows(rows: int)
    | NoWindowStated
    | RowsDiffer(requested: int, rows: int)
    | DescribesARetrieval(name: string)
    | CannotBeExecuted(name: string)
    | ParameterDropped(name: string)
    | SettingsWithoutCalculation(names: set<string>)
    | AnswerabilityOverridden
    | CouldNotRevise
    | FamilyStaysAmbiguous
    | AskedNothing
    | NegotiationEnded(outcome: Outcome)
    | Blocked(reason: string)

  /** Why a negotiation stopped. */
  datatype Outcome =
    | NotStarted
    | NotHeld(blockedBy: string)
    | Decided(decision: Decision, round: nat)
    | Stalled(round: nat)
    | RanOut

  /** A requirement, as `as_dict` shows it. */
  datatype Plan = Plan(
    task: string,
    answerable: bool,
    fields: seq<string>,
    fieldNotes: seq<FieldNote>,
    rows: Option<int>,
    rowReason: string,
    rowQuote: Option<string>,
    grounded: bool,
    tenors: seq<string>,
    curveFamily: string,
    temporal: TemporalScope,
    decision: Stated,
    isHypothesis: bool,
    candidateFields: seq<string>,
    openQuestions: seq<string>,
    assumptions: seq<string>,
    limitations: seq<string>,
    calculation: Option<string>,
    params: map<string, Param>,
    unanswerableReason: Option<string>,
    blockedBy: string,
    citations: seq<string>,
    warnings: seq<Warning>)

  /** `as_capability_request`: the plan without the six parts a capability assessment does not read. */
  datatype CapabilityRequest = CapabilityRequest(
    task: string,
    answerable: bool,
    fields: seq<string>,
    fieldNotes: seq<FieldNote>,
    rows: Option<int>,
    rowQuote: Option<string>,
    grounded: bool,
    tenors: seq<string>,
    curveFamily: string,
    temporal: TemporalScope,
    isHypothesis: bool,
    candidateFields: seq<string>,
    openQuestions: seq<string>,
    assumptions: seq<string>,
    limitations: seq<string>,
    calculation: Option<string>,
    params: map<string, Param>)

  function AsCapabilityRequest(p: Plan): CapabilityRequest {
    CapabilityRequest(p.task, p.answerable, p.fields, p.fieldNotes, p.rows, p.rowQuote, p.grounded, p.tenors,
                      p.curveFamily, p.temporal, p.isHypothesis, p.candidateFields, p.openQuestions,
                      p.assumptions, p.limitations, p.calculation, p.params)
  }

  /** The mutable record. */
  class Requirement {
    var plan: Plan

    constructor (plan: Plan)
      ensures this.plan == plan
    {
      this.plan := plan;
    }

    /** `warnings.append` */
    method Warn(w: Warning)
      modifies this
      ensures plan == old(plan).(warnings := old(plan.warnings) + [w])
    {
      plan := plan.(warnings := plan.warnings + [w]);
    }
  }

  datatype Speaker = DomainExpert | McpAgent

  datatype Phase = InitialHypothesis | CapabilityAssessment | Validation | Revision | FinalDecision

  /** What an exchange changed in the plan. */
  datatype Change =
    | FieldsDropped(names: seq<string>, onEvidence: bool)
    | FieldsAdded(names: seq<string>)
    | RowWindow(before: Option<int>, after: Option<int>)
    | CalculationChanged(dropped: Option<string>, chosen: Option<string>)
    | CurveFamilyChanged(left: string, taken: string)
    | PeriodChanged(earlier: TemporalScope, later: TemporalScope)
    | QuestionsResolved(count: nat)
    | HypothesisPromoted

  datatype Turn = Turn(round: nat, speaker: Speaker, phase: Phase, changes: seq<Change>)

  class Negotiation {
    var turns: seq<Turn>
    var roundsUsed: nat
    var decision: Decision
    var held: bool
    var outcome: Outcome

    constructor (held: bool)
      ensures turns == [] && roundsUsed == 0 && decision == CannotReachAgreement
      ensures this.held == held && outcome == NotStarted
    {
      turns, roundsUsed, decision := [], 0, CannotReachAgreement;
      this.held, outcome := held, NotStarted;
    }

    method Say(round: nat, speaker: Speaker, phase: Phase, changes: seq<Change>)
      modifies this`turns
      ensures turns == old(turns) + [Turn(round, speaker, phase, changes)]
    {
      turns := turns + [Turn(round, speaker, phase, changes)];
    }
  }
}
