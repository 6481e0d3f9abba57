/** Bounds and guarantees of whole turns and whole conversations. */
module Turns {
  import opened Options
  import opened Contracts
  import opened Pipeline
  import P = Planning
  import E = Expert
  import X = ExpertRuns
  import C = Clarification

  // --- how much a turn may cost -----------------------------------------------

  function Derivations(made: seq<Call>): nat {
    if made == [] then 0 else Derivations(made[1..]) + if made[0].DeriveRequirement? then 1 else 0
  }

  /**
   The calls a derivation made to the data layer: one for the catalogue and one for each round on record. A
   derivation that broke off leaves no record; it is charged for a negotiation of full length.
   */
  function DataLayerCalls(r: Result<PlanArtifact>): nat {
    if Reported(r) then 1 + r.artifact.value.negotiation.value.roundsUsed
    else 1 + P.MAX_NEGOTIATION_ROUNDS
  }

  predicate Reported(r: Result<PlanArtifact>) {
    && r.Completed? && r.artifact.Some?
    && r.artifact.value.requirement.Some? && r.artifact.value.negotiation.Some?
  }

  /** Every handoff of these calls, the first of which is the turn's call number `k`. */
  function Handoffs(w: World, k: nat, made: seq<Call>): nat
    decreases |made|
  {
    if made == [] then 0
    else 1 + (if made[0].DeriveRequirement? then DataLayerCalls(w.derive(k)) else 0) + Handoffs(w, k + 1, made[1..])
  }

  /** No record claims more rounds than a negotiation can have. */
  lemma {:induction false} DerivationsAreShort(desk: E.Desk, r: Result<PlanArtifact>)
    requires Genuine(desk, r)
    ensures DataLayerCalls(r) <= 1 + P.MAX_NEGOTIATION_ROUNDS
  {
    if Reported(r) {
      var p, n := r.artifact.value.requirement.value, r.artifact.value.negotiation.value;
      if n.held {
        var c, trail :| Negotiated(desk, p, n, c, trail);
        assert P.Complete(trail);
      }
    }
  }

  lemma {:induction false} HandoffsFollowDerivations(w: World, k: nat, made: seq<Call>)
    requires Honest(w)
    ensures |made| <= Handoffs(w, k, made) <= |made| + (1 + P.MAX_NEGOTIATION_ROUNDS) * Derivations(made)
    decreases |made|
  {
    if made != [] {
      HandoffsFollowDerivations(w, k + 1, made[1..]);
      DerivationsAreShort(w.desk, w.derive(k));
    }
  }

  lemma {:induction false} RunCost(desk: E.Desk, made: seq<Call>, p: Plan)
    requires RunCalls(desk, made, p)
    ensures 1 <= |made| <= 2 && Derivations(made) == 0
  {
    assert Derivations([]) == 0;
    if |made| == 1 {
      assert made[1..] == [];
    } else {
      assert made[1..] == [ValidateResult(p)] && [ValidateResult(p)][1..] == [];
    }
  }

  lemma {:induction false} DeriveCost(desk: E.Desk, made: seq<Call>)
    requires DeriveCalls(desk, made)
    ensures |made| <= 3 && Derivations(made) == 1
  {
    if |made| > 1 {
      var p :| RunCalls(desk, made[1..], p);
      RunCost(desk, made[1..], p);
    }
  }

  /** From a question: at most 4 specialist calls, with at most one derivation. */
  lemma {:induction false} HandleCost(desk: E.Desk, made: seq<Call>)
    requires HandleCalls(desk, made)
    ensures |made| <= 4 && Derivations(made) <= 1
  {
    if |made| > 1 && DeriveCalls(desk, made[1..]) {
      DeriveCost(desk, made[1..]);
    } else if made != [] {
      assert made[1..] == [] || made[1..] == [ListDataChoices];
      assert [ListDataChoices][1..] == [];
    }
  }

  /** From an answer to a specialist: at most 5 specialist calls, with at most one derivation. */
  lemma {:induction false} ResumeCost(desk: E.Desk, made: seq<Call>)
    requires ResumeCalls(desk, made)
    ensures |made| <= 5 && Derivations(made) <= 1
  {
    if DeriveCalls(desk, made) {
      DeriveCost(desk, made);
    } else {
      HandleCost(desk, made[1..]);
    }
  }

  /** With the rounds every derivation has on record: at most 10 handoffs from a question, 11 from an answer. */
  lemma {:induction false} TurnHandoffs(w: World, k: nat, made: seq<Call>)
    requires Honest(w)
    ensures HandleCalls(w.desk, made) ==> Handoffs(w, k, made) <= 10
    ensures ResumeCalls(w.desk, made) ==> Handoffs(w, k, made) <= 11
  {
    HandoffsFollowDerivations(w, k, made);
    if HandleCalls(w.desk, made) {
      HandleCost(w.desk, made);
    }
    if ResumeCalls(w.desk, made) {
      ResumeCost(w.desk, made);
    }
  }

  // --- what is run ------------------------------------------------------------

  ghost predicate Placed(desk: E.Desk, made: seq<Call>, i: nat)
    requires i < |made|
  {
    && (made[i].ExecutePlan? ==> i > 0 && made[i - 1].DeriveRequirement? && AgreedPlan(desk, made[i].plan))
    && (made[i].ValidateResult? ==> i > 0 && made[i - 1] == ExecutePlan(made[i].agreed))
  }

  /** Directly before an execution comes a derivation, and directly before a validation the execution of that plan. */
  ghost predicate InOrder(desk: E.Desk, made: seq<Call>) { forall i | 0 <= i < |made| :: Placed(desk, made, i) }

  lemma {:induction false} DeriveInOrder(desk: E.Desk, made: seq<Call>)
    requires DeriveCalls(desk, made)
    ensures InOrder(desk, made)
  {
    if |made| > 1 {
      var p :| RunCalls(desk, made[1..], p);
      assert made[1] == made[1..][0];
      if |made| == 3 {
        assert made[2] == made[1..][1];
      }
    }
  }

  lemma {:induction false} PrefixedInOrder(desk: E.Desk, first: Call, more: seq<Call>)
    requires InOrder(desk, more) && !first.ExecutePlan? && !first.ValidateResult?
    ensures InOrder(desk, [first] + more)
  {
    var made := [first] + more;
    forall i | 0 <= i < |made| ensures Placed(desk, made, i) {
      if i > 0 {
        assert made[i] == more[i - 1];
        assert Placed(desk, more, i - 1);
      }
    }
  }

  lemma {:induction false} HandleInOrder(desk: E.Desk, made: seq<Call>)
    requires HandleCalls(desk, made)
    ensures InOrder(desk, made)
  {
    if |made| > 1 && DeriveCalls(desk, made[1..]) {
      DeriveInOrder(desk, made[1..]);
      PrefixedInOrder(desk, made[0], made[1..]);
      assert made == [made[0]] + made[1..];
    } else {
      forall i | 0 <= i < |made| ensures Placed(desk, made, i) {
        assert i > 0 ==> made[i] == made[1..][i - 1];
      }
    }
  }

  lemma {:induction false} ResumeInOrder(desk: E.Desk, made: seq<Call>)
    requires ResumeCalls(desk, made)
    ensures InOrder(desk, made)
  {
    if DeriveCalls(desk, made) {
      DeriveInOrder(desk, made);
    } else {
      HandleInOrder(desk, made[1..]);
      PrefixedInOrder(desk, made[0], made[1..]);
      assert made == [made[0]] + made[1..];
    }
  }

  /** The plan was built from the model's answer in the last round of a negotiation that agreed, and is servable. */
  ghost predicate Trustworthy(desk: E.Desk, p: Plan, c: X.Case, trail: seq<P.Round>) {
    && X.Held(c, trail) && P.FinalDecisionOf(trail) == Agreed && p == P.FinalPlan(trail)
    && X.AnswerAt(c, trail, |trail| - 1).Some?
    && c.desk == desk && E.Servable(desk, p)
  }

  lemma {:induction false} AgreedPlanIsTrustworthy(desk: E.Desk, p: Plan) returns (c: X.Case, trail: seq<P.Round>)
    requires AgreedPlan(desk, p)
    ensures Trustworthy(desk, p, c, trail)
  {
    c, trail :| Negotiated(desk, p, NegotiationRecord(true, Agreed, |trail|), c, trail);
    X.AgreedPlanIsServable(c, trail);
  }

  /**
   End to end: whatever the models, the data layer and the user do, every plan a turn executes was agreed in a
   held negotiation, built in its last round, and asks only for what the catalogue holds on cited windows.
   */
  lemma {:induction false} ExecutedPlanIsTrustworthy(desk: E.Desk, made: seq<Call>, i: nat)
    returns (c: X.Case, trail: seq<P.Round>)
    requires HandleCalls(desk, made) || ResumeCalls(desk, made)
    requires i < |made| && made[i].ExecutePlan?
    ensures Trustworthy(desk, made[i].plan, c, trail)
  {
    if HandleCalls(desk, made) {
      HandleInOrder(desk, made);
    } else {
      ResumeInOrder(desk, made);
    }
    assert Placed(desk, made, i);
    c, trail := AgreedPlanIsTrustworthy(desk, made[i].plan);
  }

  // --- the derivation itself --------------------------------------------------

  /** How a derivation opens: nothing was retrieved, the model gave nothing usable, or it gave a payload. */
  datatype Opening =
    | NothingRetrieved(reason: string)
    | NoAnswer(reason: string, account: bool)
    | Opened(payload: E.Payload)

  /** `_blocked` */
  function BlockedPlan(task: string, reason: string, blockedBy: string): Plan {
    Plan(task, false, [], [], None, reason, None, false, [], "nominal", TemporalScope(None, None, None, None), Silent,
         false, [], [], [], [], None, map[], Some(reason), blockedBy, [], [Blocked(reason)])
  }

  function OpeningPlan(desk: E.Desk, task: string, opening: Opening): Plan {
    match opening
    case NothingRetrieved(reason) => BlockedPlan(task, reason, "data")
    case NoAnswer(reason, account) => BlockedPlan(task, reason, if account then "account" else "model")
    case Opened(payload) => E.Build(desk, payload, true)
  }

  /** The artifacts are those of this opening: a plan that was never negotiated, or the end of a negotiation. */
  ghost predicate DerivedFrom(desk: E.Desk, task: string, opening: Opening, p: Plan, n: NegotiationRecord) {
    if opening.Opened? && E.Answerable(desk, opening.payload) then
      n.held && exists c: X.Case, trail :: c.opening == opening.payload && Negotiated(desk, p, n, c, trail)
    else p == OpeningPlan(desk, task, opening) && n == NegotiationRecord(false, Unsupported, 0)
  }

  /** The derivation skill: its artifacts are genuine, and it makes the data-layer calls its record accounts for. */
  method DeriveSkill(desk: E.Desk, task: string, opening: Opening, model: X.Model,
                     dataLayer: (Plan, nat) -> P.Evidence)
    returns (artifact: PlanArtifact, dataLayerCalls: nat)
    ensures Genuine(desk, Completed(Some(artifact)))
    ensures artifact.requirement.Some? && artifact.negotiation.Some?
    ensures DerivedFrom(desk, task, opening, artifact.requirement.value, artifact.negotiation.value)
    ensures dataLayerCalls == DataLayerCalls(Completed(Some(artifact))) <= 1 + P.MAX_NEGOTIATION_ROUNDS
  {
    var hypothesis := new Requirement(OpeningPlan(desk, task, opening));
    var port := new P.DataLayerPort(dataLayer);
    var talk := P.Talk(hypothesis.plan, (q, e, k: nat) => E.ReviseReply(desk, q, model(q, e, k)), dataLayer);
    var requirement, negotiation, trail := P.MakePlan(talk, hypothesis, port);
    var record := NegotiationRecord(negotiation.held, negotiation.decision, negotiation.roundsUsed);
    artifact := PlanArtifact(Some(requirement.plan), Some(record));
    dataLayerCalls := port.catalogueReads + |port.requests|;
    if negotiation.held {
      RecordIsNegotiated(X.Case(desk, opening.payload, model, dataLayer), talk, requirement.plan, record, trail);
    }
  }

  lemma {:induction false} RecordIsNegotiated(c: X.Case, talk: P.Talk, p: Plan, record: NegotiationRecord,
                                              trail: seq<P.Round>)
    requires talk.hypothesis == E.Build(c.desk, c.opening, true) && talk.dataLayer == c.dataLayer
    requires forall q, e, k: nat :: talk.expert(q, e, k) == E.ReviseReply(c.desk, q, c.model(q, e, k))
    requires E.Answerable(c.desk, c.opening) && P.Follows(talk, trail) && P.Complete(trail)
    requires p == P.FinalPlan(trail) && record == NegotiationRecord(true, P.FinalDecisionOf(trail), |trail|)
    ensures Negotiated(c.desk, p, record, c, trail)
  {
    forall i | 0 <= i < |trail| ensures P.Linked(X.TalkOf(c), trail, i) {
      assert P.Linked(talk, trail, i);
    }
  }

  // --- what the user is told --------------------------------------------------

  /**
   Why nothing was run, traced back to how the derivation went. The account or the model is blamed exactly when
   no hypothesis was ever formed; a model that fails in every later round is reported as a disagreement. The user
   is declined for want of knowledge, for an unanswerable opening, or by the negotiation; and is never asked for a
   decision.
   */
  lemma {:induction false} TheUserIsToldWhy(desk: E.Desk, task: string, opening: Opening, artifact: PlanArtifact)
    requires artifact.requirement.Some? && artifact.negotiation.Some?
    requires DerivedFrom(desk, task, opening, artifact.requirement.value, artifact.negotiation.value)
    requires AgreedBy(Completed(Some(artifact))).None?
    ensures var told := Explanation(Completed(Some(artifact)));
            match opening
            case NothingRetrieved(reason) => told == Declined(Some(reason))
            case NoAnswer(_, account) => told == if account then AccountUnavailable else ReasoningFailed
            case Opened(payload) =>
              if !E.Answerable(desk, payload) then told == Declined(payload.unanswerableReason)
              else told.Declined? || told == NoAgreement
    ensures Explanation(Completed(Some(artifact))) == NoAgreement <==>
              artifact.negotiation.value.decision == CannotReachAgreement
  {
    var p, n := artifact.requirement.value, artifact.negotiation.value;
    if opening.Opened? {
      if E.Answerable(desk, opening.payload) {
        var c: X.Case, trail :| c.opening == opening.payload && Negotiated(desk, p, n, c, trail);
        X.NeverNeedsUserInput(c, trail);
        X.NegotiatedPlanIsUnblocked(c, trail);
      } else {
        E.BuiltIsCoherent(desk, opening.payload, true);
        assert !E.Build(desk, opening.payload, true).answerable;
      }
    }
  }

  /** The reviser that never answers: the user hears of a disagreement. */
  lemma {:induction false} SilentReviserLooksLikeDisagreement(desk: E.Desk, p: Plan, n: NegotiationRecord, c: X.Case,
                                                              trail: seq<P.Round>)
    requires Negotiated(desk, p, n, c, trail) && X.NeverAnswers(c, trail)
    ensures Explanation(Completed(Some(PlanArtifact(Some(p), Some(n))))) == NoAgreement
  {
    X.AlwaysFailing(c, trail);
    X.NegotiatedPlanIsUnblocked(c, trail);
  }

  // --- whole conversations ----------------------------------------------------

  /** A turn behind this gate, with genuine derivations. */
  ghost predicate Behind(gate: C.Surroundings, world: World) { world.gate == gate && Honest(world) }

  /** What one turn leaves for the service to remember. */
  method LeftPending(ghost gate: C.Surroundings, world: World, text: string, already: bool,
                     pending: Option<C.Pending>)
    returns (left: Option<C.Pending>)
    requires Behind(gate, world)
    ensures left.Some? ==> left == C.StopAtGate(gate, text, already, pending)
  {
    var turn := new AgentPipeline(world);
    var outcome, made := turn.Handle(text, already, pending);
    left := outcome.clarification;
  }

  /**
   The service feeds each gate question back with the user's next message. However the other parties behave
   in each turn, the gate stops at most `max(1, max_rounds())` messages in a row.
   */
  method StopsInARow(gate: C.Surroundings, worlds: nat -> World, first: bool, texts: seq<string>)
    returns (stops: nat, pending: Option<C.Pending>)
    requires forall i: nat :: Behind(gate, worlds(i))
    ensures C.StoppedSoFar(gate, first, texts, stops, pending)
  {
    stops, pending := 0, None;
    while stops < |texts|
      invariant C.StoppedSoFar(gate, first, texts, stops, pending)
    {
      var left := LeftPending(gate, worlds(stops), texts[stops], stops > 0 || first, pending);
      if left.None? {
        return;
      }
      C.OneMoreStop(gate, first, texts, stops, pending, left);
      stops, pending := stops + 1, left;
    }
  }
}
