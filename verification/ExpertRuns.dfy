/** Whole negotiations with the real expert, against any model and any data layer. */
module ExpertRuns {
  import opened Options
  import opened Contracts
  import opened Planning
  import N = Negotiations
  import opened Expert

  /** A model answers with a payload or with nothing usable, as it likes. */
  type Model = (Plan, Evidence, nat) -> Option<Payload>

  function RealTalk(desk: Desk, opening: Payload, model: Model, dataLayer: (Plan, nat) -> Evidence): Talk {
    Talk(Build(desk, opening, true), (q, e, k: nat) => ReviseReply(desk, q, model(q, e, k)), dataLayer)
  }

  /** A negotiation of the real expert that was worth holding. */
  datatype Case = Case(desk: Desk, opening: Payload, model: Model, dataLayer: (Plan, nat) -> Evidence)

  function TalkOf(c: Case): Talk { RealTalk(c.desk, c.opening, c.model, c.dataLayer) }

  ghost predicate Held(c: Case, trail: seq<Round>) {
    Answerable(c.desk, c.opening) && Follows(TalkOf(c), trail) && Complete(trail)
  }

  /** The model's answer in round `i`. */
  function AnswerAt(c: Case, trail: seq<Round>, i: nat): Option<Payload>
    requires i < |trail|
  {
    c.model(trail[i].standing, trail[i].evidence, i + 1)
  }

  /** The round is the real expert's revision on this answer. */
  predicate RevisedOn(desk: Desk, r: Round, answer: Option<Payload>) {
    r.reply == ReviseReply(desk, r.standing, answer) && ReadOff(r)
  }

  lemma {:induction false} RoundIsRevision(c: Case, trail: seq<Round>, i: nat)
    requires Held(c, trail) && i < |trail|
    ensures RevisedOn(c.desk, trail[i], AnswerAt(c, trail, i))
    ensures i == 0 ==> trail[i].standing == Build(c.desk, c.opening, true)
  {
    assert Linked(TalkOf(c), trail, i);
  }

  lemma {:induction false} RoundIsFollowed(c: Case, trail: seq<Round>, i: nat)
    requires Held(c, trail) && i + 1 < |trail|
    ensures trail[i + 1].standing == trail[i].after && trail[i].decision.None?
  {
    assert Linked(TalkOf(c), trail, i + 1);
    assert !Stops(trail, i);
  }

  // --- what stands between rounds ---------------------------------------------

  /** Everything on the table before a round: from `_build`, answerable and undecided. */
  ghost predicate Standing(desk: Desk, q: Plan) {
    Servable(desk, q) && Coherent(q) && q.answerable && q.decision.Silent?
  }

  lemma {:induction false} OpeningStands(c: Case)
    requires Answerable(c.desk, c.opening)
    ensures Standing(c.desk, Build(c.desk, c.opening, true))
  {
    BuiltIsServable(c.desk, c.opening, true);
    BuiltIsCoherent(c.desk, c.opening, true);
  }

  lemma UndecidedStands(desk: Desk, q: Plan)
    requires Servable(desk, q) && Coherent(q) && DecisionIn(q).None?
    ensures Standing(desk, q) && Settled(q) == q
  {
  }

  lemma StandingIsUndecided(desk: Desk, q: Plan)
    requires Standing(desk, q)
    ensures DecisionIn(q).None?
  {
  }

  lemma {:induction false} RoundLeavesServable(desk: Desk, r: Round, answer: Option<Payload>)
    requires RevisedOn(desk, r, answer) && Standing(desk, r.standing)
    ensures Servable(desk, r.after) && Coherent(r.after)
    ensures r.decision.None? ==> Standing(desk, r.after)
  {
    RevisionIsServable(desk, r.standing, answer);
    SettlingKeepsServable(desk, Revised(r.reply));
    if r.decision.None? {
      UndecidedStands(desk, Revised(r.reply));
    }
  }

  lemma {:induction false} FirstStands(c: Case, trail: seq<Round>)
    requires Held(c, trail)
    ensures Standing(c.desk, trail[0].standing)
  {
    RoundIsRevision(c, trail, 0);
    OpeningStands(c);
  }

  lemma {:induction false} NextStands(c: Case, trail: seq<Round>, i: nat)
    requires Held(c, trail) && i + 1 < |trail| && Standing(c.desk, trail[i].standing)
    ensures Standing(c.desk, trail[i + 1].standing)
  {
    RoundIsRevision(c, trail, i);
    RoundIsFollowed(c, trail, i);
    RoundLeavesServable(c.desk, trail[i], AnswerAt(c, trail, i));
  }

  lemma {:induction false} PlansStand(c: Case, trail: seq<Round>, i: nat)
    requires Held(c, trail) && i < |trail|
    ensures Standing(c.desk, trail[i].standing)
  {
    if i == 0 {
      FirstStands(c, trail);
    } else {
      PlansStand(c, trail, i - 1);
      NextStands(c, trail, i - 1);
    }
  }

  // --- who decides, and how ---------------------------------------------------

  /** What a model's answer decides, read from the answer alone. */
  function VerdictOn(desk: Desk, answer: Option<Payload>): Option<Decision> {
    if answer.None? then None
    else
      var stated := ReadDecision(answer.value.decision);
      if stated == States(NeedsUserInput) then Some(if Answerable(desk, answer.value) then Agreed else Unsupported)
      else if stated.States? then Some(stated.decision)
      else if Answerable(desk, answer.value) then None
      else Some(Unsupported)
  }

  lemma {:induction false} BuildDecides(desk: Desk, proposal: Plan, p: Payload)
    ensures DecisionIn(KeepAmbiguity(proposal, Build(desk, p, false))) == VerdictOn(desk, Some(p))
  {
    BuiltIsCoherent(desk, p, false);
  }

  lemma WarningDecidesNothing(q: Plan, w: Warning)
    ensures DecisionIn(q.(warnings := q.warnings + [w])) == DecisionIn(q)
  {
  }

  /**
   A round is decided by the model's answer in that round and nothing else; a request for user input is
   never among the outcomes, because `_build` has already cleared its questions.
   */
  lemma {:induction false} AnswerDecides(c: Case, trail: seq<Round>, i: nat)
    requires Held(c, trail) && i < |trail|
    ensures trail[i].decision == VerdictOn(c.desk, AnswerAt(c, trail, i)) != Some(NeedsUserInput)
  {
    RoundIsRevision(c, trail, i);
    PlansStand(c, trail, i);
    var answer := AnswerAt(c, trail, i);
    if answer.None? {
      WarningDecidesNothing(trail[i].standing, CouldNotRevise);
      StandingIsUndecided(c.desk, trail[i].standing);
    } else {
      BuildDecides(c.desk, trail[i].standing, answer.value);
    }
  }

  /** No negotiation of the real expert ends by asking the user. */
  lemma {:induction false} NeverNeedsUserInput(c: Case, trail: seq<Round>)
    requires Held(c, trail)
    ensures FinalDecisionOf(trail) != NeedsUserInput
  {
    AnswerDecides(c, trail, |trail| - 1);
  }

  /** Agreement is exactly the model committing in the last round, in either of the two ways that count. */
  lemma {:induction false} AgreedIff(c: Case, trail: seq<Round>)
    requires Held(c, trail)
    ensures var last := AnswerAt(c, trail, |trail| - 1);
            FinalDecisionOf(trail) == Agreed <==>
              && last.Some?
              && (last.value.decision == Some("AGREED")
                  || (last.value.decision == Some("NEEDS_USER_INPUT") && Answerable(c.desk, last.value)))
  {
    AnswerDecides(c, trail, |trail| - 1);
  }

  lemma {:induction false} AgreedRound(desk: Desk, r: Round, p: Payload)
    requires RevisedOn(desk, r, Some(p))
    ensures r.after == Settled(KeepAmbiguity(r.standing, Build(desk, p, false)))
    ensures r.after.answerable == Answerable(desk, p) && r.after.rows == KeptRows(desk, p)
  {
    SettledKeeps(r.standing, Build(desk, p, false));
  }

  lemma SettledKeeps(proposal: Plan, q: Plan)
    ensures Settled(KeepAmbiguity(proposal, q)).answerable == q.answerable
    ensures Settled(KeepAmbiguity(proposal, q)).rows == q.rows
  {
  }

  /**
   An agreed plan was built from the last round's answer, asks only for what the catalogue publishes and
   can compute, and states a row count only with a quote found in the executable chunks.
   */
  lemma {:induction false} AgreedPlanIsServable(c: Case, trail: seq<Round>)
    requires Held(c, trail) && FinalDecisionOf(trail) == Agreed
    ensures var n := |trail| - 1;
            var last := AnswerAt(c, trail, n);
            && last.Some?
            && FinalPlan(trail) == Settled(KeepAmbiguity(trail[n].standing, Build(c.desk, last.value, false)))
            && Servable(c.desk, FinalPlan(trail))
            && FinalPlan(trail).rows == KeptRows(c.desk, last.value)
  {
    var n := |trail| - 1;
    AgreedIff(c, trail);
    RoundIsRevision(c, trail, n);
    PlansStand(c, trail, n);
    RoundLeavesServable(c.desk, trail[n], AnswerAt(c, trail, n));
    AgreedRound(c.desk, trail[n], AnswerAt(c, trail, n).value);
    FinalPlanIsLast(trail);
  }

  lemma FinalPlanIsLast(trail: seq<Round>)
    requires trail != [] && FinalDecisionOf(trail) != CannotReachAgreement
    ensures FinalPlan(trail) == trail[|trail| - 1].after
  {
  }

  /** Agreement does not promise answerability: it fails exactly when the model says AGREED of nothing servable. */
  lemma {:induction false} AgreedButUnanswerableIff(c: Case, trail: seq<Round>)
    requires Held(c, trail)
    ensures var last := AnswerAt(c, trail, |trail| - 1);
            FinalDecisionOf(trail) == Agreed && !FinalPlan(trail).answerable <==>
              last.Some? && last.value.decision == Some("AGREED") && !Answerable(c.desk, last.value)
  {
    AgreedIff(c, trail);
    var n := |trail| - 1;
    if FinalDecisionOf(trail) == Agreed {
      RoundIsRevision(c, trail, n);
      AgreedRound(c.desk, trail[n], AnswerAt(c, trail, n).value);
      FinalPlanIsLast(trail);
    }
  }

  /** Nothing that comes out of a negotiation is marked as blocked. */
  lemma {:induction false} NegotiatedPlanIsUnblocked(c: Case, trail: seq<Round>)
    requires Held(c, trail)
    ensures FinalPlan(trail).blockedBy == ""
  {
    var n := |trail| - 1;
    RoundIsRevision(c, trail, n);
    PlansStand(c, trail, n);
    RoundLeavesServable(c.desk, trail[n], AnswerAt(c, trail, n));
    EndingBlocksNothing(trail);
  }

  lemma EndingBlocksNothing(trail: seq<Round>)
    requires trail != []
    ensures FinalPlan(trail).blockedBy == trail[|trail| - 1].after.blockedBy
  {
  }

  // --- failed revisions -------------------------------------------------------

  lemma WarningAsksNothingNew(q: Plan, w: Warning)
    ensures AsCapabilityRequest(q.(warnings := q.warnings + [w])) == AsCapabilityRequest(q)
  {
  }

  /** A failed revision decides nothing, changes nothing, and leaves the next question word for word the same. */
  lemma {:induction false} FailureChangesNothing(c: Case, trail: seq<Round>, i: nat)
    requires Held(c, trail) && i < |trail| && AnswerAt(c, trail, i).None?
    ensures Quiet(trail[i])
    ensures trail[i].after == trail[i].standing.(warnings := trail[i].standing.warnings + [CouldNotRevise])
    ensures AsCapabilityRequest(trail[i].after) == AsCapabilityRequest(trail[i].standing)
  {
    AnswerDecides(c, trail, i);
    RoundIsRevision(c, trail, i);
    PlansStand(c, trail, i);
    N.InPlaceRevisionIsInvisible(trail[i]);
    var q := trail[i].standing.(warnings := trail[i].standing.warnings + [CouldNotRevise]);
    WarningDecidesNothing(trail[i].standing, CouldNotRevise);
    WarningAsksNothingNew(trail[i].standing, CouldNotRevise);
    UndecidedIsSettled(q);
  }

  lemma UndecidedIsSettled(q: Plan)
    requires DecisionIn(q).None?
    ensures Settled(q) == q
  {
  }

  lemma {:induction false} FailureIsNotAgreement(c: Case, trail: seq<Round>)
    requires Held(c, trail) && AnswerAt(c, trail, |trail| - 1).None?
    ensures FinalDecisionOf(trail) == CannotReachAgreement
  {
    AnswerDecides(c, trail, |trail| - 1);
  }

  /** Two failures in a row end the negotiation. */
  lemma {:induction false} TwoFailuresEndIt(c: Case, trail: seq<Round>, i: nat)
    requires Held(c, trail) && i + 1 < |trail| && AnswerAt(c, trail, i).None? && AnswerAt(c, trail, i + 1).None?
    ensures i + 2 == |trail| && OutcomeOf(trail) == Stalled(|trail|) && FinalDecisionOf(trail) == CannotReachAgreement
  {
    FailureChangesNothing(c, trail, i);
    FailureChangesNothing(c, trail, i + 1);
    assert Stops(trail, i + 1);
  }

  /** A failure in the first round is never the end. */
  lemma {:induction false} OneFailureIsNotTheEnd(c: Case, trail: seq<Round>)
    requires Held(c, trail) && AnswerAt(c, trail, 0).None?
    ensures |trail| > 1
  {
    FailureChangesNothing(c, trail, 0);
    assert !Stops(trail, 0);
  }

  ghost predicate NeverAnswers(c: Case, trail: seq<Round>) {
    forall i | 0 <= i < |trail| :: AnswerAt(c, trail, i).None?
  }

  /** A model that never answers stops the negotiation at exactly round 2. */
  lemma {:induction false} AlwaysFailing(c: Case, trail: seq<Round>)
    requires Held(c, trail) && NeverAnswers(c, trail)
    ensures |trail| == 2 && OutcomeOf(trail) == Stalled(2) && FinalDecisionOf(trail) == CannotReachAgreement
  {
    OneFailureIsNotTheEnd(c, trail);
    TwoFailuresEndIt(c, trail, 0);
  }

  /** It has asked one question twice, and leaves the opening with three warnings added. */
  lemma {:induction false} AlwaysFailingLeavesTheOpening(c: Case, trail: seq<Round>)
    requires Held(c, trail) && NeverAnswers(c, trail)
    ensures trail[0].standing == TalkOf(c).hypothesis
    ensures var q := trail[0].standing;
            && RequestsOf(trail) == [AsCapabilityRequest(q), AsCapabilityRequest(q)]
            && FinalPlan(trail)
               == q.(warnings := q.warnings + [CouldNotRevise, CouldNotRevise, NegotiationEnded(Stalled(2))])
  {
    AlwaysFailing(c, trail);
    FailedRound(c, trail, 0);
    FailedRound(c, trail, 1);
    RoundIsFollowed(c, trail, 0);
    TwoFailedRounds(trail[0].standing, trail);
    RoundIsRevision(c, trail, 0);
  }

  lemma {:induction false} FailedRound(c: Case, trail: seq<Round>, i: nat)
    requires Held(c, trail) && i < |trail| && AnswerAt(c, trail, i).None?
    ensures trail[i].after == trail[i].standing.(warnings := trail[i].standing.warnings + [CouldNotRevise])
    ensures trail[i].decision.None?
  {
    FailureChangesNothing(c, trail, i);
  }

  lemma {:induction false} TwoFailedRounds(q: Plan, trail: seq<Round>)
    requires |trail| == 2 && OutcomeOf(trail) == Stalled(2) && trail[1].decision.None?
    requires trail[0].standing == q && trail[1].standing == q.(warnings := q.warnings + [CouldNotRevise])
    requires trail[1].after == trail[1].standing.(warnings := trail[1].standing.warnings + [CouldNotRevise])
    ensures RequestsOf(trail) == [AsCapabilityRequest(q), AsCapabilityRequest(q)]
    ensures FinalPlan(trail)
         == q.(warnings := q.warnings + [CouldNotRevise, CouldNotRevise, NegotiationEnded(Stalled(2))])
  {
    WarningAsksNothingNew(q, CouldNotRevise);
    ThreeWarnings(q, trail[1].after);
  }

  lemma ThreeWarnings(q: Plan, r: Plan)
    requires r == q.(warnings := (q.warnings + [CouldNotRevise]) + [CouldNotRevise])
    ensures r.(warnings := r.warnings + [NegotiationEnded(Stalled(2))])
         == q.(warnings := q.warnings + [CouldNotRevise, CouldNotRevise, NegotiationEnded(Stalled(2))])
  {
  }

  // --- the ambiguous curve family ---------------------------------------------

  lemma RoundKeepsAmbiguity(desk: Desk, r: Round, answer: Option<Payload>)
    requires RevisedOn(desk, r, answer) && r.standing.curveFamily == "ambiguous"
    ensures r.after.curveFamily == "ambiguous"
  {
  }

  lemma {:induction false} NextIsAmbiguous(c: Case, trail: seq<Round>, i: nat)
    requires Held(c, trail) && i < |trail| && trail[i].standing.curveFamily == "ambiguous"
    ensures trail[i].after.curveFamily == "ambiguous"
    ensures i + 1 < |trail| ==> trail[i + 1].standing.curveFamily == "ambiguous"
  {
    RoundIsRevision(c, trail, i);
    RoundKeepsAmbiguity(c.desk, trail[i], AnswerAt(c, trail, i));
    if i + 1 < |trail| {
      RoundIsFollowed(c, trail, i);
    }
  }

  /** Once a plan is ambiguous, every later plan of the negotiation is. */
  lemma {:induction false} AmbiguityIsAbsorbing(c: Case, trail: seq<Round>, i: nat, j: nat)
    requires Held(c, trail) && i <= j < |trail| && trail[i].standing.curveFamily == "ambiguous"
    ensures trail[j].standing.curveFamily == trail[j].after.curveFamily == "ambiguous"
    decreases j - i
  {
    NextIsAmbiguous(c, trail, i);
    if i < j {
      AmbiguityIsAbsorbing(c, trail, i + 1, j);
    }
  }

  /** So an ambiguity raised in the opening reaches the plan the negotiation returns. */
  lemma {:induction false} OpeningAmbiguitySurvives(c: Case, trail: seq<Round>)
    requires Held(c, trail) && c.opening.curveFamily == Some("ambiguous")
    ensures FinalPlan(trail).curveFamily == "ambiguous"
  {
    RoundIsRevision(c, trail, 0);
    AmbiguityIsAbsorbing(c, trail, 0, |trail| - 1);
  }

  // --- stalls -----------------------------------------------------------------

  lemma {:induction false} RealExpertLeavesProposal(c: Case, trail: seq<Round>)
    requires Held(c, trail)
    ensures forall i | 0 <= i < |trail| :: N.LeavesProposal(trail[i])
  {
    forall i | 0 <= i < |trail| ensures N.LeavesProposal(trail[i]) {
      RoundIsRevision(c, trail, i);
    }
  }

  /** For the real expert a stalled plan has not moved in its last two rounds. */
  lemma {:induction false} StalledMeansStill(c: Case, trail: seq<Round>, seen: Evidence)
    requires Held(c, trail) && OutcomeOf(trail).Stalled?
    ensures DescribeChanges(trail[|trail| - 2].standing, FinalPlan(trail), seen) == []
  {
    RealExpertLeavesProposal(c, trail);
    N.StalledPlanIsWhereItWas(TalkOf(c), trail, seen);
  }

  /**
   The answer, once built, leaves everything the data layer reads and no change list reports as the standing plan
   had it, and the lists in the same order.
   */
  predicate SaysTheSame(desk: Desk, q: Plan, p: Payload) {
    var stated := StatedFields(desk, p, false);
    var carried := Missing(INVARIANT_FIELDS, desk.catalogue.fields, stated);
    && p.task == q.task
    && stated + carried == q.fields
    && p.fieldNotes + CarriedNotes(carried) == q.fieldNotes
    && KeptQuote(desk, p) == q.rowQuote && QuoteHolds(desk, p) == q.grounded
    && Keep(p.tenors, desk.catalogue.tenors) == q.tenors
    && Candidates(p) == q.candidateFields
    && Strings(p.openQuestions) == q.openQuestions
    && Strings(p.assumptions) == q.assumptions && Strings(p.limitations) == q.limitations
    && p.params == q.params
  }

  lemma {:induction false} BuiltAsksTheSameIff(desk: Desk, q: Plan, p: Payload, seen: Evidence)
    requires Standing(desk, q) && Answerable(desk, p) && ReadDecision(p.decision).Silent?
    requires DescribeChanges(q, KeepAmbiguity(q, Build(desk, p, false)), seen) == []
    ensures AsCapabilityRequest(q) == AsCapabilityRequest(KeepAmbiguity(q, Build(desk, p, false)))
       <==> SaysTheSame(desk, q, p)
  {
    var b := KeepAmbiguity(q, Build(desk, p, false));
    N.NoChangesIff(ReportedParts(q), ReportedParts(b), seen);
    assert b.rows == q.rows && b.calculation == q.calculation;
    assert b.curveFamily == q.curveFamily && b.temporal == q.temporal;
    assert b.isHypothesis && q.isHypothesis;
  }

  /** What the earlier of the two quiet rounds answered decides whether the later one asks the same question. */
  lemma {:induction false} QuietRoundAsksTheSameIff(desk: Desk, r: Round, answer: Option<Payload>)
    requires RevisedOn(desk, r, answer) && Standing(desk, r.standing) && Quiet(r)
    ensures AsCapabilityRequest(r.standing) == AsCapabilityRequest(r.after)
       <==> answer.None? || SaysTheSame(desk, r.standing, answer.value)
  {
    UndecidedIsSettled(Revised(r.reply));
    if answer.None? {
      WarningAsksNothingNew(r.standing, CouldNotRevise);
    } else {
      BuildDecides(desk, r.standing, answer.value);
      BuiltAsksTheSameIff(desk, r.standing, answer.value, r.evidence);
    }
  }

  lemma {:induction false} QuietThenAsksTheSameIff(c: Case, trail: seq<Round>, k: nat)
    requires Held(c, trail) && k + 1 < |trail| && Quiet(trail[k])
    ensures RequestsOf(trail)[k] == RequestsOf(trail)[k + 1] <==>
              AnswerAt(c, trail, k).None? || SaysTheSame(c.desk, trail[k].standing, AnswerAt(c, trail, k).value)
  {
    RequestAt(trail, k);
    RequestAt(trail, k + 1);
    RoundIsRevision(c, trail, k);
    RoundIsFollowed(c, trail, k);
    PlansStand(c, trail, k);
    QuietRoundAsksTheSameIff(c.desk, trail[k], AnswerAt(c, trail, k));
  }

  lemma RequestAt(trail: seq<Round>, i: nat)
    requires i < |trail|
    ensures RequestsOf(trail)[i] == AsCapabilityRequest(trail[i].standing)
  {
  }

  /**
   After a stall, the two last questions were the same exactly when the earlier of the two quiet rounds failed, or
   its answer left every unreported part and every list as they stood.
   */
  lemma {:induction false} StallAsksTheSameIff(c: Case, trail: seq<Round>)
    requires Held(c, trail) && OutcomeOf(trail).Stalled?
    ensures |trail| > 1
    ensures var k := |trail| - 2;
            RequestsOf(trail)[k] == RequestsOf(trail)[k + 1] <==>
              AnswerAt(c, trail, k).None? || SaysTheSame(c.desk, trail[k].standing, AnswerAt(c, trail, k).value)
  {
    N.StalledIff(trail);
    QuietThenAsksTheSameIff(c, trail, |trail| - 2);
  }

  /** A payload that decides nothing, and states no candidate inputs apart from its fields. */
  predicate Undecided(desk: Desk, p: Payload) {
    p.candidateFields == [] && p.decision == None && Answerable(desk, p)
  }

  lemma {:induction false} KeepConcat(xs: seq<string>, ys: seq<string>, allowed: seq<string>)
    ensures Keep(xs + ys, allowed) == Keep(xs, allowed) + Keep(ys, allowed)
  {
    if xs == [] {
      assert xs + ys == ys;
    } else {
      assert (xs + ys)[1..] == xs[1..] + ys;
      KeepConcat(xs[1..], ys, allowed);
    }
  }

  lemma {:induction false} MoreTenors(desk: Desk, p: Payload, tenor: string)
    requires Undecided(desk, p) && tenor in desk.catalogue.tenors
    ensures var h, b := Build(desk, p, true), Build(desk, p.(tenors := p.tenors + [tenor]), false);
            ReportedParts(h) == ReportedParts(b) && DecisionIn(b) == None && h.tenors != b.tenors
  {
    KeepConcat(p.tenors, [tenor], desk.catalogue.tenors);
    assert Keep([tenor], desk.catalogue.tenors) == [tenor];
    var h, b := Build(desk, p, true), Build(desk, p.(tenors := p.tenors + [tenor]), false);
    assert |b.tenors| == |h.tenors| + 1;
  }

  /** One quiet round from `q` to `b`. */
  lemma {:induction false} QuietRound(desk: Desk, q: Plan, b: Plan, p: Payload, e: Evidence) returns (r: Round)
    requires b == Build(desk, p, false) && ReportedParts(q) == ReportedParts(b) && DecisionIn(b) == None
    ensures r.standing == q && r.evidence == e && r.reply == ReviseReply(desk, q, Some(p))
    ensures ReadOff(r) && Quiet(r) && r.after == b
  {
    assert q.curveFamily == b.curveFamily by {
      assert ReportedParts(q).curveFamily == ReportedParts(b).curveFamily;
    }
    N.NoChangeIsPreorder(ReportedParts(q), ReportedParts(q), ReportedParts(q), e, e, e);
    r := Round(q, e, ReviseReply(desk, q, Some(p)), None, [], b);
    UndecidedIsSettled(b);
  }

  lemma {:induction false} TwoQuietRoundsAreComplete(trail: seq<Round>)
    requires |trail| == 2 && Quiet(trail[0]) && Quiet(trail[1])
    ensures Complete(trail) && OutcomeOf(trail) == Stalled(2)
  {
    assert Stops(trail, 1);
    assert !Stops(trail, 0);
  }

  /**
   The second of two quiet rounds need not repeat the first one's question, as the bound's own
   justification says it does: a model that adds a tenor is stalled out after asking two different things.
   */
  lemma {:induction false} StallMayAskAnew(desk: Desk, p: Payload, tenor: string, dataLayer: (Plan, nat) -> Evidence)
    returns (c: Case, trail: seq<Round>)
    requires Undecided(desk, p) && tenor in desk.catalogue.tenors
    ensures c == Case(desk, p, c.model, dataLayer) && Held(c, trail)
    ensures OutcomeOf(trail) == Stalled(2) && RequestsOf(trail)[0] != RequestsOf(trail)[1]
  {
    var richer := p.(tenors := p.tenors + [tenor]);
    c := Case(desk, p, (q, e, k: nat) => Some(richer), dataLayer);
    var h, b := Build(desk, p, true), Build(desk, richer, false);
    MoreTenors(desk, p, tenor);
    var first := QuietRound(desk, h, b, richer, dataLayer(h, 1));
    var second := QuietRound(desk, b, b, richer, dataLayer(b, 2));
    trail := [first, second];
    assert Linked(TalkOf(c), trail, 0) && Linked(TalkOf(c), trail, 1);
    TwoQuietRoundsAreComplete(trail);
    assert RequestsOf(trail)[0].tenors != RequestsOf(trail)[1].tenors;
  }
}
