/** What every negotiation keeps, whoever the two parties are. */
module Negotiations {
  import opened Options
  import opened Contracts
  import opened Planning

  // --- the transcript ---------------------------------------------------------

  ghost predicate TurnPair(turns: seq<Turn>, i: nat, r: Round)
    requires 2 * i + 2 < |turns|
  {
    && turns[2 * i + 1].speaker == McpAgent && turns[2 * i + 1].round == i + 1
    && turns[2 * i + 1].phase == (if i == 0 then CapabilityAssessment else Validation)
    && turns[2 * i + 2].speaker == DomainExpert && turns[2 * i + 2].round == i + 1
    && turns[2 * i + 2].phase == (if r.decision.Some? then FinalDecision else Revision)
    && turns[2 * i + 2].changes == r.changes
  }

  lemma {:induction false} TranscriptPairs(trail: seq<Round>)
    ensures |TurnsOf(trail)| == 1 + 2 * |trail|
    ensures TurnsOf(trail)[0] == Turn(0, DomainExpert, InitialHypothesis, [])
    ensures forall i | 0 <= i < |trail| :: TurnPair(TurnsOf(trail), i, trail[i])
  {
    if trail != [] {
      var k := |trail| - 1;
      var shorter := trail[..k];
      TranscriptPairs(shorter);
      var turns := TurnsOf(shorter) + TurnsOfRound(|trail|, trail[k]);
      assert TurnsOf(trail) == turns;
      forall i | 0 <= i <= k ensures TurnPair(turns, i, trail[i]) {
        if i < k {
          assert TurnPair(TurnsOf(shorter), i, shorter[i]);
        }
      }
    }
  }

  /**
   At most five rounds, one turn to open and two a round, the speakers alternating after the opening; a
   turn is a final decision exactly when it is the last and the expert decided.
   */
  lemma {:induction false} TranscriptShape(trail: seq<Round>)
    requires Complete(trail)
    ensures var turns := TurnsOf(trail);
            && |turns| == 1 + 2 * |trail| <= 11
            && (forall j | 0 <= j < |turns| :: turns[j].speaker == if j % 2 == 0 then DomainExpert else McpAgent)
            && (forall j | 0 <= j < |turns| ::
                  turns[j].phase == FinalDecision <==> j == |turns| - 1 && trail[|trail| - 1].decision.Some?)
            && (trail[|trail| - 1].decision.Some? <==> OutcomeOf(trail).Decided?)
  {
    TranscriptPairs(trail);
    var turns := TurnsOf(trail);
    EarlierRoundsUndecided(trail);
    forall j | 0 <= j < |turns|
      ensures turns[j].speaker == if j % 2 == 0 then DomainExpert else McpAgent
      ensures turns[j].phase == FinalDecision <==> j == |turns| - 1 && trail[|trail| - 1].decision.Some?
    {
      if j > 0 {
        ReadPair(turns, trail, (j - 1) / 2, j);
      }
    }
  }

  lemma {:induction false} EarlierRoundsUndecided(trail: seq<Round>)
    requires Complete(trail)
    ensures forall i | 0 <= i < |trail| - 1 :: trail[i].decision.None?
  {
    forall i | 0 <= i < |trail| - 1 ensures trail[i].decision.None? {
      assert !Stops(trail, i);
    }
  }

  lemma ReadPair(turns: seq<Turn>, trail: seq<Round>, i: nat, j: nat)
    requires i < |trail| && |turns| == 1 + 2 * |trail| && (j == 2 * i + 1 || j == 2 * i + 2)
    requires TurnPair(turns, i, trail[i]) && (i < |trail| - 1 ==> trail[i].decision.None?)
    ensures turns[j].speaker == if j % 2 == 0 then DomainExpert else McpAgent
    ensures turns[j].phase == FinalDecision <==> j == |turns| - 1 && trail[|trail| - 1].decision.Some?
  {
  }

  /** A stall is exactly: the last two rounds were quiet. No two rounds before them were. */
  lemma {:induction false} StalledIff(trail: seq<Round>)
    requires Complete(trail)
    ensures OutcomeOf(trail).Stalled? <==>
            |trail| > 1 && Quiet(trail[|trail| - 2]) && Quiet(trail[|trail| - 1])
    ensures forall i | 0 < i < |trail| - 1 :: !(Quiet(trail[i - 1]) && Quiet(trail[i]))
    ensures OutcomeOf(trail).RanOut? ==> |trail| == MAX_NEGOTIATION_ROUNDS
    ensures FinalDecisionOf(trail) == Agreed ==> OutcomeOf(trail) == Decided(Agreed, |trail|)
  {
    forall i | 0 < i < |trail| - 1 ensures !(Quiet(trail[i - 1]) && Quiet(trail[i])) {
      assert !Stops(trail, i);
    }
  }

  /** The length is determined: two complete conversations that agree as far as both go are the same one. */
  lemma {:induction false} StoppingIsDetermined(a: seq<Round>, b: seq<Round>)
    requires Complete(a) && Complete(b) && |a| <= |b| && b[..|a|] == a
    ensures a == b
  {
    StopsAgree(a, b);
    assert |a| == |b|;
    assert b == b[..|b|];
  }

  lemma {:induction false} StopsAgree(a: seq<Round>, b: seq<Round>)
    requires |a| <= |b| && b[..|a|] == a
    ensures forall i | 0 <= i < |a| :: Stops(a, i) == Stops(b, i)
  {
    forall i | 0 <= i < |a| ensures Stops(a, i) == Stops(b, i) {
      assert a[i] == b[i];
      if i > 0 {
        assert a[i - 1] == b[i - 1];
      }
    }
  }

  // --- no change --------------------------------------------------------------

  predicate Within(xs: seq<string>, ys: seq<string>) { forall i | 0 <= i < |xs| :: xs[i] in ys }

  lemma {:induction false} MinusEmptyIff(xs: seq<string>, ys: seq<string>)
    ensures Minus(xs, ys) == [] <==> Within(xs, ys)
  {
    if xs != [] {
      MinusEmptyIff(xs[1..], ys);
      if Within(xs[1..], ys) && xs[0] in ys {
        forall i | 0 <= i < |xs| ensures xs[i] in ys {
          assert i > 0 ==> xs[i] == xs[1..][i - 1];
        }
      }
      if Within(xs, ys) {
        assert forall i | 0 <= i < |xs[1..]| :: xs[1..][i] == xs[i + 1];
      }
    }
  }

  /** What an empty change list says of two plans. */
  predicate Unchanged(a: Reported, b: Reported) {
    && Within(a.fields, b.fields) && Within(b.fields, a.fields)
    && a.rows == b.rows && a.calculation == b.calculation && a.curveFamily == b.curveFamily
    && a.temporal == b.temporal
    && Within(a.openQuestions, b.openQuestions)
    && (a.isHypothesis ==> b.isHypothesis)
  }

  lemma {:induction false} NoChangesIff(a: Reported, b: Reported, seen: Evidence)
    ensures Diff(a, b, seen) == [] <==> Unchanged(a, b)
  {
    MinusEmptyIff(a.fields, b.fields);
    MinusEmptyIff(b.fields, a.fields);
    MinusEmptyIff(a.openQuestions, b.openQuestions);
  }

  /** No change is a preorder. */
  lemma {:induction false} NoChangeIsPreorder(a: Reported, b: Reported, c: Reported, one: Evidence,
                                              two: Evidence, both: Evidence)
    ensures Diff(a, a, one) == []
    ensures Diff(a, b, one) == [] && Diff(b, c, two) == [] ==> Diff(a, c, both) == []
  {
    NoChangesIff(a, a, one);
    NoChangesIff(a, b, one);
    NoChangesIff(b, c, two);
    NoChangesIff(a, c, both);
  }

  /** But not symmetric: an added question, or a plan demoted to a hypothesis, is not reported. */
  lemma {:induction false} NoChangeIsNotSymmetric(a: Reported, b: Reported, seen: Evidence)
    requires Unchanged(a, b)
    ensures Diff(b, a, seen) == [] <==> Within(b.openQuestions, a.openQuestions) && (b.isHypothesis ==> a.isHypothesis)
  {
    NoChangesIff(b, a, seen);
  }

  /** The reply leaves the reported parts of the proposal it was given alone. */
  predicate LeavesProposal(r: Round) { ReportedParts(ProposalAfter(r.reply)) == ReportedParts(r.standing) }

  lemma {:induction false} ChainStep(t: Talk, trail: seq<Round>, i: nat)
    requires Follows(t, trail) && 0 < i < |trail|
    ensures trail[i].standing == trail[i - 1].after
    ensures ReadOff(trail[i - 1]) && ReadOff(trail[i])
  {
    assert Linked(t, trail, i) && Linked(t, trail, i - 1);
  }

  lemma {:induction false} QuietRoundKeeps(r: Round, seen: Evidence)
    requires ReadOff(r) && LeavesProposal(r) && Quiet(r)
    ensures DescribeChanges(r.standing, r.after, seen) == []
  {
    SettlingReportsNothing(Revised(r.reply));
    NoChangesIff(ReportedParts(r.standing), ReportedParts(r.after), r.evidence);
    NoChangesIff(ReportedParts(r.standing), ReportedParts(r.after), seen);
  }

  /** A stalled plan, compared with the plan two rounds earlier, shows no change either. */
  lemma {:induction false} StalledPlanIsWhereItWas(t: Talk, trail: seq<Round>, seen: Evidence)
    requires Follows(t, trail) && Complete(trail) && OutcomeOf(trail).Stalled?
    requires forall i | 0 <= i < |trail| :: LeavesProposal(trail[i])
    ensures DescribeChanges(trail[|trail| - 2].standing, FinalPlan(trail), seen) == []
  {
    StalledIff(trail);
    var n := |trail| - 1;
    ChainStep(t, trail, n);
    QuietRoundKeeps(trail[n - 1], seen);
    QuietRoundKeeps(trail[n], seen);
    NoChangeIsPreorder(ReportedParts(trail[n - 1].standing), ReportedParts(trail[n].standing),
                       ReportedParts(trail[n].after), seen, seen, seen);
    EndingReportsNothing(trail);
  }

  lemma EndingReportsNothing(trail: seq<Round>)
    requires trail != []
    ensures ReportedParts(FinalPlan(trail)) == ReportedParts(trail[|trail| - 1].after)
    ensures AsCapabilityRequest(FinalPlan(trail)) == AsCapabilityRequest(trail[|trail| - 1].after)
  {
  }

  /** Without that proviso the claim fails: a proposal revised in place is compared with itself. */
  lemma {:induction false} InPlaceRevisionIsInvisible(r: Round)
    requires ReadOff(r) && r.reply.SameObject?
    ensures r.changes == []
  {
    var p := ReportedParts(r.reply.plan);
    NoChangeIsPreorder(p, p, p, r.evidence, r.evidence, r.evidence);
  }

  // --- what the data layer is asked -------------------------------------------

  /** The parts of a capability request that no change list reports. */
  datatype Unreported = Unreported(
    task: string, answerable: bool, fieldNotes: seq<FieldNote>, rowQuote: Option<string>, grounded: bool,
    tenors: seq<string>, candidateFields: seq<string>, assumptions: seq<string>, limitations: seq<string>,
    params: map<string, Param>)

  function UnreportedParts(p: Plan): Unreported {
    Unreported(p.task, p.answerable, p.fieldNotes, p.rowQuote, p.grounded, p.tenors, p.candidateFields,
               p.assumptions, p.limitations, p.params)
  }

  /**
   An empty change list is necessary for the data layer to be asked the same thing again. It is
   sufficient exactly when nothing unreported moved either, the lists kept their order, no question
   was added and the plan was not demoted to a hypothesis.
   */
  lemma {:induction false} SameQuestionIff(a: Plan, b: Plan, seen: Evidence)
    ensures AsCapabilityRequest(a) == AsCapabilityRequest(b) <==>
            && DescribeChanges(a, b, seen) == []
            && UnreportedParts(a) == UnreportedParts(b)
            && a.fields == b.fields && a.openQuestions == b.openQuestions
            && (b.isHypothesis ==> a.isHypothesis)
  {
    NoChangesIff(ReportedParts(a), ReportedParts(b), seen);
  }

  /** Two quiet rounds need not ask the same question: a plan whose tenors moved counts as unchanged. */
  lemma {:induction false} QuietButAskingAnew(p: Plan, tenor: string, seen: Evidence)
    ensures var q := p.(tenors := p.tenors + [tenor]);
            DescribeChanges(p, q, seen) == [] && AsCapabilityRequest(p) != AsCapabilityRequest(q)
  {
    var q := p.(tenors := p.tenors + [tenor]);
    NoChangeIsPreorder(ReportedParts(p), ReportedParts(p), ReportedParts(p), seen, seen, seen);
    assert |q.tenors| == |p.tenors| + 1;
  }
}
