/** The completeness gate: `classify_intent`, `_satisfied`, `assess` and its bounds. */
module Preflight {
  import opened Options
  import opened Text
  import opened Grounding

  // --- what kind of question it is --------------------------------------------

  datatype Kind =
    | ReverseStress | LimitCheck | Backtest | StressTest | Var | Dv01 | Attribution | Pricing
    | CurveComparison | RateHistory | CurveSnapshot | Methodology | Unknown

  datatype Group = Group(kind: Kind, markers: seq<string>)

  /** `_INTENT_MARKERS`, tried in this order. */
  const MARKERS: seq<Group> := [
    Group(ReverseStress, ["reverse stress", "what shock would", "what move would", "how big a move", "what rate move",
                          "break the book"]),
    Group(LimitCheck, ["limit", "breach", "utilisation", "utilization", "within appetite", "risk appetite"]),
    Group(Backtest, ["backtest", "back-test", "exception rate", "kupiec"]),
    Group(StressTest, ["stress", "scenario", "shock", "crisis", "what if", "what-if"]),
    Group(Var, ["var", "value at risk", "value-at-risk", "expected shortfall", "cvar", "tail loss"]),
    Group(Dv01, ["dv01", "pv01", "key rate", "key-rate", "sensitivity", "sensitivities", "duration", "convexity",
                 "bpv"]),
    Group(Attribution, ["attribution", "p&l", "pnl", "carry", "roll-down", "rolldown", "roll down"]),
    Group(Pricing, ["price", "value the", "worth", "valuation", "present value", "mark to market", "npv"]),
    Group(CurveComparison, ["compare", "comparison", "versus", " vs ", "change in", "changed", "moved", "movement",
                            "moves", "shift", "difference between", "widened", "steepened", "flattened",
                            "biggest mover"]),
    Group(RateHistory, ["history", "historical", "over time", "time series", "trend", "evolution", "volatility",
                        "since", "during"]),
    Group(CurveSnapshot, ["curve", "yield", "rate", "slope", "spread", "term structure", "tenor", "maturity"]),
    Group(Methodology, ["how do i", "how would i", "what data", "which data", "what inputs", "which calculation",
                        "what is the method", "methodology", "how is", "explain"])]

  function Padded(text: string): string { " " + Lower(text) + " " }

  predicate Mentions(text: string, markers: seq<string>) {
    exists i | 0 <= i < |markers| :: Contains(Padded(text), markers[i])
  }

  /** How many groups are passed over before one matches. */
  function GroupIndex(groups: seq<Group>, text: string): nat {
    if groups == [] || Mentions(text, groups[0].markers) then 0 else 1 + GroupIndex(groups[1..], text)
  }

  function KindIn(groups: seq<Group>, text: string): Kind {
    var i := GroupIndex(groups, text);
    if i < |groups| then groups[i].kind else Unknown
  }

  /** The loop of `classify_intent`: the first group with a marker in the text. */
  method ClassifyIntent(groups: seq<Group>, text: string) returns (kind: Kind)
    ensures kind == KindIn(groups, text)
  {
    for i := 0 to |groups|
      invariant GroupIndex(groups, text) == i + GroupIndex(groups[i..], text)
    {
      if Mentions(text, groups[i].markers) {
        return groups[i].kind;
      }
      assert groups[i..][1..] == groups[i + 1..];
    }
    return Unknown;
  }

  // --- what it needs ----------------------------------------------------------

  datatype Facts = Facts(dates: seq<string>, years: seq<string>, hasPeriod: bool, confidenceLevel: Option<real>,
                         horizonDays: Option<int>, hasPortfolio: bool, scenario: string, hasAmount: bool,
                         shockBp: Option<real>)

  datatype Field =
    | ComparisonPeriod | Scenario | TargetLoss | LimitAmount
    | ObservationPeriod | Portfolio | ConfidenceLevel | HorizonDays

  /** Where the choices for a field come from. */
  datatype Source = FreeText | Periods | Scenarios

  datatype FieldSpec = FieldSpec(field: Field, defaultable: bool, optionsFrom: Source)

  /** `_REQUIREMENTS` */
  function Requirements(kind: Kind): seq<FieldSpec> {
    match kind
    case CurveComparison => [FieldSpec(ComparisonPeriod, false, Periods)]
    case StressTest => [FieldSpec(Scenario, false, Scenarios)]
    case ReverseStress => [FieldSpec(TargetLoss, false, FreeText)]
    case LimitCheck => [FieldSpec(LimitAmount, false, FreeText)]
    case RateHistory => [FieldSpec(ObservationPeriod, true, Periods)]
    case Var => [FieldSpec(Portfolio, true, FreeText), FieldSpec(ConfidenceLevel, true, FreeText),
                 FieldSpec(HorizonDays, true, FreeText)]
    case Dv01 => [FieldSpec(Portfolio, true, FreeText)]
    case _ => []
  }

  /** `_NEVER_BLOCKS` */
  predicate NeverBlocks(kind: Kind) {
    kind.CurveSnapshot? || kind.Methodology? || kind.Pricing? || kind.Attribution? || kind.Backtest? || kind.Unknown?
  }

  function DateCount(f: Facts): nat { |(set d | d in f.dates) + (set y | y in f.years)| }

  /** `_satisfied` */
  predicate Satisfied(field: Field, f: Facts) {
    match field
    case ComparisonPeriod => DateCount(f) >= 2 || f.hasPeriod
    case ObservationPeriod => f.dates != [] || f.years != [] || f.hasPeriod
    case Scenario => f.scenario != "" || f.shockBp.Some? || f.dates != [] || f.years != []
    case TargetLoss => f.hasAmount
    case LimitAmount => f.hasAmount
    case Portfolio => f.hasPortfolio
    case ConfidenceLevel => f.confidenceLevel.Some?
    case HorizonDays => f.horizonDays.Some?
  }

  function Unmet(specs: seq<FieldSpec>, f: Facts, defaultable: bool): seq<FieldSpec> {
    if specs == [] then []
    else (if specs[0].defaultable == defaultable && !Satisfied(specs[0].field, f) then [specs[0]] else [])
         + Unmet(specs[1..], f, defaultable)
  }

  // --- the bounds -------------------------------------------------------------

  /** A setting read from the environment. */
  datatype Setting = Unset | Unreadable | Value(n: int)

  function Clamp(n: int, low: nat, high: nat): (r: nat)
    requires low <= high
    ensures low <= r <= high && (low <= n <= high ==> r == n)
  {
    if n < low then low else if n > high then high else n
  }

  function Read(s: Setting, default: nat, low: nat, high: nat): nat
    requires low <= default <= high
  {
    if s.Value? then Clamp(s.n, low, high) else default
  }

  datatype Settings = Settings(enabled: bool, questions: Setting, rounds: Setting)

  function MaxQuestions(s: Settings): nat { Read(s.questions, 3, 1, 5) }

  function MaxRounds(s: Settings): nat { Read(s.rounds, 2, 0, 4) }

  // --- the verdict ------------------------------------------------------------

  datatype Verdict = Verdict(complete: bool, kind: Kind, missing: seq<FieldSpec>, proceededOnDefaults: bool,
                             defaultsApplied: seq<FieldSpec>)

  /** `assess`. `extract` reads the facts out of a question's words. */
  function Assess(s: Settings, extract: string -> Facts, question: string, roundsUsed: nat,
                  alreadyClarified: bool): Verdict {
    var facts := extract(question);
    var kind := KindIn(MARKERS, question);
    var blocking := Unmet(Requirements(kind), facts, false);
    var defaults := Unmet(Requirements(kind), facts, true);
    if !s.enabled then Verdict(true, kind, [], false, [])
    else if NeverBlocks(kind) || blocking == [] then Verdict(true, kind, [], false, defaults)
    else if alreadyClarified && roundsUsed >= MaxRounds(s) then Verdict(true, kind, [], true, defaults + blocking)
    else
      var n := MaxQuestions(s);
      Verdict(false, kind, if |blocking| <= n then blocking else blocking[..n], false, defaults)
  }

  /** The question lacks the one input its kind cannot default. */
  predicate Lacking(f: Facts, kind: Kind) {
    match kind
    case CurveComparison => !f.hasPeriod && DateCount(f) < 2
    case StressTest => f.scenario == "" && f.shockBp.None? && f.dates == [] && f.years == []
    case ReverseStress => !f.hasAmount
    case LimitCheck => !f.hasAmount
    case _ => false
  }

  lemma {:induction false} BlockingIsLacking(kind: Kind, f: Facts)
    ensures Unmet(Requirements(kind), f, false) != [] <==> Lacking(f, kind)
    ensures |Unmet(Requirements(kind), f, false)| <= 1
    ensures Lacking(f, kind) ==> !NeverBlocks(kind)
  {
    var specs := Requirements(kind);
    if specs != [] {
      assert Unmet(specs, f, false)
          == (if !specs[0].defaultable && !Satisfied(specs[0].field, f) then [specs[0]] else [])
             + Unmet(specs[1..], f, false);
      if kind.Var? {
        assert specs[1..][0] == specs[1] && specs[1..][1..] == specs[2..];
        assert specs[2..][0] == specs[2] && specs[2..][1..] == [];
        assert Unmet(specs[2..], f, false) == [];
        assert Unmet(specs[1..], f, false) == [];
      } else {
        assert specs[1..] == [];
      }
    }
  }

  /**
   The gate stops a turn exactly when it is on, the one blocking input is lacking and it may still ask; it asks
   one thing.
   */
  lemma {:induction false} StopsIff(s: Settings, extract: string -> Facts, question: string, roundsUsed: nat,
                                    alreadyClarified: bool)
    ensures var v := Assess(s, extract, question, roundsUsed, alreadyClarified);
            && (!v.complete <==>
                  s.enabled && Lacking(extract(question), KindIn(MARKERS, question))
                  && !(alreadyClarified && roundsUsed >= MaxRounds(s)))
            && (!v.complete ==> |v.missing| == 1)
            && (v.proceededOnDefaults <==>
                  s.enabled && Lacking(extract(question), KindIn(MARKERS, question))
                  && alreadyClarified && roundsUsed >= MaxRounds(s))
  {
    BlockingIsLacking(KindIn(MARKERS, question), extract(question));
  }

  // --- merging an answer into the question ------------------------------------

  /** `f"{original} ({answer.strip()})"` */
  function Joined(original: string, answer: string): string { Trim(original) + " (" + Trim(answer) + ")" }

  /** A marker has at most one space at each end, around a solid core. */
  predicate Shaped(m: string) {
    var a := if m != "" && m[0] == ' ' then 1 else 0;
    var b := if m != "" && m[|m| - 1] == ' ' then |m| - 1 else |m|;
    a < b && Solid(m[a..b])
  }

  lemma {:induction false} OccurrenceAt(hay: string, m: string, i: int, k: int)
    requires OccursAt(hay, m, i) && 0 <= k < |m|
    ensures hay[i + k] == m[k]
  {
    assert hay[i..i + |m|][k] == m[k];
  }

  /** The first and last solid character of a marker. */
  lemma {:induction false} SolidEnds(m: string) returns (a: nat, b: nat)
    requires Shaped(m)
    ensures a < b <= |m| && a <= 1 && |m| - b <= 1
    ensures !IsSpace(m[a]) && !IsSpace(m[b - 1])
    ensures (a == 1 ==> m[0] == ' ') && (b < |m| ==> m[b] == ' ')
  {
    a := if m[0] == ' ' then 1 else 0;
    b := if m[|m| - 1] == ' ' then |m| - 1 else |m|;
    assert m[a] == m[a..b][0] && m[b - 1] == m[a..b][b - a - 1];
  }

  /** Solid characters of an occurrence cannot fall into the white space around the body. */
  lemma {:induction false} SolidFallsInside(before: string, body: string, after: string, p: int)
    requires AllSpace(before) && AllSpace(after) && 0 <= p < |before + body + after|
    requires !IsSpace((before + body + after)[p])
    ensures |before| <= p < |before| + |body| && (before + body + after)[p] == body[p - |before|]
  {
  }

  /** A marker found in a text surrounded by white space is found in the text with one space each side. */
  lemma {:induction false} MarkerFitsPadding(before: string, body: string, after: string, m: string)
    requires AllSpace(before) && AllSpace(after) && Shaped(m)
    requires Contains(before + body + after, m)
    ensures Contains(" " + body + " ", m)
  {
    var hay := before + body + after;
    var a, b := SolidEnds(m);
    var i: int :| 0 <= i <= |hay| && OccursAt(hay, m, i);
    OccurrenceAt(hay, m, i, a);
    OccurrenceAt(hay, m, i, b - 1);
    SolidFallsInside(before, body, after, i + a);
    SolidFallsInside(before, body, after, i + (b - 1));
    ShiftedOccurrence(before, body, after, m, i, a, b);
  }

  lemma {:induction false} ShiftedOccurrence(before: string, body: string, after: string, m: string, i: int, a: nat,
                                             b: nat)
    requires OccursAt(before + body + after, m, i) && |before| <= i + a && i + b <= |before| + |body|
    requires a < b <= |m| && a <= 1 && |m| - b <= 1
    requires (a == 1 ==> m[0] == ' ') && (b < |m| ==> m[b] == ' ')
    ensures Contains(" " + body + " ", m)
  {
    var out, j := " " + body + " ", i - |before| + 1;
    forall k | 0 <= k < |m| ensures out[j + k] == m[k] {
      OccurrenceAt(before + body + after, m, i, k);
      if a <= k < b {
        assert (before + body + after)[i + k] == body[i + k - |before|];
      }
    }
    assert out[j..j + |m|] == m;
    assert OccursAt(out, m, j);
  }

  lemma LowerKeepsSpace(s: string)
    requires AllSpace(s)
    ensures AllSpace(Lower(s))
  {
  }

  lemma {:induction false} PaddedSplits(question: string) returns (before: string, after: string)
    ensures AllSpace(before) && AllSpace(after)
    ensures Padded(question) == before + Lower(Trim(question)) + after
  {
    var u, v := TrimSplits(question);
    LowerConcat(u + Trim(question), v);
    LowerConcat(u, Trim(question));
    LowerKeepsSpace(u);
    LowerKeepsSpace(v);
    before, after := " " + Lower(u), Lower(v) + " ";
  }

  lemma {:induction false} PaddedJoined(question: string, answer: string) returns (after: string)
    ensures Padded(Joined(question, answer)) == "" + (" " + Lower(Trim(question)) + " ") + after
  {
    var rest := "(" + Trim(answer) + ")";
    BracketedAnswer(Trim(question), Trim(answer));
    LowerConcat(Trim(question), " " + rest);
    LowerConcat(" ", rest);
    assert Lower(" ") == " ";
    after := Lower(rest) + " ";
    Respaced(Lower(Trim(question)), Lower(rest));
  }

  lemma {:induction false} BracketedAnswer(q: string, a: string)
    ensures q + " (" + a + ")" == q + (" " + ("(" + a + ")"))
  {
  }

  lemma {:induction false} Respaced(body: string, rest: string)
    ensures " " + (body + (" " + rest)) + " " == "" + (" " + body + " ") + (rest + " ")
  {
  }

  /** A marker in the question is still there once an answer is joined to it. */
  lemma {:induction false} MarkerSurvivesJoining(question: string, answer: string, m: string)
    requires Shaped(m) && Contains(Padded(question), m)
    ensures Contains(Padded(Joined(question, answer)), m)
  {
    var body := Lower(Trim(question));
    var before, after := PaddedSplits(question);
    MarkerFitsPadding(before, body, after, m);
    var rest := PaddedJoined(question, answer);
    ContainsSplit("", " " + body + " ", rest);
    ContainsTransitive("" + (" " + body + " ") + rest, " " + body + " ", m);
  }

  ghost predicate WellShaped(groups: seq<Group>) {
    forall i, j | 0 <= i < |groups| && 0 <= j < |groups[i].markers| :: Shaped(groups[i].markers[j])
  }

  lemma {:induction false} MentionsSurvives(question: string, answer: string, markers: seq<string>)
    requires forall j | 0 <= j < |markers| :: Shaped(markers[j])
    requires Mentions(question, markers)
    ensures Mentions(Joined(question, answer), markers)
  {
    var i :| 0 <= i < |markers| && Contains(Padded(question), markers[i]);
    MarkerSurvivesJoining(question, answer, markers[i]);
  }

  /** Joining an answer never moves the question to a later group. */
  lemma {:induction false} JoiningNeverDemotes(groups: seq<Group>, question: string, answer: string)
    requires WellShaped(groups)
    ensures GroupIndex(groups, Joined(question, answer)) <= GroupIndex(groups, question)
  {
    if groups != [] {
      if Mentions(question, groups[0].markers) {
        MentionsSurvives(question, answer, groups[0].markers);
      } else {
        assert forall i | 0 <= i < |groups[1..]| :: groups[1..][i] == groups[i + 1];
        JoiningNeverDemotes(groups[1..], question, answer);
      }
    }
  }
}
