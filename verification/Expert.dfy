/** The domain expert's requirements: `_build`, `_revise_uncached` and the rules they apply. */
module Expert {
  import opened Options
  import opened Grounding
  import opened Contracts
  import opened Planning

  const INVARIANT_FIELDS: seq<string> := ["observation_date", "rate_percent", "quote_basis"]

  datatype Tool = Tool(name: string, executable: bool)

  datatype Catalogue = Catalogue(fields: seq<string>, tenors: seq<string>, tools: seq<Tool>)

  /** What stays fixed while the expert works on one question. */
  datatype Desk =
    Desk(chunks: seq<Chunk>, catalogue: Catalogue, requestedRows: Option<int>, requestedFields: seq<string>)

  /** A model's structured answer. `params` is what survived the range checks, `droppedParams` what did not. */
  datatype Payload = Payload(
    task: string,
    answerable: bool,
    unanswerableReason: Option<string>,
    fields: seq<string>,
    candidateFields: seq<string>,
    fieldNotes: seq<FieldNote>,
    rows: Option<int>,
    rowReason: string,
    rowQuote: Option<string>,
    tenors: seq<string>,
    curveFamily: Option<string>,
    temporal: TemporalScope,
    decision: Option<string>,
    openQuestions: seq<string>,
    assumptions: seq<string>,
    limitations: seq<string>,
    calculation: Option<string>,
    params: map<string, Param>,
    droppedParams: seq<string>)

  // --- the rules of `_build` --------------------------------------------------

  predicate QuoteHolds(desk: Desk, p: Payload) { p.rowQuote.Some? && Grounded(p.rowQuote.value, desk.chunks) }

  function KeptRows(desk: Desk, p: Payload): Option<int> { if QuoteHolds(desk, p) then p.rows else None }

  function KeptQuote(desk: Desk, p: Payload): Option<string> {
    if p.rows.Some? && !QuoteHolds(desk, p) then None else p.rowQuote
  }

  function RowWarnings(desk: Desk, p: Payload): seq<Warning> {
    if p.rows.None? then [NoWindowStated]
    else if !QuoteHolds(desk, p) then [UngroundedRows(p.rows.value)]
    else if desk.requestedRows.Some? && desk.requestedRows.value != 0 && p.rows.value != 0
            && desk.requestedRows != p.rows then [RowsDiffer(desk.requestedRows.value, p.rows.value)]
    else []
  }

  /** `[f for f in xs if f in allowed]` */
  function Keep(xs: seq<string>, allowed: seq<string>): (r: seq<string>)
    ensures forall x :: x in r <==> x in xs && x in allowed
  {
    if xs == [] then [] else (if xs[0] in allowed then [xs[0]] else []) + Keep(xs[1..], allowed)
  }

  /** `_strings` */
  function Strings(xs: seq<string>): seq<string> {
    if xs == [] then [] else (if AllSpace(xs[0]) then [] else [xs[0]]) + Strings(xs[1..])
  }

  function Candidates(p: Payload): seq<string> {
    var stated := Strings(p.candidateFields);
    if stated != [] then stated else p.fields
  }

  function StatedFields(desk: Desk, p: Payload, opening: bool): seq<string> {
    Keep(if opening then Candidates(p) else p.fields, desk.catalogue.fields)
  }

  /** The invariant fields that have to be added. */
  function Missing(invariants: seq<string>, available: seq<string>, fields: seq<string>): seq<string> {
    if invariants == [] then []
    else if invariants[0] in available && invariants[0] !in fields then
      [invariants[0]] + Missing(invariants[1..], available, fields + [invariants[0]])
    else Missing(invariants[1..], available, fields)
  }

  function CarriedNotes(names: seq<string>): seq<FieldNote> {
    seq(|names|, i requires 0 <= i < |names| =>
      FieldNote(names[i], Required, "Carried with every rate so observations cannot be mis-combined."))
  }

  function ToolNames(tools: seq<Tool>, executable: bool): seq<string> {
    if tools == [] then []
    else (if tools[0].executable == executable then [tools[0].name] else []) + ToolNames(tools[1..], executable)
  }

  function ExecutableTools(c: Catalogue): seq<string> { ToolNames(c.tools, true) }

  predicate CannotSchedule(desk: Desk, p: Payload) {
    Names(p.calculation) && p.calculation.value !in ExecutableTools(desk.catalogue)
  }

  function KeptCalculation(desk: Desk, p: Payload): Option<string> {
    if CannotSchedule(desk, p) then None else p.calculation
  }

  function Dropped(names: seq<string>): seq<Warning> {
    seq(|names|, i requires 0 <= i < |names| => ParameterDropped(names[i]))
  }

  function CalculationWarnings(desk: Desk, p: Payload): seq<Warning> {
    (if !CannotSchedule(desk, p) then []
     else if p.calculation.value in ToolNames(desk.catalogue.tools, false)
     then [DescribesARetrieval(p.calculation.value)]
     else [CannotBeExecuted(p.calculation.value)])
    + Dropped(p.droppedParams)
    + if p.params.Keys != {} && !Names(KeptCalculation(desk, p)) then [SettingsWithoutCalculation(p.params.Keys)]
      else []
  }

  function Family(p: Payload): string {
    if p.curveFamily == Some("real") || p.curveFamily == Some("ambiguous") then p.curveFamily.value else "nominal"
  }

  /** `_resolve_answerability`: is there anything to serve? */
  predicate Answerable(desk: Desk, p: Payload) {
    p.answerable || Keep(desk.requestedFields, desk.catalogue.fields) != [] || Names(KeptCalculation(desk, p))
  }

  function ReadDecision(text: Option<string>): Stated {
    if text == Some("AGREED") then States(Agreed)
    else if text == Some("NEEDS_USER_INPUT") then States(NeedsUserInput)
    else if text == Some("UNSUPPORTED") then States(Unsupported)
    else if text == Some("CANNOT_REACH_AGREEMENT") then States(CannotReachAgreement)
    else Silent
  }

  function StatedDecision(p: Payload, opening: bool): Stated {
    if opening then Silent else ReadDecision(p.decision)
  }

  function Labels(chunks: seq<Chunk>): seq<string> { seq(|chunks|, i requires 0 <= i < |chunks| => chunks[i].lbl) }

  function Build(desk: Desk, p: Payload, opening: bool): Plan {
    var stated := StatedFields(desk, p, opening);
    var carried := Missing(INVARIANT_FIELDS, desk.catalogue.fields, stated);
    var overridden := !p.answerable && Answerable(desk, p);
    var decision := StatedDecision(p, opening);
    Plan(task := p.task,
         answerable := Answerable(desk, p),
         fields := stated + carried,
         fieldNotes := p.fieldNotes + CarriedNotes(carried),
         rows := KeptRows(desk, p),
         rowReason := p.rowReason,
         rowQuote := KeptQuote(desk, p),
         grounded := QuoteHolds(desk, p),
         tenors := Keep(p.tenors, desk.catalogue.tenors),
         curveFamily := Family(p),
         temporal := p.temporal,
         decision := decision,
         isHypothesis := decision.Silent?,
         candidateFields := Candidates(p),
         openQuestions := if decision.Silent? then Strings(p.openQuestions) else [],
         assumptions := Strings(p.assumptions),
         limitations := Strings(p.limitations),
         calculation := KeptCalculation(desk, p),
         params := p.params,
         unanswerableReason := if overridden then None else p.unanswerableReason,
         blockedBy := "",
         citations := Labels(desk.chunks),
         warnings := RowWarnings(desk, p) + CalculationWarnings(desk, p)
                     + if overridden then [AnswerabilityOverridden] else [])
  }

  /** What `_keep_ambiguity` makes of a revision. */
  function KeepAmbiguity(proposal: Plan, revised: Plan): Plan {
    if proposal.curveFamily == "ambiguous" && revised.curveFamily != "ambiguous" then
      revised.(curveFamily := "ambiguous", warnings := revised.warnings + [FamilyStaysAmbiguous])
    else revised
  }

  /** A revision: no answer leaves the same object behind, with a warning in it. */
  function ReviseReply(desk: Desk, proposal: Plan, answer: Option<Payload>): Reply {
    if answer.None? then SameObject(proposal.(warnings := proposal.warnings + [CouldNotRevise]))
    else AnotherObject(proposal, KeepAmbiguity(proposal, Build(desk, answer.value, false)))
  }

  // --- the same, on the objects -----------------------------------------------

  /** The invariant-field loop of `_build`. */
  method CarryInvariants(available: seq<string>, stated: seq<string>, notes: seq<FieldNote>)
    returns (fields: seq<string>, allNotes: seq<FieldNote>)
    ensures fields == stated + Missing(INVARIANT_FIELDS, available, stated)
    ensures allNotes == notes + CarriedNotes(Missing(INVARIANT_FIELDS, available, stated))
  {
    fields, allNotes := stated, notes;
    ghost var todo := Missing(INVARIANT_FIELDS, available, stated);
    ghost var done := [];
    for i := 0 to |INVARIANT_FIELDS|
      invariant fields == stated + done && allNotes == notes + CarriedNotes(done)
      invariant todo == done + Missing(INVARIANT_FIELDS[i..], available, fields)
    {
      var name := INVARIANT_FIELDS[i];
      assert INVARIANT_FIELDS[i..][1..] == INVARIANT_FIELDS[i + 1..];
      if name in available && name !in fields {
        fields := fields + [name];
        allNotes := allNotes
          + [FieldNote(name, Required, "Carried with every rate so observations cannot be mis-combined.")];
        assert CarriedNotes(done + [name]) == CarriedNotes(done)
          + [FieldNote(name, Required, "Carried with every rate so observations cannot be mis-combined.")];
        done := done + [name];
      }
    }
  }

  /** The row checks of `_build`: what is left of the window and its quote, and what is said of them. */
  method CheckRows(desk: Desk, p: Payload) returns (rows: Option<int>, quote: Option<string>, warnings: seq<Warning>)
    ensures rows == KeptRows(desk, p) && quote == KeptQuote(desk, p) && warnings == RowWarnings(desk, p)
  {
    var grounded := QuoteHolds(desk, p);
    rows, quote, warnings := p.rows, p.rowQuote, [];
    if rows.Some? && !grounded {
      warnings := warnings + [UngroundedRows(rows.value)];
      rows, quote := None, None;
    } else if rows.None? {
      warnings := warnings + [NoWindowStated];
    }
    if desk.requestedRows.Some? && desk.requestedRows.value != 0 && rows.Some? && rows.value != 0
       && desk.requestedRows != rows {
      warnings := warnings + [RowsDiffer(desk.requestedRows.value, rows.value)];
    }
  }

  /** The calculation checks of `_build`. */
  method CheckCalculation(desk: Desk, p: Payload, before: seq<Warning>)
    returns (calculation: Option<string>, warnings: seq<Warning>)
    ensures calculation == KeptCalculation(desk, p) && warnings == before + CalculationWarnings(desk, p)
  {
    calculation, warnings := p.calculation, before;
    if Names(calculation) && calculation.value !in ExecutableTools(desk.catalogue) {
      warnings := warnings
        + [if calculation.value in ToolNames(desk.catalogue.tools, false) then DescribesARetrieval(calculation.value)
           else CannotBeExecuted(calculation.value)];
      calculation := None;
    }
    for i := 0 to |p.droppedParams|
      invariant warnings == before + (if CannotSchedule(desk, p) then CalculationWarnings(desk, p)[..1] else [])
                + Dropped(p.droppedParams[..i])
    {
      warnings := warnings + [ParameterDropped(p.droppedParams[i])];
      assert Dropped(p.droppedParams[..i + 1])
          == Dropped(p.droppedParams[..i]) + [ParameterDropped(p.droppedParams[i])];
    }
    assert p.droppedParams[..|p.droppedParams|] == p.droppedParams;
    if p.params.Keys != {} && !Names(calculation) {
      warnings := warnings + [SettingsWithoutCalculation(p.params.Keys)];
    }
  }

  /** `_build`, putting one requirement together step by step. */
  method BuildRequirement(desk: Desk, p: Payload, opening: bool) returns (requirement: Requirement)
    ensures fresh(requirement) && requirement.plan == Build(desk, p, opening)
  {
    var rows, quote, warnings := CheckRows(desk, p);
    var stated := StatedFields(desk, p, opening);
    var fields, notes := CarryInvariants(desk.catalogue.fields, stated, p.fieldNotes);
    var calculation;
    calculation, warnings := CheckCalculation(desk, p, warnings);
    var answerable, reason := p.answerable, p.unanswerableReason;
    if !answerable && (Keep(desk.requestedFields, desk.catalogue.fields) != [] || Names(calculation)) {
      answerable, reason := true, None;
      warnings := warnings + [AnswerabilityOverridden];
    }
    var decision := if opening then Silent else ReadDecision(p.decision);
    requirement := new Requirement(
      Plan(p.task, answerable, fields, notes, rows, p.rowReason, quote, QuoteHolds(desk, p),
           Keep(p.tenors, desk.catalogue.tenors), Family(p), p.temporal, decision, decision.Silent?, Candidates(p),
           if decision.Silent? then Strings(p.openQuestions) else [], Strings(p.assumptions), Strings(p.limitations),
           calculation, p.params, reason, "", Labels(desk.chunks), warnings));
  }

  /** `_keep_ambiguity` */
  method RestoreAmbiguity(proposal: Requirement, revised: Requirement)
    requires proposal != revised
    modifies revised
    ensures revised.plan == KeepAmbiguity(proposal.plan, old(revised.plan))
  {
    if proposal.plan.curveFamily == "ambiguous" && revised.plan.curveFamily != "ambiguous" {
      revised.plan := revised.plan.(curveFamily := "ambiguous");
      revised.Warn(FamilyStaysAmbiguous);
    }
  }

  /** `_revise_uncached`: without an answer the proposal itself comes back, changed in place. */
  method ReviseRequirement(desk: Desk, proposal: Requirement, answer: Option<Payload>) returns (revised: Requirement)
    modifies proposal
    ensures revised == proposal <==> answer.None?
    ensures proposal.plan == ProposalAfter(ReviseReply(desk, old(proposal.plan), answer))
    ensures revised.plan == Revised(ReviseReply(desk, old(proposal.plan), answer))
  {
    if answer.None? {
      proposal.Warn(CouldNotRevise);
      return proposal;
    }
    revised := BuildRequirement(desk, answer.value, false);
    RestoreAmbiguity(proposal, revised);
  }

  // --- what every requirement from `_build` satisfies -------------------------

  /** The plan asks only for what is published and computable, and any row count it has is cited. */
  ghost predicate Servable(desk: Desk, q: Plan) {
    && (q.rows.Some? ==> q.grounded && q.rowQuote.Some? && Grounded(q.rowQuote.value, desk.chunks))
    && (forall f | f in q.fields :: f in desk.catalogue.fields)
    && (forall f | f in INVARIANT_FIELDS && f in desk.catalogue.fields :: f in q.fields)
    && (forall t | t in q.tenors :: t in desk.catalogue.tenors)
    && (Names(q.calculation) ==> q.calculation.value in ExecutableTools(desk.catalogue))
  }

  /** The decision and the marks that go with it agree. */
  predicate Coherent(q: Plan) {
    && !q.decision.Unrecognised?
    && q.isHypothesis == q.decision.Silent?
    && (q.openQuestions != [] ==> q.decision.Silent?)
    && (q.curveFamily == "nominal" || q.curveFamily == "real" || q.curveFamily == "ambiguous")
    && q.blockedBy == ""
  }

  lemma {:induction false} MissingKeeps(invariants: seq<string>, available: seq<string>, fields: seq<string>)
    ensures var more := Missing(invariants, available, fields);
            && (forall f | f in more :: f in available)
            && (forall f | f in invariants && f in available :: f in fields || f in more)
    decreases |invariants|
  {
    if invariants != [] {
      var first, rest := invariants[0], invariants[1..];
      assert invariants == [first] + rest;
      if first in available && first !in fields {
        MissingKeeps(rest, available, fields + [first]);
      } else {
        MissingKeeps(rest, available, fields);
      }
    }
  }

  lemma {:induction false} BuiltIsServable(desk: Desk, p: Payload, opening: bool)
    ensures Servable(desk, Build(desk, p, opening))
  {
    MissingKeeps(INVARIANT_FIELDS, desk.catalogue.fields, StatedFields(desk, p, opening));
  }

  lemma BuiltIsCoherent(desk: Desk, p: Payload, opening: bool)
    ensures Coherent(Build(desk, p, opening))
  {
  }

  lemma {:induction false} RevisionIsServable(desk: Desk, proposal: Plan, answer: Option<Payload>)
    requires Servable(desk, proposal) && Coherent(proposal)
    ensures Servable(desk, Revised(ReviseReply(desk, proposal, answer)))
    ensures Coherent(Revised(ReviseReply(desk, proposal, answer)))
  {
    if answer.Some? {
      BuiltIsServable(desk, answer.value, false);
      BuiltIsCoherent(desk, answer.value, false);
    }
  }

  lemma SettlingKeepsServable(desk: Desk, q: Plan)
    requires Servable(desk, q) && Coherent(q)
    ensures Servable(desk, Settled(q)) && Coherent(Settled(q))
  {
  }
}
