/** Does a result match the plan that was agreed? The mechanical half of result validation. */
module Validation {
  import opened Options
  import opened Text
  import opened Contracts
  import opened Rounding
  import opened Grounding

  /** What a plan states or a result reports. */
  datatype Scalar = Absent | Truth(b: bool) | Quantity(q: real) | Words(text: string)

  /** What two scalars are compared by. Python holds `True == 1.0`, so a truth value compares as a number. */
  datatype Comparable = Nothing | Amount(q: real) | Phrase(text: string)

  /** `round(x, 9)` */
  function RoundNano(x: real): real { Round(x * 1000000000.0) as real / 1000000000.0 }

  /** `_comparable`, given how this platform reads a number out of a text. */
  function AsComparable(v: Scalar, parse: string -> Option<real>): Comparable {
    match v
    case Absent => Nothing
    case Truth(b) => Amount(if b then 1.0 else 0.0)
    case Quantity(q) => Amount(RoundNano(q))
    case Words(text) =>
      if parse(text).Some? then Amount(RoundNano(parse(text).value)) else Phrase(Lower(Trim(text)))
  }

  predicate Same(a: Scalar, b: Scalar, parse: string -> Option<real>) {
    AsComparable(a, parse) == AsComparable(b, parse)
  }

  /** A calculation as it came back. `hasResult` and `hasUnits` describe its result record. */
  datatype Calculation = Calculation(tool: Scalar, error: string, hasResult: bool, hasUnits: bool,
                                     horizonDays: Scalar, confidenceLevel: Scalar, tradingDays: Scalar)

  datatype Finding =
    | NothingCameBack(agreed: string)
    | CalculationFailed(error: string)
    | Differs(name: string, expected: Scalar, actual: Scalar)
    | NoUnits

  datatype ResultVerdict = Valid | ValidWithWarnings | Invalid

  datatype ResultValidation = ResultValidation(verdict: ResultVerdict, mismatches: seq<Finding>, warnings: seq<Finding>)

  predicate Blocking(v: ResultValidation) { v.verdict == Invalid }

  /** A stated parameter, as the plan holds it. The two that are compared are always numbers. */
  function Stated(p: Plan, name: string): Scalar {
    if name !in p.params then Absent
    else
      match p.params[name]
      case Number(v) => Quantity(v)
      case Word(w) => Words(w)
      case Amounts(_) => Words("")
  }

  function AgreedTool(p: Plan): Scalar { if p.calculation.Some? then Words(p.calculation.value) else Absent }

  /** `if value`: absence, zero, false and the empty text are all false. */
  predicate Truthy(v: Scalar) {
    match v
    case Absent => false
    case Truth(b) => b
    case Quantity(q) => q != 0.0
    case Words(text) => text != ""
  }

  /** The nested `check`: an absent expectation is not checked. */
  function Check(name: string, expected: Scalar, actual: Scalar, parse: string -> Option<real>): seq<Finding> {
    if expected.Absent? || Same(expected, actual, parse) then [] else [Differs(name, expected, actual)]
  }

  /** The checks of a calculation that came back, each adding to one of two lists. */
  method CheckCalculation(p: Plan, c: Calculation, parse: string -> Option<real>)
    returns (mismatches: seq<Finding>, warnings: seq<Finding>)
    ensures mismatches == CalculationMismatches(p, c, parse) && warnings == CalculationWarnings(p, c, parse)
  {
    mismatches, warnings := [], [];
    if c.error != "" {
      mismatches := mismatches + [CalculationFailed(c.error)];
    }
    mismatches := mismatches + Check("calculation", AgreedTool(p), c.tool, parse);
    mismatches := mismatches + Check("horizon_days", Stated(p, "horizon_days"), c.horizonDays, parse);
    mismatches := mismatches + Check("confidence_level", Stated(p, "confidence_level"), c.confidenceLevel, parse);
    if p.rows.Some? && p.rows.value != 0 && Truthy(c.tradingDays) {
      warnings := warnings + Check("lookback", Quantity(p.rows.value as real), c.tradingDays, parse);
    }
    if c.hasResult && !c.hasUnits {
      warnings := warnings + [NoUnits];
    }
  }

  /** The mechanical checks as they run. */
  method ValidateResult(p: Plan, calculation: Option<Calculation>, delivered: Option<string>,
                        parse: string -> Option<real>)
    returns (v: ResultValidation)
    ensures v == Judge(p, calculation, delivered, parse)
    ensures Blocking(v) <==> !Honours(p, calculation, delivered, parse)
  {
    var mismatches: seq<Finding>, warnings: seq<Finding> := [], [];
    if Names(p.calculation) && calculation.None? {
      mismatches := mismatches + [NothingCameBack(p.calculation.value)];
    } else if calculation.Some? {
      mismatches, warnings := CheckCalculation(p, calculation.value, parse);
    }
    mismatches := mismatches + DateMismatches(p, delivered, parse);
    v := ResultValidation(if mismatches != [] then Invalid else if warnings != [] then ValidWithWarnings else Valid,
                          mismatches, warnings);
    JudgeIsExact(p, calculation, delivered, parse);
  }

  // --- the specification ------------------------------------------------------

  function CalculationMismatches(p: Plan, c: Calculation, parse: string -> Option<real>): seq<Finding> {
    (if c.error != "" then [CalculationFailed(c.error)] else [])
    + Check("calculation", AgreedTool(p), c.tool, parse)
    + Check("horizon_days", Stated(p, "horizon_days"), c.horizonDays, parse)
    + Check("confidence_level", Stated(p, "confidence_level"), c.confidenceLevel, parse)
  }

  function DateMismatches(p: Plan, delivered: Option<string>, parse: string -> Option<real>): seq<Finding> {
    if Names(p.temporal.asOf) && Names(delivered) then
      Check("as_of_date", Words(p.temporal.asOf.value), Words(delivered.value), parse)
    else []
  }

  function Mismatches(p: Plan, calculation: Option<Calculation>, delivered: Option<string>,
                      parse: string -> Option<real>): seq<Finding> {
    (if Names(p.calculation) && calculation.None? then [NothingCameBack(p.calculation.value)]
     else if calculation.None? then []
     else CalculationMismatches(p, calculation.value, parse))
    + DateMismatches(p, delivered, parse)
  }

  function CalculationWarnings(p: Plan, c: Calculation, parse: string -> Option<real>): seq<Finding> {
    (if p.rows.Some? && p.rows.value != 0 && Truthy(c.tradingDays)
     then Check("lookback", Quantity(p.rows.value as real), c.tradingDays, parse) else [])
    + if c.hasResult && !c.hasUnits then [NoUnits] else []
  }

  function Warnings(p: Plan, calculation: Option<Calculation>, parse: string -> Option<real>): seq<Finding> {
    if calculation.None? then [] else CalculationWarnings(p, calculation.value, parse)
  }

  function Judge(p: Plan, calculation: Option<Calculation>, delivered: Option<string>,
                 parse: string -> Option<real>): ResultValidation {
    var mismatches, warnings := Mismatches(p, calculation, delivered, parse), Warnings(p, calculation, parse);
    ResultValidation(if mismatches != [] then Invalid else if warnings != [] then ValidWithWarnings else Valid,
                     mismatches, warnings)
  }

  /** A calculation that is what the plan agreed: it ran, under its name, at every stated horizon and level. */
  predicate Delivers(p: Plan, c: Calculation, parse: string -> Option<real>) {
    && c.error == ""
    && (p.calculation.Some? ==> Same(Words(p.calculation.value), c.tool, parse))
    && (!Stated(p, "horizon_days").Absent? ==> Same(Stated(p, "horizon_days"), c.horizonDays, parse))
    && (!Stated(p, "confidence_level").Absent? ==> Same(Stated(p, "confidence_level"), c.confidenceLevel, parse))
  }

  /** The result honours the plan: what was to be computed was, and a named day is the day delivered. */
  predicate Honours(p: Plan, calculation: Option<Calculation>, delivered: Option<string>,
                    parse: string -> Option<real>) {
    && (Names(p.calculation) ==> calculation.Some?)
    && (calculation.Some? ==> Delivers(p, calculation.value, parse))
    && (Names(p.temporal.asOf) && Names(delivered) ==>
          Same(Words(p.temporal.asOf.value), Words(delivered.value), parse))
  }

  /** A result is let through exactly when it honours the plan. */
  lemma JudgeIsExact(p: Plan, calculation: Option<Calculation>, delivered: Option<string>,
                     parse: string -> Option<real>)
    ensures Blocking(Judge(p, calculation, delivered, parse)) <==> !Honours(p, calculation, delivered, parse)
  {
  }

  // --- what "the same" means --------------------------------------------------

  lemma {:induction false} NanoIsNear(x: real)
    ensures x - 0.0000000005 <= RoundNano(x) <= x + 0.0000000005
  {
    RoundIsNear(x * 1000000000.0);
  }

  /** The number a scalar is read as, if it is read as one. */
  function Reading(v: Scalar, parse: string -> Option<real>): Option<real> {
    match v
    case Absent => None
    case Truth(b) => Some(if b then 1.0 else 0.0)
    case Quantity(q) => Some(q)
    case Words(text) => parse(text)
  }

  lemma {:induction false} WholeIsItself(n: int)
    ensures RoundNano(n as real) == n as real
  {
    RoundOfWhole(n as real * 1000000000.0);
  }

  /**
   What is equated, exactly: two absences; two values read as numbers that round to the same billionth; two texts
   neither of which reads as a number, alike once trimmed and lower-cased. Numbers so equated are within a
   billionth of each other.
   */
  lemma {:induction false} SameIff(a: Scalar, b: Scalar, parse: string -> Option<real>)
    ensures Same(a, b, parse) <==>
              || (a.Absent? && b.Absent?)
              || (Reading(a, parse).Some? && Reading(b, parse).Some?
                  && RoundNano(Reading(a, parse).value) == RoundNano(Reading(b, parse).value))
              || (a.Words? && b.Words? && Reading(a, parse).None? && Reading(b, parse).None?
                  && Lower(Trim(a.text)) == Lower(Trim(b.text)))
    ensures Same(a, b, parse) && Reading(a, parse).Some? ==>
              && Reading(b, parse).Some?
              && -0.000000001 <= Reading(a, parse).value - Reading(b, parse).value <= 0.000000001
  {
    WholeIsItself(0);
    WholeIsItself(1);
    if Reading(a, parse).Some? {
      NanoIsNear(Reading(a, parse).value);
    }
    if Reading(b, parse).Some? {
      NanoIsNear(Reading(b, parse).value);
    }
  }

  /** Comparing a value with its rounding changes nothing: a number, and any text that reads as it, are one. */
  lemma {:induction false} TextsThatReadAlike(x: real, text: string, parse: string -> Option<real>)
    requires parse(text) == Some(x)
    ensures Same(Quantity(x), Words(text), parse) && Same(Quantity(RoundNano(x)), Words(text), parse)
  {
    RoundOfWhole(RoundNano(x) * 1000000000.0);
  }
}
