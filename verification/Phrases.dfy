/** How an identifier is said out loud: `humanise`, its phrase table and its fallback rule. */
module Phrases {
  import opened Options
  import opened Text

  const VERBS: seq<string> := [
    "get_", "list_", "compute_", "run_", "price_", "search_", "export_", "explain_", "brief_", "find_",
    "compare_", "evaluate_", "analyze_", "backtest_"]

  const SUFFIX: string := "_tool"

  type PhraseTable = seq<(string, string)>

  const PARAMETER_PHRASES: PhraseTable := [
    ("shock_bp", "rate shock"),
    ("severity_bp", "scenario severity"),
    ("tenor_months", "curve tenor"),
    ("pivot_tenor_months", "twist pivot tenor"),
    ("target_losses", "list of target losses"),
    ("amber_utilisation_percent", "warning threshold"),
    ("scenario_count", "simulation count"),
    ("top_n", "number of entries to rank")]

  const LISTING_PHRASES: PhraseTable := [
    ("price_portfolio", "portfolio valuation"),
    ("run_stress", "a stress scenario"),
    ("list_portfolios", "the available portfolios"),
    ("list_scenarios", "the available scenarios"),
    ("list_series", "the series catalogue"),
    ("list_datasets", "the dataset catalogue"),
    ("explain_number", "provenance for a number"),
    ("search_series", "a series lookup"),
    ("get_portfolio", "the portfolio contents"),
    ("get_scenario", "a scenario definition"),
    ("brief_dataset_caveat", "a dataset caveat briefing")]

  const ANALYTICS_PHRASES: PhraseTable := [
    ("compute_bond_analytics", "bond analytics"),
    ("compute_carry_roll", "carry and roll-down"),
    ("compute_curve_analytics", "curve analytics"),
    ("compute_rate_volatility", "rate volatility"),
    ("compute_rate_sensitivities", "rate sensitivities"),
    ("compute_risk_contributions", "risk contributions"),
    ("compute_concentration", "risk concentration"),
    ("run_rate_stress", "a rate stress scenario"),
    ("run_key_rate_stress", "a key-rate stress"),
    ("run_shock_ladder", "a shock ladder"),
    ("run_stress_matrix", "the standard stress pack"),
    ("compute_stress_contributions", "stress contributions"),
    ("run_historical_stress", "a historical replay")]

  const RISK_PHRASES: PhraseTable := [
    ("find_worst_historical_stresses", "the worst historical scenarios"),
    ("run_reverse_stress", "reverse stress"),
    ("compute_stress_thresholds", "stress thresholds"),
    ("find_limit_breach_stress", "the limit-breach stress"),
    ("compute_parametric_risk", "parametric VaR"),
    ("compute_monte_carlo_risk", "Monte Carlo VaR")]

  const REPORT_PHRASES: PhraseTable := [
    ("compare_risk_methods", "a comparison of risk methods"),
    ("backtest_var", "VaR backtesting"),
    ("compute_pnl_attribution", "P&L attribution"),
    ("evaluate_risk_limits", "risk limit utilisation"),
    ("compare_portfolio_risk", "a portfolio comparison"),
    ("analyze_hypothetical_trade", "hypothetical trade analysis"),
    ("compute_frtb_girr", "the FRTB GIRR charge")]

  const CONTRACT_PHRASES: PhraseTable := [
    ("available_calculations", "the calculations this system can run"),
    ("retrieval_always_available", "the data it can retrieve"),
    ("unsupported_fields", "the fields it cannot supply"),
    ("unnecessary_fields", "the fields the tool does not read"),
    ("available_fields", "the fields it can supply"),
    ("candidate_fields", "the inputs the method asks for")]

  const PLAN_PHRASES: PhraseTable := [
    ("executable_tools", "the calculations this system can run"),
    ("temporal_constraints", "the period it covers"),
    ("curve_family", "the curve"),
    ("calculation_params", "the calculation's settings"),
    ("open_questions", "what is still undecided"),
    ("row_quote", "the quoted window"),
    ("data_key", "the dataset")]

  /** `_PHRASES`: the names where the mechanical rule would lose the meaning. */
  const PHRASES: PhraseTable :=
    PARAMETER_PHRASES + LISTING_PHRASES + ANALYTICS_PHRASES + RISK_PHRASES + REPORT_PHRASES
    + CONTRACT_PHRASES + PLAN_PHRASES

  function Lookup(table: PhraseTable, name: string): (r: Option<string>)
    ensures r.Some? ==> (name, r.value) in table
  {
    if table == [] then None
    else if table[0].0 == name then Some(table[0].1)
    else Lookup(table[1..], name)
  }

  ghost predicate CleanTable(table: PhraseTable) {
    forall i | 0 <= i < |table| :: '_' !in table[i].1
  }

  /** `_ACRONYMS`, looked up in lower case. */
  function Acronym(word: string): (r: string)
    ensures word != "" ==> r != ""
    ensures '_' !in word ==> '_' !in r
  {
    match Lower(word)
    case "var" => "VaR"
    case "es" => "ES"
    case "dv01" => "DV01"
    case "csv" => "CSV"
    case "cusip" => "CUSIP"
    case "mcp" => "MCP"
    case "pv" => "PV"
    case "id" => "ID"
    case "2s10s" => "2s10s"
    case "girr" => "GIRR"
    case "frtb" => "FRTB"
    case "ytm" => "YTM"
    case "pnl" => "P&L"
    case "krd" => "KRD"
    case "bp" => "bp"
    case _ => word
  }

  predicate EndsWith(text: string, suffix: string) {
    |suffix| <= |text| && text[|text| - |suffix|..] == suffix
  }

  function WithoutSuffix(text: string): string {
    if EndsWith(text, SUFFIX) then text[..|text| - |SUFFIX|] else text
  }

  /** Cut the first verb, in table order, that `text` starts with. */
  function WithoutVerb(text: string, verbs: seq<string>): string {
    if verbs == [] then text
    else if verbs[0] <= text then text[|verbs[0]|..]
    else WithoutVerb(text, verbs[1..])
  }

  function Strip(text: string): string
    decreases |text|
  {
    if text != "" && IsSpace(text[0]) then Strip(text[1..])
    else if text != "" && IsSpace(text[|text| - 1]) then Strip(text[..|text| - 1])
    else text
  }

  /** `text.split("_")` */
  function SplitUnderscores(text: string): (parts: seq<string>)
    ensures parts != []
    ensures forall i | 0 <= i < |parts| :: '_' !in parts[i]
  {
    if text == "" then [""]
    else
      var rest := SplitUnderscores(text[1..]);
      if text[0] == '_' then [""] + rest else [[text[0]] + rest[0]] + rest[1..]
  }

  function NonEmpty(parts: seq<string>): (words: seq<string>)
    ensures forall i | 0 <= i < |words| :: words[i] != "" && words[i] in parts
    ensures words == [] <==> forall i | 0 <= i < |parts| :: parts[i] == ""
  {
    if parts == [] then []
    else if parts[0] == "" then
      assert forall i | 1 <= i < |parts| :: parts[i] == parts[1..][i - 1];
      NonEmpty(parts[1..])
    else [parts[0]] + NonEmpty(parts[1..])
  }

  /** `" ".join(_ACRONYMS.get(w.lower(), w) for w in words)` */
  function Speak(words: seq<string>): (r: string)
    requires forall i | 0 <= i < |words| :: words[i] != "" && '_' !in words[i]
    ensures words == [] <==> r == ""
    ensures '_' !in r
  {
    if words == [] then ""
    else if |words| == 1 then Acronym(words[0])
    else Acronym(words[0]) + " " + Speak(words[1..])
  }

  function Core(name: string): string {
    WithoutVerb(WithoutSuffix(Strip(name)), VERBS)
  }

  function Humanise(table: PhraseTable, name: string): string {
    var bare := WithoutSuffix(Strip(name));
    if Lookup(table, bare).Some? then Lookup(table, bare).value
    else if Lookup(table, name).Some? then Lookup(table, name).value
    else
      var spoken := Speak(NonEmpty(SplitUnderscores(Core(name))));
      if spoken != "" then spoken else name
  }

  /** The verb loop: the first prefix that fits is cut. */
  method CutVerb(text: string, verbs: seq<string>) returns (rest: string)
    ensures rest == WithoutVerb(text, verbs)
  {
    for i := 0 to |verbs|
      invariant WithoutVerb(text, verbs[i..]) == WithoutVerb(text, verbs)
    {
      if verbs[i] <= text {
        return text[|verbs[i]|..];
      }
      assert verbs[i..][1..] == verbs[i + 1..];
    }
    return text;
  }

  /** `humanise` as it runs: `text` is cut at both ends around the lookups. */
  method HumaniseByCutting(table: PhraseTable, name: string) returns (phrase: string)
    ensures phrase == Humanise(table, name)
  {
    var text := Strip(name);
    if EndsWith(text, SUFFIX) {
      text := text[..|text| - |SUFFIX|];
    }
    if Lookup(table, text).Some? {
      return Lookup(table, text).value;
    }
    if Lookup(table, name).Some? {
      return Lookup(table, name).value;
    }
    text := CutVerb(text, VERBS);
    var spoken := Speak(NonEmpty(SplitUnderscores(text)));
    phrase := if spoken != "" then spoken else name;
  }

  // --- when is a phrase free of underscores? ----------------------------------

  lemma {:induction false} WordsExistIff(text: string)
    ensures (forall i | 0 <= i < |SplitUnderscores(text)| :: SplitUnderscores(text)[i] == "")
       <==> forall i | 0 <= i < |text| :: text[i] == '_'
  {
    if text != "" {
      var rest := SplitUnderscores(text[1..]);
      WordsExistIff(text[1..]);
      var parts := SplitUnderscores(text);
      assert forall i | 1 <= i < |text| :: text[i] == text[1..][i - 1];
      assert forall i | 0 <= i < |text[1..]| :: text[1..][i] == text[i + 1];
      if text[0] == '_' {
        assert forall i | 0 <= i < |rest| :: rest[i] == parts[i + 1];
      } else {
        assert parts[0] != "";
      }
    }
  }

  /** The phrase has no underscore exactly when the table knows the name, or something is left to say. */
  lemma {:induction false} PhraseIsCleanIff(table: PhraseTable, name: string)
    requires CleanTable(table)
    ensures '_' !in Humanise(table, name)
       <==> || Lookup(table, WithoutSuffix(Strip(name))).Some?
            || Lookup(table, name).Some?
            || (exists c | c in Core(name) :: c != '_')
            || '_' !in name
  {
    var core := Core(name);
    WordsExistIff(core);
    var words := NonEmpty(SplitUnderscores(core));
    assert words == [] <==> forall c | c in core :: c == '_' by {
      if words == [] {
        assert forall i | 0 <= i < |core| :: core[i] == '_';
      }
      if forall c | c in core :: c == '_' {
        assert forall i | 0 <= i < |core| :: core[i] in core;
      }
    }
  }

  lemma {:induction false} VerbCutKeepsLast(text: string, verbs: seq<string>)
    requires text != "" && text[|text| - 1] != '_'
    requires forall v | v in verbs :: v != "" && v[|v| - 1] == '_'
    ensures WithoutVerb(text, verbs) != ""
    ensures WithoutVerb(text, verbs)[|WithoutVerb(text, verbs)| - 1] == text[|text| - 1]
  {
    if verbs != [] {
      if verbs[0] <= text {
        assert verbs[0] in verbs;
        assert text[|verbs[0]| - 1] == '_';
      } else {
        VerbCutKeepsLast(text, verbs[1..]);
      }
    }
  }

  lemma VerbsEndInUnderscore()
    ensures forall v | v in VERBS :: v != "" && v[|v| - 1] == '_'
  {
  }

  lemma {:induction false} StripKeepsWords(name: string)
    requires name != "" && !IsSpace(name[0]) && !IsSpace(name[|name| - 1])
    ensures Strip(name) == name
  {
  }

  /** An identifier that ends in something other than an underscore, with or without `_tool`. */
  predicate Speakable(name: string) {
    && name != "" && name[|name| - 1] != '_'
    && (EndsWith(name, SUFFIX) ==> |name| > |SUFFIX| && name[|name| - |SUFFIX| - 1] != '_')
  }

  lemma {:induction false} SpeakableAfterCut(name: string, verbs: seq<string>)
    requires Speakable(name) && !IsSpace(name[0]) && !IsSpace(name[|name| - 1])
    requires forall v | v in verbs :: v != "" && v[|v| - 1] == '_'
    ensures exists c | c in WithoutVerb(WithoutSuffix(Strip(name)), verbs) :: c != '_'
  {
    StripKeepsWords(name);
    var bare := WithoutSuffix(name);
    VerbCutKeepsLast(bare, verbs);
    var core := WithoutVerb(bare, verbs);
    assert core[|core| - 1] in core;
  }

  lemma {:induction false} SpeakablePhraseIsClean(table: PhraseTable, name: string)
    requires CleanTable(table)
    requires Speakable(name) && !IsSpace(name[0]) && !IsSpace(name[|name| - 1])
    ensures '_' !in Humanise(table, name)
  {
    VerbsEndInUnderscore();
    SpeakableAfterCut(name, VERBS);
    PhraseIsCleanIff(table, name);
  }

  lemma ParameterTableIsClean() ensures CleanTable(PARAMETER_PHRASES) {}
  lemma ListingTableIsClean() ensures CleanTable(LISTING_PHRASES) {}
  lemma AnalyticsTableIsClean() ensures CleanTable(ANALYTICS_PHRASES) {}
  lemma RiskTableIsClean() ensures CleanTable(RISK_PHRASES) {}
  lemma ReportTableIsClean() ensures CleanTable(REPORT_PHRASES) {}
  lemma ContractTableIsClean() ensures CleanTable(CONTRACT_PHRASES) {}
  lemma PlanTableIsClean() ensures CleanTable(PLAN_PHRASES) {}

  lemma CleanConcat(a: PhraseTable, b: PhraseTable)
    requires CleanTable(a) && CleanTable(b)
    ensures CleanTable(a + b)
  {
  }

  lemma {:induction false} RiskHalfIsClean()
    ensures CleanTable(PARAMETER_PHRASES + LISTING_PHRASES + ANALYTICS_PHRASES + RISK_PHRASES)
  {
    ParameterTableIsClean(); ListingTableIsClean(); AnalyticsTableIsClean(); RiskTableIsClean();
    CleanConcat(PARAMETER_PHRASES, LISTING_PHRASES);
    CleanConcat(PARAMETER_PHRASES + LISTING_PHRASES, ANALYTICS_PHRASES);
    CleanConcat(PARAMETER_PHRASES + LISTING_PHRASES + ANALYTICS_PHRASES, RISK_PHRASES);
  }

  /** The repository's own table contains no underscore on its right-hand side. */
  lemma {:induction false} RealTableIsClean()
    ensures CleanTable(PHRASES)
  {
    var half := PARAMETER_PHRASES + LISTING_PHRASES + ANALYTICS_PHRASES + RISK_PHRASES;
    RiskHalfIsClean(); ReportTableIsClean(); ContractTableIsClean(); PlanTableIsClean();
    CleanConcat(half, REPORT_PHRASES);
    CleanConcat(half + REPORT_PHRASES, CONTRACT_PHRASES);
    CleanConcat(half + REPORT_PHRASES + CONTRACT_PHRASES, PLAN_PHRASES);
  }
}
