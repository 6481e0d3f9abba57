/** The gate over a whole conversation: how often it may stop, and what question it carries. */
module Clarification {
  import opened Options
  import opened Text
  import opened Grounding
  import opened Preflight

  // --- the real markers -------------------------------------------------------

  lemma ShapedReverseStress()
    ensures forall j | 0 <= j < |MARKERS[0].markers| :: Shaped(MARKERS[0].markers[j])
  {
    var m := MARKERS[0].markers;
    assert |m| == 6;
    assert Shaped(m[0]) && Shaped(m[1]) && Shaped(m[2]) && Shaped(m[3]);
    assert Shaped(m[4]) && Shaped(m[5]);
  }

  lemma ShapedLimitCheck()
    ensures forall j | 0 <= j < |MARKERS[1].markers| :: Shaped(MARKERS[1].markers[j])
  {
    var m := MARKERS[1].markers;
    assert |m| == 6;
    assert Shaped(m[0]) && Shaped(m[1]) && Shaped(m[2]) && Shaped(m[3]);
    assert Shaped(m[4]) && Shaped(m[5]);
  }

  lemma ShapedBacktest()
    ensures forall j | 0 <= j < |MARKERS[2].markers| :: Shaped(MARKERS[2].markers[j])
  {
    var m := MARKERS[2].markers;
    assert |m| == 4;
    assert Shaped(m[0]) && Shaped(m[1]) && Shaped(m[2]) && Shaped(m[3]);
  }

  lemma ShapedStressTest()
    ensures forall j | 0 <= j < |MARKERS[3].markers| :: Shaped(MARKERS[3].markers[j])
  {
    var m := MARKERS[3].markers;
    assert |m| == 6;
    assert Shaped(m[0]) && Shaped(m[1]) && Shaped(m[2]) && Shaped(m[3]);
    assert Shaped(m[4]) && Shaped(m[5]);
  }

  lemma ShapedVar()
    ensures forall j | 0 <= j < |MARKERS[4].markers| :: Shaped(MARKERS[4].markers[j])
  {
    var m := MARKERS[4].markers;
    assert |m| == 6;
    assert Shaped(m[0]) && Shaped(m[1]) && Shaped(m[2]) && Shaped(m[3]);
    assert Shaped(m[4]) && Shaped(m[5]);
  }

  lemma ShapedDv01()
    ensures forall j | 0 <= j < |MARKERS[5].markers| :: Shaped(MARKERS[5].markers[j])
  {
    var m := MARKERS[5].markers;
    assert |m| == 9;
    assert Shaped(m[0]) && Shaped(m[1]) && Shaped(m[2]) && Shaped(m[3]);
    assert Shaped(m[4]) && Shaped(m[5]) && Shaped(m[6]) && Shaped(m[7]);
    assert Shaped(m[8]);
  }

  lemma ShapedAttribution()
    ensures forall j | 0 <= j < |MARKERS[6].markers| :: Shaped(MARKERS[6].markers[j])
  {
    var m := MARKERS[6].markers;
    assert |m| == 7;
    assert Shaped(m[0]) && Shaped(m[1]) && Shaped(m[2]) && Shaped(m[3]);
    assert Shaped(m[4]) && Shaped(m[5]) && Shaped(m[6]);
  }

  lemma ShapedPricing()
    ensures forall j | 0 <= j < |MARKERS[7].markers| :: Shaped(MARKERS[7].markers[j])
  {
    var m := MARKERS[7].markers;
    assert |m| == 7;
    assert Shaped(m[0]) && Shaped(m[1]) && Shaped(m[2]) && Shaped(m[3]);
    assert Shaped(m[4]) && Shaped(m[5]) && Shaped(m[6]);
  }

  lemma ShapedCurveComparison()
    ensures forall j | 0 <= j < |MARKERS[8].markers| :: Shaped(MARKERS[8].markers[j])
  {
    var m := MARKERS[8].markers;
    assert |m| == 15;
    assert Shaped(m[0]) && Shaped(m[1]) && Shaped(m[2]) && Shaped(m[3]);
    assert Shaped(m[4]) && Shaped(m[5]) && Shaped(m[6]) && Shaped(m[7]);
    assert Shaped(m[8]) && Shaped(m[9]) && Shaped(m[10]) && Shaped(m[11]);
    assert Shaped(m[12]) && Shaped(m[13]) && Shaped(m[14]);
  }

  lemma ShapedRateHistory()
    ensures forall j | 0 <= j < |MARKERS[9].markers| :: Shaped(MARKERS[9].markers[j])
  {
    var m := MARKERS[9].markers;
    assert |m| == 9;
    assert Shaped(m[0]) && Shaped(m[1]) && Shaped(m[2]) && Shaped(m[3]);
    assert Shaped(m[4]) && Shaped(m[5]) && Shaped(m[6]) && Shaped(m[7]);
    assert Shaped(m[8]);
  }

  lemma ShapedCurveSnapshot()
    ensures forall j | 0 <= j < |MARKERS[10].markers| :: Shaped(MARKERS[10].markers[j])
  {
    var m := MARKERS[10].markers;
    assert |m| == 8;
    assert Shaped(m[0]) && Shaped(m[1]) && Shaped(m[2]) && Shaped(m[3]);
    assert Shaped(m[4]) && Shaped(m[5]) && Shaped(m[6]) && Shaped(m[7]);
  }

  lemma ShapedMethodology()
    ensures forall j | 0 <= j < |MARKERS[11].markers| :: Shaped(MARKERS[11].markers[j])
  {
    var m := MARKERS[11].markers;
    assert |m| == 10;
    assert Shaped(m[0]) && Shaped(m[1]) && Shaped(m[2]) && Shaped(m[3]);
    assert Shaped(m[4]) && Shaped(m[5]) && Shaped(m[6]) && Shaped(m[7]);
    assert Shaped(m[8]) && Shaped(m[9]);
  }

  /** So joining an answer never moves a question to a later group of the real table. */
  lemma {:induction false} RealMarkersAreShaped()
    ensures WellShaped(MARKERS)
  {
    ShapedReverseStress();
    ShapedLimitCheck();
    ShapedBacktest();
    ShapedStressTest();
    ShapedVar();
    ShapedDv01();
    ShapedAttribution();
    ShapedPricing();
    ShapedCurveComparison();
    ShapedRateHistory();
    ShapedCurveSnapshot();
    ShapedMethodology();
  }

  // --- one turn at the gate ---------------------------------------------------

  /** What the service keeps for the next turn. */
  datatype Pending = Pending(question: string, rounds: nat)

  /** `_merge_clarification` */
  function Merge(text: string, pending: Option<Pending>): (string, nat) {
    if pending.None? then (text, 0)
    else if Trim(pending.value.question) == "" then (text, pending.value.rounds)
    else (Joined(pending.value.question, text), pending.value.rounds)
  }

  /** The fixed surroundings of a conversation: the gate's settings, and how facts are read from words. */
  datatype Surroundings = Surroundings(settings: Settings, extract: string -> Facts)

  /** What a data-request turn leaves pending when the gate stops it. */
  function StopAtGate(w: Surroundings, text: string, alreadyClarified: bool,
                      pending: Option<Pending>): Option<Pending> {
    var (question, rounds) := Merge(text, pending);
    var verdict := Assess(w.settings, w.extract, question, rounds, alreadyClarified || pending.Some?);
    if verdict.complete then None else Some(Pending(question, rounds + 1))
  }

  /** What is pending after these messages, if every one of them was stopped at the gate. */
  function AfterStops(w: Surroundings, first: bool, texts: seq<string>): Option<Pending>
    requires texts != []
  {
    var n := |texts| - 1;
    if n == 0 then StopAtGate(w, texts[0], first, None)
    else
      var before := AfterStops(w, first, texts[..n]);
      if before.None? then None else StopAtGate(w, texts[n], true, before)
  }

  predicate Lacks(w: Surroundings, question: string) {
    w.settings.enabled && Lacking(w.extract(question), KindIn(MARKERS, question))
  }

  /** The original question followed by every answer, in order. */
  function Carried(texts: seq<string>): string
    requires texts != []
  {
    var n := |texts| - 1;
    if n == 0 then texts[0] else Trim(texts[0]) + Answers(texts[1..])
  }

  function Answers(answers: seq<string>): string {
    if answers == [] then "" else Answers(answers[..|answers| - 1]) + " (" + Trim(answers[|answers| - 1]) + ")"
  }

  function Bound(s: Settings): nat { if MaxRounds(s) > 1 then MaxRounds(s) else 1 }

  lemma {:induction false} MarkerIsNotSpace(hay: string, m: string)
    requires Shaped(m) && Contains(hay, m)
    ensures !AllSpace(hay)
  {
    var i: int :| 0 <= i <= |hay| && OccursAt(hay, m, i);
    var a := if m[0] == ' ' then 1 else 0;
    var b := if m[|m| - 1] == ' ' then |m| - 1 else |m|;
    assert m[a..b][0] == m[a];
    assert hay[i..i + |m|][a] == hay[i + a];
  }

  lemma PaddingAddsOnlySpace(text: string)
    ensures AllSpace(text) ==> AllSpace(Padded(text))
  {
  }

  lemma {:induction false} MentionIsNotBlank(text: string, markers: seq<string>)
    requires Mentions(text, markers) && forall j | 0 <= j < |markers| :: Shaped(markers[j])
    ensures !AllSpace(text)
  {
    var i :| 0 <= i < |markers| && Contains(Padded(text), markers[i]);
    MarkerIsNotSpace(Padded(text), markers[i]);
    PaddingAddsOnlySpace(text);
  }

  lemma {:induction false} BlankMatchesNoGroup(groups: seq<Group>, text: string)
    requires AllSpace(text) && WellShaped(groups)
    ensures KindIn(groups, text) == Unknown && GroupIndex(groups, text) == |groups|
  {
    if groups != [] {
      if Mentions(text, groups[0].markers) {
        MentionIsNotBlank(text, groups[0].markers);
      }
      assert forall i | 0 <= i < |groups[1..]| :: groups[1..][i] == groups[i + 1];
      BlankMatchesNoGroup(groups[1..], text);
    }
  }

  /** A question the gate stops is never blank. */
  lemma {:induction false} LackingIsNotBlank(w: Surroundings, question: string)
    requires Lacks(w, question)
    ensures Trim(question) != "" && Solid(Trim(question))
  {
    var u, v := TrimSplits(question);
    if Trim(question) == "" {
      assert question == u + v;
      RealMarkersAreShaped();
      BlankMatchesNoGroup(MARKERS, question);
      assert false;
    }
  }

  lemma {:induction false} TrimOfSolid(s: string)
    requires Solid(s)
    ensures Trim(s) == s
  {
    TrimKeepsCore("", s, "");
    assert "" + s + "" == s;
  }

  lemma {:induction false} CarriedParts(texts: seq<string>)
    requires |texts| > 1
    ensures var n := |texts| - 1;
            Carried(texts) == Trim(texts[0]) + (Answers(texts[1..n]) + " (" + Trim(texts[n]) + ")")
  {
    var n := |texts| - 1;
    var answers := texts[1..];
    assert answers[..|answers| - 1] == texts[1..n];
    assert answers[|answers| - 1] == texts[n];
  }

  /** What a question is trimmed to before the next answer is joined: a carried question is not shortened. */
  lemma {:induction false} CarriedTrimmed(texts: seq<string>)
    requires texts != [] && Solid(Trim(texts[0]))
    ensures Trim(Carried(texts)) == Trim(texts[0]) + Answers(texts[1..])
  {
    if |texts| == 1 {
      assert texts[1..] == [];
      assert Trim(texts[0]) + "" == Trim(texts[0]);
    } else {
      CarriedIsSolid(Trim(texts[0]), texts[1..]);
      TrimOfSolid(Carried(texts));
    }
  }

  /** Joining one more answer to the carried question gives the question carried next. */
  lemma {:induction false} CarriedGrows(texts: seq<string>)
    requires |texts| > 1 && Solid(Trim(texts[0]))
    ensures Joined(Carried(texts[..|texts| - 1]), texts[|texts| - 1]) == Carried(texts)
  {
    var n := |texts| - 1;
    var shorter := texts[..n];
    assert shorter[0] == texts[0] && shorter[1..] == texts[1..n];
    CarriedTrimmed(shorter);
    CarriedParts(texts);
    Regroup(Trim(texts[0]), Answers(texts[1..n]), Trim(texts[n]));
  }

  lemma Regroup(head: string, answers: string, last: string)
    ensures (head + answers) + " (" + last + ")" == head + (answers + " (" + last + ")")
  {
  }

  lemma {:induction false} CarriedIsSolid(head: string, answers: seq<string>)
    requires Solid(head)
    ensures Solid(head + Answers(answers))
  {
    if answers != [] {
      var a := Answers(answers);
      assert a[|a| - 1] == ')';
    }
  }

  /**
   The gate stops n messages in a row exactly when n is within the bound and every question carried so far
   lacks its one blocking input. What is then pending is the whole carried question.
   */
  lemma {:induction false} StopsInARowIff(w: Surroundings, texts: seq<string>)
    requires texts != []
    ensures AfterStops(w, false, texts).Some? <==> |texts| <= Bound(w.settings) && AllLack(w, texts)
    ensures AfterStops(w, false, texts).Some? ==>
              AfterStops(w, false, texts).value == Pending(Carried(texts), |texts|)
  {
    if |texts| == 1 {
      StopsIff(w.settings, w.extract, texts[0], 0, false);
    } else {
      var n := |texts| - 1;
      StopsInARowIff(w, texts[..n]);
      if AfterStops(w, false, texts[..n]).Some? {
        FirstOfShorter(w, texts);
        NextStopIff(w, texts);
      }
    }
  }

  /** The carried question lacks its blocking input, and so did every question carried before it. */
  predicate AllLack(w: Surroundings, texts: seq<string>)
    requires texts != []
  {
    Lacks(w, Carried(texts)) && (|texts| > 1 ==> AllLack(w, texts[..|texts| - 1]))
  }

  lemma {:induction false} FirstLacks(w: Surroundings, texts: seq<string>)
    requires texts != [] && AllLack(w, texts)
    ensures Lacks(w, Carried(texts[..1]))
  {
    if |texts| == 1 {
      assert texts[..1] == texts;
    } else {
      FirstLacks(w, texts[..|texts| - 1]);
      assert texts[..|texts| - 1][..1] == texts[..1];
    }
  }

  lemma {:induction false} FirstOfShorter(w: Surroundings, texts: seq<string>)
    requires |texts| > 1 && AllLack(w, texts[..|texts| - 1])
    ensures Lacks(w, Carried(texts[..1]))
  {
    FirstLacks(w, texts[..|texts| - 1]);
    assert texts[..|texts| - 1][..1] == texts[..1];
  }

  lemma {:induction false} NextStopIff(w: Surroundings, texts: seq<string>)
    requires |texts| > 1 && Lacks(w, Carried(texts[..1]))
    ensures var n := |texts| - 1;
            var p := Some(Pending(Carried(texts[..n]), n));
            && (StopAtGate(w, texts[n], true, p).Some? <==> n < MaxRounds(w.settings) && Lacks(w, Carried(texts)))
            && (StopAtGate(w, texts[n], true, p).Some? ==>
                  StopAtGate(w, texts[n], true, p).value == Pending(Carried(texts), n + 1))
  {
    var n := |texts| - 1;
    assert texts[..1][0] == texts[0];
    LackingIsNotBlank(w, texts[0]);
    CarriedGrows(texts);
    CarriedIsNotBlank(texts[..n]);
    StopsIff(w.settings, w.extract, Carried(texts), n, true);
  }

  lemma {:induction false} CarriedIsNotBlank(texts: seq<string>)
    requires texts != [] && Solid(Trim(texts[0]))
    ensures Trim(Carried(texts)) != ""
  {
    if |texts| > 1 {
      CarriedIsSolid(Trim(texts[0]), texts[1..]);
      TrimOfSolid(Carried(texts));
    }
  }

  /** In no conversation does the gate stop more than `max(1, max_rounds())` times in a row, whoever starts it. */
  lemma {:induction false} StopsAreBounded(w: Surroundings, first: bool, texts: seq<string>)
    requires texts != [] && AfterStops(w, first, texts).Some?
    ensures AfterStops(w, first, texts).value.rounds == |texts| <= Bound(w.settings) <= 4
  {
    var n := |texts| - 1;
    if n == 0 {
      StopsIff(w.settings, w.extract, texts[0], 0, first);
    } else {
      StopsAreBounded(w, first, texts[..n]);
      var p := AfterStops(w, first, texts[..n]);
      var (question, rounds) := Merge(texts[n], p);
      StopsIff(w.settings, w.extract, question, rounds, true);
    }
  }

  lemma {:induction false} AfterOneMore(w: Surroundings, first: bool, texts: seq<string>, n: nat)
    requires n < |texts|
    ensures AfterStops(w, first, texts[..n + 1])
         == if n == 0 then StopAtGate(w, texts[0], first, None)
            else if AfterStops(w, first, texts[..n]).None? then None
            else StopAtGate(w, texts[n], true, AfterStops(w, first, texts[..n]))
  {
    assert texts[..n + 1][..n] == texts[..n];
  }

  /** The first `n` messages were all stopped at the gate, and `pending` is what they left. */
  ghost predicate StoppedSoFar(w: Surroundings, first: bool, texts: seq<string>, n: nat, pending: Option<Pending>) {
    && n <= |texts| && n <= Bound(w.settings)
    && (if n == 0 then pending.None? else pending.Some? && pending == AfterStops(w, first, texts[..n]))
  }

  /** One more message stopped, in a conversation that feeds each gate question back. */
  lemma {:induction false} OneMoreStop(w: Surroundings, first: bool, texts: seq<string>, n: nat,
                                       before: Option<Pending>, left: Option<Pending>)
    requires n < |texts| && StoppedSoFar(w, first, texts, n, before)
    requires left.Some? && left == StopAtGate(w, texts[n], n > 0 || first, before)
    ensures StoppedSoFar(w, first, texts, n + 1, left)
  {
    AfterOneMore(w, first, texts, n);
    StopsAreBounded(w, first, texts[..n + 1]);
  }

  /** Along such a run of stops the question never moves to a later marker group. */
  lemma {:induction false} CarriedNeverDemotes(texts: seq<string>)
    requires |texts| > 1 && Solid(Trim(texts[0]))
    ensures GroupIndex(MARKERS, Carried(texts)) <= GroupIndex(MARKERS, Carried(texts[..|texts| - 1]))
  {
    RealMarkersAreShaped();
    CarriedGrows(texts);
    JoiningNeverDemotes(MARKERS, Carried(texts[..|texts| - 1]), texts[|texts| - 1]);
  }
}
