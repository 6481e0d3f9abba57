/** Verbatim quotes: when a sentence copied out of a passage is accepted, and when the markers at its ends reject it. */
module Verbatim {
  import opened Text
  import opened Markers
  import opened Grounding

  // --- leftover markers -------------------------------------------------------

  /** Some run of the marker is odd: of asterisks as written, of underscores once the doubled asterisks are gone. */
  ghost predicate Unbalanced(s: string, c: char)
    requires IsMarker(c)
  {
    HasOddRun(if c == '*' then s else DropPairs(s, '*'), c)
  }

  /** A marker is left by the normaliser exactly when one of its runs is odd. */
  lemma {:induction false} MarkerLeftIff(s: string, c: char)
    requires IsMarker(c)
    ensures c in Normalise(s) <==> Unbalanced(s, c)
  {
    NormaliseKeepsMarkers(s, c);
    var t := if c == '*' then s else DropPairs(s, '*');
    NothingLater(t, c);
    LeftoverIff(t, c);
  }

  /** A quote with an odd run of a marker is rejected by any context whose runs of it are all even, verbatim or not. */
  lemma {:induction false} UnbalancedIsRejected(quote: string, chunks: seq<Chunk>, c: char)
    requires IsMarker(c) && Unbalanced(quote, c) && !Unbalanced(Context(ExecutableChunks(chunks)), c)
    ensures !Grounded(quote, chunks)
  {
    var context := Context(ExecutableChunks(chunks));
    MarkerLeftIff(quote, c);
    MarkerLeftIff(context, c);
    if Contains(Normalise(context), Normalise(quote)) {
      ContainsAll(Normalise(context), Normalise(quote), c);
    }
  }

  lemma {:induction false} ContainsAll(hay: string, needle: string, c: char)
    requires Contains(hay, needle) && c in needle
    ensures c in hay
  {
    var i: int :| 0 <= i <= |hay| && OccursAt(hay, needle, i);
    var k :| 0 <= k < |needle| && needle[k] == c;
    assert hay[i + k] == hay[i..i + |needle|][k];
  }

  // --- how many are left ------------------------------------------------------

  lemma {:induction false} PointwiseKeepsCount(s: string, t: string, c: char)
    requires |s| == |t| && forall i | 0 <= i < |s| :: s[i] == c <==> t[i] == c
    ensures Count(s, c) == Count(t, c)
  {
    if s != "" {
      PointwiseKeepsCount(s[1..], t[1..], c);
    }
  }

  lemma {:induction false} CollapseKeepsCount(s: string, c: char)
    requires !IsSpace(c)
    ensures Count(CollapseSpace(s), c) == Count(s, c)
  {
    if s != "" {
      CollapseKeepsCount(s[1..], c);
      FirstCollapsed(s);
    }
  }

  lemma {:induction false} SpaceHasNone(s: string, c: char)
    requires AllSpace(s) && !IsSpace(c)
    ensures Count(s, c) == 0
  {
    CountIffIn(s, c);
  }

  lemma {:induction false} TrimKeepsCount(s: string, c: char)
    requires !IsSpace(c)
    ensures Count(Trim(s), c) == Count(s, c)
  {
    var u, v := TrimSplits(s);
    SpaceHasNone(u, c);
    SpaceHasNone(v, c);
    CountConcat(u + Trim(s), v, c);
    CountConcat(u, Trim(s), c);
  }

  /** The normaliser keeps every marker that the removals leave. */
  lemma {:induction false} NormaliseKeepsCount(q: string, c: char)
    requires IsMarker(c)
    ensures Count(Normalise(q), c) == Count(DropMarkers(q), c)
  {
    var d := DropMarkers(Unify(q));
    UnifyDropMarkers(q);
    PointwiseKeepsCount(d, DropMarkers(q), c);
    CollapseKeepsCount(d, c);
    TrimKeepsCount(CollapseSpace(d), c);
    PointwiseKeepsCount(Trim(CollapseSpace(d)), Normalise(q), c);
  }

  lemma {:induction false} CutOut(text: string, quote: string) returns (pre: string, post: string)
    requires Contains(text, quote)
    ensures text == pre + quote + post
  {
    var i: int :| 0 <= i <= |text| && OccursAt(text, quote, i);
    pre, post := text[..i], text[i + |quote|..];
  }

  lemma {:induction false} ContainsCounts(hay: string, needle: string, c: char)
    requires Contains(hay, needle)
    ensures Count(needle, c) <= Count(hay, c)
  {
    var pre, post := CutOut(hay, needle);
    CountConcat(pre + needle, post, c);
    CountConcat(pre, needle, c);
  }

  // --- even ends --------------------------------------------------------------

  predicate EvenRuns(s: string, c: char) { LeadRun(s, c) % 2 == 0 && TrailRun(s, c) % 2 == 0 }

  /** At both ends, an even run of asterisks; and an even run of underscores, once the doubled asterisks are gone. */
  predicate EvenEnds(q: string) { EvenRuns(q, '*') && EvenRuns(DropPairs(q, '*'), '_') }

  lemma {:induction false} EvenRunVanishes(a: string, c: char)
    ensures LeadRun(a, c) == |a| && |a| % 2 == 0 ==> DropPairs(a, c) == ""
  {
    if LeadRun(a, c) == |a| && |a| % 2 == 0 {
      DropPairsOfRun(a, c, |a|);
      assert a[|a|..] == "";
    }
  }

  lemma {:induction false} LeadRunOfConcat(a: string, b: string, c: char)
    requires LeadRun(a, c) % 2 == 0 && DropPairs(a, c) != ""
    ensures LeadRun(a + b, c) == LeadRun(a, c)
  {
    var n := LeadRun(a, c);
    EvenRunVanishes(a, c);
    LeadRunIs(a + b, c, n);
  }

  lemma {:induction false} NothingOfNothing(q: string)
    ensures DropPairs(q, '*') == "" || DropPairs(DropPairs(q, '*'), '_') == "" ==> DropMarkers(q) == ""
  {
  }

  /** A quote with even ends, unless it is nothing but markers, can be cut out of any text cleanly. */
  lemma {:induction false} EvenEndsCutClean(pre: string, q: string, post: string)
    requires EvenEnds(q) && DropMarkers(q) != ""
    ensures CleanCut(pre, q + post) && CleanCut(q, post)
  {
    NothingOfNothing(q);
    LeadRunOfConcat(q, post, '*');
    DropPairsConcat(q, post, '*');
    LeadRunOfConcat(DropPairs(q, '*'), DropPairs(post, '*'), '_');
  }

  /** The quote is copied, letter by letter, out of an executable chunk. */
  ghost predicate IsVerbatim(quote: string, chunks: seq<Chunk>) {
    exists i | 0 <= i < |chunks| :: chunks[i].collection != REFERENCE_COLLECTION && Contains(chunks[i].text, quote)
  }

  lemma {:induction false} OnlyMarkersVanish(quote: string)
    requires DropMarkers(quote) == ""
    ensures Normalise(quote) == ""
  {
    UnifyDropMarkers(quote);
    TrimAllSpace("");
  }

  lemma {:induction false} EvenEndsAt(quote: string, chunks: seq<Chunk>, i: nat)
    requires i < |chunks| && chunks[i].collection != REFERENCE_COLLECTION && Contains(chunks[i].text, quote)
    requires EvenEnds(quote) && |Normalise(quote)| >= SHORTEST_EVIDENCE
    ensures Grounded(quote, chunks)
  {
    var pre, post := CutOut(chunks[i].text, quote);
    if DropMarkers(quote) == "" {
      OnlyMarkersVanish(quote);
    }
    EvenEndsCutClean(pre, quote, post);
    VerbatimSpanIsGrounded(chunks, i, pre, quote, post);
  }

  /** Even ends are enough, whatever the chunks are and wherever the quote was cut. */
  lemma {:induction false} EvenEndsAreGrounded(quote: string, chunks: seq<Chunk>)
    requires IsVerbatim(quote, chunks) && EvenEnds(quote) && |Normalise(quote)| >= SHORTEST_EVIDENCE
    ensures Grounded(quote, chunks)
  {
    var i :| 0 <= i < |chunks| && chunks[i].collection != REFERENCE_COLLECTION && Contains(chunks[i].text, quote);
    EvenEndsAt(quote, chunks, i);
  }

  // --- odd ends ---------------------------------------------------------------

  function Alone(text: string): seq<Chunk> { [Chunk("", text, "quant_knowledge")] }

  lemma {:induction false} AloneIsContext(text: string)
    ensures Context(ExecutableChunks(Alone(text))) == "[]\n" + text
  {
    var c := Alone(text)[0];
    assert ExecutableChunks([c]) == [c] by {
      assert [c][1..] == [];
    }
    assert "[" + "" + "]\n" == "[]\n";
  }

  lemma {:induction false} AloneIsVerbatim(pre: string, quote: string, post: string)
    ensures IsVerbatim(quote, Alone(pre + quote + post))
  {
    ContainsSplit(pre, quote, post);
    assert Alone(pre + quote + post)[0].text == pre + quote + post;
  }

  lemma {:induction false} LabelHasNone(text: string, c: char)
    requires IsMarker(c)
    ensures Count(DropMarkers("[]\n" + text), c) == Count(DropMarkers(text), c)
  {
    var head := "[]\n";
    MarkerCutIsClean(head, text);
    CleanCutConcat(head, text);
    CountConcat(DropMarkers(head), DropMarkers(text), c);
    CharsComeFrom(head);
    CountIffIn(DropMarkers(head), c);
  }

  /** A quote that keeps more of a marker than the only passage does is rejected. */
  lemma {:induction false} MoreIsRejected(quote: string, text: string, c: char)
    requires IsMarker(c) && Count(DropMarkers(quote), c) > Count(DropMarkers(text), c)
    ensures !Grounded(quote, Alone(text))
  {
    var context := "[]\n" + text;
    AloneIsContext(text);
    LabelHasNone(text, c);
    NormaliseKeepsCount(quote, c);
    NormaliseKeepsCount(context, c);
    if Contains(Normalise(context), Normalise(quote)) {
      ContainsCounts(Normalise(context), Normalise(quote), c);
    }
  }

  lemma {:induction false} OnlyOne(c: char)
    ensures LeadRun([c], c) == 1 && TrailRun([c], c) == 1 && DropPairs([c], c) == [c] && Count([c], c) == 1
  {
    LeadRunIs([c], c, 1);
    TrailRunIs([c], c, 1);
    assert [c][1..] == "";
  }

  /** One more of a marker next to an odd run of it leaves one fewer. */
  lemma {:induction false} OneMoreLeavesOneFewer(s: string, c: char)
    ensures LeadRun(s, c) % 2 == 1 ==> Count(DropPairs([c] + s, c), c) < Count(DropPairs(s, c), c)
    ensures TrailRun(s, c) % 2 == 1 ==> Count(DropPairs(s + [c], c), c) < Count(DropPairs(s, c), c)
  {
    OnlyOne(c);
    if LeadRun(s, c) % 2 == 1 {
      OddSplitLosesTwo([c], s, c);
    }
    if TrailRun(s, c) % 2 == 1 {
      OddSplitLosesTwo(s, [c], c);
    }
  }

  lemma {:induction false} UnderscoreStays(q: string)
    ensures DropPairs("_" + q, '*') == "_" + DropPairs(q, '*')
    ensures DropPairs(q + "_", '*') == DropPairs(q, '*') + "_"
  {
    DropPairsOfOther("_" + q, '*');
    assert ("_" + q)[1..] == q;
    DropPairsConcat(q, "_", '*');
  }

  /** A marker that, written in front of the quote or behind it, leaves less of itself than the quote alone does. */
  lemma {:induction false} OddEndIsUndone(q: string) returns (c: char, pre: string, post: string)
    requires !EvenEnds(q)
    ensures IsMarker(c) && ((pre == [c] && post == "") || (pre == "" && post == [c]))
    ensures Count(DropMarkers(pre + q + post), c) < Count(DropMarkers(q), c)
  {
    c := if EvenRuns(q, '*') then '_' else '*';
    var t := if c == '*' then q else DropPairs(q, '*');
    pre, post := if LeadRun(t, c) % 2 == 1 then [c] else "", if LeadRun(t, c) % 2 == 1 then "" else [c];
    assert pre + q + post == if LeadRun(t, c) % 2 == 1 then [c] + q else q + [c];
    OneMoreLeavesOneFewer(t, c);
    UnderscoreStays(q);
    MarkersLeft(q);
    MarkersLeft(pre + q + post);
  }

  /**
   The failing input. Any quote with an odd end, however long, is rejected when it was cut next to one more of that
   marker: the source loses there what the quote keeps.
   */
  lemma {:induction false} OddEndIsRejected(quote: string) returns (text: string, c: char)
    requires !EvenEnds(quote)
    ensures IsMarker(c) && (text == [c] + quote || text == quote + [c])
    ensures IsVerbatim(quote, Alone(text)) && !Grounded(quote, Alone(text))
  {
    var pre, post;
    c, pre, post := OddEndIsUndone(quote);
    text := pre + quote + post;
    AloneIsVerbatim(pre, quote, post);
    MoreIsRejected(quote, text, c);
  }

  // --- exactly ----------------------------------------------------------------

  /** A quote is accepted from every source it is verbatim in exactly when it is long enough and its ends are even. */
  lemma {:induction false} AlwaysGroundedIff(quote: string)
    ensures (forall chunks | IsVerbatim(quote, chunks) :: Grounded(quote, chunks))
       <==> |Normalise(quote)| >= SHORTEST_EVIDENCE && EvenEnds(quote)
  {
    if |Normalise(quote)| < SHORTEST_EVIDENCE {
      AloneIsVerbatim("", quote, "");
      assert !Grounded(quote, Alone("" + quote + ""));
    } else if EvenEnds(quote) {
      forall chunks | IsVerbatim(quote, chunks) ensures Grounded(quote, chunks) {
        EvenEndsAreGrounded(quote, chunks);
      }
    } else {
      var text, c := OddEndIsRejected(quote);
      assert IsVerbatim(quote, Alone(text));
    }
  }

  /** No run of a marker is odd anywhere in what the model was given. */
  ghost predicate Balanced(context: string) { !Unbalanced(context, '*') && !Unbalanced(context, '_') }

  lemma {:induction false} OddEndIsUnbalanced(q: string)
    requires !EvenEnds(q)
    ensures Unbalanced(q, '*') || Unbalanced(q, '_')
  {
    OddRunsAtEnds(q, '*');
    OddRunsAtEnds(DropPairs(q, '*'), '_');
  }

  lemma {:induction false} OddRunsAtEnds(s: string, c: char)
    ensures HasOddRun(s, c) || EvenRuns(s, c)
  {
    var n, k := LeadRun(s, c), TrailRun(s, c);
    if n % 2 == 1 {
      assert OddRunAt(s, 0, n, c);
    } else if k % 2 == 1 {
      assert OddRunAt(s, |s| - k, |s|, c);
    }
  }

  /** With balanced markers around it, the check accepts a long verbatim quote exactly when its ends are even. */
  lemma {:induction false} BalancedVerbatimIff(quote: string, chunks: seq<Chunk>)
    requires IsVerbatim(quote, chunks) && Balanced(Context(ExecutableChunks(chunks)))
    ensures Grounded(quote, chunks) <==> |Normalise(quote)| >= SHORTEST_EVIDENCE && EvenEnds(quote)
  {
    if !EvenEnds(quote) {
      OddEndIsUnbalanced(quote);
      if Unbalanced(quote, '*') {
        UnbalancedIsRejected(quote, chunks, '*');
      } else {
        UnbalancedIsRejected(quote, chunks, '_');
      }
    } else if |Normalise(quote)| >= SHORTEST_EVIDENCE {
      EvenEndsAreGrounded(quote, chunks);
    }
  }

  // --- four asterisks, cut twice ----------------------------------------------

  predicate Plain(x: string) { x != "" && forall i | 0 <= i < |x| :: 'a' <= x[i] <= 'z' }

  lemma {:induction false} PlainIsSettled(x: string)
    requires Plain(x)
    ensures Normalise(x) == x
  {
    SettledIsUnified(x);
    PairlessIsFixed(x);
  }

  lemma {:induction false} PlainHasNoRuns(x: string, c: char)
    requires Plain(x) && IsMarker(c)
    ensures LeadRun(x, c) == 0 && TrailRun(x, c) == 0 && DropPairs(x, c) == x
  {
    DropPairsFixedIff(x, c);
  }

  /** Cut between the second and the third, the quote keeps a pair and is accepted. */
  lemma {:induction false} EvenCutIsAccepted(x: string)
    requires Plain(x) && |x| >= SHORTEST_EVIDENCE
    ensures Grounded("**" + x, Alone("****" + x))
  {
    var quote := "**" + x;
    assert "****" + x == "**" + quote + "";
    AloneIsVerbatim("**", quote, "");
    PairInFront(x);
    EvenEndsAreGrounded(quote, Alone("****" + x));
  }

  lemma {:induction false} PairInFront(x: string)
    requires Plain(x)
    ensures EvenEnds("**" + x) && Normalise("**" + x) == x
  {
    var quote := "**" + x;
    PlainHasNoRuns(x, '*');
    PlainHasNoRuns(x, '_');
    LeadRunIs(quote, '*', 2);
    TrailRunIs(quote, '*', 0);
    assert quote[2..] == x;
    SameMarkersSameForm(quote, x);
    PlainIsSettled(x);
  }

  lemma {:induction false} SameMarkersSameForm(quote: string, x: string)
    requires DropPairs(quote, '*') == DropPairs(x, '*')
    ensures Normalise(quote) == Normalise(x)
  {
    UnifyDropMarkers(quote);
    UnifyDropMarkers(x);
  }

  lemma {:induction false} OneInFront(x: string)
    requires Plain(x)
    ensures Normalise("*" + x) == "*" + x && !EvenEnds("*" + x)
  {
    var quote := "*" + x;
    LeadRunIs(quote, '*', 1);
    SettledIsUnified(quote);
    PairlessIsFixed(quote);
  }

  /** Cut between the third and the fourth, it keeps one and is rejected, whatever its length. */
  lemma {:induction false} OddCutIsRejected(x: string)
    requires Plain(x)
    ensures IsVerbatim("*" + x, Alone("****" + x)) && Normalise("*" + x) == "*" + x
    ensures !Grounded("*" + x, Alone("****" + x))
  {
    var quote, text := "*" + x, "****" + x;
    assert text == "***" + quote + "";
    AloneIsVerbatim("***", quote, "");
    OneInFront(x);
    LeadRunIs(quote, '*', 1);
    LeadRunIs(text, '*', 4);
    DropPairsOfRun(quote, '*', 1);
    DropPairsOfRun(text, '*', 4);
    assert quote[1..] == x && text[4..] == x;
    MarkersLeft(quote);
    MarkersLeft(text);
    CountConcat("*", DropPairs(x, '*'), '*');
    OnlyOne('*');
    assert "" + DropPairs(x, '*') == DropPairs(x, '*');
    MoreIsRejected(quote, text, '*');
  }
}
