/** Which grounded quotes stay grounded wherever further chunks are inserted. */
module Straddling {
  import opened Text
  import opened Markers
  import opened Grounding

  // --- insertion --------------------------------------------------------------

  /** `more` is `chunks` with further chunks inserted, before, between or after. */
  ghost predicate Inserted(chunks: seq<Chunk>, more: seq<Chunk>)
    decreases |more|
  {
    chunks == [] ||
    (more != [] && ((chunks[0] == more[0] && Inserted(chunks[1..], more[1..])) || Inserted(chunks, more[1..])))
  }

  lemma {:induction false} InsertedIsItself(chunks: seq<Chunk>)
    ensures Inserted(chunks, chunks)
  {
    if chunks != [] {
      InsertedIsItself(chunks[1..]);
    }
  }

  lemma {:induction false} ExecutablesInserted(chunks: seq<Chunk>, more: seq<Chunk>)
    requires Inserted(chunks, more)
    ensures Inserted(ExecutableChunks(chunks), ExecutableChunks(more))
    decreases |more|
  {
    if chunks != [] {
      if chunks[0] == more[0] && Inserted(chunks[1..], more[1..]) {
        ExecutablesInserted(chunks[1..], more[1..]);
        InsertedUnder(ExecutableChunks(chunks[1..]), ExecutableChunks(more[1..]), more[0]);
      } else {
        ExecutablesInserted(chunks, more[1..]);
        InsertedUnder(ExecutableChunks(chunks), ExecutableChunks(more[1..]), more[0]);
      }
    }
  }

  lemma {:induction false} InsertedUnder(chunks: seq<Chunk>, more: seq<Chunk>, c: Chunk)
    requires Inserted(chunks, more)
    ensures Inserted(chunks, [c] + more) && Inserted([c] + chunks, [c] + more)
  {
    assert ([c] + more)[1..] == more && ([c] + chunks)[1..] == chunks;
  }

  /** An inserted-into list still has every chunk, and one that was followed is still followed. */
  lemma {:induction false} StillThere(chunks: seq<Chunk>, more: seq<Chunk>, k: nat) returns (j: nat)
    requires Inserted(chunks, more) && k < |chunks|
    ensures j < |more| && more[j] == chunks[k]
    ensures k + 1 < |chunks| ==> j + 1 < |more|
    decreases |more|
  {
    if chunks[0] == more[0] && Inserted(chunks[1..], more[1..]) {
      if k == 0 {
        j := 0;
        if |chunks| > 1 {
          assert chunks[1..] != [];
        }
      } else {
        j := StillThere(chunks[1..], more[1..], k - 1);
        j := j + 1;
      }
    } else {
      j := StillThere(chunks, more[1..], k);
      j := j + 1;
    }
  }

  // --- a quote held by one passage --------------------------------------------

  /** One passage, with the opening bracket of the next one's label when there is one. */
  function Held(e: seq<Chunk>, k: nat): string
    requires k < |e|
  {
    Passage(e[k]) + if k + 1 < |e| then "\n\n[" else ""
  }

  /** The quote is found within one passage and does not straddle a join. */
  ghost predicate HeldByOne(quote: string, e: seq<Chunk>) {
    exists k | 0 <= k < |e| :: Contains(Normalise(Held(e, k)), Normalise(quote))
  }

  lemma {:induction false} ContextStarts(e: seq<Chunk>)
    requires e != []
    ensures Context(e) != "" && Context(e)[0] == '['
  {
  }

  lemma {:induction false} ContextHolds(e: seq<Chunk>, k: nat) returns (pre: string, post: string)
    requires k < |e|
    ensures Context(e) == pre + Held(e, k) + post
    ensures pre == "" || pre[|pre| - 1] == '\n'
    ensures post != "" ==> k + 1 < |e|
  {
    if k == 0 {
      pre := "";
      if |e| == 1 {
        post := "";
        assert "" + (Passage(e[0]) + "") + "" == Passage(e[0]);
      } else {
        var rest := Context(e[1..]);
        ContextStarts(e[1..]);
        post := rest[1..];
        assert rest == "[" + post;
        assert "" + (Passage(e[0]) + "\n\n[") + post == Passage(e[0]) + "\n\n" + ("[" + post);
      }
    } else {
      var p;
      p, post := ContextHolds(e[1..], k - 1);
      pre := Passage(e[0]) + "\n\n" + p;
      assert Held(e[1..], k - 1) == Held(e, k);
      Prepend(Passage(e[0]) + "\n\n", p, Held(e, k), post);
      assert e == [e[0]] + e[1..];
      ContextOfCons(e[0], e[1..]);
    }
  }

  lemma {:induction false} HeldIsFound(e: seq<Chunk>, k: nat)
    requires k < |e|
    ensures Contains(Normalise(Context(e)), Normalise(Held(e, k)))
  {
    var pre, post := ContextHolds(e, k);
    var x := Held(e, k);
    assert x[0] == '[' && (x + post)[0] == '[';
    MarkerCutIsClean(pre, x + post);
    if post != "" {
      assert x[|x| - 1] == '[';
    }
    MarkerCutIsClean(x, post);
    SpanSurvivesNormalise(pre, x, post);
  }

  /** A longer piece of the same passage holds at least as much. */
  lemma {:induction false} FollowedHoldsMore(c: Chunk)
    ensures Contains(Normalise(Passage(c) + "\n\n["), Normalise(Passage(c) + ""))
  {
    var x := Passage(c);
    assert x + "" == x && "" + x + "\n\n[" == x + "\n\n[";
    MarkerCutIsClean("", x + "\n\n[");
    MarkerCutIsClean(x, "\n\n[");
    SpanSurvivesNormalise("", x, "\n\n[");
  }

  lemma {:induction false} HeldInMore(e: seq<Chunk>, more: seq<Chunk>, k: nat, j: nat)
    requires k < |e| && j < |more| && more[j] == e[k] && (k + 1 < |e| ==> j + 1 < |more|)
    ensures Contains(Normalise(Held(more, j)), Normalise(Held(e, k)))
  {
    if (k + 1 < |e|) == (j + 1 < |more|) {
      var hay := Normalise(Held(e, k));
      assert OccursAt(hay, hay, 0);
    } else {
      FollowedHoldsMore(e[k]);
    }
  }

  /** A quote found in one executable chunk is found in every list that has the chunk, at any place. */
  lemma {:induction false} OneChunkIsEnough(quote: string, chunks: seq<Chunk>, i: nat)
    requires i < |chunks| && Grounded(quote, [chunks[i]])
    ensures Grounded(quote, chunks)
  {
    assert chunks == chunks[..i] + [chunks[i]] + chunks[i + 1..];
    GroundingIsMonotone(quote, chunks[..i], [chunks[i]], chunks[i + 1..]);
  }

  /** Held by one passage, a quote survives every insertion. */
  lemma {:induction false} HeldSurvives(quote: string, chunks: seq<Chunk>, more: seq<Chunk>)
    requires quote != "" && |Normalise(quote)| >= SHORTEST_EVIDENCE
    requires HeldByOne(quote, ExecutableChunks(chunks)) && Inserted(chunks, more)
    ensures Grounded(quote, more)
  {
    var e, m := ExecutableChunks(chunks), ExecutableChunks(more);
    var k :| 0 <= k < |e| && Contains(Normalise(Held(e, k)), Normalise(quote));
    ExecutablesInserted(chunks, more);
    var j := StillThere(e, m, k);
    HeldInMore(e, m, k, j);
    HeldIsFound(m, j);
    ContainsTransitive(Normalise(Held(m, j)), Normalise(Held(e, k)), Normalise(quote));
    ContainsTransitive(Normalise(Context(m)), Normalise(Held(m, j)), Normalise(quote));
  }

  // --- the insertion that separates all passages ------------------------------

  function Repeat(c: char, n: nat): string { seq(n, _ => c) }

  /** A chunk of nothing but one letter. */
  function Filler(c: char, n: nat): Chunk { Chunk(Repeat(c, n), Repeat(c, n), "quant_knowledge") }

  /** A filler between every two executable chunks. */
  function Spread(chunks: seq<Chunk>, f: Chunk): seq<Chunk> {
    if chunks == [] then []
    else
      [chunks[0]]
      + (if chunks[0].collection != REFERENCE_COLLECTION && ExecutableChunks(chunks[1..]) != [] then [f] else [])
      + Spread(chunks[1..], f)
  }

  function Laced(e: seq<Chunk>, f: Chunk): seq<Chunk> {
    if |e| <= 1 then e else [e[0], f] + Laced(e[1..], f)
  }

  lemma {:induction false} SpreadIsInserted(chunks: seq<Chunk>, f: Chunk)
    ensures Inserted(chunks, Spread(chunks, f))
  {
    if chunks != [] {
      var rest := Spread(chunks[1..], f);
      SpreadIsInserted(chunks[1..], f);
      InsertedUnder(chunks[1..], rest, f);
      InsertedUnder(chunks[1..], rest, chunks[0]);
      InsertedUnder(chunks[1..], [f] + rest, chunks[0]);
      assert chunks == [chunks[0]] + chunks[1..];
      assert [chunks[0]] + [f] + rest == [chunks[0]] + ([f] + rest);
      assert [chunks[0]] + [] + rest == [chunks[0]] + rest;
    }
  }

  lemma {:induction false} SpreadIsLaced(chunks: seq<Chunk>, f: Chunk)
    requires f.collection != REFERENCE_COLLECTION
    ensures ExecutableChunks(Spread(chunks, f)) == Laced(ExecutableChunks(chunks), f)
  {
    if chunks != [] {
      var rest, c := Spread(chunks[1..], f), chunks[0];
      SpreadIsLaced(chunks[1..], f);
      var e := ExecutableChunks(chunks[1..]);
      OneMore(c, rest);
      OneMore(f, rest);
      OneMore(c, [f] + rest);
      if c.collection != REFERENCE_COLLECTION && e != [] {
        assert Spread(chunks, f) == [c] + ([f] + rest);
        assert ExecutableChunks(chunks)[1..] == e;
        assert [c] + ([f] + Laced(e, f)) == [c, f] + Laced(e, f);
      } else {
        assert Spread(chunks, f) == [c] + rest;
        if c.collection != REFERENCE_COLLECTION {
          assert ExecutableChunks(chunks) == [c] + [] == [c];
        }
      }
    }
  }

  lemma {:induction false} OneMore(c: Chunk, rest: seq<Chunk>)
    ensures ExecutableChunks([c] + rest)
         == (if c.collection != REFERENCE_COLLECTION then [c] else []) + ExecutableChunks(rest)
  {
    assert ([c] + rest)[1..] == rest;
  }

  // --- the normaliser before its last trim ------------------------------------

  function Untrimmed(s: string): string { Lower(CollapseSpace(DropMarkers(Unify(s)))) }

  /** Neither a marker nor white space, before and after unification. */
  predicate Plain(c: char) {
    !IsMarker(c) && c != '`' && !IsSpace(c)
  }

  lemma {:induction false} DropAllEnds(s: string)
    ensures s != "" && s[0] != '`' ==> DropAll(s, '`') != "" && DropAll(s, '`')[0] == s[0]
    ensures s != "" && s[|s| - 1] != '`' ==>
              DropAll(s, '`') != "" && DropAll(s, '`')[|DropAll(s, '`')| - 1] == s[|s| - 1]
  {
    if |s| > 1 {
      DropAllEnds(s[1..]);
    } else if |s| == 1 {
      assert s[1..] == "" && DropAll("", '`') == "";
    }
  }

  lemma {:induction false} DropMarkersEnds(s: string)
    requires s != ""
    ensures Plain(s[0]) ==> DropMarkers(s) != "" && DropMarkers(s)[0] == s[0]
    ensures Plain(s[|s| - 1]) ==> DropMarkers(s) != "" && DropMarkers(s)[|DropMarkers(s)| - 1] == s[|s| - 1]
  {
    var t := DropPairs(s, '*');
    DropPairsEnds(s, '*');
    DropPairsEnds(t, '_');
    DropAllEnds(DropPairs(t, '_'));
  }

  lemma {:induction false} UntrimmedConcat(a: string, b: string)
    requires a == "" || b == "" || Plain(a[|a| - 1]) || Plain(b[0])
    ensures Untrimmed(a + b) == Untrimmed(a) + Untrimmed(b)
  {
    UnifyConcat(a, b);
    var a', b' := Unify(a), Unify(b);
    DropMarkersConcat(a', b');
    if a != "" {
      DropMarkersEnds(a');
    }
    if b != "" {
      DropMarkersEnds(b');
    }
    CollapseConcat(DropMarkers(a'), DropMarkers(b'));
    LowerConcat(CollapseSpace(DropMarkers(a')), CollapseSpace(DropMarkers(b')));
  }

  lemma {:induction false} TrimmedIsPart(s: string, needle: string)
    requires Contains(Normalise(s), needle)
    ensures Contains(Untrimmed(s), needle)
  {
    var t := CollapseSpace(DropMarkers(Unify(s)));
    var i, j := TrimIsSlice(t);
    var low, cut := Lower(t), Lower(Trim(t));
    assert low[i..j] == cut;
    assert OccursAt(low, cut, i);
    ContainsTransitive(low, cut, needle);
  }

  lemma {:induction false} InTheMiddle(u: string, body: string, v: string, needle: string)
    requires AllSpace(u) && AllSpace(v) && Solid(needle) && Contains(u + body + v, needle)
    ensures Contains(body, needle)
  {
    var hay := u + body + v;
    var i: int :| 0 <= i <= |hay| && OccursAt(hay, needle, i);
    assert hay[i..i + |needle|] == needle;
    assert hay[i] == needle[0] && hay[i + |needle| - 1] == needle[|needle| - 1];
    assert i >= |u| && i + |needle| <= |u| + |body|;
    assert body[i - |u|..i - |u| + |needle|] == needle;
    assert OccursAt(body, needle, i - |u|);
  }

  /** A needle with no white space at its ends is not lost by the trim. */
  lemma {:induction false} SolidSurvivesTrim(s: string, needle: string)
    requires Contains(Untrimmed(s), needle) && Solid(needle)
    ensures Contains(Normalise(s), needle)
  {
    var t := CollapseSpace(DropMarkers(Unify(s)));
    var u, v := TrimSplits(t);
    LowerConcat(u + Trim(t), v);
    LowerConcat(u, Trim(t));
    LowerSpace(u);
    LowerSpace(v);
    InTheMiddle(Lower(u), Lower(Trim(t)), Lower(v), needle);
  }

  lemma LowerSpace(s: string)
    requires AllSpace(s)
    ensures AllSpace(Lower(s))
  {
  }

  // --- long runs cannot be straddled ------------------------------------------

  lemma {:induction false} NotAcross(a: string, c: char, n: nat, e: string, needle: string)
    requires 0 < |needle| < n && needle[0] != c && needle[|needle| - 1] != c
    requires Contains(a + Repeat(c, n) + e, needle)
    ensures Contains(a, needle) || Contains(e, needle)
  {
    var run := Repeat(c, n);
    var hay := a + run + e;
    var p: int :| 0 <= p <= |hay| && OccursAt(hay, needle, p);
    var q := p + |needle|;
    assert hay[p..q] == needle;
    assert hay[p] == needle[0] && hay[q - 1] == needle[|needle| - 1];
    assert forall i | |a| <= i < |a| + n :: hay[i] == c;
    if q <= |a| {
      assert a[p..q] == needle;
      assert OccursAt(a, needle, p);
    } else {
      assert p >= |a| + n;
      var o := p - |a| - n;
      assert e[o..o + |needle|] == needle;
      assert OccursAt(e, needle, o);
    }
  }

  lemma {:induction false} LettersStay(c: char, n: nat)
    requires 'a' <= c <= 'z'
    ensures Untrimmed(Repeat(c, n)) == Repeat(c, n)
  {
    var r := Repeat(c, n);
    SettledIsUnified(r);
    DropPairsFixedIff(r, '*');
    DropPairsFixedIff(r, '_');
    DropAllFixedIff(r, '`');
    CollapseSpaces(r);
  }

  lemma {:induction false} BracketStays()
    ensures Untrimmed("]\n") == "] " && Untrimmed("\n\n") == " "
  {
    assert Unify("]\n") == "]\n" && Unify("\n\n") == "\n\n";
    assert "]\n"[1..] == "\n" && "\n\n"[1..] == "\n" && "\n"[1..] == "";
    assert DropPairs("]\n", '*') == "]\n" && DropPairs("]\n", '_') == "]\n";
    assert DropPairs("\n\n", '*') == "\n\n" && DropPairs("\n\n", '_') == "\n\n";
    assert DropAll("]\n", '`') == "]\n" && DropAll("\n\n", '`') == "\n\n";
    assert CollapseSpace("\n") == " ";
    assert CollapseSpace("]\n") == "] " && CollapseSpace("\n\n") == " ";
    assert Lower("] ") == "] " && Lower(" ") == " ";
  }

  lemma {:induction false} FourCuts(open: string, r: string, close: string, gap: string, more: string)
    requires open != "" && Plain(open[|open| - 1])
    requires r != "" && Plain(r[0]) && Plain(r[|r| - 1]) && more != "" && Plain(more[0])
    ensures Untrimmed(open + (r + (close + (r + (gap + more)))))
         == Untrimmed(open) + (Untrimmed(r) + (Untrimmed(close) + (Untrimmed(r) + (Untrimmed(gap) + Untrimmed(more)))))
  {
    UntrimmedConcat(open, r + (close + (r + (gap + more))));
    UntrimmedConcat(r, close + (r + (gap + more)));
    UntrimmedConcat(close, r + (gap + more));
    UntrimmedConcat(r, gap + more);
    UntrimmedConcat(gap, more);
  }

  /** The normalised text of one passage, one filler and what follows, piece by piece. */
  lemma {:induction false} LacedText(p: string, c: char, n: nat, more: string)
    requires 'a' <= c <= 'z' && n > 0 && more != "" && more[0] == '['
    ensures Untrimmed(p + "\n\n" + Passage(Filler(c, n)) + "\n\n" + more)
         == Untrimmed(p + "\n\n[") + Repeat(c, n) + ("] " + Repeat(c, n) + (" " + Untrimmed(more)))
  {
    var r := Repeat(c, n);
    LettersStay(c, n);
    BracketStays();
    assert p + "\n\n" + "[" == p + "\n\n[" && Passage(Filler(c, n)) == "[" + r + "]\n" + r;
    Respelled(p + "\n\n", r, "]\n", "\n\n", more);
    FourCuts(p + "\n\n[", r, "]\n", "\n\n", more);
    FivePieces(Untrimmed(p + "\n\n["), r, "] ", " " + Untrimmed(more));
  }

  lemma {:induction false} Respelled(before: string, r: string, close: string, gap: string, more: string)
    ensures before + ("[" + r + close + r) + gap + more == (before + "[") + (r + (close + (r + (gap + more))))
  {
  }

  lemma {:induction false} FivePieces(a: string, r: string, b: string, d: string)
    ensures a + (r + (b + (r + d))) == a + r + (b + r + d)
  {
  }

  /** Laced with fillers long enough, the context holds a solid needle only within a single passage. */
  lemma {:induction false} LacedHoldsInOne(e: seq<Chunk>, c: char, n: nat, needle: string) returns (k: nat)
    requires e != [] && 'a' <= c <= 'z' && 2 < |needle| < n && Solid(needle)
    requires needle[0] != c && needle[|needle| - 1] != c
    requires Contains(Untrimmed(Context(Laced(e, Filler(c, n)))), needle)
    ensures k < |e| && Contains(Untrimmed(Held(e, k)), needle)
  {
    k := 0;
    if |e| == 1 {
      assert Held(e, 0) == Passage(e[0]);
    } else {
      var f := Filler(c, n);
      var rest := Laced(e[1..], f);
      LacedContext(e, f);
      ContextStarts(rest);
      LacedText(Passage(e[0]), c, n, Context(rest));
      var tail := "] " + Repeat(c, n) + (" " + Untrimmed(Context(rest)));
      NotAcross(Untrimmed(Held(e, 0)), c, n, tail, needle);
      if !Contains(Untrimmed(Held(e, 0)), needle) {
        NotAcross("] ", c, n, " " + Untrimmed(Context(rest)), needle);
        PastTheBlank(Untrimmed(Context(rest)), needle);
        k := LacedHoldsInOne(e[1..], c, n, needle);
        k := k + 1;
        assert Held(e, k) == Held(e[1..], k - 1);
      }
    }
  }

  lemma {:induction false} LacedContext(e: seq<Chunk>, f: Chunk)
    requires |e| > 1
    ensures Laced(e[1..], f) != []
    ensures Context(Laced(e, f)) == Passage(e[0]) + "\n\n" + Passage(f) + "\n\n" + Context(Laced(e[1..], f))
  {
    var rest := Laced(e[1..], f);
    assert Laced(e, f) == [e[0]] + ([f] + rest);
    ContextOfCons(e[0], [f] + rest);
    ContextOfCons(f, rest);
  }

  lemma {:induction false} PastTheBlank(s: string, needle: string)
    requires Contains(" " + s, needle) || Contains("] ", needle)
    requires |needle| > 2 && Solid(needle)
    ensures Contains(s, needle)
  {
    var hay := " " + s;
    var i: int :| 0 <= i <= |hay| && OccursAt(hay, needle, i);
    assert hay[i] == hay[i..i + |needle|][0];
    assert s[i - 1..i - 1 + |needle|] == hay[i..i + |needle|];
    assert OccursAt(s, needle, i - 1);
  }

  // --- the exact condition ----------------------------------------------------

  ghost predicate SurvivesEveryInsertion(quote: string, chunks: seq<Chunk>) {
    forall more | Inserted(chunks, more) :: Grounded(quote, more)
  }

  function Unlike(a: char, b: char): (c: char)
    ensures 'a' <= c <= 'z' && c != a && c != b
  {
    if a != 'x' && b != 'x' then 'x' else if a != 'y' && b != 'y' then 'y' else 'z'
  }

  lemma {:induction false} LongNeedleIsSolid(quote: string)
    requires |Normalise(quote)| >= SHORTEST_EVIDENCE
    ensures Solid(Normalise(quote))
  {
    NormalisedIsSettled(quote);
  }

  lemma {:induction false} SpreadShowsOne(quote: string, chunks: seq<Chunk>, c: char, needle: string)
    requires needle == Normalise(quote) && 2 < |needle| && Solid(needle) && ExecutableChunks(chunks) != []
    requires 'a' <= c <= 'z' && needle[0] != c && needle[|needle| - 1] != c
    requires Grounded(quote, Spread(chunks, Filler(c, |needle| + 1)))
    ensures HeldByOne(quote, ExecutableChunks(chunks))
  {
    var f := Filler(c, |needle| + 1);
    var e := ExecutableChunks(chunks);
    SpreadIsLaced(chunks, f);
    TrimmedIsPart(Context(Laced(e, f)), needle);
    var k := LacedHoldsInOne(e, c, |needle| + 1, needle);
    SolidSurvivesTrim(Held(e, k), needle);
  }

  lemma {:induction false} NothingHoldsNothing(quote: string, chunks: seq<Chunk>)
    requires Grounded(quote, chunks)
    ensures ExecutableChunks(chunks) != []
  {
    NormaliseEmpty();
  }

  /** A quote that survives every insertion is held by one passage. */
  lemma {:induction false} SurvivorIsHeld(quote: string, chunks: seq<Chunk>)
    requires SurvivesEveryInsertion(quote, chunks)
    ensures HeldByOne(quote, ExecutableChunks(chunks))
  {
    var needle := Normalise(quote);
    InsertedIsItself(chunks);
    NothingHoldsNothing(quote, chunks);
    LongNeedleIsSolid(quote);
    var c := Unlike(needle[0], needle[|needle| - 1]);
    SpreadIsInserted(chunks, Filler(c, |needle| + 1));
    SpreadShowsOne(quote, chunks, c, needle);
  }

  /**
   New chunks land anywhere among the old ones. A quote stays grounded wherever they land exactly when it is long
   enough and found within one executable passage, the bracket that opens the next passage's label included; one
   that straddles a join is lost to some insertion there.
   */
  lemma {:induction false} SurvivesIffHeldByOne(quote: string, chunks: seq<Chunk>)
    ensures SurvivesEveryInsertion(quote, chunks) <==>
            && quote != "" && |Normalise(quote)| >= SHORTEST_EVIDENCE
            && HeldByOne(quote, ExecutableChunks(chunks))
  {
    if SurvivesEveryInsertion(quote, chunks) {
      InsertedIsItself(chunks);
      assert Grounded(quote, chunks);
      SurvivorIsHeld(quote, chunks);
    }
    if quote != "" && |Normalise(quote)| >= SHORTEST_EVIDENCE && HeldByOne(quote, ExecutableChunks(chunks)) {
      forall more | Inserted(chunks, more) ensures Grounded(quote, more) {
        HeldSurvives(quote, chunks, more);
      }
    }
  }

  // --- a quote that is lost ---------------------------------------------------

  predicate Letters(x: string) { forall i | 0 <= i < |x| :: 'a' <= x[i] <= 'z' }

  lemma {:induction false} WordStays(x: string)
    requires Letters(x)
    ensures Untrimmed(x) == x
  {
    SettledIsUnified(x);
    DropPairsFixedIff(x, '*');
    DropPairsFixedIff(x, '_');
    DropAllFixedIff(x, '`');
    CollapseSpaces(x);
  }

  lemma {:induction false} LabelStays()
    ensures Untrimmed("[]\n") == "[] " && Untrimmed("\n\n[]\n") == " [] "
  {
    BracketStays();
    assert "[]\n" == "[" + "]\n" && "\n\n[]\n" == "\n\n" + "[]\n";
    UntrimmedConcat("[", "]\n");
    UntrimmedConcat("\n\n", "[]\n");
    OneBracket();
    assert "[" + "] " == "[] " && " " + "[] " == " [] ";
  }

  lemma {:induction false} OneBracket()
    ensures Untrimmed("[") == "["
  {
    assert Unify("[") == "[" && DropPairs("[", '*') == "[" && DropPairs("[", '_') == "[";
    assert "["[1..] == "" && DropAll("[", '`') == "[" && CollapseSpace("[") == "[";
    assert Lower("[") == "[";
  }

  lemma {:induction false} AroundJoin(x: string, join: string, y: string)
    requires x == "" || Plain(x[|x| - 1])
    requires y == "" || Plain(y[0])
    ensures Untrimmed(x + join + y) == Untrimmed(x) + Untrimmed(join) + Untrimmed(y)
  {
    UntrimmedConcat(x + join, y);
    UntrimmedConcat(x, join);
  }

  /** The words of unlabelled passages, as the context shows them. */
  lemma {:induction false} JoinedWords(x: string, join: string, y: string)
    requires Letters(x) && Letters(y) && x != "" && y != ""
    ensures Untrimmed(x + join + y) == x + Untrimmed(join) + y
  {
    WordStays(x);
    WordStays(y);
    AroundJoin(x, join, y);
  }

  function Bare(text: string): Chunk { Chunk("", text, "quant_knowledge") }

  lemma {:induction false} BareContext(x: string, y: string, z: string)
    ensures Context([Bare(x), Bare(z)]) == "[]\n" + (x + "\n\n[]\n" + z)
    ensures Context([Bare(x), Bare(y), Bare(z)]) == "[]\n" + (x + "\n\n[]\n" + y) + ("\n\n[]\n" + z)
  {
    assert [Bare(x), Bare(z)] == [Bare(x)] + [Bare(z)];
    ContextOfCons(Bare(x), [Bare(z)]);
    assert [Bare(x), Bare(y), Bare(z)] == [Bare(x)] + ([Bare(y)] + [Bare(z)]);
    ContextOfCons(Bare(y), [Bare(z)]);
    ContextOfCons(Bare(x), [Bare(y)] + [Bare(z)]);
    assert "[" + "" + "]\n" == "[]\n";
  }

  lemma {:induction false} BareAreExecutable(x: string, y: string, z: string)
    ensures ExecutableChunks([Bare(x), Bare(z)]) == [Bare(x), Bare(z)]
    ensures ExecutableChunks([Bare(x), Bare(y), Bare(z)]) == [Bare(x), Bare(y), Bare(z)]
  {
    assert |"quant_knowledge"| != |REFERENCE_COLLECTION|;
    OneMore(Bare(z), []);
    OneMore(Bare(x), [Bare(z)]);
    OneMore(Bare(y), [Bare(z)]);
    OneMore(Bare(x), [Bare(y)] + [Bare(z)]);
    assert [Bare(z)] + [] == [Bare(z)] && [Bare(x)] + [Bare(z)] == [Bare(x), Bare(z)];
    assert [Bare(x)] + ([Bare(y)] + [Bare(z)]) == [Bare(x), Bare(y), Bare(z)];
  }

  lemma {:induction false} NotInThree(x: string)
    requires Letters(x) && |x| >= SHORTEST_EVIDENCE
    ensures !Contains("[] " + (x + " [] " + "zzz") + (" [] " + "b"), x + " [] " + "b")
  {
    var hay, needle := "[] " + (x + " [] " + "zzz") + (" [] " + "b"), x + " [] " + "b";
    var n := |x|;
    assert forall i | 0 <= i < n :: hay[3 + i] == x[i] && hay[3 + i] != '[';
    assert forall i | 0 <= i < |hay| && i != 0 && i != n + 4 && i != n + 11 :: hay[i] != '[';
    forall p: int | 0 <= p <= |hay| ensures !OccursAt(hay, needle, p) {
      if p <= |hay| - |needle| {
        var k := if p == 3 then n + 4 else if p == 10 then n - 7 else n + 1;
        assert hay[p + k] != needle[k];
        assert hay[p..p + |needle|][k] == hay[p + k];
      }
    }
  }

  lemma {:induction false} SolidIsNormal(q: string)
    requires Solid(Untrimmed(q))
    ensures Normalise(q) == Untrimmed(q)
  {
    var t := CollapseSpace(DropMarkers(Unify(q)));
    assert |t| == |Lower(t)| && Lower(t)[0] == LowerChar(t[0]) && Lower(t)[|t| - 1] == LowerChar(t[|t| - 1]);
    TrimKeepsCore("", t, "");
    assert "" + t + "" == t;
  }

  lemma {:induction false} ThreeJoined(head: string, x: string, join: string, y: string, z: string)
    requires Letters(x) && Letters(y) && Letters(z) && x != "" && y != "" && z != ""
    ensures Untrimmed(head + (x + join + y) + (join + z))
         == Untrimmed(head) + (x + Untrimmed(join) + y) + (Untrimmed(join) + z)
  {
    JoinedWords(x, join, y);
    WordStays(z);
    UntrimmedConcat(head + (x + join + y), join + z);
    UntrimmedConcat(head, x + join + y);
    UntrimmedConcat(join, z);
  }

  lemma {:induction false} LostFromThree(x: string, text: string)
    requires Letters(x) && |x| >= SHORTEST_EVIDENCE
    requires text == "[]\n" + (x + "\n\n[]\n" + "zzz") + ("\n\n[]\n" + "b")
    ensures !Contains(Normalise(text), x + " [] " + "b")
  {
    LabelStays();
    ThreeJoined("[]\n", x, "\n\n[]\n", "zzz", "b");
    NotInThree(x);
    if Contains(Normalise(text), x + " [] " + "b") {
      TrimmedIsPart(text, x + " [] " + "b");
    }
  }

  lemma {:induction false} FoundInTwo(x: string)
    requires Letters(x) && |x| >= SHORTEST_EVIDENCE
    ensures Contains(Normalise("[]\n" + (x + "\n\n[]\n" + "b")), Normalise(x + "\n\n[]\n" + "b"))
    ensures Normalise(x + "\n\n[]\n" + "b") == x + " [] " + "b"
  {
    var quote := x + "\n\n[]\n" + "b";
    LabelStays();
    JoinedWords(x, "\n\n[]\n", "b");
    SolidIsNormal(quote);
    assert quote + "" == quote && "[]\n" + quote + "" == "[]\n" + quote;
    MarkerCutIsClean("[]\n", quote);
    MarkerCutIsClean(quote, "");
    SpanSurvivesNormalise("[]\n", quote, "");
  }

  lemma {:induction false} OneInBetween(a: Chunk, b: Chunk, c: Chunk)
    ensures Inserted([a, c], [a, b, c])
  {
    InsertedIsItself([c]);
    InsertedUnder([c], [c], b);
    InsertedUnder([c], [b] + [c], a);
    assert [a] + [c] == [a, c] && [a] + ([b] + [c]) == [a, b, c];
  }

  /** A quote across a join is lost when a chunk lands there: any word of twelve letters, and the next passage. */
  lemma {:induction false} StraddlingQuoteIsLost(x: string)
    requires Letters(x) && |x| >= SHORTEST_EVIDENCE
    ensures var quote := x + "\n\n[]\n" + "b";
            && Grounded(quote, [Bare(x), Bare("b")])
            && !Grounded(quote, [Bare(x), Bare("zzz"), Bare("b")])
            && Inserted([Bare(x), Bare("b")], [Bare(x), Bare("zzz"), Bare("b")])
  {
    BareContext(x, "zzz", "b");
    BareAreExecutable(x, "zzz", "b");
    FoundInTwo(x);
    LostFromThree(x, Context([Bare(x), Bare("zzz"), Bare("b")]));
    OneInBetween(Bare(x), Bare("zzz"), Bare("b"));
  }
}
