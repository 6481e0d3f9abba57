/** The quote check: `_normalise`, `quote_is_grounded` and the context it reads. */
module Grounding {
  import opened Text
  import opened Markers

  // --- the normaliser ---------------------------------------------------------

  /** `re.sub(r"\s+", " ", s)` */
  function CollapseSpace(s: string): string {
    if s == "" then ""
    else if !IsSpace(s[0]) then [s[0]] + CollapseSpace(s[1..])
    else if |s| > 1 && IsSpace(s[1]) then CollapseSpace(s[1..])
    else " " + CollapseSpace(s[1..])
  }

  function TrimLeft(s: string): string {
    if s != "" && IsSpace(s[0]) then TrimLeft(s[1..]) else s
  }

  function TrimRight(s: string): string {
    if s != "" && IsSpace(s[|s| - 1]) then TrimRight(s[..|s| - 1]) else s
  }

  function Trim(s: string): string { TrimRight(TrimLeft(s)) }

  function Normalise(s: string): string {
    Lower(Trim(CollapseSpace(DropMarkers(Unify(s)))))
  }

  // --- the check --------------------------------------------------------------

  const SHORTEST_EVIDENCE: nat := 12

  /** `quote_is_grounded`; a missing quote is the empty one. */
  predicate QuoteIsGrounded(quote: string, context: string) {
    && quote != ""
    && |Normalise(quote)| >= SHORTEST_EVIDENCE
    && Contains(Normalise(context), Normalise(quote))
  }

  datatype Chunk = Chunk(lbl: string, text: string, collection: string)

  const REFERENCE_COLLECTION: string := "market_risk_kb"

  function Passage(c: Chunk): string { "[" + c.lbl + "]\n" + c.text }

  /** `"\n\n".join(...)` */
  function Context(chunks: seq<Chunk>): string {
    if chunks == [] then ""
    else if |chunks| == 1 then Passage(chunks[0])
    else Passage(chunks[0]) + "\n\n" + Context(chunks[1..])
  }

  function ExecutableChunks(chunks: seq<Chunk>): seq<Chunk> {
    if chunks == [] then []
    else if chunks[0].collection != REFERENCE_COLLECTION then [chunks[0]] + ExecutableChunks(chunks[1..])
    else ExecutableChunks(chunks[1..])
  }

  /** What `_build` asks: is the quote in the executable half of what was retrieved? */
  predicate Grounded(quote: string, chunks: seq<Chunk>) {
    QuoteIsGrounded(quote, Context(ExecutableChunks(chunks)))
  }

  predicate SpaceCut(a: string, b: string) {
    a == "" || b == "" || !IsSpace(a[|a| - 1]) || !IsSpace(b[0])
  }

  lemma {:induction false} CollapseConcat(a: string, b: string)
    requires SpaceCut(a, b)
    ensures CollapseSpace(a + b) == CollapseSpace(a) + CollapseSpace(b)
  {
    if a == "" {
      assert a + b == b;
    } else {
      assert (a + b)[1..] == a[1..] + b;
      CollapseConcat(a[1..], b);
      if !IsSpace(a[0]) {
        ConcatAssociative([a[0]], CollapseSpace(a[1..]), CollapseSpace(b));
      } else if !((|a| > 1 && IsSpace(a[1]))) {
        assert !(|a + b| > 1 && IsSpace((a + b)[1]));
        ConcatAssociative(" ", CollapseSpace(a[1..]), CollapseSpace(b));
      }
    }
  }

  // --- white space ------------------------------------------------------------

  predicate AllSpace(s: string) { forall i | 0 <= i < |s| :: IsSpace(s[i]) }

  /** Not empty, and with no white space at either end. */
  predicate Solid(s: string) { s != "" && !IsSpace(s[0]) && !IsSpace(s[|s| - 1]) }

  lemma {:induction false} TrimLeftKeeps(a: string, core: string) returns (a': string)
    requires core != "" && !IsSpace(core[0])
    ensures TrimLeft(a + core) == a' + core
    ensures AllSpace(a) ==> a' == ""
  {
    if a != "" && IsSpace(a[0]) {
      assert (a + core)[1..] == a[1..] + core;
      a' := TrimLeftKeeps(a[1..], core);
    } else {
      a' := a;
      if a == "" {
        assert a + core == core;
      } else {
        assert (a + core)[0] == a[0];
      }
    }
  }

  lemma {:induction false} TrimRightKeeps(core: string, b: string) returns (b': string)
    requires core != "" && !IsSpace(core[|core| - 1])
    ensures TrimRight(core + b) == core + b'
    ensures AllSpace(b) ==> b' == ""
    decreases |b|
  {
    if b != "" && IsSpace(b[|b| - 1]) {
      assert (core + b)[..|core + b| - 1] == core + b[..|b| - 1];
      b' := TrimRightKeeps(core, b[..|b| - 1]);
    } else {
      b' := b;
      if b == "" {
        assert core + b == core;
      } else {
        assert (core + b)[|core + b| - 1] == b[|b| - 1];
      }
    }
  }

  /** Trimming never reaches past a solid core. */
  lemma {:induction false} TrimKeepsCore(a: string, core: string, b: string)
    requires Solid(core)
    ensures Contains(Trim(a + core + b), core)
    ensures AllSpace(a) && AllSpace(b) ==> Trim(a + core + b) == core
  {
    ConcatAssociative(a, core, b);
    var a' := TrimLeftKeeps(a, core + b);
    assert (a' + core)[|a' + core| - 1] == core[|core| - 1];
    ConcatAssociative(a', core, b);
    var b' := TrimRightKeeps(a' + core, b);
    ContainsSplit(a', core, b');
    if AllSpace(a) && AllSpace(b) {
      assert "" + core == core && core + "" == core;
    }
  }

  lemma {:induction false} SplitLeadingSpace(s: string) returns (lead: string, rest: string)
    ensures s == lead + rest && AllSpace(lead)
    ensures rest == "" || !IsSpace(rest[0])
  {
    if s != "" && IsSpace(s[0]) {
      lead, rest := SplitLeadingSpace(s[1..]);
      ConcatAssociative([s[0]], lead, rest);
      assert s == [s[0]] + s[1..];
      lead := [s[0]] + lead;
    } else {
      lead, rest := "", s;
      assert "" + s == s;
    }
  }

  lemma {:induction false} SplitTrailingSpace(s: string) returns (rest: string, trail: string)
    ensures s == rest + trail && AllSpace(trail)
    ensures rest == "" || !IsSpace(rest[|rest| - 1])
    ensures s != "" && !IsSpace(s[0]) ==> rest != "" && rest[0] == s[0]
    decreases |s|
  {
    if s != "" && IsSpace(s[|s| - 1]) {
      rest, trail := SplitTrailingSpace(s[..|s| - 1]);
      ConcatAssociative(rest, trail, [s[|s| - 1]]);
      assert s == s[..|s| - 1] + [s[|s| - 1]];
      trail := trail + [s[|s| - 1]];
    } else {
      rest, trail := s, "";
      assert s + "" == s;
    }
  }

  lemma {:induction false} CollapseAllSpace(s: string)
    requires AllSpace(s)
    ensures CollapseSpace(s) == if s == "" then "" else " "
  {
    if |s| > 1 {
      CollapseAllSpace(s[1..]);
    }
  }

  lemma {:induction false} CollapseSolid(s: string)
    requires Solid(s)
    ensures Solid(CollapseSpace(s))
  {
    var last := s[|s| - 1];
    assert s == s[..|s| - 1] + [last];
    CollapseConcat(s[..|s| - 1], [last]);
    assert CollapseSpace([last]) == [last] by {
      assert [last][1..] == "";
    }
  }

  lemma {:induction false} TrimAllSpace(s: string)
    requires s == "" || s == " "
    ensures Trim(s) == ""
  {
    assert " "[1..] == "";
  }

  /** Every text is white space, a solid core (or nothing), and white space. */
  lemma {:induction false} SpanCore(x: string) returns (u: string, core: string, v: string)
    ensures x == u + core + v && AllSpace(u) && AllSpace(v)
    ensures core == "" || Solid(core)
    ensures Trim(CollapseSpace(x)) == CollapseSpace(core)
  {
    var rest;
    u, rest := SplitLeadingSpace(x);
    core, v := SplitTrailingSpace(rest);
    ConcatAssociative(u, core, v);
    if core == "" {
      assert AllSpace(x);
      CollapseAllSpace(x);
      TrimAllSpace(CollapseSpace(x));
    } else {
      CollapseThree(u, core, v);
      CollapseAllSpace(u);
      CollapseAllSpace(v);
      CollapseSolid(core);
      TrimKeepsCore(CollapseSpace(u), CollapseSpace(core), CollapseSpace(v));
    }
  }

  lemma {:induction false} CollapseThree(a: string, core: string, b: string)
    requires Solid(core)
    ensures CollapseSpace(a + core + b) == CollapseSpace(a) + CollapseSpace(core) + CollapseSpace(b)
  {
    assert (a + core)[|a + core| - 1] == core[|core| - 1];
    CollapseConcat(a + core, b);
    CollapseConcat(a, core);
  }

  /** Collapsed and trimmed, a span is still inside the text it was cut from. */
  lemma {:induction false} SpanSurvivesCollapse(pre: string, x: string, post: string)
    ensures Contains(Trim(CollapseSpace(pre + x + post)), Trim(CollapseSpace(x)))
  {
    var u, core, v := SpanCore(x);
    if core == "" {
      var hay := Trim(CollapseSpace(pre + x + post));
      assert hay[0..0] == "";
      assert OccursAt(hay, "", 0);
    } else {
      assert pre + x + post == (pre + u) + core + (v + post);
      CollapseThree(pre + u, core, v + post);
      CollapseSolid(core);
      TrimKeepsCore(CollapseSpace(pre + u), CollapseSpace(core), CollapseSpace(v + post));
    }
  }

  lemma {:induction false} TrimSplits(q: string) returns (u: string, v: string)
    ensures q == u + Trim(q) + v && AllSpace(u) && AllSpace(v)
    ensures Trim(q) == "" || Solid(Trim(q))
  {
    var rest, core;
    u, rest := SplitLeadingSpace(q);
    core, v := SplitTrailingSpace(rest);
    ConcatAssociative(u, core, v);
    if core == "" {
      assert AllSpace(q);
      TrimOfSpace(q);
      u, v := q, "";
      assert q + "" + "" == q;
    } else {
      TrimKeepsCore(u, core, v);
    }
  }

  lemma {:induction false} TrimOfSpace(q: string)
    requires AllSpace(q)
    ensures Trim(q) == ""
  {
    if q != "" {
      TrimOfSpace(q[1..]);
    }
  }

  // --- the main results -------------------------------------------------------

  lemma {:induction false} NormaliseEmpty()
    ensures Normalise("") == ""
  {
    assert Unify("") == "";
    TrimAllSpace("");
  }

  /** A span whose ends split no marker run odd against odd is found, normalised, in the normalised text. */
  lemma {:induction false} SpanSurvivesNormalise(pre: string, x: string, post: string)
    requires CleanCut(pre, x + post) && CleanCut(x, post)
    ensures Contains(Normalise(pre + x + post), Normalise(x))
  {
    UnifyConcat(pre + x, post);
    UnifyConcat(pre, x);
    UnifyConcat(x, post);
    var p', x', s' := Unify(pre), Unify(x), Unify(post);
    UnifyKeepsCleanCut(pre, x + post);
    UnifyKeepsCleanCut(x, post);
    CleanCutConcat(p', x' + s');
    CleanCutConcat(x', s');
    ConcatAssociative(p', x', s');
    ConcatAssociative(DropMarkers(p'), DropMarkers(x'), DropMarkers(s'));
    if Normalise(x) == "" {
      var hay := Normalise(pre + x + post);
      assert hay[0..0] == "" && OccursAt(hay, "", 0);
    } else {
      SpanSurvivesCollapse(DropMarkers(p'), DropMarkers(x'), DropMarkers(s'));
      LowerContains(Trim(CollapseSpace(DropMarkers(p' + x' + s'))), Trim(CollapseSpace(DropMarkers(x'))));
    }
  }

  /** A chunk's passage sits in the context between cuts that split no marker run. */
  lemma {:induction false} ContextAround(before: seq<Chunk>, mid: seq<Chunk>, after: seq<Chunk>)
    returns (pre: string, post: string)
    requires mid != []
    ensures Context(before + mid + after) == pre + Context(mid) + post
    ensures pre == "" || pre[|pre| - 1] == '\n'
    ensures post == "" || post[0] == '\n'
  {
    if before == [] {
      assert before + mid + after == mid + after;
      pre := "";
      post := ContextPrefix(mid, after);
      assert "" + Context(mid) == Context(mid);
    } else {
      var rest := before[1..] + mid + after;
      assert before + mid + after == [before[0]] + rest;
      assert rest != [];
      var p, q := ContextAround(before[1..], mid, after);
      pre, post := Passage(before[0]) + "\n\n" + p, q;
      ContextOfCons(before[0], rest);
      Prepend(Passage(before[0]) + "\n\n", p, Context(mid), q);
    }
  }

  lemma {:induction false} ContextOfCons(c: Chunk, rest: seq<Chunk>)
    requires rest != []
    ensures Context([c] + rest) == (Passage(c) + "\n\n") + Context(rest)
  {
    assert ([c] + rest)[1..] == rest;
  }

  lemma {:induction false} Prepend(head: string, p: string, body: string, q: string)
    ensures head + (p + body + q) == (head + p) + body + q
    ensures head != "" && head[|head| - 1] == '\n' && (p == "" || p[|p| - 1] == '\n') ==>
              (head + p)[|head + p| - 1] == '\n'
  {
  }

  lemma {:induction false} ContextPrefix(mid: seq<Chunk>, after: seq<Chunk>) returns (post: string)
    requires mid != []
    ensures Context(mid + after) == Context(mid) + post
    ensures post == "" || post[0] == '\n'
  {
    if after == [] {
      assert mid + after == mid;
      post := "";
      assert Context(mid) + "" == Context(mid);
    } else if |mid| == 1 {
      assert mid + after == [mid[0]] + after && (mid + after)[1..] == after;
      post := "\n\n" + Context(after);
      ConcatAssociative(Passage(mid[0]), "\n\n", Context(after));
    } else {
      assert (mid + after)[1..] == mid[1..] + after;
      post := ContextPrefix(mid[1..], after);
      ConcatAssociative(Passage(mid[0]) + "\n\n", Context(mid[1..]), post);
    }
  }

  lemma {:induction false} ExecutableConcat(a: seq<Chunk>, b: seq<Chunk>)
    ensures ExecutableChunks(a + b) == ExecutableChunks(a) + ExecutableChunks(b)
  {
    if a == [] {
      assert a + b == b;
    } else {
      assert (a + b)[1..] == a[1..] + b;
      ExecutableConcat(a[1..], b);
    }
  }

  /** Chunks added around the ones a quote was found in never un-ground it. */
  lemma {:induction false} GroundingIsMonotone(quote: string, before: seq<Chunk>, mid: seq<Chunk>, after: seq<Chunk>)
    requires Grounded(quote, mid)
    ensures Grounded(quote, before + mid + after)
  {
    ExecutableConcat(before + mid, after);
    ExecutableConcat(before, mid);
    var kept := ExecutableChunks(mid);
    if kept == [] {
      NormaliseEmpty();
      assert false;
    }
    var pre, post := ContextAround(ExecutableChunks(before), kept, ExecutableChunks(after));
    MarkerCutIsClean(pre, Context(kept) + post);
    MarkerCutIsClean(Context(kept), post);
    SpanSurvivesNormalise(pre, Context(kept), post);
    ContainsTransitive(Normalise(Context(ExecutableChunks(before + mid + after))),
                       Normalise(Context(kept)), Normalise(quote));
  }

  /** A passage of the reference library neither grounds nor un-grounds anything, wherever it lands. */
  lemma {:induction false} ReferenceNeverGrounds(quote: string, before: seq<Chunk>, reference: seq<Chunk>,
                                                 after: seq<Chunk>)
    requires forall i | 0 <= i < |reference| :: reference[i].collection == REFERENCE_COLLECTION
    ensures Grounded(quote, before + reference + after) <==> Grounded(quote, before + after)
    ensures !Grounded(quote, reference)
  {
    NoExecutable(reference);
    ExecutableConcat(before + reference, after);
    ExecutableConcat(before, reference);
    ExecutableConcat(before, after);
    assert ExecutableChunks(before) + [] + ExecutableChunks(after)
        == ExecutableChunks(before) + ExecutableChunks(after);
    NormaliseEmpty();
  }

  lemma {:induction false} NoExecutable(reference: seq<Chunk>)
    requires forall i | 0 <= i < |reference| :: reference[i].collection == REFERENCE_COLLECTION
    ensures ExecutableChunks(reference) == []
  {
    if reference != [] {
      NoExecutable(reference[1..]);
    }
  }

  /** A long enough verbatim span of an executable chunk is accepted when its ends split no marker run odd from odd. */
  lemma {:induction false} VerbatimSpanIsGrounded(chunks: seq<Chunk>, i: nat, pre: string, quote: string,
                                                  post: string)
    requires i < |chunks| && chunks[i].collection != REFERENCE_COLLECTION
    requires chunks[i].text == pre + quote + post
    requires CleanCut(pre, quote + post) && CleanCut(quote, post)
    requires |Normalise(quote)| >= SHORTEST_EVIDENCE
    ensures Grounded(quote, chunks)
  {
    var c := chunks[i];
    var head := "[" + c.lbl + "]\n";
    assert Passage(c) == (head + pre) + quote + post;
    CleanCutWidens(head, pre, quote + post, "");
    assert (quote + post) + "" == quote + post;
    SpanSurvivesNormalise(head + pre, quote, post);
    if quote == "" {
      NormaliseEmpty();
    }
    assert ExecutableChunks([c]) == [c] by {
      assert [c][1..] == [];
    }
    assert Grounded(quote, [c]);
    assert chunks == chunks[..i] + [c] + chunks[i + 1..];
    GroundingIsMonotone(quote, chunks[..i], [c], chunks[i + 1..]);
  }

  // --- emphasis is typography -------------------------------------------------

  lemma {:induction false} EmphasisDrops(a: string, m: string, x: string, b: string)
    requires DropMarkers(m) == "" && x != ""
    requires a == "" || !IsMarker(a[|a| - 1])
    requires b == "" || !IsMarker(b[0])
    requires !IsMarker(x[0]) && !IsMarker(x[|x| - 1])
    ensures DropMarkers(a + m + x + m + b) == DropMarkers(a + x + b)
  {
    DropMarkersConcat(a + m + x + m, b);
    DropMarkersConcat(a + m + x, m);
    DropMarkersConcat(a + m, x);
    DropMarkersConcat(a, m);
    DropMarkersConcat(a + x, b);
    DropMarkersConcat(a, x);
    NothingBetween(DropMarkers(a), DropMarkers(x), DropMarkers(b));
  }

  lemma {:induction false} NothingBetween(a: string, x: string, b: string)
    ensures a + "" + x + "" + b == a + x + b
  {
  }

  /** Wrapping a span in emphasis, or unwrapping it, is invisible to the normaliser. */
  lemma {:induction false} EmphasisIsInvisible(a: string, m: string, x: string, b: string)
    requires IsEmphasis(m) && x != ""
    requires a == "" || !IsMarker(a[|a| - 1])
    requires b == "" || !IsMarker(b[0])
    requires !IsMarker(x[0]) && !IsMarker(x[|x| - 1])
    ensures Normalise(a + m + x + m + b) == Normalise(a + x + b)
  {
    EmphasisVanishes(m);
    UnifyConcat(a + m + x + m, b); UnifyConcat(a + m + x, m); UnifyConcat(a + m, x); UnifyConcat(a, m);
    UnifyConcat(a + x, b); UnifyConcat(a, x);
    EmphasisDrops(Unify(a), m, Unify(x), Unify(b));
  }

  /** So the same quote is accepted with its markers and without them, whichever way the source wrote it. */
  lemma {:induction false} GroundingIgnoresEmphasis(a: string, m: string, x: string, b: string, chunks: seq<Chunk>)
    requires IsEmphasis(m) && x != ""
    requires a == "" || !IsMarker(a[|a| - 1])
    requires b == "" || !IsMarker(b[0])
    requires !IsMarker(x[0]) && !IsMarker(x[|x| - 1])
    ensures Grounded(a + m + x + m + b, chunks) <==> Grounded(a + x + b, chunks)
  {
    EmphasisIsInvisible(a, m, x, b);
  }

  // --- idempotence, exactly ---------------------------------------------------

  lemma {:induction false} CollapseShrinks(s: string)
    ensures |CollapseSpace(s)| <= |s|
  {
    if s != "" {
      CollapseShrinks(s[1..]);
    }
  }

  lemma {:induction false} TrimLeftIsSuffix(s: string)
    ensures exists k :: 0 <= k <= |s| && TrimLeft(s) == s[k..]
    ensures TrimLeft(s) == "" || !IsSpace(TrimLeft(s)[0])
  {
    if s != "" && IsSpace(s[0]) {
      TrimLeftIsSuffix(s[1..]);
      var k :| 0 <= k <= |s[1..]| && TrimLeft(s[1..]) == s[1..][k..];
      assert s[1..][k..] == s[k + 1..];
    } else {
      assert s[0..] == s;
    }
  }

  lemma {:induction false} TrimRightIsPrefix(s: string)
    ensures exists k :: 0 <= k <= |s| && TrimRight(s) == s[..k]
    ensures TrimRight(s) == "" || !IsSpace(TrimRight(s)[|TrimRight(s)| - 1])
    decreases |s|
  {
    if s != "" && IsSpace(s[|s| - 1]) {
      var t := s[..|s| - 1];
      TrimRightIsPrefix(t);
      var k :| 0 <= k <= |t| && TrimRight(t) == t[..k];
      assert t[..k] == s[..k];
    } else {
      assert s[..|s|] == s;
    }
  }

  /** Single blanks only, none at the ends. */
  predicate Tidy(s: string) { Spaced(s) && (s == "" || Solid(s)) }

  predicate Spaced(s: string) {
    && (forall i | 0 <= i < |s| :: IsSpace(s[i]) ==> s[i] == ' ')
    && NoPair(s, ' ')
  }

  lemma {:induction false} CollapseSpaces(s: string)
    ensures Spaced(CollapseSpace(s))
    ensures s != "" ==> CollapseSpace(s) != "" && (IsSpace(CollapseSpace(s)[0]) <==> IsSpace(s[0]))
    ensures Spaced(s) ==> CollapseSpace(s) == s
  {
    if s != "" {
      var rest := CollapseSpace(s[1..]);
      CollapseSpaces(s[1..]);
      assert s == [s[0]] + s[1..];
      var out := CollapseSpace(s);
      if !(IsSpace(s[0]) && |s| > 1 && IsSpace(s[1])) {
        var head := if IsSpace(s[0]) then ' ' else s[0];
        assert out == [head] + rest;
        forall i, j | 0 <= i < |out| && j == i + 1 < |out| ensures !(out[i] == ' ' && out[j] == ' ') {
          if i > 0 {
            assert out[i] == rest[i - 1] && out[j] == rest[j - 1];
          }
        }
      }
      if Spaced(s) {
        SpacedTail(s);
      }
    }
  }

  lemma {:induction false} SpacedTail(s: string)
    requires Spaced(s) && s != ""
    ensures Spaced(s[1..])
    ensures IsSpace(s[0]) && |s| > 1 ==> !IsSpace(s[1])
  {
    assert forall i | 0 <= i < |s[1..]| :: s[1..][i] == s[i + 1];
    if IsSpace(s[0]) && |s| > 1 && IsSpace(s[1]) {
      assert false;
    }
  }

  lemma {:induction false} TrimIsSlice(s: string) returns (i: nat, j: nat)
    ensures i <= j <= |s| && Trim(s) == s[i..j]
    ensures Trim(s) == "" || Solid(Trim(s))
  {
    TrimLeftIsSuffix(s);
    var t := TrimLeft(s);
    var k: int :| 0 <= k <= |s| && t == s[k..];
    TrimRightIsPrefix(t);
    var n: int :| 0 <= n <= |t| && TrimRight(t) == t[..n];
    i, j := k, k + n;
    assert t[..n] == s[i..j];
  }

  /** Trimming a collapsed text leaves it tidy. */
  lemma {:induction false} TrimmedIsTidy(s: string)
    requires Spaced(s)
    ensures Tidy(Trim(s)) && |Trim(s)| <= |s|
  {
    var i, j := TrimIsSlice(s);
    SpacedSlice(s, i, j);
  }

  lemma {:induction false} SpacedSlice(s: string, from: nat, to: nat)
    requires Spaced(s) && from <= to <= |s|
    ensures Spaced(s[from..to])
  {
    var t := s[from..to];
    forall i | 0 <= i < |t| ensures t[i] == s[from + i] {
    }
    forall i, j | 0 <= i < |t| && j == i + 1 < |t| ensures !(t[i] == ' ' && t[j] == ' ') {
      assert !(s[from + i] == ' ' && s[from + j] == ' ');
    }
  }

  lemma {:induction false} LowerIsTidy(t: string)
    requires Tidy(t)
    ensures Tidy(Lower(t))
  {
    var low := Lower(t);
    forall i | 0 <= i < |t| ensures low[i] == ' ' <==> t[i] == ' ' {
    }
    forall i | 0 <= i < |t| ensures IsSpace(low[i]) <==> IsSpace(t[i]) {
    }
    forall i, j | 0 <= i < |low| && j == i + 1 < |low| ensures !(low[i] == ' ' && low[j] == ' ') {
      assert !(t[i] == ' ' && t[j] == ' ');
    }
  }

  lemma {:induction false} TidyIsFixed(s: string)
    requires Tidy(s)
    ensures Trim(CollapseSpace(s)) == s
  {
    CollapseSpaces(s);
  }

  predicate SettledChar(c: char) {
    UnifyChar(c) == c && LowerChar(c) == c && c != '`'
  }

  /** Every character of a normalised text is one the normaliser leaves alone. */
  lemma {:induction false} NormalisedIsSettled(q: string)
    ensures Tidy(Normalise(q))
    ensures forall i | 0 <= i < |Normalise(q)| :: SettledChar(Normalise(q)[i])
  {
    var d := DropMarkers(Unify(q));
    CollapseSpaces(d);
    TrimmedIsTidy(CollapseSpace(d));
    LowerIsTidy(Trim(CollapseSpace(d)));
    SettledChars(q);
  }

  lemma {:induction false} SettledChars(q: string)
    ensures forall i | 0 <= i < |Normalise(q)| :: SettledChar(Normalise(q)[i])
  {
    var u := Unify(q);
    var d := DropMarkers(u);
    var t := Trim(CollapseSpace(d));
    CharsComeFrom(u);
    CollapseChars(d);
    TrimChars(CollapseSpace(d));
    forall i | 0 <= i < |t| ensures SettledChar(Lower(t)[i]) {
      assert t[i] in t;
      if t[i] != ' ' {
        var k :| 0 <= k < |u| && u[k] == t[i];
        assert UnifyChar(u[k]) == u[k];
      }
    }
  }

  lemma {:induction false} CollapseChars(s: string)
    ensures forall x | x in CollapseSpace(s) :: x == ' ' || x in s
  {
    if s != "" {
      CollapseChars(s[1..]);
    }
  }

  lemma {:induction false} TrimChars(s: string)
    ensures forall x | x in Trim(s) :: x in s
  {
    TrimLeftIsSuffix(s);
    TrimRightIsPrefix(TrimLeft(s));
  }

  lemma {:induction false} NoPairCons(s: string, c: char)
    requires s != ""
    ensures NoPair(s, c) <==> NoPair(s[1..], c) && !(|s| > 1 && s[0] == c && s[1] == c)
  {
    var t := s[1..];
    assert forall i | 0 <= i < |t| :: t[i] == s[i + 1];
    if NoPair(t, c) && !(|s| > 1 && s[0] == c && s[1] == c) {
      forall i, j | 0 <= i < |s| && j == i + 1 < |s| ensures !(s[i] == c && s[j] == c) {
        if i > 0 {
          assert !(t[i - 1] == c && t[j - 1] == c);
        }
      }
    }
    if NoPair(s, c) {
      forall i, j | 0 <= i < |t| && j == i + 1 < |t| ensures !(t[i] == c && t[j] == c) {
        assert !(s[i + 1] == c && s[j + 1] == c);
      }
    }
  }

  /** A character other than white space passes through the collapsing, the trimming and the lower-casing. */
  lemma {:induction false} CollapseKeepsPairs(s: string, c: char)
    requires !IsSpace(c)
    ensures NoPair(CollapseSpace(s), c) <==> NoPair(s, c)
    ensures c in CollapseSpace(s) <==> c in s
  {
    if s != "" {
      var t, out := s[1..], CollapseSpace(s);
      CollapseKeepsPairs(t, c);
      CollapseSpaces(t);
      NoPairCons(s, c);
      NoPairCons(out, c);
      FirstCollapsed(s);
      if t != "" {
        FirstCollapsed(t);
      }
      assert s == [s[0]] + t;
    }
  }

  lemma {:induction false} FirstCollapsed(s: string)
    requires s != ""
    ensures CollapseSpace(s) != "" && CollapseSpace(s)[0] == if IsSpace(s[0]) then ' ' else s[0]
    ensures IsSpace(s[0]) && |s| > 1 && IsSpace(s[1]) ==> CollapseSpace(s) == CollapseSpace(s[1..])
    ensures !(IsSpace(s[0]) && |s| > 1 && IsSpace(s[1])) ==>
              |CollapseSpace(s)| > 0 && CollapseSpace(s)[1..] == CollapseSpace(s[1..])
    decreases |s|
  {
    if IsSpace(s[0]) && |s| > 1 && IsSpace(s[1]) {
      FirstCollapsed(s[1..]);
    }
  }

  lemma {:induction false} TrimLeftKeepsPairs(s: string, c: char)
    requires !IsSpace(c)
    ensures NoPair(TrimLeft(s), c) <==> NoPair(s, c)
    ensures c in TrimLeft(s) <==> c in s
  {
    if s != "" && IsSpace(s[0]) {
      TrimLeftKeepsPairs(s[1..], c);
      NoPairCons(s, c);
      assert s == [s[0]] + s[1..];
    }
  }

  lemma {:induction false} TrimRightKeepsPairs(s: string, c: char)
    requires !IsSpace(c)
    ensures NoPair(TrimRight(s), c) <==> NoPair(s, c)
    ensures c in TrimRight(s) <==> c in s
    decreases |s|
  {
    if s != "" && IsSpace(s[|s| - 1]) {
      var t := s[..|s| - 1];
      TrimRightKeepsPairs(t, c);
      assert forall i | 0 <= i < |t| :: t[i] == s[i];
      assert s == t + [s[|s| - 1]];
      if NoPair(t, c) {
        forall i, j | 0 <= i < |s| && j == i + 1 < |s| ensures !(s[i] == c && s[j] == c) {
          if j < |t| {
            assert !(t[i] == c && t[j] == c);
          }
        }
      }
      if NoPair(s, c) {
        forall i, j | 0 <= i < |t| && j == i + 1 < |t| ensures !(t[i] == c && t[j] == c) {
          assert !(s[i] == c && s[j] == c);
        }
      }
    }
  }

  lemma {:induction false} PointwiseKeepsPairs(s: string, t: string, c: char)
    requires |s| == |t| && forall i | 0 <= i < |s| :: s[i] == c <==> t[i] == c
    ensures NoPair(s, c) <==> NoPair(t, c)
    ensures c in s <==> c in t
  {
    if NoPair(s, c) {
      forall i, j | 0 <= i < |t| && j == i + 1 < |t| ensures !(t[i] == c && t[j] == c) {
        assert !(s[i] == c && s[j] == c);
      }
    }
    if NoPair(t, c) {
      forall i, j | 0 <= i < |s| && j == i + 1 < |s| ensures !(s[i] == c && s[j] == c) {
        assert !(t[i] == c && t[j] == c);
      }
    }
    if c in s {
      var i :| 0 <= i < |s| && s[i] == c;
      assert t[i] == c;
    }
    if c in t {
      var i :| 0 <= i < |t| && t[i] == c;
      assert s[i] == c;
    }
  }

  /** The markers of a normalised text, and which of them are doubled, are those the removals leave. */
  lemma {:induction false} NormaliseKeepsMarkers(q: string, c: char)
    requires IsMarker(c)
    ensures NoPair(Normalise(q), c) <==> NoPair(DropMarkers(q), c)
    ensures c in Normalise(q) <==> c in DropMarkers(q)
  {
    var d := DropMarkers(Unify(q));
    UnifyDropMarkers(q);
    PointwiseKeepsPairs(d, DropMarkers(q), c);
    CollapseKeepsPairs(d, c);
    TrimLeftKeepsPairs(CollapseSpace(d), c);
    TrimRightKeepsPairs(TrimLeft(CollapseSpace(d)), c);
    PointwiseKeepsPairs(Trim(CollapseSpace(d)), Normalise(q), c);
  }

  /**
   Normalising twice is normalising once, except exactly when two leftover asterisks - each from a run of odd
   length - have nothing between them but what the removals delete, or two leftover underscores do once the
   doubled asterisks are gone.
   */
  lemma {:induction false} NormaliseIdempotentIff(q: string)
    ensures Normalise(Normalise(q)) == Normalise(q) <==> !Joins(q, '*') && !Joins(DropPairs(q, '*'), '_')
  {
    NormaliseKeepsMarkers(q, '*');
    NormaliseKeepsMarkers(q, '_');
    DoubledMarkersLeftIff(q);
    FixedIffNoPairs(q);
  }

  lemma {:induction false} FixedIffNoPairs(q: string)
    ensures Normalise(Normalise(q)) == Normalise(q)
       <==> NoPair(Normalise(q), '*') && NoPair(Normalise(q), '_')
  {
    var n := Normalise(q);
    NormalisedIsSettled(q);
    SettledIsUnified(n);
    if NoPair(n, '*') && NoPair(n, '_') {
      PairlessIsFixed(n);
    } else {
      PairedShrinks(n);
    }
  }

  lemma SettledIsUnified(n: string)
    requires forall i | 0 <= i < |n| :: SettledChar(n[i])
    ensures Unify(n) == n && Lower(n) == n && '`' !in n
  {
  }

  lemma {:induction false} PairlessIsFixed(n: string)
    requires Tidy(n) && Unify(n) == n && Lower(n) == n && '`' !in n
    requires NoPair(n, '*') && NoPair(n, '_')
    ensures Normalise(n) == n
  {
    DropPairsFixedIff(n, '*');
    DropPairsFixedIff(n, '_');
    DropAllFixedIff(n, '`');
    TidyIsFixed(n);
  }

  lemma {:induction false} PairedShrinks(n: string)
    requires Unify(n) == n && !(NoPair(n, '*') && NoPair(n, '_'))
    ensures |Normalise(n)| < |n|
  {
    var a := DropPairs(n, '*');
    var b := DropPairs(a, '_');
    DropPairsFixedIff(n, '*');
    DropPairsFixedIff(a, '_');
    DropAllFixedIff(b, '`');
    var d := DropMarkers(n);
    CollapseShrinks(d);
    CollapseSpaces(d);
    TrimmedIsTidy(CollapseSpace(d));
  }

  /** The shortest case: the backtick between two asterisks goes, and leaves a pair that a second pass would remove. */
  lemma {:induction false} NormaliseIsNotIdempotent()
    ensures Joins("*`*", '*') && Normalise("*`*") == "**" && Normalise("**") == ""
  {
    var q := "*`*";
    EmphasisVanishes("`");
    assert q[1..2] == "`";
    assert JoinAt(q, 0, 1, 2, 3, '*');
    assert Unify(q) == q && q[1..] == "`*" && "`*"[1..] == "*";
    assert DropPairs(q, '*') == q && DropPairs(q, '_') == q;
    assert "*"[1..] == "";
    assert DropAll(q, '`') == "**";
    assert "**"[1..] == "*" && CollapseSpace("**") == "**";
    assert Trim("**") == "**" && Lower("**") == "**";
    EmphasisVanishes("**");
    TrimAllSpace("");
  }
}
