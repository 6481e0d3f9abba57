/** Emphasis markers and how the normaliser removes them. */
module Markers {
  import opened Text

  // --- the removals -----------------------------------------------------------

  function UnifyChar(c: char): char {
    if c == '\U{2013}' || c == '\U{2014}' then '-'
    else if c == '\U{2019}' then '\''
    else if c == '\U{201C}' || c == '\U{201D}' then '\"'
    else c
  }

  function Unify(s: string): string {
    seq(|s|, i requires 0 <= i < |s| => UnifyChar(s[i]))
  }

  /** `s.replace(cc, "")` for the doubled character `cc`: left to right, non-overlapping. */
  function DropPairs(s: string, c: char): string {
    if |s| < 2 then s
    else if s[0] == c && s[1] == c then DropPairs(s[2..], c)
    else [s[0]] + DropPairs(s[1..], c)
  }

  /** `s.replace(c, "")` */
  function DropAll(s: string, c: char): string {
    if s == "" then "" else if s[0] == c then DropAll(s[1..], c) else [s[0]] + DropAll(s[1..], c)
  }

  /** The three emphasis markers, removed in the code's order. */
  function DropMarkers(s: string): string {
    DropAll(DropPairs(DropPairs(s, '*'), '_'), '`')
  }

  predicate IsMarker(c: char) { c == '*' || c == '_' }

  // --- runs -------------------------------------------------------------------

  /** How many times `c` is repeated at the start. */
  function LeadRun(s: string, c: char): (n: nat)
    ensures n <= |s| && (forall i | 0 <= i < n :: s[i] == c) && (n < |s| ==> s[n] != c)
  {
    if s != "" && s[0] == c then 1 + LeadRun(s[1..], c) else 0
  }

  /** How many times `c` is repeated at the end. */
  function TrailRun(s: string, c: char): (n: nat)
    ensures n <= |s| && (forall i | |s| - n <= i < |s| :: s[i] == c) && (n < |s| ==> s[|s| - n - 1] != c)
  {
    if s != "" && s[|s| - 1] == c then 1 + TrailRun(s[..|s| - 1], c) else 0
  }

  /** The cut leaves an odd part of one run on each side. */
  predicate OddSplit(a: string, b: string, c: char) { TrailRun(a, c) % 2 == 1 && LeadRun(b, c) % 2 == 1 }

  lemma {:induction false} LeadRunIs(s: string, c: char, n: nat)
    requires n <= |s| && (forall i | 0 <= i < n :: s[i] == c) && (n < |s| ==> s[n] != c)
    ensures LeadRun(s, c) == n
  {
    if n > 0 {
      LeadRunIs(s[1..], c, n - 1);
    }
  }

  lemma {:induction false} TrailRunIs(s: string, c: char, n: nat)
    requires n <= |s| && (forall i | |s| - n <= i < |s| :: s[i] == c) && (n < |s| ==> s[|s| - n - 1] != c)
    ensures TrailRun(s, c) == n
    decreases n
  {
    if n > 0 {
      var t := s[..|s| - 1];
      assert forall i | |t| - (n - 1) <= i < |t| :: t[i] == s[i];
      TrailRunIs(t, c, n - 1);
    }
  }

  lemma {:induction false} TrailRunOfTail(a: string, k: nat, c: char)
    requires k <= |a|
    ensures TrailRun(a[k..], c) == if TrailRun(a, c) <= |a| - k then TrailRun(a, c) else |a| - k
  {
    var n, t := TrailRun(a, c), a[k..];
    assert forall i | 0 <= i < |t| :: t[i] == a[k + i];
    TrailRunIs(t, c, if n <= |a| - k then n else |a| - k);
  }

  lemma {:induction false} LeadRunOfTail(b: string, k: nat, c: char)
    requires k <= LeadRun(b, c)
    ensures LeadRun(b[k..], c) == LeadRun(b, c) - k
  {
    if k > 0 {
      LeadRunOfTail(b[1..], k - 1, c);
      assert b[1..][k - 1..] == b[k..];
    } else {
      assert b[0..] == b;
    }
  }

  lemma {:induction false} DropPairsOfOther(s: string, c: char)
    requires s != "" && (s[0] != c || |s| == 1 || s[1] != c)
    ensures DropPairs(s, c) == [s[0]] + DropPairs(s[1..], c)
  {
    if |s| == 1 {
      assert s == [s[0]] + "" && s[1..] == "";
    }
  }

  lemma {:induction false} DropPairsOfRun(s: string, c: char, k: nat)
    requires k <= |s| && (forall i | 0 <= i < k :: s[i] == c) && (k < |s| ==> s[k] != c)
    ensures DropPairs(s, c) == (if k % 2 == 1 then [c] else "") + DropPairs(s[k..], c)
  {
    if k == 0 {
      assert s[0..] == s;
      assert "" + DropPairs(s, c) == DropPairs(s, c);
    } else if k == 1 {
      DropPairsOfOther(s, c);
    } else {
      var t := s[2..];
      assert DropPairs(s, c) == DropPairs(t, c);
      assert t[k - 2..] == s[k..];
      DropPairsOfRun(t, c, k - 2);
    }
  }

  /** In front of an even run, a further `c` stays; in front of an odd one, it takes one with it. */
  lemma {:induction false} DropPairsOfCons(b: string, c: char)
    ensures LeadRun(b, c) % 2 == 0 ==> DropPairs([c] + b, c) == [c] + DropPairs(b, c)
    ensures LeadRun(b, c) % 2 == 1 ==> [c] + DropPairs([c] + b, c) == DropPairs(b, c)
  {
    var k := LeadRun(b, c);
    var s := [c] + b;
    assert s[k + 1..] == b[k..];
    DropPairsOfRun(b, c, k);
    DropPairsOfRun(s, c, k + 1);
    var rest := DropPairs(b[k..], c);
    assert "" + rest == rest;
  }

  lemma {:induction false} DropPairsConcat(a: string, b: string, c: char)
    requires !OddSplit(a, b, c)
    ensures DropPairs(a + b, c) == DropPairs(a, c) + DropPairs(b, c)
    decreases |a|
  {
    if a == "" {
      assert a + b == b;
    } else if |a| == 1 {
      assert a == [a[0]];
      if a[0] == c {
        assert TrailRun(a, c) == 1 + TrailRun(a[..0], c);
        DropPairsOfCons(b, c);
      } else {
        assert (a + b)[1..] == b;
        if b == "" {
          assert a + b == a;
        }
      }
    } else if a[0] == c && a[1] == c {
      assert (a + b)[2..] == a[2..] + b;
      TrailRunOfTail(a, 2, c);
      DropPairsConcat(a[2..], b, c);
    } else {
      assert (a + b)[1..] == a[1..] + b;
      TrailRunOfTail(a, 1, c);
      DropPairsConcat(a[1..], b, c);
      ConcatAssociative([a[0]], DropPairs(a[1..], c), DropPairs(b, c));
    }
  }

  function Count(s: string, c: char): nat {
    if s == "" then 0 else Count(s[1..], c) + if s[0] == c then 1 else 0
  }

  lemma {:induction false} CountConcat(a: string, b: string, c: char)
    ensures Count(a + b, c) == Count(a, c) + Count(b, c)
  {
    if a == "" {
      assert a + b == b;
    } else {
      assert (a + b)[1..] == a[1..] + b;
      CountConcat(a[1..], b, c);
    }
  }

  /** A run split odd against odd loses the two characters that meet at the cut. */
  lemma {:induction false} OddSplitLosesTwo(a: string, b: string, c: char)
    requires OddSplit(a, b, c)
    ensures Count(DropPairs(a + b, c), c) + 2 == Count(DropPairs(a, c), c) + Count(DropPairs(b, c), c)
  {
    var a0, b0 := a[..|a| - 1], b[1..];
    assert a == a0 + [c] && b == [c] + b0;
    LeadRunOfTail(b, 1, c);
    OddHalves(a0, b0, c);
    assert a + b == a0 + ([c, c] + b0);
    CountHalves(DropPairs(a0, c), DropPairs(b0, c), c);
  }

  lemma {:induction false} CountHalves(a: string, b: string, c: char)
    ensures Count(a + b, c) + 2 == Count(a + [c], c) + Count([c] + b, c)
  {
    CountConcat(a, [c], c);
    CountConcat(a, b, c);
    CountConcat([c], b, c);
    assert [c][1..] == "" && Count([c], c) == 1;
  }

  lemma {:induction false} OddHalves(a0: string, b0: string, c: char)
    requires TrailRun(a0, c) % 2 == 0 && LeadRun(b0, c) % 2 == 0
    ensures DropPairs(a0 + [c], c) == DropPairs(a0, c) + [c] && DropPairs([c] + b0, c) == [c] + DropPairs(b0, c)
    ensures DropPairs(a0 + ([c, c] + b0), c) == DropPairs(a0, c) + DropPairs(b0, c)
  {
    DropPairsConcat(a0, [c], c);
    DropPairsOfCons(b0, c);
    var both := [c, c] + b0;
    assert both[2..] == b0;
    DropPairsConcat(a0, both, c);
  }

  /** Removing doubled characters distributes over exactly the cuts that do not split a run odd against odd. */
  lemma {:induction false} DropPairsConcatIff(a: string, b: string, c: char)
    ensures DropPairs(a + b, c) == DropPairs(a, c) + DropPairs(b, c) <==> !OddSplit(a, b, c)
  {
    CountConcat(DropPairs(a, c), DropPairs(b, c), c);
    if OddSplit(a, b, c) {
      OddSplitLosesTwo(a, b, c);
    } else {
      DropPairsConcat(a, b, c);
    }
  }

  /** Dropping pairs leaves no foreign character at an end where there was none. */
  lemma {:induction false} DropPairsEnds(s: string, c: char)
    ensures DropPairs(s, c) != "" && s[0] != c ==> DropPairs(s, c)[0] == s[0]
    ensures s != "" && s[0] != c ==> DropPairs(s, c) != ""
    ensures s != "" && s[|s| - 1] != c
        ==> DropPairs(s, c) != "" && DropPairs(s, c)[|DropPairs(s, c)| - 1] == s[|s| - 1]
    decreases |s|
  {
    if |s| >= 2 {
      if s[0] == c && s[1] == c {
        DropPairsEnds(s[2..], c);
      } else {
        DropPairsEnds(s[1..], c);
      }
    }
  }

  lemma {:induction false} DropAllConcat(a: string, b: string, c: char)
    ensures DropAll(a + b, c) == DropAll(a, c) + DropAll(b, c)
  {
    if a == "" {
      assert a + b == b;
    } else {
      assert (a + b)[1..] == a[1..] + b;
      DropAllConcat(a[1..], b, c);
    }
  }

  lemma {:induction false} CountDropPairs(s: string, d: char, c: char)
    requires c != d
    ensures Count(DropPairs(s, d), c) == Count(s, c)
    decreases |s|
  {
    if |s| >= 2 {
      if s[0] == d && s[1] == d {
        assert s[1..][1..] == s[2..];
        CountDropPairs(s[2..], d, c);
      } else {
        CountDropPairs(s[1..], d, c);
        assert DropPairs(s, d)[1..] == DropPairs(s[1..], d);
      }
    }
  }

  lemma {:induction false} CountDropAll(s: string, d: char, c: char)
    requires c != d
    ensures Count(DropAll(s, d), c) == Count(s, c)
  {
    if s != "" {
      CountDropAll(s[1..], d, c);
      if s[0] != d {
        assert DropAll(s, d)[1..] == DropAll(s[1..], d);
      }
    }
  }

  // --- where a text may be cut ------------------------------------------------

  /** No run is split odd against odd: of asterisks first, then of underscores once the doubled asterisks are gone. */
  predicate CleanCut(a: string, b: string) {
    !OddSplit(a, b, '*') && !OddSplit(DropPairs(a, '*'), DropPairs(b, '*'), '_')
  }

  lemma {:induction false} CleanCutConcat(a: string, b: string)
    requires CleanCut(a, b)
    ensures DropMarkers(a + b) == DropMarkers(a) + DropMarkers(b)
  {
    var a1, b1 := DropPairs(a, '*'), DropPairs(b, '*');
    DropPairsConcat(a, b, '*');
    DropPairsConcat(a1, b1, '_');
    DropAllConcat(DropPairs(a1, '_'), DropPairs(b1, '_'), '`');
  }

  lemma {:induction false} MarkersLeft(s: string)
    ensures Count(DropMarkers(s), '*') == Count(DropPairs(s, '*'), '*')
    ensures Count(DropMarkers(s), '_') == Count(DropPairs(DropPairs(s, '*'), '_'), '_')
  {
    var t := DropPairs(s, '*');
    CountDropPairs(t, '_', '*');
    CountDropAll(DropPairs(t, '_'), '`', '*');
    CountDropAll(DropPairs(t, '_'), '`', '_');
  }

  /** Removing the markers distributes over exactly the clean cuts. */
  lemma {:induction false} DropMarkersConcatIff(a: string, b: string)
    ensures DropMarkers(a + b) == DropMarkers(a) + DropMarkers(b) <==> CleanCut(a, b)
  {
    MarkersLeft(a);
    MarkersLeft(b);
    MarkersLeft(a + b);
    CountConcat(DropMarkers(a), DropMarkers(b), '*');
    CountConcat(DropMarkers(a), DropMarkers(b), '_');
    if CleanCut(a, b) {
      CleanCutConcat(a, b);
    } else if OddSplit(a, b, '*') {
      OddSplitLosesTwo(a, b, '*');
    } else {
      DropPairsConcat(a, b, '*');
      OddSplitLosesTwo(DropPairs(a, '*'), DropPairs(b, '*'), '_');
    }
  }

  /** A cut next to anything but a marker is clean. */
  predicate MarkerCut(a: string, b: string) {
    a == "" || b == "" || !IsMarker(a[|a| - 1]) || !IsMarker(b[0])
  }

  lemma {:induction false} MarkerCutIsClean(a: string, b: string)
    requires a == "" || b == "" || !IsMarker(a[|a| - 1]) || !IsMarker(b[0])
    ensures CleanCut(a, b)
  {
    DropPairsEnds(a, '*');
    DropPairsEnds(b, '*');
  }

  lemma {:induction false} DropMarkersConcat(a: string, b: string)
    requires MarkerCut(a, b)
    ensures DropMarkers(a + b) == DropMarkers(a) + DropMarkers(b)
  {
    MarkerCutIsClean(a, b);
    CleanCutConcat(a, b);
  }

  lemma {:induction false} RunsStayPut(outer: string, a: string, b: string, more: string, c: char)
    requires outer == "" || outer[|outer| - 1] != c
    requires more == "" || more[0] != c
    ensures TrailRun(outer + a, c) == TrailRun(a, c) && LeadRun(b + more, c) == LeadRun(b, c)
  {
    var n, k := TrailRun(a, c), LeadRun(b, c);
    var left, right := outer + a, b + more;
    assert forall i | 0 <= i < |a| :: left[|outer| + i] == a[i];
    assert outer != "" ==> left[|outer| - 1] == outer[|outer| - 1];
    TrailRunIs(left, c, n);
    assert more != "" ==> right[|b|] == more[0];
    LeadRunIs(right, c, k);
  }

  /** Text that is no marker, further out, does not make a cut less clean. */
  lemma {:induction false} CleanCutWidens(outer: string, a: string, b: string, more: string)
    requires CleanCut(a, b)
    requires outer == "" || !IsMarker(outer[|outer| - 1])
    requires more == "" || !IsMarker(more[0])
    ensures CleanCut(outer + a, b + more)
  {
    RunsStayPut(outer, a, b, more, '*');
    MarkerCutIsClean(outer, a);
    MarkerCutIsClean(b, more);
    DropPairsConcat(outer, a, '*');
    DropPairsConcat(b, more, '*');
    DropPairsEnds(outer, '*');
    DropPairsEnds(more, '*');
    RunsStayPut(DropPairs(outer, '*'), DropPairs(a, '*'), DropPairs(b, '*'), DropPairs(more, '*'), '_');
  }

  // --- unified punctuation has nothing to do with it --------------------------

  lemma UnifyConcat(a: string, b: string)
    ensures Unify(a + b) == Unify(a) + Unify(b)
  {
  }

  lemma {:induction false} UnifyKeepsRuns(s: string, c: char)
    requires IsMarker(c)
    ensures TrailRun(Unify(s), c) == TrailRun(s, c) && LeadRun(Unify(s), c) == LeadRun(s, c)
  {
    if s != "" {
      assert Unify(s)[1..] == Unify(s[1..]) && Unify(s)[..|s| - 1] == Unify(s[..|s| - 1]);
      LeadOfUnified(s, c);
      TrailOfUnified(s, c);
    }
  }

  lemma {:induction false} LeadOfUnified(s: string, c: char)
    requires IsMarker(c)
    ensures LeadRun(Unify(s), c) == LeadRun(s, c)
  {
    if s != "" {
      assert Unify(s)[1..] == Unify(s[1..]);
      LeadOfUnified(s[1..], c);
    }
  }

  lemma {:induction false} TrailOfUnified(s: string, c: char)
    requires IsMarker(c)
    ensures TrailRun(Unify(s), c) == TrailRun(s, c)
    decreases |s|
  {
    if s != "" {
      assert Unify(s)[..|s| - 1] == Unify(s[..|s| - 1]);
      TrailOfUnified(s[..|s| - 1], c);
    }
  }

  lemma {:induction false} UnifyDropPairs(s: string, c: char)
    requires IsMarker(c)
    ensures DropPairs(Unify(s), c) == Unify(DropPairs(s, c))
    decreases |s|
  {
    if |s| >= 2 {
      assert Unify(s)[1..] == Unify(s[1..]) && Unify(s)[2..] == Unify(s[2..]);
      if s[0] == c && s[1] == c {
        UnifyDropPairs(s[2..], c);
      } else {
        UnifyDropPairs(s[1..], c);
        UnifyConcat([s[0]], DropPairs(s[1..], c));
        assert Unify([s[0]]) == [Unify(s)[0]];
      }
    }
  }

  lemma {:induction false} UnifyDropAll(s: string)
    ensures DropAll(Unify(s), '`') == Unify(DropAll(s, '`'))
  {
    if s != "" {
      assert Unify(s)[1..] == Unify(s[1..]);
      UnifyDropAll(s[1..]);
      UnifyConcat([s[0]], DropAll(s[1..], '`'));
      assert Unify([s[0]]) == [Unify(s)[0]];
    }
  }

  lemma {:induction false} UnifyDropMarkers(s: string)
    ensures DropMarkers(Unify(s)) == Unify(DropMarkers(s))
  {
    UnifyDropPairs(s, '*');
    UnifyDropPairs(DropPairs(s, '*'), '_');
    UnifyDropAll(DropPairs(DropPairs(s, '*'), '_'));
  }

  lemma {:induction false} UnifyKeepsCleanCut(a: string, b: string)
    ensures CleanCut(Unify(a), Unify(b)) <==> CleanCut(a, b)
  {
    UnifyKeepsRuns(a, '*');
    UnifyKeepsRuns(b, '*');
    UnifyDropPairs(a, '*');
    UnifyDropPairs(b, '*');
    UnifyKeepsRuns(DropPairs(a, '*'), '_');
    UnifyKeepsRuns(DropPairs(b, '*'), '_');
  }

  // --- pairs, and what survives -----------------------------------------------

  predicate NoPair(s: string, c: char) {
    forall i, j | 0 <= i < |s| && j == i + 1 < |s| :: !(s[i] == c && s[j] == c)
  }

  lemma {:induction false} DropPairsFixedIff(s: string, c: char)
    ensures |DropPairs(s, c)| <= |s|
    ensures NoPair(s, c) ==> DropPairs(s, c) == s
    ensures !NoPair(s, c) ==> |DropPairs(s, c)| < |s|
    decreases |s|
  {
    if |s| >= 2 {
      if s[0] == c && s[1] == c {
        DropPairsFixedIff(s[2..], c);
      } else {
        DropPairsFixedIff(s[1..], c);
        assert s == [s[0]] + s[1..];
        if NoPair(s, c) {
          assert forall i | 0 <= i < |s[1..]| :: s[1..][i] == s[i + 1];
        }
        if NoPair(s[1..], c) {
          forall i, j | 0 <= i < |s| && j == i + 1 < |s| ensures !(s[i] == c && s[j] == c) {
            if i > 0 {
              assert s[i] == s[1..][i - 1] && s[j] == s[1..][j - 1];
            }
          }
        }
      }
    }
  }

  lemma {:induction false} DropAllFixedIff(s: string, c: char)
    ensures |DropAll(s, c)| <= |s|
    ensures c !in s ==> DropAll(s, c) == s
    ensures c !in DropAll(s, c)
  {
    if s != "" {
      assert s == [s[0]] + s[1..];
      DropAllFixedIff(s[1..], c);
    }
  }

  lemma {:induction false} DropPairsChars(s: string, c: char)
    ensures forall x | x in DropPairs(s, c) :: x in s
    decreases |s|
  {
    if |s| >= 2 {
      if s[0] == c && s[1] == c {
        DropPairsChars(s[2..], c);
      } else {
        DropPairsChars(s[1..], c);
      }
    }
  }

  lemma {:induction false} DropAllChars(s: string, c: char)
    ensures forall x | x in DropAll(s, c) :: x in s
  {
    if s != "" {
      DropAllChars(s[1..], c);
    }
  }

  lemma {:induction false} CharsComeFrom(s: string)
    ensures forall x | x in DropMarkers(s) :: x in s && x != '`'
  {
    var a := DropPairs(s, '*');
    var b := DropPairs(a, '_');
    DropPairsChars(s, '*');
    DropPairsChars(a, '_');
    DropAllChars(b, '`');
    DropAllFixedIff(b, '`');
  }

  predicate IsEmphasis(m: string) { m == "**" || m == "__" || m == "`" }

  lemma {:induction false} EmphasisVanishes(m: string)
    requires IsEmphasis(m)
    ensures Unify(m) == m && DropMarkers(m) == ""
  {
    if m == "**" {
      assert m[2..] == "";
    } else if m == "__" {
      assert m[1..] == "_" && DropPairs("__", '*') == "__" && m[2..] == "";
    } else {
      assert DropPairs(DropPairs(m, '*'), '_') == m;
      assert m[1..] == "" && DropAll("", '`') == "";
    }
  }

  // --- leftover markers -------------------------------------------------------

  /** A whole run of `c`, from `i` up to `j`, of odd length. */
  predicate OddRunAt(s: string, i: nat, j: nat, c: char) {
    && i < j <= |s| && (j - i) % 2 == 1
    && (forall k | i <= k < j :: s[k] == c)
    && (i > 0 ==> s[i - 1] != c) && (j < |s| ==> s[j] != c)
  }

  predicate HasOddRun(s: string, c: char) { exists i: nat, j: nat | i < j <= |s| :: OddRunAt(s, i, j, c) }

  lemma {:induction false} OddRunInTail(s: string, k: nat, i: nat, j: nat, c: char)
    requires k <= |s| && i < j && OddRunAt(s[k..], i, j, c) && (i == 0 && k > 0 ==> s[k - 1] != c)
    ensures OddRunAt(s, k + i, k + j, c)
  {
    var t := s[k..];
    assert forall p | 0 <= p < |t| :: t[p] == s[k + p];
    forall p | k + i <= p < k + j ensures s[p] == c {
      assert t[p - k] == c;
    }
    if i > 0 {
      assert t[i - 1] == s[k + i - 1];
    }
  }

  /** The first odd run: nothing of `c` is left in front of it. */
  lemma {:induction false} FirstOddRun(s: string, c: char) returns (i: nat, j: nat)
    requires c in DropPairs(s, c)
    ensures i < j && OddRunAt(s, i, j, c)
    ensures c !in DropPairs(s[..i], c)
    decreases |s|
  {
    var k := LeadRun(s, c);
    if k % 2 == 1 {
      i, j := 0, k;
      OddFromTheStart(s, k, c);
    } else {
      var n := if k == 0 then 1 else k;
      PastTheFirst(s, k, n, c);
      var i', j' := FirstOddRun(s[n..], c);
      i, j := n + i', n + j';
      ShiftFirst(s, k, n, i', j', c);
    }
  }

  lemma {:induction false} OddFromTheStart(s: string, k: nat, c: char)
    requires k == LeadRun(s, c) && k % 2 == 1
    ensures OddRunAt(s, 0, k, c) && c !in DropPairs(s[..0], c)
  {
    assert s[..0] == "";
  }

  /** Past an even run, or one other character, the leftover is still to come. */
  lemma {:induction false} PastTheFirst(s: string, k: nat, n: nat, c: char)
    requires c in DropPairs(s, c) && k == LeadRun(s, c) && k % 2 == 0 && n == if k == 0 then 1 else k
    ensures n <= |s| && c in DropPairs(s[n..], c)
  {
    if k == 0 {
      DropPairsOfOther(s, c);
    } else {
      DropPairsOfRun(s, c, k);
    }
  }

  lemma {:induction false} ShiftFirst(s: string, k: nat, n: nat, i: nat, j: nat, c: char)
    requires k == LeadRun(s, c) && k % 2 == 0 && n == (if k == 0 then 1 else k) && n <= |s|
    requires i < j && OddRunAt(s[n..], i, j, c) && c !in DropPairs(s[n..][..i], c)
    ensures OddRunAt(s, n + i, n + j, c) && c !in DropPairs(s[..n + i], c)
  {
    assert s[n..][0] == s[n];
    OddRunInTail(s, n, i, j, c);
    var front := s[..n + i];
    assert front[n..] == s[n..][..i];
    if k == 0 {
      DropPairsOfOther(front, c);
    } else {
      DropPairsOfRun(front, c, k);
    }
  }

  /** An odd run leaves one of its characters behind. */
  lemma {:induction false} OddRunSurvives(s: string, i: nat, j: nat, c: char)
    requires i < j && OddRunAt(s, i, j, c)
    ensures c in DropPairs(s, c)
    decreases i
  {
    if i == 0 {
      DropPairsOfRun(s, c, j);
    } else {
      var k := LeadRun(s, c);
      var n := if k == 0 then 1 else k;
      assert s[i - 1] != c;
      assert n <= i;
      RunInTail(s, n, i, j, c);
      OddRunSurvives(s[n..], i - n, j - n, c);
      if k == 0 {
        DropPairsOfOther(s, c);
      } else {
        DropPairsOfRun(s, c, k);
      }
    }
  }

  lemma {:induction false} RunInTail(s: string, n: nat, i: nat, j: nat, c: char)
    requires n <= i < j && OddRunAt(s, i, j, c)
    ensures OddRunAt(s[n..], i - n, j - n, c)
  {
    var t := s[n..];
    assert forall p | 0 <= p < |t| :: t[p] == s[n + p];
    forall p | i - n <= p < j - n ensures t[p] == c {
      assert s[n + p] == c;
    }
  }

  /** A marker is left exactly when one of its runs is odd. */
  lemma {:induction false} LeftoverIff(s: string, c: char)
    ensures c in DropPairs(s, c) <==> HasOddRun(s, c)
  {
    if c in DropPairs(s, c) {
      var i, j := FirstOddRun(s, c);
    }
    if HasOddRun(s, c) {
      var i: nat, j: nat :| i < j <= |s| && OddRunAt(s, i, j, c);
      OddRunSurvives(s, i, j, c);
    }
  }

  /** What the removals from `c` on make of a text: of both markers and the backtick, or of all but the asterisk. */
  function Later(w: string, c: char): string
    requires IsMarker(c)
  {
    if c == '*' then DropMarkers(w) else DropAll(DropPairs(w, '_'), '`')
  }

  /** Two leftover markers with nothing between them but what the removals delete. */
  predicate JoinAt(s: string, i: nat, j: nat, k: nat, n: nat, c: char)
    requires IsMarker(c)
  {
    i < j <= k < n && OddRunAt(s, i, j, c) && OddRunAt(s, k, n, c) && Later(s[j..k], c) == ""
  }

  ghost predicate Joins(s: string, c: char)
    requires IsMarker(c)
  {
    exists i: nat, j: nat, k: nat, n: nat :: JoinAt(s, i, j, k, n, c)
  }

  lemma {:induction false} NothingLater(p: string, c: char)
    requires IsMarker(c)
    ensures c in Later(p, c) <==> c in DropPairs(p, c)
  {
    if c == '*' {
      var t := DropPairs(p, '*');
      CountDropPairs(t, '_', '*');
      CountDropAll(DropPairs(t, '_'), '`', '*');
      CountIffIn(DropMarkers(p), '*');
      CountIffIn(t, '*');
    } else {
      CountDropAll(DropPairs(p, '_'), '`', '_');
      CountIffIn(Later(p, c), '_');
      CountIffIn(DropPairs(p, '_'), '_');
    }
  }

  lemma {:induction false} CountIffIn(s: string, c: char)
    ensures Count(s, c) > 0 <==> c in s
  {
    if s != "" {
      assert s == [s[0]] + s[1..];
      CountIffIn(s[1..], c);
    }
  }

  /** An odd run splits what is left of the text around the one character it leaves. */
  lemma {:induction false} LaterAroundRun(s: string, i: nat, j: nat, c: char)
    requires IsMarker(c) && i < j && OddRunAt(s, i, j, c)
    ensures Later(s, c) == Later(s[..i], c) + [c] + Later(s[j..], c)
  {
    var p, r, q := s[..i], s[i..j], s[j..];
    assert s == p + (r + q);
    assert forall k | 0 <= k < |r| :: r[k] == c;
    RunOfMarker(r, c);
    RunBounds(s, i, j, c);
    if c == '*' {
      DropPairsConcat(p, r + q, '*');
      DropPairsConcat(r, q, '*');
      ThreeParts(DropPairs(p, '*'), DropPairs(q, '*'), '*', '_');
      ThreeAll(DropPairs(DropPairs(p, '*'), '_'), DropPairs(DropPairs(q, '*'), '_'), '*');
    } else {
      DropPairsConcat(p, r + q, '_');
      DropPairsConcat(r, q, '_');
      ThreeAll(DropPairs(p, '_'), DropPairs(q, '_'), '_');
    }
  }

  lemma {:induction false} RunBounds(s: string, i: nat, j: nat, c: char)
    requires i < j && OddRunAt(s, i, j, c)
    ensures TrailRun(s[..i], c) == 0 && LeadRun(s[j..], c) == 0
  {
    TrailRunIs(s[..i], c, 0);
    LeadRunIs(s[j..], c, 0);
  }

  lemma {:induction false} RunOfMarker(r: string, c: char)
    requires |r| % 2 == 1 && forall k | 0 <= k < |r| :: r[k] == c
    ensures DropPairs(r, c) == [c]
  {
    DropPairsOfRun(r, c, |r|);
    assert r[|r|..] == "" && [c] + "" == [c];
  }

  lemma {:induction false} ThreeParts(a: string, b: string, c: char, d: char)
    requires c != d
    ensures DropPairs(a + ([c] + b), d) == DropPairs(a, d) + ([c] + DropPairs(b, d))
  {
    DropPairsOfOther([c] + b, d);
    assert ([c] + b)[1..] == b;
    LeadRunIs([c] + b, d, 0);
    DropPairsConcat(a, [c] + b, d);
  }

  lemma {:induction false} ThreeAll(a: string, b: string, c: char)
    requires IsMarker(c)
    ensures DropAll(a + ([c] + b), '`') == DropAll(a, '`') + [c] + DropAll(b, '`')
  {
    DropAllConcat(a, [c] + b, '`');
    assert ([c] + b)[1..] == b;
    ConcatAssociative(DropAll(a, '`'), [c], DropAll(b, '`'));
  }

  lemma {:induction false} PairsAround(a: string, b: string, c: char)
    requires c !in a
    ensures NoPair(a + [c] + b, c) <==> NoPair(b, c) && (b == "" || b[0] != c)
  {
    var s := a + [c] + b;
    assert s[|a|] == c && forall k | 0 <= k < |b| :: s[|a| + 1 + k] == b[k];
    assert forall k | 0 <= k < |a| :: s[k] == a[k] && s[k] != c;
    if NoPair(s, c) {
      forall i, j | 0 <= i < |b| && j == i + 1 < |b| ensures !(b[i] == c && b[j] == c) {
        assert !(s[|a| + 1 + i] == c && s[|a| + 1 + j] == c);
      }
      if b != "" {
        assert s[|a| + 1] == b[0];
      }
    }
    if NoPair(b, c) && (b == "" || b[0] != c) {
      forall i, j | 0 <= i < |s| && j == i + 1 < |s| ensures !(s[i] == c && s[j] == c) {
        if i > |a| {
          assert !(b[i - |a| - 1] == c && b[j - |a| - 1] == c);
        } else if i == |a| {
          assert s[j] == b[0];
        }
      }
    }
  }

  ghost predicate BeginsWithLeftover(rest: string, c: char)
    requires IsMarker(c)
  {
    exists k: nat, n: nat :: k < n && OddRunAt(rest, k, n, c) && Later(rest[..k], c) == ""
  }

  /** What follows the first odd run begins with a leftover exactly when the next odd run joins it. */
  lemma {:induction false} NextJoinsIff(rest: string, c: char)
    requires IsMarker(c)
    ensures Later(rest, c) != "" && Later(rest, c)[0] == c <==> BeginsWithLeftover(rest, c)
  {
    NothingLater(rest, c);
    LeftoverIff(rest, c);
    if c in DropPairs(rest, c) {
      var k, n := FirstOddRun(rest, c);
      LaterAroundRun(rest, k, n, c);
      NothingLater(rest[..k], c);
      if k': nat, n': nat :| k' < n' && OddRunAt(rest, k', n', c) && Later(rest[..k'], c) == "" {
        FirstIsFirst(rest, k, n, k', n', c);
      }
    } else {
      if k: nat, n: nat :| k < n && OddRunAt(rest, k, n, c) {
        assert HasOddRun(rest, c);
      }
    }
  }

  /** Text that vanishes holds no odd run, so what it is followed by is the first one. */
  lemma {:induction false} FirstIsFirst(s: string, k: nat, n: nat, k': nat, n': nat, c: char)
    requires IsMarker(c) && k < n && OddRunAt(s, k, n, c) && c !in DropPairs(s[..k], c)
    requires k' < n' && OddRunAt(s, k', n', c) && Later(s[..k'], c) == ""
    ensures k == k'
  {
    if k < k' {
      RunInside(s, k, n, k', n', c);
      OddRunSurvives(s[..k'], k, n, c);
      NothingLater(s[..k'], c);
    } else if k' < k {
      RunInside(s, k', n', k, n, c);
      OddRunSurvives(s[..k], k', n', c);
    }
  }

  lemma {:induction false} RunInside(s: string, i: nat, j: nat, k: nat, n: nat, c: char)
    requires i < j && OddRunAt(s, i, j, c) && k < n && OddRunAt(s, k, n, c) && i < k
    ensures j <= k && OddRunAt(s[..k], i, j, c)
  {
    assert s[k - 1] != c;
    var t := s[..k];
    assert forall p | 0 <= p < k :: t[p] == s[p];
  }

  /** A join within the text is one of the first run with the next, or one further on. */
  lemma {:induction false} JoinIsFirstOrLater(s: string, i: nat, j: nat, i1: nat, j1: nat, k1: nat, n1: nat, c: char)
    requires IsMarker(c) && i < j && OddRunAt(s, i, j, c) && c !in DropPairs(s[..i], c)
    requires JoinAt(s, i1, j1, k1, n1, c)
    ensures j <= k1
    ensures || (i1 == i && OddRunAt(s[j..], k1 - j, n1 - j, c) && Later(s[j..][..k1 - j], c) == "")
            || (j <= i1 && JoinAt(s[j..], i1 - j, j1 - j, k1 - j, n1 - j, c))
  {
    var rest := s[j..];
    if i1 < i {
      RunInside(s, i1, j1, i, j, c);
      OddRunSurvives(s[..i], i1, j1, c);
      assert false;
    } else if i1 == i {
      SameRunEnds(s, i, j, j1, c);
      RunInTail(s, j, k1, n1, c);
      assert rest[..k1 - j] == s[j1..k1];
    } else {
      RunInside(s, i, j, i1, j1, c);
      RunInTail(s, j, i1, j1, c);
      RunInTail(s, j, k1, n1, c);
      assert rest[j1 - j..k1 - j] == s[j1..k1];
    }
  }

  lemma {:induction false} LaterJoinIsJoin(s: string, i: nat, j: nat, i1: nat, j1: nat, k1: nat, n1: nat, c: char)
    requires IsMarker(c) && i < j && OddRunAt(s, i, j, c) && JoinAt(s[j..], i1, j1, k1, n1, c)
    ensures JoinAt(s, j + i1, j + j1, j + k1, j + n1, c)
  {
    assert s[j..][0] == s[j];
    OddRunInTail(s, j, i1, j1, c);
    OddRunInTail(s, j, k1, n1, c);
    assert s[j..][j1..k1] == s[j + j1..j + k1];
  }

  lemma {:induction false} FirstJoinIsJoin(s: string, i: nat, j: nat, k: nat, n: nat, c: char)
    requires IsMarker(c) && i < j && OddRunAt(s, i, j, c)
    requires k < n && OddRunAt(s[j..], k, n, c) && Later(s[j..][..k], c) == ""
    ensures JoinAt(s, i, j, j + k, j + n, c)
  {
    assert s[j..][0] == s[j];
    OddRunInTail(s, j, k, n, c);
    assert s[j..][..k] == s[j..j + k];
  }

  lemma {:induction false} JoinsIff(s: string, i: nat, j: nat, c: char)
    requires IsMarker(c) && i < j && OddRunAt(s, i, j, c) && c !in DropPairs(s[..i], c)
    ensures Joins(s, c) <==> Joins(s[j..], c) || BeginsWithLeftover(s[j..], c)
  {
    if Joins(s, c) {
      var i1: nat, j1: nat, k1: nat, n1: nat :| JoinAt(s, i1, j1, k1, n1, c);
      JoinIsFirstOrLater(s, i, j, i1, j1, k1, n1, c);
    }
    if Joins(s[j..], c) {
      var i1: nat, j1: nat, k1: nat, n1: nat :| JoinAt(s[j..], i1, j1, k1, n1, c);
      LaterJoinIsJoin(s, i, j, i1, j1, k1, n1, c);
    }
    if BeginsWithLeftover(s[j..], c) {
      var k: nat, n: nat :| k < n && OddRunAt(s[j..], k, n, c) && Later(s[j..][..k], c) == "";
      FirstJoinIsJoin(s, i, j, k, n, c);
    }
  }

  lemma {:induction false} SameRunEnds(s: string, i: nat, j: nat, j1: nat, c: char)
    requires i < j && i < j1 && OddRunAt(s, i, j, c) && OddRunAt(s, i, j1, c)
    ensures j == j1
  {
    assert j < |s| ==> s[j] != c;
    assert j1 < |s| ==> s[j1] != c;
  }

  /** A pair is left exactly when two leftover markers come together. */
  lemma {:induction false} PairLeftIff(s: string, c: char)
    requires IsMarker(c)
    ensures NoPair(Later(s, c), c) <==> !Joins(s, c)
    decreases |s|
  {
    NothingLater(s, c);
    LeftoverIff(s, c);
    if c in DropPairs(s, c) {
      var i, j := FirstOddRun(s, c);
      var rest := s[j..];
      LaterAroundRun(s, i, j, c);
      NothingLater(s[..i], c);
      PairsAround(Later(s[..i], c), Later(rest, c), c);
      PairLeftIff(rest, c);
      NextJoinsIff(rest, c);
      JoinsIff(s, i, j, c);
    } else if i: nat, j: nat, k: nat, n: nat :| JoinAt(s, i, j, k, n, c) {
      assert HasOddRun(s, c);
    }
  }

  /** The markers a text keeps are doubled exactly when two leftover asterisks join, or two leftover underscores. */
  lemma {:induction false} DoubledMarkersLeftIff(q: string)
    ensures NoPair(DropMarkers(q), '*') <==> !Joins(q, '*')
    ensures NoPair(DropMarkers(q), '_') <==> !Joins(DropPairs(q, '*'), '_')
  {
    PairLeftIff(q, '*');
    PairLeftIff(DropPairs(q, '*'), '_');
  }
}
