/** Merging what several queries find: one chunk per key, at its best distance, nearest first. */
module Retrieval {
  import opened Options
  import opened StringOrder

  /** What a store returns for one passage; an absent collection or id is the empty text. */
  datatype Hit = Hit(collection: string, chunkId: string, source: string, heading: string, text: string, distance: real)

  datatype Key = Key(collection: string, chunkId: string, place: string)

  function KeyOf(h: Hit, defaultCollection: string): Key {
    Key(if h.collection == "" then defaultCollection else h.collection, h.chunkId,
        if h.chunkId == "" then h.source + "::" + h.heading else "")
  }

  /** A query either fails, and is skipped, or finds hits. */
  function Sightings(answers: seq<Option<seq<Hit>>>): seq<Hit> {
    if answers == [] then []
    else
      var last := answers[|answers| - 1];
      Sightings(answers[..|answers| - 1]) + if last.Some? then last.value else []
  }

  /** The first of the nearest sightings of a key. */
  function Best(hits: seq<Hit>, k: Key, dc: string): Option<Hit> {
    if hits == [] then None
    else
      var before := Best(hits[..|hits| - 1], k, dc);
      var h := hits[|hits| - 1];
      if KeyOf(h, dc) == k && (before.None? || h.distance < before.value.distance) then Some(h) else before
  }

  // --- the sort ---------------------------------------------------------------

  function InsertHit(h: Hit, hits: seq<Hit>): seq<Hit> {
    if hits == [] || h.distance <= hits[0].distance then [h] + hits else [hits[0]] + InsertHit(h, hits[1..])
  }

  /** A stable sort on the distance. */
  function SortHits(hits: seq<Hit>): seq<Hit> {
    if hits == [] then [] else InsertHit(hits[0], SortHits(hits[1..]))
  }

  ghost predicate NearestFirst(hits: seq<Hit>) {
    forall i, j | 0 <= i < j < |hits| :: hits[i].distance <= hits[j].distance
  }

  lemma {:induction false} InsertMembers(h: Hit, hits: seq<Hit>)
    ensures forall x :: x in InsertHit(h, hits) <==> x == h || x in hits
  {
    if hits != [] {
      assert hits == [hits[0]] + hits[1..];
      InsertMembers(h, hits[1..]);
    }
  }

  lemma {:induction false} InsertHitSorts(h: Hit, hits: seq<Hit>)
    requires NearestFirst(hits)
    ensures NearestFirst(InsertHit(h, hits))
  {
    if hits != [] && h.distance > hits[0].distance {
      var rest := InsertHit(h, hits[1..]);
      InsertHitSorts(h, hits[1..]);
      InsertMembers(h, hits[1..]);
      forall j | 0 <= j < |rest| ensures hits[0].distance <= rest[j].distance {
        assert rest[j] == h || rest[j] in hits[1..];
      }
    }
  }

  lemma {:induction false} SortHitsSorts(hits: seq<Hit>)
    ensures NearestFirst(SortHits(hits))
    ensures forall h :: h in SortHits(hits) <==> h in hits
  {
    if hits != [] {
      SortHitsSorts(hits[1..]);
      InsertHitSorts(hits[0], SortHits(hits[1..]));
      InsertMembers(hits[0], SortHits(hits[1..]));
      assert hits == [hits[0]] + hits[1..];
    }
  }

  // --- the merge --------------------------------------------------------------

  /** One answer's hits go into the dictionary; `order` is its insertion order. */
  method AddHits(merged: map<Key, Hit>, order: seq<Key>, hits: seq<Hit>, dc: string, ghost seen: seq<Hit>)
    returns (now: map<Key, Hit>, keys: seq<Key>)
    requires Distinct(order) && (forall k :: k in order <==> k in merged) && Holds(merged, seen, dc)
    ensures Distinct(keys) && (forall k :: k in keys <==> k in now) && Holds(now, seen + hits, dc)
  {
    now, keys := merged, order;
    assert seen + hits[..0] == seen;
    for i := 0 to |hits|
      invariant Distinct(keys) && (forall k :: k in keys <==> k in now)
      invariant Holds(now, seen + hits[..i], dc)
    {
      var h := hits[i];
      var k := KeyOf(h, dc);
      ghost var before := seen + hits[..i];
      assert seen + hits[..i + 1] == before + [h];
      HoldsStep(now, before, h, dc);
      if k !in now {
        keys := keys + [k];
      }
      if k !in now || h.distance < now[k].distance {
        now := now[k := h];
      }
    }
    assert seen + hits[..|hits|] == seen + hits;
  }

  ghost predicate Has(merged: map<Key, Hit>, seen: seq<Hit>, k: Key, dc: string) {
    if k in merged then Best(seen, k, dc) == Some(merged[k]) else Best(seen, k, dc).None?
  }

  /** The dictionary holds exactly the best sighting of every key sighted. */
  ghost predicate Holds(merged: map<Key, Hit>, seen: seq<Hit>, dc: string) {
    forall k :: Has(merged, seen, k, dc)
  }

  lemma {:induction false} HoldsStep(merged: map<Key, Hit>, seen: seq<Hit>, h: Hit, dc: string)
    requires Holds(merged, seen, dc)
    ensures var k := KeyOf(h, dc);
            Holds(if k !in merged || h.distance < merged[k].distance then merged[k := h] else merged, seen + [h], dc)
  {
    var k := KeyOf(h, dc);
    var next := if k !in merged || h.distance < merged[k].distance then merged[k := h] else merged;
    assert (seen + [h])[..|seen|] == seen;
    forall j ensures Has(next, seen + [h], j, dc) {
      assert Has(merged, seen, j, dc);
    }
  }

  /** The merged chunks: nearest first, each key once, at its best sighting. */
  ghost predicate Merged(chunks: seq<Hit>, seen: seq<Hit>, dc: string) {
    && NearestFirst(chunks)
    && (forall i, j | 0 <= i < j < |chunks| :: KeyOf(chunks[i], dc) != KeyOf(chunks[j], dc))
    && (forall h | h in chunks :: Best(seen, KeyOf(h, dc), dc) == Some(h))
    && (forall h | h in seen :: exists c | c in chunks :: KeyOf(c, dc) == KeyOf(h, dc))
  }

  /** `_retrieve_queries`, with the answers the queries got. */
  method RetrieveQueries(answers: seq<Option<seq<Hit>>>, dc: string) returns (chunks: seq<Hit>)
    ensures Merged(chunks, Sightings(answers), dc)
  {
    var merged: map<Key, Hit>, order: seq<Key> := map[], [];
    for i := 0 to |answers|
      invariant Distinct(order) && (forall k :: k in order <==> k in merged)
      invariant Holds(merged, Sightings(answers[..i]), dc)
    {
      assert answers[..i + 1][..i] == answers[..i];
      if answers[i].Some? {
        merged, order := AddHits(merged, order, answers[i].value, dc, Sightings(answers[..i]));
      } else {
        assert Sightings(answers[..i + 1]) == Sightings(answers[..i]);
      }
    }
    assert answers[..|answers|] == answers;
    var values := seq(|order|, i requires 0 <= i < |order| => merged[order[i]]);
    chunks := SortHits(values);
    SortedIsMerged(values, merged, order, Sightings(answers), dc);
  }

  /** At most `cap` keys, each at its best sighting, nearest first; whatever is left out is no nearer than any kept. */
  ghost predicate NearestKeys(chunks: seq<Hit>, seen: seq<Hit>, dc: string, cap: nat) {
    && |chunks| <= cap && NearestFirst(chunks) && OneEach(chunks, dc)
    && (forall h | h in chunks :: Best(seen, KeyOf(h, dc), dc) == Some(h))
    && (forall h | h in seen :: Kept(chunks, h, dc) || (|chunks| == cap && NoneFarther(chunks, h)))
  }

  ghost predicate Kept(chunks: seq<Hit>, h: Hit, dc: string) {
    exists c | c in chunks :: KeyOf(c, dc) == KeyOf(h, dc)
  }

  ghost predicate NoneFarther(chunks: seq<Hit>, h: Hit) { forall c | c in chunks :: c.distance <= h.distance }

  /** `_retrieve_market_risk`: the merge, then the cap. */
  method RetrieveReference(answers: seq<Option<seq<Hit>>>, dc: string, cap: nat) returns (chunks: seq<Hit>)
    ensures NearestKeys(chunks, Sightings(answers), dc, cap)
  {
    var all := RetrieveQueries(answers, dc);
    chunks := if |all| <= cap then all else all[..cap];
    CutIsNearestKeys(all, Sightings(answers), dc, cap);
  }

  lemma {:induction false} CutIsNearestKeys(all: seq<Hit>, seen: seq<Hit>, dc: string, cap: nat)
    requires Merged(all, seen, dc)
    ensures NearestKeys(if |all| <= cap then all else all[..cap], seen, dc, cap)
  {
    var chunks := if |all| <= cap then all else all[..cap];
    forall h | h in seen ensures Kept(chunks, h, dc) || (|chunks| == cap && NoneFarther(chunks, h)) {
      if |all| <= cap {
        assert exists c | c in all :: KeyOf(c, dc) == KeyOf(h, dc);
      } else if !Kept(chunks, h, dc) {
        forall c | c in chunks ensures c.distance <= h.distance {
          CapKeepsNearest(all, seen, dc, cap, c, h);
        }
      }
    }
  }

  // --- the sort keeps the dictionary's values ---------------------------------

  lemma {:induction false} BestIsNearest(seen: seq<Hit>, k: Key, dc: string)
    ensures Best(seen, k, dc).None? <==> forall h | h in seen :: KeyOf(h, dc) != k
    ensures Best(seen, k, dc).Some? ==>
              && Best(seen, k, dc).value in seen && KeyOf(Best(seen, k, dc).value, dc) == k
              && forall h | h in seen && KeyOf(h, dc) == k :: Best(seen, k, dc).value.distance <= h.distance
  {
    if seen != [] {
      var n := |seen| - 1;
      BestIsNearest(seen[..n], k, dc);
      assert seen == seen[..n] + [seen[n]];
    }
  }

  /** Keys that differ at every place stay so under any rearrangement. */
  ghost predicate OneEach(hits: seq<Hit>, dc: string) {
    forall i, j | 0 <= i < j < |hits| :: KeyOf(hits[i], dc) != KeyOf(hits[j], dc)
  }

  lemma {:induction false} InsertKeepsOneEach(h: Hit, hits: seq<Hit>, dc: string)
    requires OneEach(hits, dc) && forall x | x in hits :: KeyOf(x, dc) != KeyOf(h, dc)
    ensures OneEach(InsertHit(h, hits), dc)
  {
    if hits != [] && h.distance > hits[0].distance {
      var rest := InsertHit(h, hits[1..]);
      InsertKeepsOneEach(h, hits[1..], dc);
      InsertMembers(h, hits[1..]);
      forall j | 0 <= j < |rest| ensures KeyOf(hits[0], dc) != KeyOf(rest[j], dc) {
        assert rest[j] == h || rest[j] in hits[1..];
      }
    }
  }

  lemma {:induction false} SortKeepsOneEach(values: seq<Hit>, dc: string)
    requires OneEach(values, dc)
    ensures OneEach(SortHits(values), dc)
  {
    if values != [] {
      SortKeepsOneEach(values[1..], dc);
      SortHitsSorts(values[1..]);
      forall x | x in SortHits(values[1..]) ensures KeyOf(x, dc) != KeyOf(values[0], dc) {
        assert x in values[1..];
      }
      InsertKeepsOneEach(values[0], SortHits(values[1..]), dc);
    }
  }

  lemma {:induction false} SortedIsMerged(values: seq<Hit>, merged: map<Key, Hit>, order: seq<Key>,
                                          seen: seq<Hit>, dc: string)
    requires Distinct(order) && (forall k :: k in order <==> k in merged) && Holds(merged, seen, dc)
    requires |values| == |order| && forall i | 0 <= i < |order| :: values[i] == merged[order[i]]
    ensures Merged(SortHits(values), seen, dc)
  {
    forall i | 0 <= i < |values|
      ensures KeyOf(values[i], dc) == order[i] && Best(seen, order[i], dc) == Some(values[i])
    {
      assert Has(merged, seen, order[i], dc);
      BestIsNearest(seen, order[i], dc);
    }
    assert OneEach(values, dc);
    SortKeepsOneEach(values, dc);
    SortHitsSorts(values);
    forall h | h in seen ensures exists c | c in SortHits(values) :: KeyOf(c, dc) == KeyOf(h, dc) {
      var k := KeyOf(h, dc);
      BestIsNearest(seen, k, dc);
      assert Has(merged, seen, k, dc);
      var i :| 0 <= i < |order| && order[i] == k;
      assert values[i] in SortHits(values);
    }
  }

  // --- laws -------------------------------------------------------------------

  lemma {:induction false} CutIsNearest(all: seq<Hit>, cap: nat, kept: Hit, c: Hit)
    requires NearestFirst(all) && cap <= |all| && kept in all[..cap] && c in all && c !in all[..cap]
    ensures kept.distance <= c.distance
  {
    assert all == all[..cap] + all[cap..];
    var i :| 0 <= i < cap && all[..cap][i] == kept;
    var j :| 0 <= j < |all[cap..]| && all[cap..][j] == c;
    assert all[i] == kept && all[cap + j] == c;
  }

  /** The capped chunks are the nearest distinct keys: nothing left out is nearer than anything kept. */
  lemma {:induction false} CapKeepsNearest(all: seq<Hit>, seen: seq<Hit>, dc: string, cap: nat, kept: Hit, h: Hit)
    requires Merged(all, seen, dc) && cap <= |all| && kept in all[..cap]
    requires h in seen && forall c | c in all[..cap] :: KeyOf(c, dc) != KeyOf(h, dc)
    ensures kept.distance <= h.distance
  {
    var c :| c in all && KeyOf(c, dc) == KeyOf(h, dc);
    BestIsNearest(seen, KeyOf(h, dc), dc);
    CutIsNearest(all, cap, kept, c);
  }

  /** The distance each key ends up at: none, when no query sighted it. */
  function DistanceOf(chunks: seq<Hit>, k: Key, dc: string): Option<real> {
    if chunks == [] then None
    else if KeyOf(chunks[0], dc) == k then Some(chunks[0].distance)
    else DistanceOf(chunks[1..], k, dc)
  }

  lemma {:induction false} DistanceIsBest(chunks: seq<Hit>, seen: seq<Hit>, k: Key, dc: string)
    requires forall h | h in chunks :: Best(seen, KeyOf(h, dc), dc) == Some(h)
    ensures DistanceOf(chunks, k, dc).Some? <==> exists c | c in chunks :: KeyOf(c, dc) == k
    ensures DistanceOf(chunks, k, dc).Some? ==>
              Best(seen, k, dc).Some? && DistanceOf(chunks, k, dc).value == Best(seen, k, dc).value.distance
  {
    if chunks != [] {
      assert chunks == [chunks[0]] + chunks[1..];
      DistanceIsBest(chunks[1..], seen, k, dc);
    }
  }

  lemma {:induction false} MergedDistance(chunks: seq<Hit>, seen: seq<Hit>, k: Key, dc: string)
    requires Merged(chunks, seen, dc)
    ensures DistanceOf(chunks, k, dc)
         == if Best(seen, k, dc).Some? then Some(Best(seen, k, dc).value.distance) else None
  {
    DistanceIsBest(chunks, seen, k, dc);
    BestIsNearest(seen, k, dc);
    if Best(seen, k, dc).Some? {
      var h := Best(seen, k, dc).value;
      assert exists c | c in chunks :: KeyOf(c, dc) == KeyOf(h, dc);
    }
  }

  lemma {:induction false} BestDistanceAgrees(a: seq<Hit>, b: seq<Hit>, k: Key, dc: string)
    requires forall h :: h in a <==> h in b
    ensures Best(a, k, dc).Some? <==> Best(b, k, dc).Some?
    ensures Best(a, k, dc).Some? ==> Best(a, k, dc).value.distance == Best(b, k, dc).value.distance
  {
    BestIsNearest(a, k, dc);
    BestIsNearest(b, k, dc);
  }

  lemma {:induction false} SameHits(a: seq<Hit>, b: seq<Hit>)
    requires multiset(a) == multiset(b)
    ensures forall h :: h in a <==> h in b
  {
    forall h ensures h in a <==> h in b {
      assert h in multiset(a) <==> h in multiset(b);
    }
  }

  /** Any reordering of what was sighted, such as swapping the queries, leaves every key at the same distance. */
  lemma {:induction false} QueryOrderDoesNotMatter(a: seq<Hit>, b: seq<Hit>, one: seq<Hit>, two: seq<Hit>,
                                                   k: Key, dc: string)
    requires multiset(a) == multiset(b) && Merged(one, a, dc) && Merged(two, b, dc)
    ensures DistanceOf(one, k, dc) == DistanceOf(two, k, dc)
  {
    SameHits(a, b);
    MergedDistance(one, a, k, dc);
    MergedDistance(two, b, k, dc);
    BestDistanceAgrees(a, b, k, dc);
  }

  /** Swapping the two queries leaves the distance of every key as it was, whether or not either query failed. */
  lemma {:induction false} SwappingQueriesKeepsDistances(x: Option<seq<Hit>>, y: Option<seq<Hit>>,
                                                         one: seq<Hit>, two: seq<Hit>, k: Key, dc: string)
    requires Merged(one, Sightings([x, y]), dc) && Merged(two, Sightings([y, x]), dc)
    ensures DistanceOf(one, k, dc) == DistanceOf(two, k, dc)
  {
    SightingsOfTwo(x, y);
    SightingsOfTwo(y, x);
    QueryOrderDoesNotMatter(Sightings([x, y]), Sightings([y, x]), one, two, k, dc);
  }

  lemma {:induction false} SightingsOfTwo(x: Option<seq<Hit>>, y: Option<seq<Hit>>)
    ensures Sightings([x, y]) == (if x.Some? then x.value else []) + if y.Some? then y.value else []
  {
    assert [x, y][..1] == [x];
    assert [x][..0] == [];
    assert Sightings([x]) == Sightings([]) + if x.Some? then x.value else [];
  }
}
