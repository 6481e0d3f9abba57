/** The laws of the latency report: partition, exactness, order independence and conservation. */
module LatencyLaws {
  import opened Options
  import opened StringOrder
  import opened Rounding
  import opened BusModel
  import opened Latency

  // --- every classified event is in exactly one row ---------------------------

  /** The weight of the events of one component. */
  function Weigh(events: seq<Event>, c: string, weight: Event -> int): int {
    if events == [] then 0
    else
      var e := events[|events| - 1];
      Weigh(events[..|events| - 1], c, weight) + if ComponentFor(e) == Some(c) then weight(e) else 0
  }

  /** The weight of the events whose component is kept, without looking at any row. */
  function WeighKept(events: seq<Event>, keep: string -> bool, weight: Event -> int): int {
    if events == [] then 0
    else
      var e := events[|events| - 1];
      var c := ComponentFor(e);
      WeighKept(events[..|events| - 1], keep, weight) + if c.Some? && keep(c.value) then weight(e) else 0
  }

  /** The same weight, component by component. */
  function WeighRows(cs: seq<string>, events: seq<Event>, keep: string -> bool, weight: Event -> int): int {
    if cs == [] then 0
    else
      var c := cs[|cs| - 1];
      WeighRows(cs[..|cs| - 1], events, keep, weight) + if keep(c) then Weigh(events, c, weight) else 0
  }

  lemma {:induction false} WeighRowsEmpty(cs: seq<string>, keep: string -> bool, weight: Event -> int)
    ensures WeighRows(cs, [], keep, weight) == 0
  {
    if cs != [] {
      WeighRowsEmpty(cs[..|cs| - 1], keep, weight);
    }
  }

  lemma {:induction false} WeighRowsStep(cs: seq<string>, events: seq<Event>, e: Event, keep: string -> bool,
                                         weight: Event -> int)
    requires Distinct(cs)
    ensures WeighRows(cs, events + [e], keep, weight) == WeighRows(cs, events, keep, weight)
          + if ComponentFor(e).Some? && ComponentFor(e).value in cs && keep(ComponentFor(e).value) then weight(e) else 0
  {
    if cs != [] {
      var n := |cs| - 1;
      WeighRowsStep(cs[..n], events, e, keep, weight);
      assert (events + [e])[..|events|] == events;
      assert cs == cs[..n] + [cs[n]];
      assert cs[n] !in cs[..n];
    }
  }

  /** Over any list of distinct components that covers the events, nothing is lost or counted twice. */
  lemma {:induction false} RowsPartitionEvents(cs: seq<string>, events: seq<Event>, keep: string -> bool,
                                               weight: Event -> int)
    requires Distinct(cs)
    requires forall i | 0 <= i < |events| :: ComponentFor(events[i]).Some? ==> ComponentFor(events[i]).value in cs
    ensures WeighRows(cs, events, keep, weight) == WeighKept(events, keep, weight)
  {
    if events == [] {
      WeighRowsEmpty(cs, keep, weight);
    } else {
      var n := |events| - 1;
      assert events == events[..n] + [events[n]];
      assert forall i | 0 <= i < n :: events[..n][i] == events[i];
      RowsPartitionEvents(cs, events[..n], keep, weight);
      WeighRowsStep(cs, events[..n], events[n], keep, weight);
    }
  }

  lemma {:induction false} BucketWeights(events: seq<Event>, c: string)
    ensures Sum(DurationsOf(events, c)) == Weigh(events, c, DurationMs)
    ensures |DurationsOf(events, c)| == Weigh(events, c, One())
  {
    if events != [] {
      var n := |events| - 1;
      BucketWeights(events[..n], c);
      var before := DurationsOf(events[..n], c);
      if ComponentFor(events[n]) == Some(c) {
        assert (before + [DurationMs(events[n])])[..|before|] == before;
      } else {
        assert before + [] == before;
      }
    }
  }

  function One(): Event -> int { e => 1 }

  function Unnested(): string -> bool { c => !IsNested(c) }

  function Everything(): string -> bool { c => true }

  function Calls(rows: seq<Row>): int { if rows == [] then 0 else Calls(rows[..|rows| - 1]) + rows[|rows| - 1].calls }

  lemma {:induction false} AttributedRows(cs: seq<string>, events: seq<Event>, total: int)
    ensures Attributed(RowsFor(cs, events, total)) == WeighRows(cs, events, Unnested(), DurationMs)
    ensures Calls(RowsFor(cs, events, total)) == WeighRows(cs, events, Everything(), One())
  {
    if cs != [] {
      var n := |cs| - 1;
      AttributedRows(cs[..n], events, total);
      BucketWeights(events, cs[n]);
      var rows := RowsFor(cs, events, total);
      assert rows[..n] == RowsFor(cs[..n], events, total);
    }
  }

  lemma {:induction false} SumsOfCons(x: Row, rows: seq<Row>)
    ensures Attributed([x] + rows) == Attributed(rows) + if x.nested then 0 else x.totalMs
    ensures Calls([x] + rows) == Calls(rows) + x.calls
    decreases |rows|
  {
    if rows == [] {
      assert [x] + rows == [x] && [x][..0] == [];
    } else {
      var n := |rows| - 1;
      SumsOfCons(x, rows[..n]);
      assert ([x] + rows)[..|rows|] == [x] + rows[..n];
    }
  }

  lemma {:induction false} SumsOfInsert(x: Row, rows: seq<Row>)
    ensures Attributed(InsertRow(x, rows)) == Attributed(rows) + if x.nested then 0 else x.totalMs
    ensures Calls(InsertRow(x, rows)) == Calls(rows) + x.calls
  {
    SumsOfCons(x, rows);
    if rows != [] && KeyLess(rows[0], x) {
      SumsOfInsert(x, rows[1..]);
      SumsOfCons(rows[0], rows[1..]);
      SumsOfCons(rows[0], InsertRow(x, rows[1..]));
      assert rows == [rows[0]] + rows[1..];
    }
  }

  lemma {:induction false} SumsOfSort(rows: seq<Row>)
    ensures Attributed(SortRows(rows)) == Attributed(rows)
    ensures Calls(SortRows(rows)) == Calls(rows)
  {
    if rows != [] {
      SumsOfSort(rows[1..]);
      SumsOfInsert(rows[0], SortRows(rows[1..]));
      SumsOfCons(rows[0], rows[1..]);
      assert rows == [rows[0]] + rows[1..];
    }
  }

  /** The rows' calls and the attributed time, against the events themselves: nothing is lost or counted twice. */
  lemma {:induction false} ReportIsExact(events: seq<Event>, total: int)
    ensures Calls(ReportOf(events, total).components) == WeighKept(events, Everything(), One())
    ensures ReportOf(events, total).attributedMs == WeighKept(events, Unnested(), DurationMs)
  {
    var names := SortStrings(Seen(events));
    SeenDistinct(events);
    SortStringsKeeps(Seen(events));
    SortStringsSorts(Seen(events));
    SortedDistinct(names);
    forall i | 0 <= i < |events| && ComponentFor(events[i]).Some? ensures ComponentFor(events[i]).value in names {
      assert ComponentFor(events[i]) == Some(ComponentFor(events[i]).value);
    }
    RowsPartitionEvents(names, events, Everything(), One());
    RowsPartitionEvents(names, events, Unnested(), DurationMs);
    AttributedRows(names, events, total);
    SumsOfSort(RowsFor(names, events, total));
  }

  // --- which row an event is in -----------------------------------------------

  /** Non-nested rows first, the greater total first within each half. */
  ghost predicate InKeyOrder(rows: seq<Row>) {
    forall i, j | 0 <= i < j < |rows| ::
      && (rows[i].nested ==> rows[j].nested)
      && (rows[i].nested == rows[j].nested ==> rows[i].totalMs >= rows[j].totalMs)
  }

  lemma {:induction false} InsertRowMembers(x: Row, rows: seq<Row>)
    ensures forall r :: r in InsertRow(x, rows) <==> r == x || r in rows
  {
    InsertRowKeeps(x, rows);
    forall r ensures r in InsertRow(x, rows) <==> r == x || r in rows {
      assert r in multiset(InsertRow(x, rows)) <==> r in multiset{x} + multiset(rows);
    }
  }

  ghost predicate NotAfter(x: Row, r: Row) {
    (x.nested ==> r.nested) && (x.nested == r.nested ==> x.totalMs >= r.totalMs)
  }

  lemma {:induction false} KeyOrderOfCons(x: Row, rows: seq<Row>)
    requires InKeyOrder(rows) && forall r | r in rows :: NotAfter(x, r)
    ensures InKeyOrder([x] + rows)
  {
    forall j | 0 <= j < |rows| ensures NotAfter(x, rows[j]) {
      assert rows[j] in rows;
    }
  }

  lemma {:induction false} InsertRowSorts(x: Row, rows: seq<Row>)
    requires InKeyOrder(rows)
    ensures InKeyOrder(InsertRow(x, rows))
  {
    if rows == [] || !KeyLess(rows[0], x) {
      forall r | r in rows ensures NotAfter(x, r) {
        assert rows != [] && (r == rows[0] || NotAfter(rows[0], r));
      }
      KeyOrderOfCons(x, rows);
    } else {
      var rest := rows[1..];
      assert rows == [rows[0]] + rest;
      InsertRowSorts(x, rest);
      InsertRowMembers(x, rest);
      KeyOrderOfCons(rows[0], InsertRow(x, rest));
    }
  }

  lemma {:induction false} SortRowsSorts(rows: seq<Row>)
    ensures InKeyOrder(SortRows(rows))
  {
    if rows != [] {
      SortRowsSorts(rows[1..]);
      InsertRowSorts(rows[0], SortRows(rows[1..]));
    }
  }

  /** How many of the rows are this component's. */
  function RowsNamed(rows: seq<Row>, c: string): nat {
    if rows == [] then 0 else RowsNamed(rows[1..], c) + if rows[0].component == c then 1 else 0
  }

  lemma {:induction false} NamedInsert(x: Row, rows: seq<Row>, c: string)
    ensures RowsNamed(InsertRow(x, rows), c) == RowsNamed(rows, c) + if x.component == c then 1 else 0
  {
    assert ([x] + rows)[1..] == rows;
    if rows != [] && KeyLess(rows[0], x) {
      NamedInsert(x, rows[1..], c);
      assert InsertRow(x, rows)[1..] == InsertRow(x, rows[1..]);
    }
  }

  lemma {:induction false} NamedSort(rows: seq<Row>, c: string)
    ensures RowsNamed(SortRows(rows), c) == RowsNamed(rows, c)
  {
    if rows != [] {
      NamedSort(rows[1..], c);
      NamedInsert(rows[0], SortRows(rows[1..]), c);
    }
  }

  lemma {:induction false} NamedOnce(rows: seq<Row>, names: seq<string>, c: string)
    requires Distinct(names) && |rows| == |names| && forall i | 0 <= i < |rows| :: rows[i].component == names[i]
    ensures RowsNamed(rows, c) == if c in names then 1 else 0
  {
    if rows != [] {
      var rest := names[1..];
      assert names == [names[0]] + rest;
      assert names[0] !in rest;
      NamedOnce(rows[1..], rest, c);
    }
  }

  /** The row adds up exactly the events of its component. */
  ghost predicate AddsUp(r: Row, events: seq<Event>) {
    r.calls == Weigh(events, r.component, One()) && r.totalMs == Weigh(events, r.component, DurationMs)
  }

  lemma {:induction false} RowsForAddUp(names: seq<string>, events: seq<Event>, total: int)
    ensures forall r | r in RowsFor(names, events, total) :: AddsUp(r, events)
  {
    var rows := RowsFor(names, events, total);
    forall r | r in rows ensures AddsUp(r, events) {
      var i :| 0 <= i < |rows| && rows[i] == r;
      BucketWeights(events, names[i]);
    }
  }

  /**
   Every classified event is in exactly one row, the one of its component; every row adds up exactly the events
   of its component; and the rows come nested last, greatest total first.
   */
  lemma {:induction false} RowsPartitionTheEvents(events: seq<Event>, total: int)
    ensures var rows := ReportOf(events, total).components;
            && (forall i | 0 <= i < |events| && ComponentFor(events[i]).Some? ::
                  RowsNamed(rows, ComponentFor(events[i]).value) == 1)
            && (forall c :: RowsNamed(rows, c) == if c in Seen(events) then 1 else 0)
            && (forall r | r in rows :: AddsUp(r, events))
            && InKeyOrder(rows)
  {
    var names := SortStrings(Seen(events));
    var rows := RowsFor(names, events, total);
    SeenDistinct(events);
    SortStringsKeeps(Seen(events));
    SortStringsSorts(Seen(events));
    SortedDistinct(names);
    SortRowsSorts(rows);
    SortRowsKeeps(rows);
    RowsForAddUp(names, events, total);
    forall c ensures RowsNamed(SortRows(rows), c) == if c in Seen(events) then 1 else 0 {
      NamedSort(rows, c);
      NamedOnce(rows, names, c);
    }
    forall i | 0 <= i < |events| && ComponentFor(events[i]).Some?
      ensures ComponentFor(events[i]).value in Seen(events)
    {
      assert ComponentFor(events[i]) == Some(ComponentFor(events[i]).value);
    }
  }

  // --- the order of the events does not matter --------------------------------

  lemma {:induction false} RemoveOne<T>(a: seq<T>, b1: seq<T>, x: T, b2: seq<T>)
    requires multiset(a + [x]) == multiset(b1 + [x] + b2)
    ensures multiset(a) == multiset(b1 + b2)
  {
    assert multiset(a + [x]) == multiset(a) + multiset{x};
    assert multiset(b1 + [x] + b2) == multiset(b1 + b2) + multiset{x};
    assert multiset(a) == multiset(a + [x]) - multiset{x};
  }

  lemma {:induction false} DurationsConcat(a: seq<Event>, b: seq<Event>, c: string)
    ensures DurationsOf(a + b, c) == DurationsOf(a, c) + DurationsOf(b, c)
    decreases |b|
  {
    if b == [] {
      assert a + b == a;
    } else {
      var n := |b| - 1;
      assert (a + b)[..|a + b| - 1] == a + b[..n];
      DurationsConcat(a, b[..n], c);
    }
  }

  lemma {:induction false} DurationsPermute(a: seq<Event>, b: seq<Event>, c: string)
    requires multiset(a) == multiset(b)
    ensures multiset(DurationsOf(a, c)) == multiset(DurationsOf(b, c))
  {
    if a == [] {
      assert |multiset(a)| == |multiset(b)|;
    } else {
      var n := |a| - 1;
      var x := a[n];
      assert a == a[..n] + [x];
      assert x in multiset(b);
      var j :| 0 <= j < |b| && b[j] == x;
      var b1, b2 := b[..j], b[j + 1..];
      assert b == b1 + [x] + b2;
      RemoveOne(a[..n], b1, x, b2);
      DurationsPermute(a[..n], b1 + b2, c);
      DurationsConcat(a[..n], [x], c);
      DurationsConcat(b1 + [x], b2, c);
      DurationsConcat(b1, [x], c);
      DurationsConcat(b1, b2, c);
    }
  }

  lemma {:induction false} SumConcat(a: seq<int>, b: seq<int>)
    ensures Sum(a + b) == Sum(a) + Sum(b)
    decreases |b|
  {
    if b == [] {
      assert a + b == a;
    } else {
      assert (a + b)[..|a + b| - 1] == a + b[..|b| - 1];
      SumConcat(a, b[..|b| - 1]);
    }
  }

  lemma {:induction false} SumPermutes(a: seq<int>, b: seq<int>)
    requires multiset(a) == multiset(b)
    ensures Sum(a) == Sum(b) && |a| == |b|
  {
    assert |multiset(a)| == |multiset(b)|;
    if a != [] {
      var n := |a| - 1;
      var x := a[n];
      assert a == a[..n] + [x];
      assert x in multiset(b);
      var j :| 0 <= j < |b| && b[j] == x;
      var b1, b2 := b[..j], b[j + 1..];
      assert b == b1 + [x] + b2;
      RemoveOne(a[..n], b1, x, b2);
      SumPermutes(a[..n], b1 + b2);
      SumConcat(b1 + [x], b2);
      SumConcat(b1, [x]);
      SumConcat(b1, b2);
    }
  }

  lemma {:induction false} GreatestIs(xs: seq<int>)
    requires xs != []
    ensures Greatest(xs) in xs && forall x | x in xs :: x <= Greatest(xs)
  {
    if |xs| > 1 {
      var n := |xs| - 1;
      GreatestIs(xs[..n]);
      assert xs == xs[..n] + [xs[n]];
    }
  }

  lemma {:induction false} SameMembers(x: seq<int>, y: seq<int>)
    requires multiset(x) == multiset(y)
    ensures forall v :: v in x <==> v in y
  {
    forall v ensures v in x <==> v in y {
      assert v in multiset(x) <==> v in multiset(y);
    }
  }

  lemma {:induction false} GreatestPermutes(x: seq<int>, y: seq<int>)
    requires x != [] && y != [] && multiset(x) == multiset(y)
    ensures Greatest(x) == Greatest(y)
  {
    GreatestIs(x);
    GreatestIs(y);
    SameMembers(x, y);
  }

  lemma {:induction false} RowPermutes(a: seq<Event>, b: seq<Event>, c: string, total: int)
    requires multiset(a) == multiset(b)
    ensures RowOf(c, DurationsOf(a, c), total) == RowOf(c, DurationsOf(b, c), total)
  {
    DurationsPermute(a, b, c);
    SumPermutes(DurationsOf(a, c), DurationsOf(b, c));
    if DurationsOf(a, c) != [] {
      GreatestPermutes(DurationsOf(a, c), DurationsOf(b, c));
    }
  }

  lemma {:induction false} RowsPermute(names: seq<string>, a: seq<Event>, b: seq<Event>, total: int)
    requires multiset(a) == multiset(b)
    ensures RowsFor(names, a, total) == RowsFor(names, b, total)
  {
    if names != [] {
      RowsPermute(names[..|names| - 1], a, b, total);
      RowPermutes(a, b, names[|names| - 1], total);
    }
  }

  /** The report depends only on which events there are, not on the order they were published in. */
  lemma {:induction false} ReportIgnoresOrder(a: seq<Event>, b: seq<Event>, total: int)
    requires multiset(a) == multiset(b)
    ensures ReportOf(a, total) == ReportOf(b, total)
  {
    SeenDistinct(a);
    SeenDistinct(b);
    forall c ensures c in Seen(a) <==> c in Seen(b) {
      if i :| 0 <= i < |a| && ComponentFor(a[i]) == Some(c) {
        assert a[i] in multiset(b);
      }
      if i :| 0 <= i < |b| && ComponentFor(b[i]) == Some(c) {
        assert b[i] in multiset(a);
      }
    }
    SortStringsKeeps(Seen(a));
    SortStringsKeeps(Seen(b));
    SortStringsSorts(Seen(a));
    SortStringsSorts(Seen(b));
    AscendingIsUnique(SortStrings(Seen(a)), SortStrings(Seen(b)));
    RowsPermute(SortStrings(Seen(a)), a, b, total);
    assert |multiset(a)| == |multiset(b)|;
  }

  // --- conservation -----------------------------------------------------------

  /** A measured stretch of the turn, in seconds from its start. */
  datatype Span = Span(began: real, ended: real)

  function Floored(s: Span): int { ((s.ended - s.began) * 1000.0).Floor }

  /** Spans in the order they completed, none overlapping another, all before `turn`. */
  ghost predicate DisjointWithin(spans: seq<Span>, turn: real) {
    && (forall i | 0 <= i < |spans| :: 0.0 <= spans[i].began <= spans[i].ended <= turn)
    && forall i, j | 0 <= i < j < |spans| :: spans[i].ended <= spans[j].began
  }

  /** The events the report adds up. */
  function Counted(events: seq<Event>): seq<Event> {
    if events == [] then []
    else
      var e := events[|events| - 1];
      var c := ComponentFor(e);
      Counted(events[..|events| - 1]) + if c.Some? && !IsNested(c.value) then [e] else []
  }

  /** Each counted event reports the floor of its span. */
  ghost predicate Measures(events: seq<Event>, spans: seq<Span>) {
    && |Counted(events)| == |spans|
    && forall i | 0 <= i < |spans| :: DurationMs(Counted(events)[i]) == Floored(spans[i])
  }

  function SumFloored(spans: seq<Span>): int {
    if spans == [] then 0 else SumFloored(spans[..|spans| - 1]) + Floored(spans[|spans| - 1])
  }

  lemma FloorsAdd(x: real, y: real)
    ensures x.Floor + y.Floor <= (x + y).Floor
  {
  }

  lemma FloorMonotone(x: real, y: real)
    requires x <= y
    ensures x.Floor <= y.Floor
  {
  }

  /** Flooring piece by piece never gains on flooring the whole. */
  lemma {:induction false} FlooredSpansFit(spans: seq<Span>, turn: real)
    requires DisjointWithin(spans, turn) && 0.0 <= turn
    ensures SumFloored(spans) <= (turn * 1000.0).Floor
  {
    if spans != [] {
      var n := |spans| - 1;
      var last := spans[n];
      assert DisjointWithin(spans[..n], last.began) by {
        assert forall i | 0 <= i < n :: spans[..n][i] == spans[i];
      }
      FlooredSpansFit(spans[..n], last.began);
      FloorsAdd(last.began * 1000.0, (last.ended - last.began) * 1000.0);
      FloorMonotone(last.ended * 1000.0, turn * 1000.0);
      assert last.began * 1000.0 + (last.ended - last.began) * 1000.0 == last.ended * 1000.0;
    }
  }

  lemma {:induction false} CountedIsKept(events: seq<Event>, spans: seq<Span>)
    requires Measures(events, spans)
    ensures WeighKept(events, Unnested(), DurationMs) == SumFloored(spans)
  {
    if events != [] {
      var n := |events| - 1;
      var c := ComponentFor(events[n]);
      var before := Counted(events[..n]);
      if c.Some? && !IsNested(c.value) {
        var m := |spans| - 1;
        assert forall i | 0 <= i < m :: before[i] == Counted(events)[i] && spans[..m][i] == spans[i];
        assert Counted(events)[m] == events[n];
        CountedIsKept(events[..n], spans[..m]);
      } else {
        assert before + [] == before;
        CountedIsKept(events[..n], spans);
      }
    }
  }

  /**
   The table adds up to the total exactly when the measured events outside nested components, added one by
   one, do not exceed it.
   */
  lemma {:induction false} TotalIsAccountedIff(events: seq<Event>, total: int)
    ensures ReportOf(events, total).attributedMs + ReportOf(events, total).unattributedMs == total
       <==> WeighKept(events, Unnested(), DurationMs) <= total
  {
    ReportIsExact(events, total);
  }

  /** A measured model call. */
  function ModelCall(ms: int): Event {
    Event("r", 1, "MODEL_CALL_COMPLETED", "a", "t", "", "completed", 0, Some(ms), "", [])
  }

  lemma {:induction false} TwoModelCalls(ms: int)
    ensures WeighKept([ModelCall(ms), ModelCall(ms)], Unnested(), DurationMs) == 2 * ms
  {
    var e := ModelCall(ms);
    assert BaseComponent(e.eventType) == Some("llm") && CallSite(e.metadata) == "";
    assert "llm:" + "a" == "llm:a";
    assert ComponentFor(e) == Some("llm:a");
    assert "llm:a"[0] != A2A_HANDOFF[0];
    assert [e, e][..1] == [e] && [e][..0] == [];
    assert WeighKept([e], Unnested(), DurationMs) == WeighKept([], Unnested(), DurationMs) + ms;
  }

  /** Two spans that overlap break it: both last the whole second of the turn, and two seconds are attributed. */
  lemma {:induction false} OverlapIsNotAccounted()
    ensures var spans := [Span(0.0, 1.0), Span(0.0, 1.0)];
            var events := [ModelCall(Floored(spans[0])), ModelCall(Floored(spans[1]))];
            && !DisjointWithin(spans, 1.0)
            && ReportOf(events, 1000).attributedMs == 2000 && ReportOf(events, 1000).unattributedMs == 0
  {
    TwoModelCalls(1000);
    ReportIsExact([ModelCall(1000), ModelCall(1000)], 1000);
  }

  lemma {:induction false} RoundTenthIsClose(x: real)
    ensures x - 0.05 <= RoundTenth(x) <= x + 0.05
  {
    RoundIsNear(x * 10.0);
  }

  function Percentages(rows: seq<Row>): real {
    if rows == [] then 0.0
    else
      Percentages(rows[..|rows| - 1])
      + if rows[|rows| - 1].pct.Some? then rows[|rows| - 1].pct.value else 0.0
  }

  ghost predicate RowIsPriced(r: Row, total: int) {
    total != 0 && r.pct == if r.nested then None else Some(RoundTenth(100.0 * r.totalMs as real / total as real))
  }

  lemma ShareAdds(a: int, b: int, total: int)
    requires total > 0
    ensures 100.0 * (a + b) as real / total as real
         == 100.0 * a as real / total as real + 100.0 * b as real / total as real
  {
  }

  lemma {:induction false} PercentagesFollowTotals(rows: seq<Row>, total: int)
    requires total > 0 && forall i | 0 <= i < |rows| :: RowIsPriced(rows[i], total)
    ensures Percentages(rows) <= 100.0 * Attributed(rows) as real / total as real + 0.05 * |rows| as real
  {
    if rows != [] {
      var n := |rows| - 1;
      var r := rows[n];
      PercentagesFollowTotals(rows[..n], total);
      if !r.nested {
        RoundTenthIsClose(100.0 * r.totalMs as real / total as real);
        ShareAdds(Attributed(rows[..n]), r.totalMs, total);
      }
    }
  }

  lemma WholeShare(a: int, total: int)
    requires total > 0 && a <= total
    ensures 100.0 * a as real / total as real <= 100.0
  {
  }

  lemma RowOfIsPriced(c: string, durations: seq<int>, total: int)
    requires total != 0
    ensures RowIsPriced(RowOf(c, durations, total), total)
  {
  }

  lemma {:induction false} RowsForArePriced(names: seq<string>, events: seq<Event>, total: int)
    requires total != 0
    ensures forall r | r in RowsFor(names, events, total) :: RowIsPriced(r, total)
  {
    var rows := RowsFor(names, events, total);
    forall r | r in rows ensures RowIsPriced(r, total) {
      var i :| 0 <= i < |rows| && rows[i] == r;
      RowOfIsPriced(names[i], DurationsOf(events, names[i]), total);
    }
  }

  lemma {:induction false} SortedRowsArePriced(rows: seq<Row>, total: int)
    requires forall r | r in rows :: RowIsPriced(r, total)
    ensures forall i | 0 <= i < |SortRows(rows)| :: RowIsPriced(SortRows(rows)[i], total)
  {
    SortRowsKeeps(rows);
    forall i | 0 <= i < |SortRows(rows)| ensures RowIsPriced(SortRows(rows)[i], total) {
      assert SortRows(rows)[i] in SortRows(rows);
    }
  }

  lemma {:induction false} ReportRowsArePriced(events: seq<Event>, total: int)
    requires total != 0
    ensures forall i | 0 <= i < |ReportOf(events, total).components| ::
              RowIsPriced(ReportOf(events, total).components[i], total)
  {
    var names := SortStrings(Seen(events));
    RowsForArePriced(names, events, total);
    SortedRowsArePriced(RowsFor(names, events, total), total);
  }

  /**
   When the counted spans do not overlap and lie inside the turn, whose length is floored the same way,
   the table adds up: attributed plus unattributed is the total, and the percentages sum to at most 100
   plus the rounding of the rows.
   */
  lemma {:induction false} LatencyIsConserved(events: seq<Event>, spans: seq<Span>, turn: real)
    requires 0.0 <= turn && DisjointWithin(spans, turn) && Measures(events, spans)
    ensures var total := (turn * 1000.0).Floor;
            var r := ReportOf(events, total);
            && r.attributedMs + r.unattributedMs == total
            && (total > 0 ==> Percentages(r.components) <= 100.0 + 0.05 * |r.components| as real)
  {
    var total := (turn * 1000.0).Floor;
    var r := ReportOf(events, total);
    ReportIsExact(events, total);
    CountedIsKept(events, spans);
    FlooredSpansFit(spans, turn);
    if total > 0 {
      ReportRowsArePriced(events, total);
      PercentagesFollowTotals(r.components, total);
      WholeShare(r.attributedMs, total);
    }
  }
}
