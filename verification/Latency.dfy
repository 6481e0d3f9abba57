/** `latency_report`: a turn's measured durations, summed by component. */
module Latency {
  import opened Options
  import opened Sanitiser
  import opened StringOrder
  import opened Rounding
  import opened BusModel

  const A2A_HANDOFF: string := "a2a_handoff"

  /** `_COMPONENT_OF` */
  function BaseComponent(eventType: string): Option<string> {
    match eventType
    case "MODEL_CALL_COMPLETED" => Some("llm")
    case "MODEL_CALL_FAILED" => Some("llm")
    case "RETRIEVAL_COMPLETED" => Some("qdrant")
    case "MCP_TOOL_COMPLETED" => Some("mcp_tool")
    case "MCP_TOOL_FAILED" => Some("mcp_tool")
    case "DB_QUERY_COMPLETED" => Some("postgres")
    case "AGENT_HANDOFF_COMPLETED" => Some(A2A_HANDOFF)
    case "DOMAIN_VALIDATION_COMPLETED" => Some("preflight")
    case _ => None
  }

  function CallSite(metadata: seq<Entry>): string {
    if metadata == [] then ""
    else if metadata[0].name == Some("call_site") && metadata[0].value.Str? then metadata[0].value.s
    else CallSite(metadata[1..])
  }

  /** `_component_for`: model time is split by call site. */
  function ComponentFor(e: Event): Option<string> {
    var base := BaseComponent(e.eventType);
    if base.None? || e.durationMs.None? then None
    else if base.value != "llm" then base
    else Some("llm:" + OrElse(CallSite(e.metadata), OrElse(e.agent, "llm")))
  }

  /** Components whose durations contain other components' durations. */
  predicate IsNested(component: string) { component == A2A_HANDOFF }

  datatype Row =
    Row(component: string, calls: nat, totalMs: int, avgMs: int, maxMs: int, pct: Option<real>, nested: bool)

  datatype Report = Report(totalMs: int, components: seq<Row>, attributedMs: int, unattributedMs: int, events: nat)

  // --- arithmetic -------------------------------------------------------------

  function Sum(xs: seq<int>): int { if xs == [] then 0 else Sum(xs[..|xs| - 1]) + xs[|xs| - 1] }

  function Greatest(xs: seq<int>): int
    requires xs != []
  {
    if |xs| == 1 then xs[0]
    else
      var rest := Greatest(xs[..|xs| - 1]);
      if xs[|xs| - 1] > rest then xs[|xs| - 1] else rest
  }

  function RoundTenth(x: real): real { Round(x * 10.0) as real / 10.0 }

  // --- one row ----------------------------------------------------------------

  /** The durations of one component, in publishing order. */
  function DurationsOf(events: seq<Event>, c: string): (r: seq<int>)
    ensures |r| <= |events|
  {
    if events == [] then []
    else
      var e := events[|events| - 1];
      DurationsOf(events[..|events| - 1], c) + if ComponentFor(e) == Some(c) then [DurationMs(e)] else []
  }

  function DurationMs(e: Event): int { if e.durationMs.Some? then e.durationMs.value else 0 }

  function RowOf(c: string, durations: seq<int>, total: int): Row {
    var summed := Sum(durations);
    Row(c, |durations|, summed,
        if durations == [] then 0 else Round(summed as real / |durations| as real),
        if durations == [] then 0 else Greatest(durations),
        if total != 0 && !IsNested(c) then Some(RoundTenth(100.0 * summed as real / total as real)) else None,
        IsNested(c))
  }

  // --- the sort ----------------------------------------------------------

  /** `key=lambda r: (r["nested"], -r["total_ms"])` */
  predicate KeyLess(a: Row, b: Row) {
    (!a.nested && b.nested) || (a.nested == b.nested && a.totalMs > b.totalMs)
  }

  function InsertRow(x: Row, rows: seq<Row>): seq<Row> {
    if rows == [] || !KeyLess(rows[0], x) then [x] + rows else [rows[0]] + InsertRow(x, rows[1..])
  }

  /** A stable sort on the key. */
  function SortRows(rows: seq<Row>): seq<Row> {
    if rows == [] then [] else InsertRow(rows[0], SortRows(rows[1..]))
  }

  // --- the report -------------------------------------------------------------

  /** The components met, in first-seen order: the keys of the `buckets` dictionary. */
  function Seen(events: seq<Event>): seq<string> {
    if events == [] then []
    else
      var before := Seen(events[..|events| - 1]);
      var c := ComponentFor(events[|events| - 1]);
      if c.Some? && c.value !in before then before + [c.value] else before
  }

  function RowsFor(components: seq<string>, events: seq<Event>, total: int): (rows: seq<Row>)
    ensures |rows| == |components|
    ensures forall i | 0 <= i < |rows| :: rows[i] == RowOf(components[i], DurationsOf(events, components[i]), total)
  {
    if components == [] then []
    else
      var n := |components| - 1;
      RowsFor(components[..n], events, total) + [RowOf(components[n], DurationsOf(events, components[n]), total)]
  }

  function Attributed(rows: seq<Row>): int {
    if rows == [] then 0
    else Attributed(rows[..|rows| - 1]) + if rows[|rows| - 1].nested then 0 else rows[|rows| - 1].totalMs
  }

  function ReportOf(events: seq<Event>, total: int): Report {
    var rows := SortRows(RowsFor(SortStrings(Seen(events)), events, total));
    var attributed := Attributed(rows);
    Report(total, rows, attributed, if total - attributed > 0 then total - attributed else 0, |events|)
  }

  /** The first loop: one bucket of durations per component. */
  method FillBuckets(events: seq<Event>) returns (buckets: map<string, seq<int>>, order: seq<string>)
    ensures order == Seen(events)
    ensures forall c :: c in order <==> c in buckets
    ensures forall c | c in buckets :: buckets[c] == DurationsOf(events, c)
  {
    buckets, order := map[], [];
    for i := 0 to |events|
      invariant order == Seen(events[..i])
      invariant forall c :: c in order <==> c in buckets
      invariant forall c | c in buckets :: buckets[c] == DurationsOf(events[..i], c)
      invariant forall c | c !in buckets :: DurationsOf(events[..i], c) == []
    {
      assert events[..i + 1][..i] == events[..i];
      var component := ComponentFor(events[i]);
      if component.Some? {
        var c := component.value;
        if c !in buckets {
          buckets := buckets[c := []];
          order := order + [c];
        }
        buckets := buckets[c := buckets[c] + [DurationMs(events[i])]];
      }
    }
    assert events[..|events|] == events;
  }

  /** The second loop: one row per bucket, in name order. */
  method BuildRows(names: seq<string>, buckets: map<string, seq<int>>, ghost events: seq<Event>, total: int)
    returns (rows: seq<Row>)
    requires forall i | 0 <= i < |names| :: names[i] in buckets && buckets[names[i]] == DurationsOf(events, names[i])
    ensures rows == RowsFor(names, events, total)
  {
    rows := [];
    for i := 0 to |names|
      invariant rows == RowsFor(names[..i], events, total)
    {
      assert names[..i + 1][..i] == names[..i];
      rows := rows + [RowOf(names[i], buckets[names[i]], total)];
    }
    assert names[..|names|] == names;
  }

  method SumAttributed(rows: seq<Row>) returns (attributed: int)
    ensures attributed == Attributed(rows)
  {
    attributed := 0;
    for i := 0 to |rows|
      invariant attributed == Attributed(rows[..i])
    {
      assert rows[..i + 1][..i] == rows[..i];
      if !rows[i].nested {
        attributed := attributed + rows[i].totalMs;
      }
    }
    assert rows[..|rows|] == rows;
  }

  /** The report as it runs: fill the buckets, build the rows in name order, sort, sum. */
  method LatencyReport(events: seq<Event>, total: int) returns (report: Report)
    ensures report == ReportOf(events, total)
  {
    var buckets, order := FillBuckets(events);
    var names := SortStrings(order);
    SortStringsKeeps(order);
    forall i | 0 <= i < |names| ensures names[i] in buckets && buckets[names[i]] == DurationsOf(events, names[i]) {
      assert names[i] in names;
    }
    var rows := BuildRows(names, buckets, events, total);
    rows := SortRows(rows);
    var attributed := SumAttributed(rows);
    report := Report(total, rows, attributed, if total - attributed > 0 then total - attributed else 0, |events|);
  }

  // --- what the sorts keep ----------------------------------------------------

  lemma {:induction false} InsertRowKeeps(x: Row, rows: seq<Row>)
    ensures multiset(InsertRow(x, rows)) == multiset{x} + multiset(rows)
  {
    if rows != [] && KeyLess(rows[0], x) {
      InsertRowKeeps(x, rows[1..]);
      assert rows == [rows[0]] + rows[1..];
    }
  }

  lemma {:induction false} SortRowsKeeps(rows: seq<Row>)
    ensures multiset(SortRows(rows)) == multiset(rows)
    ensures forall r :: r in SortRows(rows) <==> r in rows
    ensures |SortRows(rows)| == |rows|
  {
    if rows != [] {
      SortRowsKeeps(rows[1..]);
      InsertRowKeeps(rows[0], SortRows(rows[1..]));
      assert rows == [rows[0]] + rows[1..];
    }
    assert |multiset(SortRows(rows))| == |multiset(rows)|;
    forall r ensures r in SortRows(rows) <==> r in rows {
      assert r in multiset(SortRows(rows)) <==> r in multiset(rows);
    }
  }

  lemma {:induction false} SeenDistinct(events: seq<Event>)
    ensures Distinct(Seen(events))
    ensures forall c :: c in Seen(events) <==> exists i | 0 <= i < |events| :: ComponentFor(events[i]) == Some(c)
  {
    if events != [] {
      var n := |events| - 1;
      SeenDistinct(events[..n]);
      assert forall i | 0 <= i < n :: events[..n][i] == events[i];
      forall c ensures c in Seen(events) <==> exists i | 0 <= i < |events| :: ComponentFor(events[i]) == Some(c) {
        if c in Seen(events[..n]) {
          var i :| 0 <= i < n && ComponentFor(events[..n][i]) == Some(c);
          assert ComponentFor(events[i]) == Some(c);
        }
        if i :| 0 <= i < |events| && ComponentFor(events[i]) == Some(c) {
          if i < n {
            assert ComponentFor(events[..n][i]) == Some(c);
          }
        }
      }
    }
  }
}
