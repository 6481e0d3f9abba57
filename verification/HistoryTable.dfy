/** The rate-history table: a join of one series per tenor, newest days first. */
module HistoryTable {
  import opened Options
  import opened StringOrder

  const MAX_DISPLAY_ROWS: nat := 500

  /** One element of a series: not a record, an error record, or an observation whose rate may be missing. */
  datatype Point = NotARecord | ErrorRecord | Observation(day: Option<string>, rate: Option<real>)

  datatype Fetch = Raises | Series(points: seq<Point>)

  datatype Cell = Missing | Rate(percent: real) | Text(text: string)

  type Row = map<string, Cell>

  const DAY: string := "observation_date"
  const BASIS: string := "quote_basis"

  // --- the join as a specification --------------------------------------------

  predicate Usable(p: Point) { p.Observation? && p.day.Some? && p.day.value != "" }

  function CellOf(p: Point): Cell
    requires p.Observation?
  {
    if p.rate.Some? then Rate(p.rate.value) else Missing
  }

  /** The last observation of `day` in the series. */
  function LastOf(points: seq<Point>, day: string): Option<Cell> {
    if points == [] then None
    else
      var p := points[|points| - 1];
      if Usable(p) && p.day.value == day then Some(CellOf(p)) else LastOf(points[..|points| - 1], day)
  }

  /** A series that cannot be fetched contributes nothing. */
  function PointsOf(f: Fetch): seq<Point> { if f.Raises? then [] else f.points }

  function Observed(fetch: string -> Fetch, tenor: string, day: string): Option<Cell> {
    LastOf(PointsOf(fetch(tenor)), day)
  }

  /** What the table shows: the last observation, or nothing. */
  function CellAt(fetch: string -> Fetch, tenor: string, day: string): Cell {
    var seen := Observed(fetch, tenor, day);
    if seen.Some? then seen.value else Missing
  }

  function DaysIn(points: seq<Point>): set<string> { set p | p in points && Usable(p) :: p.day.value }

  function KnownDays(tenors: seq<string>, fetch: string -> Fetch): set<string> {
    if tenors == [] then {}
    else KnownDays(tenors[..|tenors| - 1], fetch) + DaysIn(PointsOf(fetch(tenors[|tenors| - 1])))
  }

  /** The newest `n` of the known days, newest first. */
  ghost predicate NewestDays(days: seq<string>, known: set<string>, n: nat) {
    && (forall i, j | 0 <= i < j < |days| :: StringLess(days[j], days[i]))
    && (forall d | d in days :: d in known)
    && |days| == (if |known| < n then |known| else n)
    && (forall d, e | d in days && e in known && e !in days :: StringLess(e, d))
  }

  function RowCells(tenors: seq<string>, fetch: string -> Fetch, basis: Cell, day: string): seq<Cell> {
    [Text(day)] + seq(|tenors|, j requires 0 <= j < |tenors| => CellAt(fetch, tenors[j], day)) + [basis]
  }

  datatype Table =
    | OutOfRange
    | Table(columns: seq<string>, rows: seq<seq<Cell>>, rowCount: nat, displayed: nat, truncated: bool,
            observedFrom: Option<string>, observedTo: Option<string>)

  // --- filling the dictionary -------------------------------------------------

  /** The row of a day, created with its date when it is new: `setdefault`. */
  function Base(byDate: map<string, Row>, day: string): Row {
    if day in byDate then byDate[day] else map[DAY := Text(day)]
  }

  function Overlay(row: Row, tenor: string, seen: Option<Cell>): Row {
    if seen.Some? then row[tenor := seen.value] else row
  }

  lemma {:induction false} LastOfStep(points: seq<Point>, k: nat, day: string)
    requires k < |points|
    ensures LastOf(points[..k + 1], day)
         == if Usable(points[k]) && points[k].day.value == day then Some(CellOf(points[k]))
            else LastOf(points[..k], day)
  {
    assert points[..k + 1][..k] == points[..k];
  }

  /** One tenor's series goes in, point by point. */
  method AddSeries(byDate: map<string, Row>, order: seq<string>, tenor: string, points: seq<Point>)
    returns (filled: map<string, Row>, days: seq<string>)
    requires Distinct(order) && forall d :: d in order <==> d in byDate
    ensures Distinct(days) && forall d :: d in days <==> d in filled
    ensures forall d :: d in filled <==> d in byDate || LastOf(points, d).Some?
    ensures forall d | d in filled :: filled[d] == Overlay(Base(byDate, d), tenor, LastOf(points, d))
  {
    filled, days := byDate, order;
    for k := 0 to |points|
      invariant Distinct(days) && forall d :: d in days <==> d in filled
      invariant forall d :: d in filled <==> d in byDate || LastOf(points[..k], d).Some?
      invariant forall d | d in filled :: filled[d] == Overlay(Base(byDate, d), tenor, LastOf(points[..k], d))
    {
      var p := points[k];
      ghost var before := filled;
      forall d ensures LastOf(points[..k + 1], d)
                    == if Usable(p) && p.day.value == d then Some(CellOf(p)) else LastOf(points[..k], d) {
        LastOfStep(points, k, d);
      }
      if Usable(p) {
        var day := p.day.value;
        if day !in filled {
          filled := filled[day := map[DAY := Text(day)]];
          days := days + [day];
        }
        filled := filled[day := filled[day][tenor := CellOf(p)]];
      }
    }
    assert points[..|points|] == points;
  }

  lemma {:induction false} DaysInIff(points: seq<Point>, day: string)
    ensures LastOf(points, day).Some? <==> day in DaysIn(points)
  {
    if points != [] {
      var n := |points| - 1;
      DaysInIff(points[..n], day);
      assert points == points[..n] + [points[n]];
    }
  }

  /** The row of the join for `day`, over the tenors fetched so far. */
  function JoinedRow(tenors: seq<string>, fetch: string -> Fetch, day: string): Row {
    if tenors == [] then map[DAY := Text(day)]
    else
      var n := |tenors| - 1;
      Overlay(JoinedRow(tenors[..n], fetch, day), tenors[n], Observed(fetch, tenors[n], day))
  }

  lemma {:induction false} JoinedRowIsNew(tenors: seq<string>, fetch: string -> Fetch, day: string)
    requires day !in KnownDays(tenors, fetch)
    ensures JoinedRow(tenors, fetch, day) == map[DAY := Text(day)]
  {
    if tenors != [] {
      var n := |tenors| - 1;
      JoinedRowIsNew(tenors[..n], fetch, day);
      DaysInIff(PointsOf(fetch(tenors[n])), day);
    }
  }

  method JoinSeries(tenors: seq<string>, fetch: string -> Fetch) returns (byDate: map<string, Row>, days: seq<string>)
    ensures Distinct(days) && (forall d :: d in days <==> d in byDate)
    ensures byDate.Keys == KnownDays(tenors, fetch)
    ensures forall d | d in byDate :: byDate[d] == JoinedRow(tenors, fetch, d)
  {
    byDate, days := map[], [];
    for i := 0 to |tenors|
      invariant Distinct(days) && forall d :: d in days <==> d in byDate
      invariant byDate.Keys == KnownDays(tenors[..i], fetch)
      invariant forall d | d in byDate :: byDate[d] == JoinedRow(tenors[..i], fetch, d)
    {
      assert tenors[..i + 1][..i] == tenors[..i];
      ghost var before := byDate;
      var points := PointsOf(fetch(tenors[i]));
      byDate, days := AddSeries(byDate, days, tenors[i], points);
      forall d ensures LastOf(points, d).Some? <==> d in DaysIn(points) {
        DaysInIff(points, d);
      }
      forall d | d in byDate ensures Base(before, d) == JoinedRow(tenors[..i], fetch, d) {
        if d !in before {
          JoinedRowIsNew(tenors[..i], fetch, d);
        }
      }
    }
    assert tenors[..|tenors|] == tenors;
  }

  /** A tenor's cell in the joined row is its last observation, whatever the other tenors are. */
  lemma {:induction false} JoinedCell(tenors: seq<string>, fetch: string -> Fetch, day: string, c: string)
    requires DAY !in tenors
    ensures DAY in JoinedRow(tenors, fetch, day) && JoinedRow(tenors, fetch, day)[DAY] == Text(day)
    ensures c in tenors ==> (c in JoinedRow(tenors, fetch, day) <==> Observed(fetch, c, day).Some?)
    ensures c in tenors && c in JoinedRow(tenors, fetch, day) ==>
              JoinedRow(tenors, fetch, day)[c] == CellAt(fetch, c, day)
    ensures c !in tenors && c != DAY ==> c !in JoinedRow(tenors, fetch, day)
  {
    if tenors != [] {
      var n := |tenors| - 1;
      assert tenors == tenors[..n] + [tenors[n]];
      JoinedCell(tenors[..n], fetch, day, c);
    }
  }

  // --- the table --------------------------------------------------------------

  function Get(row: Row, column: string): Cell { if column in row then row[column] else Missing }

  function Cells(row: Row, columns: seq<string>): seq<Cell> {
    seq(|columns|, j requires 0 <= j < |columns| => Get(row, columns[j]))
  }

  function Columns(tenors: seq<string>): seq<string> { [DAY] + tenors + [BASIS] }

  lemma {:induction false} CellsOfJoin(tenors: seq<string>, fetch: string -> Fetch, basis: Cell, day: string)
    requires DAY !in tenors && BASIS !in tenors
    ensures Cells(JoinedRow(tenors, fetch, day)[BASIS := basis], Columns(tenors)) == RowCells(tenors, fetch, basis, day)
  {
    var row := JoinedRow(tenors, fetch, day)[BASIS := basis];
    var left, right := Cells(row, Columns(tenors)), RowCells(tenors, fetch, basis, day);
    forall j | 0 <= j < |left| ensures left[j] == right[j] {
      JoinedCell(tenors, fetch, day, Columns(tenors)[j]);
      if 0 < j <= |tenors| {
        assert Columns(tenors)[j] == tenors[j - 1];
      }
    }
  }

  function Reverse(xs: seq<string>): seq<string> {
    seq(|xs|, i requires 0 <= i < |xs| => xs[|xs| - 1 - i])
  }

  lemma {:induction false} ReverseMembers(xs: seq<string>)
    ensures forall x :: x in Reverse(xs) <==> x in xs
  {
    forall x | x in xs ensures x in Reverse(xs) {
      var i :| 0 <= i < |xs| && xs[i] == x;
      assert Reverse(xs)[|xs| - 1 - i] == x;
    }
  }

  function Min(a: nat, b: nat): nat { if a < b then a else b }

  lemma {:induction false} DistinctCount(xs: seq<string>, s: set<string>)
    requires Distinct(xs) && forall x :: x in xs <==> x in s
    ensures |xs| == |s|
  {
    if xs == [] {
      assert s == {};
    } else {
      var n := |xs| - 1;
      assert xs == xs[..n] + [xs[n]];
      DistinctCount(xs[..n], s - {xs[n]});
    }
  }

  /** `sorted(by_date, reverse=True)[:n]` */
  function NewestFirst(days: seq<string>, n: nat): seq<string> {
    var all := Reverse(SortStrings(days));
    all[..Min(n, |all|)]
  }

  lemma {:induction false} NewestFirstIsNewest(days: seq<string>, known: set<string>, n: nat)
    requires Distinct(days) && forall d :: d in days <==> d in known
    ensures NewestDays(NewestFirst(days, n), known, n)
  {
    var sorted := SortStrings(days);
    var all := Reverse(sorted);
    SortStringsSorts(days);
    SortStringsKeeps(days);
    SortedDistinct(sorted);
    ReverseMembers(sorted);
    DistinctCount(sorted, known);
    var top := all[..Min(n, |all|)];
    assert all == top + all[|top|..];
    forall d, e | d in top && e in known && e !in top ensures StringLess(e, d) {
      assert e in all[|top|..];
      var i :| 0 <= i < |top| && top[i] == d;
      var j :| |top| <= j < |all| && all[j] == e;
      assert all[i] == d;
    }
  }

  /** `_table`: every row is counted, the first 500 are shown. */
  method MakeTable(rows: seq<Row>, columns: seq<string>, from: Option<string>, to: Option<string>)
    returns (table: Table)
    ensures table.Table? && table.columns == columns && table.observedFrom == from && table.observedTo == to
    ensures table.rowCount == |rows| && table.displayed == |table.rows| == Min(|rows|, MAX_DISPLAY_ROWS)
    ensures table.truncated == (|rows| > MAX_DISPLAY_ROWS)
    ensures forall i | 0 <= i < |table.rows| :: table.rows[i] == Cells(rows[i], columns)
  {
    var shown := rows[..Min(|rows|, MAX_DISPLAY_ROWS)];
    table := Table(columns, seq(|shown|, i requires 0 <= i < |shown| => Cells(shown[i], columns)),
                   |rows|, |shown|, |rows| > |shown|, from, to);
  }

  /** The rows of the chosen days, each with the quoting basis. */
  method PickRows(byDate: map<string, Row>, days: seq<string>, basis: Cell) returns (rows: seq<Row>)
    requires forall d | d in days :: d in byDate
    ensures |rows| == |days| && forall i | 0 <= i < |rows| :: rows[i] == byDate[days[i]][BASIS := basis]
  {
    rows := [];
    for i := 0 to |days|
      invariant |rows| == i
      invariant forall k | 0 <= k < i :: rows[k] == byDate[days[k]][BASIS := basis]
    {
      rows := rows + [byDate[days[i]][BASIS := basis]];
    }
  }

  /** The first and last date of the rows kept. */
  method Extremes(days: seq<string>) returns (from: Option<string>, to: Option<string>)
    requires forall i, j | 0 <= i < j < |days| :: StringLess(days[j], days[i])
    ensures from == (if days == [] then None else Some(days[|days| - 1]))
    ensures to == (if days == [] then None else Some(days[0]))
  {
    var ascending := SortStrings(days);
    SortingReverses(days);
    from, to := None, None;
    if ascending != [] {
      from, to := Some(ascending[0]), Some(ascending[|ascending| - 1]);
    }
  }

  /** What the history table shows of the days `shown`. */
  ghost predicate Shows(table: Table, shown: seq<string>, tenors: seq<string>, fetch: string -> Fetch, basis: Cell) {
    && table.Table? && table.columns == Columns(tenors)
    && table.rowCount == |shown| && table.displayed == |table.rows| == Min(|shown|, MAX_DISPLAY_ROWS)
    && table.truncated == (|shown| > MAX_DISPLAY_ROWS)
    && (forall i | 0 <= i < |table.rows| :: table.rows[i] == RowCells(tenors, fetch, basis, shown[i]))
    && table.observedFrom == (if shown == [] then None else Some(shown[|shown| - 1]))
    && table.observedTo == (if shown == [] then None else Some(shown[0]))
  }

  /** `_history`. `ranged` says whether the request named a start or an end. */
  method History(tenors: seq<string>, rowsWanted: nat, ranged: bool, fetch: string -> Fetch, basis: Cell)
    returns (table: Table, ghost shown: seq<string>)
    requires DAY !in tenors && BASIS !in tenors
    ensures NewestDays(shown, KnownDays(tenors, fetch), rowsWanted)
    ensures table.OutOfRange? <==> ranged && KnownDays(tenors, fetch) == {}
    ensures !table.OutOfRange? ==> Shows(table, shown, tenors, fetch, basis)
  {
    var byDate, order := JoinSeries(tenors, fetch);
    var days := NewestFirst(order, rowsWanted);
    shown := days;
    NewestFirstIsNewest(order, KnownDays(tenors, fetch), rowsWanted);
    if |byDate| == 0 && ranged {
      assert byDate.Keys == {};
      return OutOfRange, shown;
    }
    var rows := PickRows(byDate, days, basis);
    var from, to := Extremes(days);
    table := MakeTable(rows, Columns(tenors), from, to);
    forall i | 0 <= i < |table.rows| ensures table.rows[i] == RowCells(tenors, fetch, basis, days[i]) {
      CellsOfJoin(tenors, fetch, basis, days[i]);
    }
  }

  lemma {:induction false} SortingReverses(days: seq<string>)
    requires forall i, j | 0 <= i < j < |days| :: StringLess(days[j], days[i])
    ensures SortStrings(days) == Reverse(days)
  {
    var back := Reverse(days);
    assert Ascending(back);
    SortedDistinct(back);
    assert Distinct(days) by {
      forall i, j | 0 <= i < j < |days| ensures days[i] != days[j] {
        StringLessIrreflexive(days[i]);
      }
    }
    SortStringsSorts(days);
    SortStringsKeeps(days);
    ReverseMembers(days);
    AscendingIsUnique(SortStrings(days), back);
  }

  // --- laws -------------------------------------------------------------------

  /** The specification determines the rows. */
  lemma {:induction false} NewestDaysUnique(a: seq<string>, b: seq<string>, known: set<string>, n: nat)
    requires NewestDays(a, known, n) && NewestDays(b, known, n)
    ensures a == b
  {
    PrefixOfMore(a, b, known, n, n);
  }

  /** The dates reported with the table are true extremes: of everything known, and of the rows kept. */
  lemma {:induction false} ObservedRangeIsTight(shown: seq<string>, known: set<string>, n: nat)
    requires NewestDays(shown, known, n) && shown != []
    ensures forall e | e in known :: e == shown[0] || StringLess(e, shown[0])
    ensures forall d | d in shown :: d == shown[|shown| - 1] || StringLess(shown[|shown| - 1], d)
  {
    forall e | e in known ensures e == shown[0] || StringLess(e, shown[0]) {
      if e in shown {
        var j :| 0 <= j < |shown| && shown[j] == e;
      } else {
        assert shown[0] in shown;
      }
    }
  }

  /** Asking for fewer rows gives a prefix of asking for more. */
  lemma {:induction false} PrefixOfMore(a: seq<string>, b: seq<string>, known: set<string>, k: nat, n: nat)
    requires NewestDays(a, known, k) && NewestDays(b, known, n) && k <= n
    ensures |a| <= |b| && a == b[..|a|]
  {
    forall i | 0 <= i < |a| ensures a[i] == b[i] {
      SameAt(a, b, known, k, n, i);
    }
  }

  lemma {:induction false} SameAt(a: seq<string>, b: seq<string>, known: set<string>, k: nat, n: nat, i: nat)
    requires NewestDays(a, known, k) && NewestDays(b, known, n) && k <= n && i < |a| <= |b|
    ensures a[i] == b[i]
    decreases i
  {
    forall j | 0 <= j < i ensures a[j] == b[j] {
      SameAt(a, b, known, k, n, j);
    }
    if a[i] != b[i] {
      StringLessTotal(a[i], b[i]);
      if StringLess(a[i], b[i]) {
        Overlooked(a, b, known, k, i);
      } else {
        Overlooked(b, a, known, n, i);
      }
    }
  }

  /** With equal beginnings, the next newest day cannot be older than another known day outside them. */
  lemma {:induction false} Overlooked(a: seq<string>, b: seq<string>, known: set<string>, k: nat, i: nat)
    requires NewestDays(a, known, k) && i < |a| && i < |b| && b[i] in known
    requires forall j | 0 <= j < i :: a[j] == b[j]
    requires forall j | 0 <= j < i :: StringLess(b[i], b[j])
    ensures !StringLess(a[i], b[i])
  {
    if StringLess(a[i], b[i]) {
      if b[i] in a {
        var j :| 0 <= j < |a| && a[j] == b[i];
        if j < i {
          StringLessIrreflexive(b[i]);
        } else {
          StringLessAsymmetric(a[i], b[i]);
        }
      } else {
        assert a[i] in a;
        StringLessAsymmetric(a[i], b[i]);
      }
    }
  }

  lemma {:induction false} StringLessAsymmetric(x: string, y: string)
    ensures !(StringLess(x, y) && StringLess(y, x))
  {
    if StringLess(x, y) && StringLess(y, x) {
      StringLessTransitive(x, y, x);
      StringLessIrreflexive(x);
    }
  }

  ghost predicate SeenBySome(tenors: seq<string>, fetch: string -> Fetch, day: string) {
    exists t | t in tenors :: Observed(fetch, t, day).Some?
  }

  lemma {:induction false} KnownDaysIff(tenors: seq<string>, fetch: string -> Fetch, day: string)
    ensures day in KnownDays(tenors, fetch) <==> SeenBySome(tenors, fetch, day)
  {
    if tenors != [] {
      var n := |tenors| - 1;
      assert tenors == tenors[..n] + [tenors[n]];
      KnownDaysIff(tenors[..n], fetch, day);
      DaysInIff(PointsOf(fetch(tenors[n])), day);
      if SeenBySome(tenors, fetch, day) {
        var t :| t in tenors && Observed(fetch, t, day).Some?;
        assert t in tenors[..n] || t == tenors[n];
      }
      if day in DaysIn(PointsOf(fetch(tenors[n]))) {
        assert tenors[n] in tenors && Observed(fetch, tenors[n], day).Some?;
      }
    }
  }

  /** The order the tenors are fetched in, and repeats among them, change neither the days nor any cell. */
  lemma {:induction false} FetchOrderDoesNotMatter(one: seq<string>, two: seq<string>, fetch: string -> Fetch,
                                                   rowsWanted: nat,
                                a: seq<string>, b: seq<string>)
    requires forall t :: t in one <==> t in two
    requires DAY !in one
    requires NewestDays(a, KnownDays(one, fetch), rowsWanted) && NewestDays(b, KnownDays(two, fetch), rowsWanted)
    ensures a == b
    ensures forall i | 0 <= i < |a| :: JoinedRow(one, fetch, a[i]) == JoinedRow(two, fetch, b[i])
  {
    forall d ensures d in KnownDays(one, fetch) <==> d in KnownDays(two, fetch) {
      KnownDaysIff(one, fetch, d);
      KnownDaysIff(two, fetch, d);
    }
    assert KnownDays(one, fetch) == KnownDays(two, fetch);
    NewestDaysUnique(a, b, KnownDays(one, fetch), rowsWanted);
    forall i | 0 <= i < |a| ensures JoinedRow(one, fetch, a[i]) == JoinedRow(two, fetch, b[i]) {
      SameJoinedRow(one, two, fetch, a[i]);
    }
  }

  lemma {:induction false} SameJoinedRow(one: seq<string>, two: seq<string>, fetch: string -> Fetch, day: string)
    requires (forall t :: t in one <==> t in two) && DAY !in one
    ensures JoinedRow(one, fetch, day) == JoinedRow(two, fetch, day)
  {
    var r, s := JoinedRow(one, fetch, day), JoinedRow(two, fetch, day);
    forall c ensures (c in r <==> c in s) && (c in r ==> r[c] == s[c]) {
      JoinedCell(one, fetch, day, c);
      JoinedCell(two, fetch, day, c);
    }
    assert r.Keys == s.Keys;
  }
}
