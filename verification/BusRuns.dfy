/** What holds of the bus after any sequence of calls, against a reference that never looks at the bus. */
module BusRuns {
  import opened BusModel

  datatype Op =
    | Open(rid: RunId, now: real)
    | Publish(rid: RunId, created: real, now: real, draft: Draft)
    | CloseRun(rid: RunId)
    | EnterSub(rid: RunId, who: SubscriberId)
    | LeaveSub(rid: RunId, who: SubscriberId)

  function Step(b: Bus, op: Op): Bus {
    match op
    case Open(rid, now) => Ensure(b, rid, now)
    case Publish(rid, created, now, draft) => PublishOn(b, rid, created, now, draft)
    case CloseRun(rid) => Close(b, rid)
    case EnterSub(rid, who) => Enter(b, rid, who)
    case LeaveSub(rid, who) => Leave(b, rid, who)
  }

  /** The bus after `ops`, from a new one. */
  function Exec(capacity: nat, ops: seq<Op>): Bus {
    if ops == [] then Bus(capacity, [], map[], map[])
    else Step(Exec(capacity, ops[..|ops| - 1]), ops[|ops| - 1])
  }

  // --- the reference ----------------------------------------------------------

  /** An insertion is a call that names a run which is not among the last `capacity` inserted. */
  function NextBirths(before: seq<RunId>, capacity: nat, op: Op): seq<RunId> {
    if (op.Open? || op.Publish?) && op.rid !in Last(before, capacity) then before + [op.rid] else before
  }

  /** Every run insertion there has been, in order. A run is there while it is among the last `capacity`. */
  function Births(capacity: nat, ops: seq<Op>): seq<RunId> {
    if ops == [] then [] else NextBirths(Births(capacity, ops[..|ops| - 1]), capacity, ops[|ops| - 1])
  }

  datatype Attempt = Attempt(now: real, draft: Draft)

  /** Everything published to a run since its last insertion. */
  datatype Timeline = Timeline(born: real, attempts: seq<Attempt>)

  function Advance(t: Timeline, present: bool, op: Op, rid: RunId): Timeline {
    match op
    case Open(r, now) => if r != rid || present then t else Timeline(now, [])
    case Publish(r, created, now, draft) =>
      if r != rid then t
      else if present then t.(attempts := t.attempts + [Attempt(now, draft)])
      else Timeline(created, [Attempt(now, draft)])
    case _ => t
  }

  function TimelineOf(capacity: nat, ops: seq<Op>, rid: RunId): Timeline {
    if ops == [] then Timeline(0.0, [])
    else
      var earlier := ops[..|ops| - 1];
      Advance(TimelineOf(capacity, earlier, rid), rid in Last(Births(capacity, earlier), capacity),
              ops[|ops| - 1], rid)
  }

  /** What an unbounded buffer would hold. */
  function AllEvents(rid: RunId, born: real, attempts: seq<Attempt>): (events: seq<Event>)
    ensures |events| <= |attempts|
  {
    if attempts == [] then []
    else
      var last := attempts[|attempts| - 1];
      AllEvents(rid, born, attempts[..|attempts| - 1])
      + if Constructible(last.draft) then [MakeEvent(rid, |attempts|, born, last.now, last.draft)] else []
  }

  /** Attempts made while the buffer was already full. */
  function Overflow(rid: RunId, born: real, attempts: seq<Attempt>): nat {
    if attempts == [] then 0
    else
      var earlier := attempts[..|attempts| - 1];
      Overflow(rid, born, earlier) + if |AllEvents(rid, born, earlier)| >= EVENTS_PER_RUN then 1 else 0
  }

  /** Attempts whose event could not be built while the buffer still had room. */
  function FailedWithRoom(rid: RunId, born: real, attempts: seq<Attempt>): nat {
    if attempts == [] then 0
    else
      var earlier := attempts[..|attempts| - 1];
      FailedWithRoom(rid, born, earlier)
      + if |AllEvents(rid, born, earlier)| < EVENTS_PER_RUN && !Constructible(attempts[|attempts| - 1].draft)
        then 1 else 0
  }

  /** The run a timeline amounts to, whether or not it has been closed. */
  ghost predicate Matches(run: Run, rid: RunId, t: Timeline) {
    && run.started == t.born
    && run.sequence == |t.attempts|
    && run.events == Last(AllEvents(rid, t.born, t.attempts), EVENTS_PER_RUN)
    && run.dropped == Overflow(rid, t.born, t.attempts)
  }

  // --- the bus is its reference -----------------------------------------------

  lemma {:induction false} RecordMatches(run: Run, rid: RunId, t: Timeline, now: real, d: Draft)
    requires Matches(run, rid, t)
    ensures Matches(Record(run, rid, now, d), rid, t.(attempts := t.attempts + [Attempt(now, d)]))
  {
    var attempts := t.attempts + [Attempt(now, d)];
    assert attempts[..|attempts| - 1] == t.attempts;
    var all := AllEvents(rid, t.born, t.attempts);
    if Constructible(d) {
      LastOfLast(all, MakeEvent(rid, |attempts|, t.born, now, d), EVENTS_PER_RUN);
    } else {
      assert all + [] == all;
    }
  }

  lemma NewRunMatches(rid: RunId, now: real)
    ensures Matches(NewRun(now), rid, Timeline(now, []))
  {
  }

  lemma {:induction false} StepKeepsConsistent(b: Bus, op: Op)
    requires Consistent(b)
    ensures Consistent(Step(b, op)) && Step(b, op).capacity == b.capacity
  {
    match op
    case Open(rid, now) => EnsureKeepsConsistent(b, rid, now);
    case Publish(rid, created, now, draft) => PublishKeepsConsistent(b, rid, created, now, draft);
    case _ =>
  }

  lemma {:induction false} StepKeepsOrder(b: Bus, births: seq<RunId>, op: Op)
    requires Consistent(b) && b.order == Last(births, b.capacity)
    ensures Step(b, op).order == Last(NextBirths(births, b.capacity, op), b.capacity)
  {
    if (op.Open? || op.Publish?) && op.rid !in b.runs {
      LastOfLast(births, op.rid, b.capacity);
    }
  }

  lemma {:induction false} PublishMatches(b: Bus, t: Timeline, rid: RunId, created: real, now: real, draft: Draft)
    requires rid in b.runs ==> Matches(b.runs[rid], rid, t)
    ensures Matches(Record(RunFor(b, rid, created), rid, now, draft), rid,
                    Advance(t, rid in b.runs, Publish(rid, created, now, draft), rid))
  {
    if rid in b.runs {
      RecordMatches(b.runs[rid], rid, t, now, draft);
    } else {
      NewRunMatches(rid, created);
      RecordMatches(NewRun(created), rid, Timeline(created, []), now, draft);
      assert [] + [Attempt(now, draft)] == [Attempt(now, draft)];
    }
  }

  /** A publish records in its own run and leaves every other as it was. */
  lemma {:induction false} PublishTouchesOne(b: Bus, r: RunId, created: real, now: real, draft: Draft, rid: RunId)
    ensures var after := PublishOn(b, r, created, now, draft).runs;
            rid in after ==> if rid == r then after[rid] == Record(RunFor(b, rid, created), rid, now, draft)
                             else rid in b.runs && after[rid] == b.runs[rid]
  {
  }

  /** One step, seen from one run. */
  lemma {:induction false} StepKeepsMatch(b: Bus, t: Timeline, op: Op, rid: RunId)
    requires Consistent(b) && (rid in b.runs ==> Matches(b.runs[rid], rid, t))
    ensures rid in Step(b, op).runs ==> Matches(Step(b, op).runs[rid], rid, Advance(t, rid in b.runs, op, rid))
  {
    match op
    case Open(r, now) => NewRunMatches(rid, now);
    case Publish(r, created, now, draft) =>
      PublishTouchesOne(b, r, created, now, draft, rid);
      if r == rid {
        PublishMatches(b, t, rid, created, now, draft);
      }
    case _ =>
  }

  /** The main invariant: every reachable bus is the reference, run by run. */
  lemma {:induction false} ReachableIsReference(capacity: nat, ops: seq<Op>)
    ensures Consistent(Exec(capacity, ops)) && Exec(capacity, ops).capacity == capacity
    ensures Exec(capacity, ops).order == Last(Births(capacity, ops), capacity)
    ensures forall r | r in Exec(capacity, ops).runs ::
              Matches(Exec(capacity, ops).runs[r], r, TimelineOf(capacity, ops, r))
  {
    if ops != [] {
      var earlier, op := ops[..|ops| - 1], ops[|ops| - 1];
      var b := Exec(capacity, earlier);
      ReachableIsReference(capacity, earlier);
      StepKeepsConsistent(b, op);
      StepKeepsOrder(b, Births(capacity, earlier), op);
      forall r | r in Exec(capacity, ops).runs
        ensures Matches(Exec(capacity, ops).runs[r], r, TimelineOf(capacity, ops, r))
      {
        StepKeepsMatch(b, TimelineOf(capacity, earlier, r), op, r);
      }
    }
  }

  // --- accounting -------------------------------------------------------------

  lemma {:induction false} CountersAddUp(rid: RunId, born: real, attempts: seq<Attempt>)
    ensures Overflow(rid, born, attempts) + |Last(AllEvents(rid, born, attempts), EVENTS_PER_RUN)|
          + FailedWithRoom(rid, born, attempts) == |attempts|
  {
    if attempts != [] {
      CountersAddUp(rid, born, attempts[..|attempts| - 1]);
    }
  }

  /** `dropped + len(events) == sequence` exactly when no event failed to build while there was room. */
  lemma {:induction false} AccountingIsExactIff(capacity: nat, ops: seq<Op>, rid: RunId)
    requires rid in Exec(capacity, ops).runs
    ensures var run := Exec(capacity, ops).runs[rid];
            var t := TimelineOf(capacity, ops, rid);
            run.dropped + |run.events| == run.sequence <==> FailedWithRoom(rid, t.born, t.attempts) == 0
  {
    ReachableIsReference(capacity, ops);
    var t := TimelineOf(capacity, ops, rid);
    CountersAddUp(rid, t.born, t.attempts);
  }

  ghost predicate AllConstructible(attempts: seq<Attempt>) {
    forall i | 0 <= i < |attempts| :: Constructible(attempts[i].draft)
  }

  lemma {:induction false} ConstructibleEvents(rid: RunId, born: real, attempts: seq<Attempt>)
    requires AllConstructible(attempts)
    ensures |AllEvents(rid, born, attempts)| == |attempts|
    ensures forall i | 0 <= i < |attempts| ::
              AllEvents(rid, born, attempts)[i] == MakeEvent(rid, i + 1, born, attempts[i].now, attempts[i].draft)
    ensures FailedWithRoom(rid, born, attempts) == 0
  {
    if attempts != [] {
      ConstructibleEvents(rid, born, attempts[..|attempts| - 1]);
    }
  }

  /** Exactly what a run holds when all n events of its timeline could be built. */
  ghost predicate HoldsTheLatest(run: Run, rid: RunId, t: Timeline) {
    var n := |t.attempts|;
    && run.sequence == n
    && |run.events| == (if n <= EVENTS_PER_RUN then n else EVENTS_PER_RUN)
    && run.dropped == n - |run.events|
    && forall i, k | 0 <= i < |run.events| && k == run.dropped + i ::
         && Constructible(t.attempts[k].draft)
         && run.events[i] == MakeEvent(rid, k + 1, t.born, t.attempts[k].now, t.attempts[k].draft)
  }

  lemma LastAt<T>(xs: seq<T>, n: nat, i: nat)
    requires i < |Last(xs, n)|
    ensures Last(xs, n)[i] == xs[|xs| - |Last(xs, n)| + i]
  {
  }

  lemma {:induction false} MatchHoldsTheLatest(run: Run, rid: RunId, t: Timeline)
    requires Matches(run, rid, t) && AllConstructible(t.attempts)
    ensures HoldsTheLatest(run, rid, t)
  {
    ConstructibleEvents(rid, t.born, t.attempts);
    CountersAddUp(rid, t.born, t.attempts);
    var all := AllEvents(rid, t.born, t.attempts);
    forall i, k | 0 <= i < |run.events| && k == run.dropped + i
      ensures Constructible(t.attempts[k].draft)
      ensures run.events[i] == MakeEvent(rid, k + 1, t.born, t.attempts[k].now, t.attempts[k].draft)
    {
      LastAt(all, EVENTS_PER_RUN, i);
    }
  }

  /**
   A history is the last min(n, 600) of the n events published since the run was inserted, numbered
   without a gap, and `dropped` counts exactly the ones that were pushed out.
   */
  lemma {:induction false} HistoryIsTheLatest(capacity: nat, ops: seq<Op>, rid: RunId)
    requires rid in Exec(capacity, ops).runs && AllConstructible(TimelineOf(capacity, ops, rid).attempts)
    ensures HoldsTheLatest(Exec(capacity, ops).runs[rid], rid, TimelineOf(capacity, ops, rid))
  {
    ReachableIsReference(capacity, ops);
    MatchHoldsTheLatest(Exec(capacity, ops).runs[rid], rid, TimelineOf(capacity, ops, rid));
  }

  /** Numbered upwards, none above `top`. */
  ghost predicate Numbered(events: seq<Event>, top: nat) {
    && (forall i | 0 <= i < |events| :: 1 <= events[i].sequence <= top)
    && forall i, j | 0 <= i < j < |events| :: events[i].sequence < events[j].sequence
  }

  lemma {:induction false} SequencesRise(rid: RunId, born: real, attempts: seq<Attempt>)
    ensures Numbered(AllEvents(rid, born, attempts), |attempts|)
  {
    if attempts != [] {
      SequencesRise(rid, born, attempts[..|attempts| - 1]);
    }
  }

  lemma {:induction false} LastIsNumbered(events: seq<Event>, top: nat, n: nat)
    requires Numbered(events, top)
    ensures Numbered(Last(events, n), top)
  {
  }

  /** Whatever fails to build, no sequence number is handed out twice and none goes backwards. */
  lemma {:induction false} SequenceNumbersAreUnique(capacity: nat, ops: seq<Op>, rid: RunId)
    ensures Numbered(History(Exec(capacity, ops), rid), |TimelineOf(capacity, ops, rid).attempts|)
  {
    var t := TimelineOf(capacity, ops, rid);
    if rid in Exec(capacity, ops).runs {
      ReachableIsReference(capacity, ops);
      SequencesRise(rid, t.born, t.attempts);
      LastIsNumbered(AllEvents(rid, t.born, t.attempts), |t.attempts|, EVENTS_PER_RUN);
    }
  }

  // --- the timeline cannot go backwards ---------------------------------------

  function Clock(op: Op, before: real): real {
    match op
    case Open(_, now) => now
    case Publish(_, _, now, _) => now
    case _ => before
  }

  /** The latest clock reading, if no reading ever went back. */
  function LastReading(ops: seq<Op>): real {
    if ops == [] then 0.0 else Clock(ops[|ops| - 1], LastReading(ops[..|ops| - 1]))
  }

  ghost predicate ClockIsMonotone(ops: seq<Op>) {
    ops == [] ||
    (var earlier := ops[..|ops| - 1];
     && ClockIsMonotone(earlier)
     && match ops[|ops| - 1]
        case Open(_, now) => LastReading(earlier) <= now
        case Publish(_, created, now, _) => LastReading(earlier) <= created <= now
        case _ => true)
  }

  ghost predicate TimesRise(t: Timeline, latest: real) {
    && (forall i | 0 <= i < |t.attempts| :: t.attempts[i].now <= latest)
    && forall i, j | 0 <= i <= j < |t.attempts| :: t.attempts[i].now <= t.attempts[j].now
  }

  lemma {:induction false} MonotoneTimeline(capacity: nat, ops: seq<Op>, rid: RunId)
    requires ClockIsMonotone(ops)
    ensures TimesRise(TimelineOf(capacity, ops, rid), LastReading(ops))
  {
    if ops != [] {
      MonotoneTimeline(capacity, ops[..|ops| - 1], rid);
    }
  }

  lemma {:induction false} ElapsedIsMonotone(started: real, a: real, b: real)
    requires a <= b
    ensures ElapsedMs(started, a) <= ElapsedMs(started, b)
  {
    var x, y := (a - started) * 1000.0, (b - started) * 1000.0;
    assert x <= y;
  }

  ghost predicate InTimeOrder(events: seq<Event>) {
    forall i, j | 0 <= i <= j < |events| :: events[i].elapsedMs <= events[j].elapsedMs
  }

  lemma {:induction false} ElapsedRises(rid: RunId, born: real, attempts: seq<Attempt>, latest: real)
    requires TimesRise(Timeline(born, attempts), latest)
    ensures InTimeOrder(AllEvents(rid, born, attempts))
    ensures forall i | 0 <= i < |AllEvents(rid, born, attempts)| ::
              AllEvents(rid, born, attempts)[i].elapsedMs <= ElapsedMs(born, latest)
  {
    if attempts != [] {
      var n := |attempts| - 1;
      var earlier, last := attempts[..n], attempts[n];
      assert TimesRise(Timeline(born, earlier), last.now) by {
        assert forall i | 0 <= i < n :: earlier[i] == attempts[i];
      }
      ElapsedRises(rid, born, earlier, last.now);
      ElapsedIsMonotone(born, last.now, latest);
      var before, all := AllEvents(rid, born, earlier), AllEvents(rid, born, attempts);
      forall i | 0 <= i < |all| ensures all[i].elapsedMs <= ElapsedMs(born, last.now) {
        if i < |before| {
          assert all[i] == before[i];
        }
      }
      forall i, j | 0 <= i <= j < |all| ensures all[i].elapsedMs <= all[j].elapsedMs {
        if j < |before| {
          assert all[i] == before[i] && all[j] == before[j];
        }
      }
    }
  }

  lemma LastInTimeOrder(events: seq<Event>, n: nat)
    requires InTimeOrder(events)
    ensures InTimeOrder(Last(events, n))
  {
  }

  /** With a clock that never goes back, a history's elapsed times never go back either. */
  lemma {:induction false} HistoryIsInTimeOrder(capacity: nat, ops: seq<Op>, rid: RunId)
    requires ClockIsMonotone(ops)
    ensures InTimeOrder(History(Exec(capacity, ops), rid))
  {
    if rid in Exec(capacity, ops).runs {
      ReachableIsReference(capacity, ops);
      MonotoneTimeline(capacity, ops, rid);
      var t := TimelineOf(capacity, ops, rid);
      ElapsedRises(rid, t.born, t.attempts, LastReading(ops));
      LastInTimeOrder(AllEvents(rid, t.born, t.attempts), EVENTS_PER_RUN);
    }
  }

  // --- eviction ---------------------------------------------------------------

  lemma {:induction false} BirthsGrow(capacity: nat, ops: seq<Op>, more: seq<Op>)
    ensures Births(capacity, ops) <= Births(capacity, ops + more)
    decreases |more|
  {
    if more == [] {
      assert ops + more == ops;
    } else {
      var fewer := more[..|more| - 1];
      BirthsGrow(capacity, ops, fewer);
      assert (ops + more)[..|ops + more| - 1] == ops + fewer;
    }
  }

  /** The insertion of `rid` that is in force in `before` has at least `n` later ones in `after`. */
  ghost predicate FollowedBy(before: seq<RunId>, after: seq<RunId>, rid: RunId, n: nat) {
    exists k | 0 <= k < |before| :: before[k] == rid && |before| - k <= n && |after| - (k + 1) >= n
  }

  lemma {:induction false} LeavingTheWindow(before: seq<RunId>, after: seq<RunId>, rid: RunId, n: nat)
    requires before <= after && rid in Last(before, n) && rid !in Last(after, n)
    ensures FollowedBy(before, after, rid, n)
  {
    var recent := Last(before, n);
    var i :| 0 <= i < |recent| && recent[i] == rid;
    var k := |before| - |recent| + i;
    LastAt(before, n, i);
    assert after[k] == rid;
    if |after| - (k + 1) < n {
      InLast(after, n, k);
      assert false;
    }
  }

  /** A run that was there and is gone has seen at least `capacity` later insertions. */
  lemma {:induction false} LostOnlyAfterCapacityInsertions(capacity: nat, ops: seq<Op>, more: seq<Op>, rid: RunId)
    requires rid in Exec(capacity, ops).runs && rid !in Exec(capacity, ops + more).runs
    ensures FollowedBy(Births(capacity, ops), Births(capacity, ops + more), rid, capacity)
  {
    ReachableIsReference(capacity, ops);
    ReachableIsReference(capacity, ops + more);
    BirthsGrow(capacity, ops, more);
    LeavingTheWindow(Births(capacity, ops), Births(capacity, ops + more), rid, capacity);
  }

  lemma {:induction false} InLast(xs: seq<RunId>, n: nat, k: nat)
    requires k < |xs| && |xs| - (k + 1) < n
    ensures xs[k] in Last(xs, n)
  {
    var kept := Last(xs, n);
    assert kept[k - (|xs| - |kept|)] == xs[k];
  }

  /** Re-opening a run that is there changes nothing, in any reachable state. */
  lemma {:induction false} OpenIsIdempotent(b: Bus, rid: RunId, first: real, second: real)
    requires Consistent(b) && b.capacity > 0
    ensures Ensure(Ensure(b, rid, first), rid, second) == Ensure(b, rid, first)
    ensures rid in Ensure(b, rid, first).runs
  {
    if rid !in b.runs {
      var order := b.order + [rid];
      assert Last(order, b.capacity)[|Last(order, b.capacity)| - 1] == rid;
    }
  }
}
