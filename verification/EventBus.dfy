/** `EventBus` and `_Run` as the mutable objects they are. */
module EventBusClass {
  import opened Options
  import B = BusModel
  import O = StringOrder

  /** `_Run`: one turn's history, updated in place under the bus's lock. */
  class RunRecord {
    const started: real
    var sequence: nat
    var events: seq<B.Event>
    var dropped: nat
    var finished: bool

    constructor (now: real)
      ensures Value() == B.NewRun(now) && started == now
    {
      started := now;
      sequence, events, dropped, finished := 0, [], 0, false;
    }

    function Value(): B.Run
      reads this
    {
      B.Run(started, sequence, events, dropped, finished)
    }
  }

  class EventBus {
    const capacity: nat
    /** `_runs`, with `order` the dictionary's insertion order. */
    var runs: map<B.RunId, RunRecord>
    var order: seq<B.RunId>
    var subscribers: map<B.RunId, seq<B.SubscriberId>>

    static ghost predicate Distinct(runs: map<B.RunId, RunRecord>) {
      forall a, c | a in runs && c in runs && a != c :: runs[a] != runs[c]
    }

    ghost predicate Valid()
      reads this, runs.Values
    {
      && Distinct(runs)
      && B.Consistent(View())
    }

    /** The bus as a value. */
    ghost function View(): B.Bus
      reads this, runs.Values
    {
      B.Bus(capacity, order, Values(runs), subscribers)
    }

    static ghost function Values(runs: map<B.RunId, RunRecord>): map<B.RunId, B.Run>
      reads runs.Values
    {
      map r | r in runs :: runs[r].Value()
    }

    constructor (capacity: nat)
      ensures Valid() && runs == map[]
      ensures View() == B.Bus(capacity, [], map[], map[])
    {
      this.capacity := capacity;
      runs, order, subscribers := map[], [], map[];
    }

    /** `_evict`: drop the oldest run until the capacity holds. */
    method EvictOldest()
      requires O.Distinct(order) && (forall r :: r in order <==> r in runs)
      modifies this`runs, this`order
      ensures order == B.Last(old(order), capacity)
      ensures runs == B.Keep(old(runs), order)
    {
      ghost var all := order;
      ghost var gone := 0;
      while |order| > capacity
        invariant 0 <= gone <= |all| && order == all[gone..]
        invariant gone > 0 ==> |order| >= capacity
        invariant runs == old(runs) - B.Elements(all[..gone])
      {
        var oldest := order[0];
        assert B.Elements(all[..gone + 1]) == B.Elements(all[..gone]) + {oldest} by {
          assert all[..gone + 1] == all[..gone] + [oldest];
        }
        runs := runs - {oldest};
        order := order[1..];
        gone := gone + 1;
      }
      B.DroppingIsKeeping(old(runs), all, gone);
    }

    /** Eviction, seen on the bus as a value. */
    method MakeRoom()
      requires Distinct(runs) && O.Distinct(order) && (forall r :: r in order <==> r in runs)
      modifies this`runs, this`order
      ensures Distinct(runs) && View() == B.Evict(old(View()))
      ensures runs == B.Keep(old(runs), order)
    {
      ghost var full, values := runs, Values(runs);
      EvictOldest();
      KeepValues(full, order);
      KeepsDistinct(full, order);
      assert Values(full) == values;
    }

    /** Add a run that is not there yet, then make room. */
    method Insert(rid: B.RunId, run: RunRecord)
      requires Valid() && rid !in runs && run !in runs.Values
      requires run.Value() == B.NewRun(run.started)
      modifies this`runs, this`order
      ensures Valid() && View() == B.Ensure(old(View()), rid, run.started)
      ensures runs == B.Keep(old(runs)[rid := run], order)
    {
      ghost var was := View();
      PutValues(runs, rid, run);
      StaysDistinct(runs, rid, run);
      B.AppendDistinct(order, rid);
      ghost var put := was.runs[rid := B.NewRun(run.started)];
      runs := runs[rid := run];
      order := order + [rid];
      assert Values(runs) == put;
      assert View() == was.(order := was.order + [rid], runs := put);
      MakeRoom();
      assert View() == B.Ensure(was, rid, run.started);
      B.EnsureKeepsConsistent(was, rid, run.started);
    }

    static lemma KeepsDistinct(runs: map<B.RunId, RunRecord>, kept: seq<B.RunId>)
      requires Distinct(runs)
      ensures Distinct(B.Keep(runs, kept))
    {
    }

    static lemma StaysDistinct(runs: map<B.RunId, RunRecord>, rid: B.RunId, run: RunRecord)
      requires Distinct(runs) && rid !in runs && run !in runs.Values
      ensures Distinct(runs[rid := run])
    {
    }

    static lemma PutValues(runs: map<B.RunId, RunRecord>, rid: B.RunId, run: RunRecord)
      ensures Values(runs[rid := run]) == Values(runs)[rid := run.Value()]
    {
    }

    static lemma KeepValues(runs: map<B.RunId, RunRecord>, kept: seq<B.RunId>)
      ensures Values(B.Keep(runs, kept)) == B.Keep(Values(runs), kept)
    {
    }

    /** `open_run`: idempotent by request id; an empty id is replaced by a fresh one. */
    method OpenRun(requestId: B.RunId, freshId: B.RunId, now: real) returns (rid: B.RunId)
      requires Valid()
      modifies this`runs, this`order
      ensures rid == B.OrElse(requestId, freshId)
      ensures Valid() && View() == B.Ensure(old(View()), rid, now)
    {
      rid := B.OrElse(requestId, freshId);
      if rid !in runs {
        var run := new RunRecord(now);
        Insert(rid, run);
      }
    }

    /** `close_run`: the history survives; every subscriber is owed the sentinel. */
    method CloseRun(rid: B.RunId) returns (notify: seq<B.SubscriberId>)
      requires Valid()
      modifies runs.Values
      ensures Valid() && View() == B.Close(old(View()), rid)
      ensures notify == B.Subscribers(View(), rid)
    {
      if rid in runs {
        runs[rid].finished := true;
        assert View().runs == B.Close(old(View()), rid).runs;
      }
      notify := if rid in subscribers then subscribers[rid] else [];
    }

    method IsFinished(rid: B.RunId) returns (r: bool)
      requires Valid()
      ensures r == B.IsFinished(View(), rid)
    {
      r := rid !in runs || runs[rid].finished;
    }

    method History(rid: B.RunId) returns (events: seq<B.Event>)
      requires Valid()
      ensures events == B.History(View(), rid)
    {
      events := if rid in runs then runs[rid].events else [];
    }

    /**
     The locked half of `publish`. `event` is `None` when building the event raised: the counters have
     moved by then, and nothing is delivered. `notify` is the subscriber snapshot delivery works through.
     */
    method Publish(rid: B.RunId, created: real, now: real, draft: B.Draft)
      returns (event: Option<B.Event>, notify: seq<B.SubscriberId>)
      requires Valid()
      modifies this`runs, this`order, runs.Values
      ensures Valid() && View() == B.PublishOn(old(View()), rid, created, now, draft)
      ensures event.Some? <==> B.Constructible(draft)
      ensures event.Some? ==>
                var run := B.RunFor(old(View()), rid, created);
                event.value == B.MakeEvent(rid, run.sequence + 1, run.started, now, draft)
      ensures notify == if event.Some? then B.Subscribers(View(), rid) else []
    {
      ghost var was := View();
      var run := Obtain(rid, created);
      event := RecordIn(rid, run, now, draft);
      notify := if event.Some? && rid in subscribers then subscribers[rid] else [];
      B.PublishKeepsConsistent(was, rid, created, now, draft);
    }

    /** Record on one run: at most its own entry of the bus changes. */
    method RecordIn(rid: B.RunId, run: RunRecord, now: real, draft: B.Draft) returns (event: Option<B.Event>)
      requires Distinct(runs) && run !in (runs - {rid}).Values
      requires rid in runs ==> runs[rid] == run
      modifies run
      ensures View() == (if rid in runs
                then old(View()).(runs := old(View()).runs[rid := B.Record(old(run.Value()), rid, now, draft)])
                else old(View()))
      ensures event == if B.Constructible(draft)
                then Some(B.MakeEvent(rid, old(run.sequence) + 1, run.started, now, draft)) else None
    {
      ghost var others := Values(runs - {rid});
      event := RecordOn(run, rid, now, draft);
      assert Values(runs - {rid}) == others;
      if rid in runs {
        PutValues(runs - {rid}, rid, run);
        assert (runs - {rid})[rid := run] == runs;
        assert others[rid := run.Value()] == old(Values(runs))[rid := run.Value()];
      } else {
        assert runs - {rid} == runs;
      }
    }

    /** The run a publisher writes to: the open one, or a new one even if nobody opened it. */
    method Obtain(rid: B.RunId, created: real) returns (run: RunRecord)
      requires Valid()
      modifies this`runs, this`order
      ensures Valid() && View() == B.Ensure(old(View()), rid, created)
      ensures run.Value() == B.RunFor(old(View()), rid, created)
      ensures if rid in runs then runs[rid] == run else fresh(run) && run !in runs.Values
      ensures run in old(runs.Values) || fresh(run)
      ensures run !in (runs - {rid}).Values
    {
      if rid in runs {
        run := runs[rid];
      } else {
        run := new RunRecord(created);
        Insert(rid, run);
      }
    }

    /** Publishing on one run record: counters first, then the event. */
    static method RecordOn(run: RunRecord, rid: B.RunId, now: real, draft: B.Draft) returns (event: Option<B.Event>)
      modifies run
      ensures run.Value() == B.Record(old(run.Value()), rid, now, draft)
      ensures event == if B.Constructible(draft)
                then Some(B.MakeEvent(rid, old(run.sequence) + 1, run.started, now, draft)) else None
    {
      run.sequence := run.sequence + 1;
      if |run.events| == B.EVENTS_PER_RUN {
        run.dropped := run.dropped + 1;
      }
      if B.Constructible(draft) {
        var built := B.MakeEvent(rid, run.sequence, run.started, now, draft);
        run.events := B.Append(run.events, built);
        event := Some(built);
      } else {
        event := None;
      }
    }

    /** Entering `subscribe`. */
    method Enter(rid: B.RunId, s: B.SubscriberId)
      requires Valid()
      modifies this`subscribers
      ensures Valid() && View() == B.Enter(old(View()), rid, s)
    {
      subscribers := subscribers[rid := (if rid in subscribers then subscribers[rid] else []) + [s]];
    }

    /** Leaving `subscribe`, however the block ended. */
    method Leave(rid: B.RunId, s: B.SubscriberId)
      requires Valid()
      modifies this`subscribers
      ensures Valid() && View() == B.Leave(old(View()), rid, s)
    {
      var left := B.Without(if rid in subscribers then subscribers[rid] else [], s);
      if left == [] {
        subscribers := subscribers - {rid};
      } else {
        subscribers := subscribers[rid := left];
      }
    }
  }
}
