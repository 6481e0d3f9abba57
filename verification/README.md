# Verification model of the agent gateway

A Dafny 4.11 model of five parts of the gateway, with proofs. What the parts share is that an untrusted party
does as it likes - a language model, another thread, any text at all - and the code keeps a promise anyway.
Those parties are arbitrary functions, arbitrary sequences of steps or arbitrary strings here, and every main
result is for all of them.

- **The event bus.** `EventBus.dfy` holds the bus and its runs as objects updated in place; every locked
  section is proved to do what `BusModel.dfy` says it does to the bus as a value. `BusRuns.dfy` proves what all
  sequences of operations keep. `Delivery.dfy` takes the lock apart: publishing, closing, subscribing, each
  hand-over outside the lock, each loop callback and each read is a step of its own, in any interleaving.
  `Subscription.dfy` and `Numbering.dfy` draw the consequences for any subscriber. `Relay.dfy` is the live stream's
  loop over that network, `RelayRuns.dfy` and `RelayLosses.dfy` what it shows under which schedules. `Sanitiser.dfy`,
  `Latency.dfy` and `LatencyLaws.dfy` are the metadata sanitiser and the latency report.
- **The negotiation.** `Contracts.dfy` and `Planning.dfy` are the requirement, the record and the loop, for any
  expert at all, including one that changes its proposal in place. `Negotiations.dfy` has the laws of every
  negotiation; `Expert.dfy` and `ExpertRuns.dfy` are the real expert and what holds of its negotiations, for any
  model. `Retrieval.dfy` is the merge of what its queries find.
- **The turn.** `Preflight.dfy` and `Clarification.dfy` are the completeness gate and the conversations it is
  part of, `Validation.dfy` the mechanical result checks, `Pipeline.dfy` one turn over its specialists, and
  `Turns.dfy` the bounds and the end-to-end guarantee.
- **Two text algorithms.** `Redaction.dfy`, `Phrases.dfy` and `Scrubber.dfy` are the identifier scrubber.
  `Markers.dfy`, `Grounding.dfy`, `Verbatim.dfy` and `Straddling.dfy` are the quote check: the removal of emphasis,
  the check itself, which copied quotes it accepts, and what becomes of them when more chunks are retrieved.
- **The history table.** `HistoryTable.dfy`.

`Text.dfy`, `StringOrder.dfy`, `Rounding.dfy` and `Options.dfy` are shared vocabulary. `dafny verify
dfyconfig.toml` checks everything.

## Where the code and its own words differ

The model follows the code. Each of these is a lemma, with the exact condition where there is one.

- The live stream's comment (backend/src/backend/api/service.py:505-508) says that subscribing first cannot lose
  an event. It can, in four ways. Delivery is outside the lock, so a later event can arrive first, and the relay then
  skips the earlier one (`RelayCanLoseAnEvent`); the run can be closed between the replay and the check
  (`ClosedInTheGap`) or while the loop waits on an empty queue (`LeftWhileIdle`), and the relay leaves with an event
  still on its way; and an evicted run that publishes again is numbered from one again, at or below what was replayed
  (`RestartIsSkipped`). `WholeIff` says exactly when every event of the run is shown, `WholeIffHandedInOrder` says it
  of the hand-overs alone, and `SerialVisitIff` of a schedule in which each hand-over ends before the next publish
  begins. Without that discipline, any two hand-overs that overlap can lose an event: `OverlapCanLose`.
- `dropped + len(events) == sequence` is what the counters are for, but they move before the event is built. It
  holds exactly when nothing failed to build while there was room: `AccountingIsExactIff`.
- The reason given for stopping after two quiet rounds (agents/planning.py:90-97) is that the second asks the
  identical capability question. The change list does not report tenors, notes, parameters or assumptions, so
  it need not: `StallMayAskAnew`. After a stall the two last questions were the same exactly when the earlier of
  the two rounds failed, or its answer left everything unreported as it stood: `StallAsksTheSameIff`.
- A reviser that fails in every round is reported to the user as a disagreement between the agents, not as a
  failure of reasoning: `SilentReviserLooksLikeDisagreement`.
- README.md:1648-1653 lists NEEDS_USER_INPUT among the four outcomes. With requirements from `_build` no
  negotiation ends that way: `NeverNeedsUserInput`.
- AGREED does not promise an answerable plan: `AgreedButUnanswerableIff`.
- The normaliser is described as collapsing typography. It is not idempotent: two leftover markers can meet once
  what stood between them is removed. `NormaliseIdempotentIff` gives the condition on the text,
  `NormaliseIsNotIdempotent` an instance.
- It can also reject a verbatim quote, however long: one cut next to a further marker, so that an odd run of markers is
  left at its end while the source loses the pair (`OddEndIsRejected`, with a text for every such quote;
  `OddCutIsRejected` is four asterisks cut three to one, `EvenCutIsAccepted` two to two). A long quote is accepted from
  every source it is verbatim in exactly when the runs at both its ends are even: `AlwaysGroundedIff`. In a context
  with no odd run anywhere the same condition decides each case: `BalancedVerbatimIff`.
- Retrieving more can un-ground a quote: one that straddles two passages is lost when a chunk lands between them
  (`StraddlingQuoteIsLost`). A quote survives every insertion exactly when one passage holds it: `SurvivesIffHeldByOne`.
- Published metadata is promised to have no unbounded strings (agents/events.py:187). Values are cut and names are
  not: `LongNameSurvives`. `PublishedStringsAreShortIff` is the exact condition.
- The result gate is called the last one before a number reaches a person. An ordinary resumed turn composes its
  reply without it (agents/pipeline.py:793-815), which `Resume` states; the guarantee about shown figures is for
  questions, and for answers that change what was asked.

## Model

| member | source | states |
|---|---|---|
| EventBusClass.RunRecord.constructor | agents/events.py:213-223 | a new run has recorded nothing, dropped nothing and is open |
| EventBusClass.EventBus.constructor | agents/events.py:237-243 | a new bus is valid and empty |
| EventBusClass.EventBus.OpenRun | agents/events.py:245-252 | opening names the run, inserts it if it is not there, evicts the oldest down to the capacity, and keeps the bus valid |
| EventBusClass.EventBus.CloseRun | agents/events.py:254-266 | closing marks the run finished if it is there and notifies exactly the subscribers of that moment, whether or not it is |
| EventBusClass.EventBus.IsFinished | agents/events.py:268-271 | a run is finished when it was closed or is not there |
| EventBusClass.EventBus.History | agents/events.py:273-276 | a snapshot of what the run holds, empty when it is not there |
| EventBusClass.EventBus.EvictOldest | agents/events.py:285-289 | the loop keeps exactly the last `capacity` runs inserted |
| EventBusClass.EventBus.MakeRoom | agents/events.py:285-289 | eviction, seen on the bus as a value, is keeping the last `capacity` runs and nothing else |
| EventBusClass.EventBus.Insert | agents/events.py:245-252 | a run that was not there is added, and room is made for it |
| EventBusClass.EventBus.Publish | agents/events.py:291-328 | the counters move, then the event is built, then kept; when it cannot be built nothing is kept or sent but the counters have moved |
| EventBusClass.EventBus.RecordIn | agents/events.py:303-324 | what publishing does to one run object, whether or not that run survived its own insertion |
| EventBusClass.EventBus.Obtain | agents/events.py:299-304 | publishing to an evicted id gets a fresh, open run |
| EventBusClass.EventBus.Enter | agents/events.py:340-352 | a subscriber joins the end of its run's list |
| EventBusClass.EventBus.Leave | agents/events.py:353-362 | a subscriber's first entry goes, and an empty list goes with it |
| BusRuns.ReachableIsReference | agents/events.py:245-328 | after any operations the bus is, run by run, what counting insertions and publishes says: the last `capacity` runs inserted, each with the last 600 of its events and exact counters |
| BusRuns.AccountingIsExactIff | agents/events.py:291-328 | `dropped + len(events) == sequence` exactly when no event failed to build while the buffer had room |
| BusRuns.HistoryIsTheLatest | agents/events.py:213-223 | a history is the last min(n, 600) of the n events since the run was inserted, numbered without a gap |
| BusRuns.SequenceNumbersAreUnique | agents/events.py:303-316 | whatever fails to build, sequence numbers strictly rise along a history |
| BusRuns.HistoryIsInTimeOrder | agents/events.py:306-316 | with a clock that never goes back, elapsed times never go back, truncation to milliseconds included |
| BusRuns.LostOnlyAfterCapacityInsertions | agents/events.py:285-289 | a run disappears only after at least `capacity` later insertions |
| BusRuns.OpenIsIdempotent | agents/events.py:245-252 | re-opening a run that is there changes nothing |
| Delivery.StepKeepsInv | agents/events.py:254-266 | every single step of any thread keeps the bus consistent and every item a subscriber is owed in exactly one place |
| Delivery.ReachableStatesKeepInv | agents/events.py:291-359 | so does every interleaving of publish, close, subscribe, unsubscribe, hand-over, callback and read |
| Delivery.DeliverDelivers | agents/events.py:322-338 | a hand-over outside the lock keeps what every subscriber is owed in exactly one place |
| Delivery.CallbackDelivers | agents/events.py:330-338 | so does a callback on the loop, a full queue included |
| Delivery.HandOverMovesOne | agents/events.py:322-338 | a hand-over moves exactly one copy from the publisher to the subscriber's loop, or to the dropped when that loop is gone; nobody else's copies move |
| Delivery.CallbackMovesOne | agents/events.py:330-338 | a callback moves exactly one copy from the loop to the queue, or to the dropped when 2048 are waiting |
| Delivery.QueuesStayBounded | agents/events.py:330-338 | in no reachable state does a queue hold more than 2048 items |
| Subscription.OwedIffSomewhere | agents/events.py:291-359 | an item is owed to a subscriber exactly when it is in flight, scheduled, queued, consumed or dropped for it |
| Subscription.HistoryPlusDeliveriesMissNothing | agents/events.py:273-276 | subscribe, then read the history, then wait: every event of the run is in that history, was trimmed before it was read, or is owed |
| Subscription.CloseIsNeverMissed | agents/events.py:254-271 | a subscriber registered before the close is owed the sentinel; a later one finds the run finished unless it was inserted afresh |
| Numbering.ReachableNumbersRise | agents/events.py:303-316 | in every reachable state the numbers of a run's own events rise from 1 in the order sent, whatever failed to build |
| Relay.Stream | backend/src/backend/api/service.py:509-541 | the generator: the history, then nothing when the run is finished, else what the loop shows of what it reads |
| Relay.Loop | backend/src/backend/api/service.py:524-540 | the loop reads until the sentinel, a timeout on a finished run or 80 idle timeouts, and shows what is numbered above the last event shown |
| Relay.LoopIsWholeIff | backend/src/backend/api/service.py:524-540 | the loop shows exactly what was sent since the replay if and only if the numbering went on and all of it was read, in order and before any sentinel |
| Relay.WholeIff | backend/src/backend/api/service.py:509-541 | a visit, whatever happens between its steps, shows every event of the run exactly when the buffer had lost none and either the run was finished at the check with nothing sent since the replay, or the loop delivered all of it |
| RelayRuns.WholeIffHandedInOrder | backend/src/backend/api/service.py:509-541 | of a visit read up to the sentinel, or to the end of what was handed over, with nothing dropped, the same is decided by the order of the hand-overs alone |
| RelayRuns.SerialVisitIff | backend/src/backend/api/service.py:505-541 | with nothing dropped, each hand-over over before the next publish or close, everything read up to the sentinel at which the loop stops, and the run not inserted afresh, every event is shown exactly when the buffer had lost none and the run was finished at the check with nothing published since the replay, or else not published to after a close |
| RelayRuns.ClosedInTheGap | backend/src/backend/api/service.py:518-523 | from any visit that has just replayed, a publish and a close before the check leave an event owed and never shown |
| RelayRuns.LeftWhileIdle | backend/src/backend/api/service.py:527-534 | from any visit waiting on an empty queue, a publish and a close let the next timeout end the loop with the event still on its way |
| RelayRuns.NumberedAgain | backend/src/backend/api/service.py:538-539 | an event sent since the replay and numbered no higher than it is never shown |
| RelayLosses.OverlapCanLose | agents/events.py:322-328 | whenever two hand-overs of unseen events overlap, deliveries can go on so that no ending without drops shows everything |
| RelayLosses.RelayCanLoseAnEvent | backend/src/backend/api/service.py:505-541 | from a new bus two overlapping publishes are read out whole and only the second is shown, against the comment in the relay |
| RelayLosses.RestartIsSkipped | backend/src/backend/api/service.py:505-541 | from a new bus a run evicted and inserted afresh arrives in order, is read out whole, and its new event is not shown |
| Sanitiser.SafeValue | agents/events.py:163-183 | the value sanitiser as it runs: cut strings, capped lists, dropped depth |
| Sanitiser.CleanEntries | agents/events.py:186-210 | the dictionary loop: the first 20 entries, secret-looking keys and vanished values left out, later duplicates winning in place |
| Sanitiser.SafeIsSettled | agents/events.py:163-210 | whatever is handed over, the result is already in its final form |
| Sanitiser.SettledIsFixed | agents/events.py:163-210 | a value in final form passes through unchanged |
| Sanitiser.SafeMetadataIsIdempotent | agents/events.py:186-210 | sanitising twice is sanitising once, at every depth |
| Sanitiser.PublishedMetadataIsBounded | agents/events.py:157-210 | at every depth: no secret-looking key, no string value over 243 characters, three container levels, lists of 12, dictionaries of 20 |
| Sanitiser.LongNameSurvives | agents/events.py:200-209 | a name that does not look secret is published whole, however long it is, against the promise at line 187 |
| Sanitiser.PublishedStringsAreShortIff | agents/events.py:186-210 | every published string, names included, is within 243 characters exactly when every name that survives is |
| Sanitiser.PublishedMetadataIsSmall | agents/events.py:186-210 | one event carries at most 8000 scalars |
| Latency.FillBuckets | agents/events.py:478-485 | one bucket of durations per component, in publishing order |
| Latency.BuildRows | agents/events.py:487-502 | one priced row per bucket, in name order |
| Latency.LatencyReport | agents/events.py:468-513 | the loops compute the report that the laws below are about |
| LatencyLaws.ReportIsExact | agents/events.py:468-513 | the rows' calls sum to the number of classified events, and `attributed_ms` is the exact sum of the non-nested durations |
| LatencyLaws.RowsPartitionTheEvents | agents/events.py:468-513 | each classified event falls in exactly one row, each row's calls and total are those of its events, and the rows come nested last with totals descending |
| LatencyLaws.ReportIgnoresOrder | agents/events.py:478-513 | the report depends only on the multiset of events |
| LatencyLaws.FlooredSpansFit | agents/events.py:428-448 | disjoint spans floored one by one never exceed the floor of the whole |
| LatencyLaws.TotalIsAccountedIff | agents/events.py:504-513 | attributed plus unattributed is the total exactly when the non-nested durations sum to no more than it |
| LatencyLaws.OverlapIsNotAccounted | agents/events.py:504-513 | two overlapping spans in one second break it |
| LatencyLaws.LatencyIsConserved | agents/events.py:468-513 | for disjoint measured spans inside the turn the table adds up, and percentages sum to at most 100 + 0.05 per row |
| Redaction.MapTokensConcat | agents/redaction.py:226-244 | rewriting whole tokens distributes over every cut that does not split one |
| Redaction.SubstituteIsTokenPass | agents/redaction.py:237-243 | one look-around substitution rewrites exactly one whole token |
| Redaction.PassesFuse | agents/redaction.py:237-243 | two passes are one when the first's phrases are fixed points of the second |
| Redaction.ScrubIsTokenPass | agents/redaction.py:226-244 | name by name, in any order, equals a single pass over the maximal word-or-backtick tokens |
| Redaction.ScrubOrderIrrelevant | agents/redaction.py:236-243 | the order of the names, and repeats among them, cannot be seen |
| Redaction.FixedPointIff | agents/redaction.py:226-244 | a text is left alone exactly when every name in it is its own phrase |
| Redaction.IdempotentIffStable | agents/redaction.py:226-244 | scrubbing twice is scrubbing once, for all texts, exactly when no phrase is rewritten |
| Redaction.LeakFreeIff | agents/redaction.py:226-244 | no bare name is left, in any text, exactly when no phrase contains one |
| Redaction.OtherTokensUntouched | agents/redaction.py:226-244 | without names every token and separator passes through |
| Redaction.BackquotedNameSurvives | agents/redaction.py:226-236 | a name in backticks is kept |
| Redaction.UnderscoredNamesAreSafe | agents/redaction.py:226-244 | names with an underscore and phrases without one meet both conditions |
| Phrases.HumaniseByCutting | agents/redaction.py:200-223 | the cutting loops compute the phrase of a name |
| Phrases.PhraseIsCleanIff | agents/redaction.py:200-223 | a phrase has no underscore exactly when the table knows the name or something is left to say |
| Phrases.SpeakablePhraseIsClean | agents/redaction.py:200-223 | a name that ends in a word, with or without `_tool`, has a phrase without underscores |
| Phrases.RealTableIsClean | agents/redaction.py:60-151 | no entry of the repository's own table has an underscore in its phrase |
| Scrubber.ScrubIdentifiers | agents/redaction.py:226-244 | longest name first, one substitution per name, and the result is the token pass |
| Scrubber.CleanPhrasesAreSafe | agents/redaction.py:200-244 | underscored speakable names and a clean table meet the conditions of both theorems |
| Scrubber.NoIdentifierReachesTheReader | agents/redaction.py:226-244 | no listed name is left bare in any text, and a second scrub changes nothing |
| Grounding.SpanSurvivesNormalise | agents/domain_expert_agent.py:463-489 | a span whose two cuts split no run of markers odd against odd is found in the normalised text |
| Grounding.GroundingIsMonotone | agents/domain_expert_agent.py:508-520 | a quote grounded in a block of chunks stays grounded when chunks are added before and after the block |
| Straddling.OneChunkIsEnough | agents/domain_expert_agent.py:508-520 | a quote grounded in one chunk alone is grounded in every list with that chunk in it, at any position |
| Straddling.SurvivesIffHeldByOne | agents/domain_expert_agent.py:636-675 | a quote stays grounded under every insertion of further chunks, at any positions, exactly when it is long enough and one executable passage holds it |
| Straddling.StraddlingQuoteIsLost | agents/domain_expert_agent.py:636-675 | a quote across a join is grounded before and not after a chunk is inserted there |
| Grounding.ReferenceNeverGrounds | agents/domain_expert_agent.py:708-718 | reference passages neither ground nor un-ground anything |
| Grounding.VerbatimSpanIsGrounded | agents/domain_expert_agent.py:508-520 | so a long enough verbatim span of an executable chunk with such cuts is grounded |
| Grounding.EmphasisIsInvisible | agents/domain_expert_agent.py:486-489 | wrapping a span in emphasis does not change what it normalises to |
| Grounding.GroundingIgnoresEmphasis | agents/domain_expert_agent.py:508-520 | a quote is accepted with its emphasis exactly when it is accepted without |
| Grounding.NormaliseIdempotentIff | agents/domain_expert_agent.py:463-489 | normalising twice is normalising once exactly when no two leftover asterisks, and then no two leftover underscores, are separated only by text the removals delete |
| Grounding.NormaliseIsNotIdempotent | agents/domain_expert_agent.py:488 | the normaliser turns asterisk-backtick-asterisk into two asterisks, and two asterisks into nothing |
| Markers.DropPairsConcatIff | agents/domain_expert_agent.py:488 | removing the pairs of one marker distributes over a cut exactly when the cut does not split a run of it odd against odd |
| Markers.DropMarkersConcatIff | agents/domain_expert_agent.py:488 | so for all three removals: no such split of asterisks, then none of underscores |
| Markers.DoubledMarkersLeftIff | agents/domain_expert_agent.py:488 | a doubled marker is left exactly when two leftover ones join |
| Verbatim.MarkerLeftIff | agents/domain_expert_agent.py:478-489 | a marker is left after normalising exactly when some run of it is odd |
| Verbatim.UnbalancedIsRejected | agents/domain_expert_agent.py:508-520 | a quote with an odd run is rejected by every context without one, verbatim or not |
| Verbatim.AlwaysGroundedIff | agents/domain_expert_agent.py:508-520 | a quote is accepted from every list of chunks with an executable one it is verbatim in, exactly when it is long enough and starts and ends with even runs of either marker |
| Verbatim.BalancedVerbatimIff | agents/domain_expert_agent.py:508-520 | in a context with no odd run of a marker, a verbatim quote is accepted exactly when it is long enough and its ends are even |
| Verbatim.OddEndIsRejected | agents/domain_expert_agent.py:488 | every quote with an odd end, however long, is verbatim in some text that it is rejected from: itself and one more marker |
| Verbatim.OddCutIsRejected | agents/domain_expert_agent.py:488 | four asterisks before a word, cut three to one: the quote is verbatim and rejected, whatever its length |
| Verbatim.EvenCutIsAccepted | agents/domain_expert_agent.py:488 | cut two to two it is accepted |
| Retrieval.AddHits | agents/domain_expert_agent.py:649-663 | the dictionary holds the first of the nearest sightings of every key met |
| Retrieval.RetrieveQueries | agents/domain_expert_agent.py:636-675 | exactly one chunk per key sighted by any query that answered, at its least distance, nearest first |
| Retrieval.RetrieveReference | agents/domain_expert_agent.py:610-634 | at most the cap of distinct keys, each at its best sighting, nearest first, and nothing left out is nearer than anything kept |
| Retrieval.BestIsNearest | agents/domain_expert_agent.py:660-663 | the sighting kept is one of the sightings and none is nearer |
| Retrieval.CapKeepsNearest | agents/domain_expert_agent.py:634 | nothing left out by the cap is nearer than anything kept |
| Retrieval.QueryOrderDoesNotMatter | agents/domain_expert_agent.py:643-663 | any reordering of the sightings leaves every key at the same distance |
| Retrieval.SwappingQueriesKeepsDistances | agents/domain_expert_agent.py:643-663 | so does swapping the two queries, failed or not |
| Contracts.Negotiation.Say | agents/contracts.py:546-550 | a turn is appended and nothing else changes |
| Contracts.Requirement.Warn | agents/contracts.py:342 | a warning is appended in place and nothing else changes |
| Planning.DecisionOf | agents/planning.py:273-312 | what the expert's requirement commits to; an empty request for input becomes agreement, in the object, or a refusal |
| Planning.PlayRound | agents/planning.py:209-233 | one round on the objects: assess, revise, decide, compare, two turns, one request |
| Planning.PassOnce | agents/planning.py:206-258 | one pass of the loop ends the conversation exactly when a decision was reached or the last two rounds were quiet |
| Planning.Negotiate | agents/planning.py:195-269 | against any expert and data layer the loop ends at the first stopping round, within five, and its plan, decision, outcome, transcript and requests are those of the rounds played |
| Planning.MakePlan | agents/planning.py:138-174 | an unanswerable hypothesis is not negotiated; otherwise one catalogue read and one request a round, six data-layer calls at most |
| Planning.SettlingReportsNothing | agents/planning.py:224-225 | deciding before comparing cannot hide a change |
| Negotiations.TranscriptShape | agents/planning.py:203-233 | 1 + 2 rounds turns, speakers alternating, a final decision exactly at the end and exactly when the expert decided |
| Negotiations.StalledIff | agents/planning.py:242-258 | a stall is exactly two quiet last rounds, with no earlier quiet pair; running out takes all five |
| Negotiations.StoppingIsDetermined | agents/planning.py:206-258 | the length of a conversation is determined by its rounds |
| Negotiations.NoChangesIff | agents/planning.py:315-352 | what an empty change list says of two plans, exactly |
| Negotiations.NoChangeIsPreorder | agents/planning.py:315-352 | no change is reflexive and transitive |
| Negotiations.NoChangeIsNotSymmetric | agents/planning.py:346-351 | the reverse comparison is silent too exactly when no question was added and nothing was demoted |
| Negotiations.StalledPlanIsWhereItWas | agents/planning.py:242-258 | a stalled plan compared with the plan two rounds earlier shows no change, if no revision touched its proposal |
| Negotiations.InPlaceRevisionIsInvisible | agents/planning.py:219-225 | a proposal revised in place is compared with itself, so nothing it changed is reported |
| Negotiations.SameQuestionIff | agents/contracts.py:378-401 | two plans with an empty change list between them ask the same capability question exactly when nothing unreported moved |
| Negotiations.QuietButAskingAnew | agents/planning.py:315-352 | moving a tenor is not a reported change, and is a new capability question |
| Expert.CarryInvariants | agents/domain_expert_agent.py:983-988 | the loop adds each published invariant field that is missing, with its note |
| Expert.CheckRows | agents/domain_expert_agent.py:946-968 | an ungrounded row count is discarded with its quote |
| Expert.CheckCalculation | agents/domain_expert_agent.py:990-1016 | a calculation that cannot be scheduled is dropped with its reason, and settings without one are reported |
| Expert.BuildRequirement | agents/domain_expert_agent.py:936-1059 | the steps put together the requirement the lemmas are about |
| Expert.RestoreAmbiguity | agents/domain_expert_agent.py:885-915 | an ambiguity the proposal had is put back into the revision |
| Expert.ReviseRequirement | agents/domain_expert_agent.py:871-883 | without an answer the proposal itself comes back, warned; with one, a new object and an untouched proposal |
| Expert.BuiltIsServable | agents/domain_expert_agent.py:943-1053 | fields, tenors and calculation lie within the catalogue, invariant fields are carried, and a row count has a quote in the executable chunks |
| Expert.BuiltIsCoherent | agents/domain_expert_agent.py:1024-1041 | a stated decision clears the questions and the hypothesis mark, and nothing else does |
| ExpertRuns.AnswerDecides | agents/planning.py:223-240 | a round is decided by the model's answer in it and nothing else, and never for user input |
| ExpertRuns.NeverNeedsUserInput | agents/domain_expert_agent.py:1031-1049 | no negotiation of the real expert ends by asking the user, although README.md:1648-1653 lists that outcome |
| ExpertRuns.AgreedIff | agents/planning.py:273-312 | agreement is exactly the model stating it, or asking for input on an answerable plan, in the last round |
| ExpertRuns.AgreedPlanIsServable | agents/domain_expert_agent.py:936-1059 | an agreed plan is the last answer built and settled, and is servable |
| ExpertRuns.AgreedButUnanswerableIff | agents/domain_expert_agent.py:1189-1239 | an agreed plan is unanswerable exactly when the model agreed to something it declared unanswerable with nothing servable in it |
| ExpertRuns.FailureChangesNothing | agents/domain_expert_agent.py:871-881 | a failed revision decides nothing, reports nothing, and leaves the next capability request identical though a warning was added |
| ExpertRuns.FailureIsNotAgreement | agents/domain_expert_agent.py:871-881 | a negotiation whose last revision failed did not agree |
| ExpertRuns.TwoFailuresEndIt | agents/planning.py:242-258 | two failed revisions in a row end the negotiation undecided |
| ExpertRuns.AlwaysFailing | agents/planning.py:226-258 | a model that never answers is stopped at exactly round 2 |
| ExpertRuns.AlwaysFailingLeavesTheOpening | agents/domain_expert_agent.py:871-881 | it has asked one question twice and left the opening with three warnings added |
| ExpertRuns.AmbiguityIsAbsorbing | agents/domain_expert_agent.py:885-915 | an ambiguous curve family stays ambiguous in every later round |
| ExpertRuns.OpeningAmbiguitySurvives | agents/domain_expert_agent.py:885-915 | an ambiguity in the opening reaches the plan returned |
| ExpertRuns.StalledMeansStill | agents/planning.py:242-258 | for the real expert a stalled plan has not moved, in its reported parts, over its last two rounds |
| ExpertRuns.StallMayAskAnew | agents/planning.py:90-97 | a stalled negotiation may have asked two different questions, against the reason given for the bound |
| ExpertRuns.StallAsksTheSameIff | agents/planning.py:90-97 | after any stall the last two questions were identical exactly when the earlier of the two rounds failed, or its answer, once built, left tenors, notes, quote, parameters, assumptions, candidates, limitations, task and list order as the standing plan had them |
| HistoryTable.AddSeries | agents/mcp_agent.py:1223-1228 | one series goes in point by point, the last observation of a day winning |
| HistoryTable.JoinSeries | agents/mcp_agent.py:1216-1228 | the dictionary is the outer join over the tenors, failed fetches contributing nothing |
| HistoryTable.JoinedCell | agents/mcp_agent.py:1223-1228 | a cell is that tenor's last observation, or absent, whatever the other tenors hold |
| HistoryTable.NewestFirstIsNewest | agents/mcp_agent.py:1238-1239 | the sort and cut give the newest days, newest first |
| HistoryTable.History | agents/mcp_agent.py:1212-1261 | the table shows the newest days with each tenor's cell or a gap, its counts and dates are true, and an empty stated period is refused |
| HistoryTable.MakeTable | agents/mcp_agent.py:1295-1301 | every row is counted and the first 500 are shown |
| HistoryTable.NewestDaysUnique | agents/mcp_agent.py:1238-1239 | the specification determines the rows |
| HistoryTable.PrefixOfMore | agents/mcp_agent.py:1238-1239 | a request for fewer rows is a prefix of a request for more |
| HistoryTable.ObservedRangeIsTight | agents/mcp_agent.py:1256-1259 | the first and last dates reported are true extremes |
| HistoryTable.FetchOrderDoesNotMatter | agents/mcp_agent.py:1212-1261 | neither the order of the tenors nor repeats change the days or any cell |
| Preflight.ClassifyIntent | agents/preflight.py:444-449 | the first group with a marker in the padded text |
| Preflight.StopsIff | agents/preflight.py:526-573 | the gate stops a turn exactly when it is on, the one blocking input is lacking and it may still ask; it asks one thing |
| Preflight.MarkerSurvivesJoining | agents/pipeline.py:204 | a marker in the question is still found after an answer is joined to it, the space-padded one included |
| Preflight.JoiningNeverDemotes | agents/preflight.py:444-449 | joining an answer never moves a question to a later group |
| Clarification.RealMarkersAreShaped | agents/preflight.py:329-359 | every marker of the real table has the shape that argument needs |
| Clarification.LackingIsNotBlank | agents/pipeline.py:201-204 | a question the gate stops is never blank, so its text is never thrown away |
| Clarification.CarriedGrows | agents/pipeline.py:201-204 | joining the next answer to the carried question gives the original followed by every answer in order |
| Clarification.StopsInARowIff | agents/pipeline.py:427-432 | the gate stops n messages in a row exactly when n is within max(1, max_rounds()) and every carried question lacks its input; what is pending is the carried question |
| Clarification.StopsAreBounded | agents/preflight.py:557-565 | the bound holds whoever starts the conversation, and never exceeds four |
| Clarification.CarriedNeverDemotes | agents/preflight.py:444-449 | along a run of stops the question never moves to a later group |
| Validation.CheckCalculation | agents/domain_expert_agent.py:1296-1313 | the checks of a calculation, each adding to mismatches or warnings |
| Validation.ValidateResult | agents/domain_expert_agent.py:1277-1328 | a result blocks exactly when it does not honour the plan |
| Validation.JudgeIsExact | agents/domain_expert_agent.py:1277-1321 | mismatches are found exactly when the name, a stated horizon or confidence level, a named day, or the run itself fails to match |
| Validation.SameIff | agents/domain_expert_agent.py:496-505 | two values compare equal exactly when both are absent, both read as numbers that round alike to nine places, or neither reads as a number and their trimmed lower-case words agree; numbers compare equal only within a billionth |
| Validation.TextsThatReadAlike | agents/domain_expert_agent.py:496-505 | a number and any text that reads as it are the same |
| Pipeline.AgentPipeline.ValidateOutcome | agents/pipeline.py:596-632 | only a validated calculation is sent to the validator, and only its answer can block |
| Pipeline.AgentPipeline.Compose | agents/pipeline.py:532-594 | a figure the validator answered on is shown exactly when it honours the plan, and withheld otherwise |
| Pipeline.AgentPipeline.RelayQuestion | agents/pipeline.py:636-689 | the agreed plan waits with the relayed question |
| Pipeline.AgentPipeline.RunPlan | agents/pipeline.py:310-337 | an agreed plan is executed once and validated at most once |
| Pipeline.AgentPipeline.DeriveAndRun | agents/pipeline.py:263-337 | a plan is executed exactly when the derivation held a negotiation and agreed it, and it is that plan; otherwise the user is told what the derivation itself reported |
| Pipeline.AgentPipeline.Completeness | agents/pipeline.py:339-373 | the gate's verdict, or none when it does not answer |
| Pipeline.AgentPipeline.ClarifyFromGate | agents/pipeline.py:375-432 | the choices are read only when the missing field has some, and the question is left pending with one more round |
| Pipeline.AgentPipeline.PassGate | agents/pipeline.py:245-262 | the gate comes first and stops the turn exactly when it answers and its verdict is incomplete |
| Pipeline.AgentPipeline.RequestData | agents/pipeline.py:245-337 | the gate, then the derivation |
| Pipeline.AgentPipeline.Handle | agents/pipeline.py:114-181 | the calls of a turn form a fixed language, the router does not ask again after a clarification - only the gate may, within its bound - and a shown figure was checked |
| Pipeline.AgentPipeline.Revalidate | agents/pipeline.py:817-884 | the derivation is given the agreed plan, and the same guarantees hold without the check on `held` |
| Pipeline.AgentPipeline.ResumeTask | agents/pipeline.py:755-815 | the answer goes to the specialist that asked; when its work is gone the reply is handled as a question, already clarified |
| Pipeline.AgentPipeline.Resume | agents/pipeline.py:691-815 | its calls form a fixed language; an ordinary resumed result is composed with no requirement and no validation |
| Pipeline.ReadDerivation | agents/pipeline.py:310-318 | for genuine artifacts agreement implies a held negotiation, so reading `held` or not makes no difference to what runs |
| Turns.HandleCost | agents/pipeline.py:219-337 | at most 4 specialist calls and one derivation from a question |
| Turns.ResumeCost | agents/pipeline.py:691-884 | at most 5 specialist calls and one derivation from an answer |
| Turns.DerivationsAreShort | agents/planning.py:138-174 | a genuine derivation makes one data-layer call and one more for every round its record says was used, six at most |
| Turns.TurnHandoffs | agents/pipeline.py:219-337 | with the rounds each derivation recorded counted in, at most 10 handoffs from a question and 11 from an answer |
| Turns.HandleInOrder | agents/pipeline.py:263-337 | an execution directly follows a derivation, a validation directly follows the execution of its plan |
| Turns.ResumeInOrder | agents/pipeline.py:817-884 | the same from an answer to a specialist |
| Turns.ExecutedPlanIsTrustworthy | agents/pipeline.py:310-323 | every plan executed was agreed in a held negotiation, built from its last round's answer, and is servable from this turn's catalogue and chunks |
| Turns.TheUserIsToldWhy | agents/pipeline.py:434-530 | when nothing is run, the account or the model is blamed exactly when no hypothesis was formed, an unanswerable opening is declined for its own reason, and `no agreement` means exactly a negotiation that ended so |
| Turns.SilentReviserLooksLikeDisagreement | agents/pipeline.py:434-530 | a model that answers the opening and no revision leaves the user told of a disagreement |
| Turns.DeriveSkill | agents/a2a/executors.py:618-653 | the derivation skill's artifacts are genuine, come from the opening it was given, and cost one data-layer call and one more for every round recorded |
| Turns.StopsInARow | backend/src/backend/api/service.py:400-449 | with the service feeding each gate question back, the gate stops at most max(1, max_rounds()) messages in a row |

## Left out

- Python's Unicode case mapping, white space and word characters: letters, spaces and word characters are the ASCII
  ones, and lower-casing is character by character.
- Floating point: clocks, distances, rates and percentages are exact rationals; NaN and infinities do not occur.
- Planning.Negotiate: the prose of each turn and the payload copied into it are not modelled, and a capability
  assessment is reduced to the two lists the planner itself reads.
- Planning.PlayRound: an expert that hands back some older object is modelled as one handing back a fresh object with
  the same value; every further change of either is still possible.
- Expert.BuildRequirement: the range checks of the calculation parameters are an input (which parameters survived and
  which were dropped); malformed payload types that the response schema excludes are not modelled.
- EventBusClass.EventBus.Publish: hands back the subscribers to notify; the hand-over loop after it is modelled in
  `Delivery`, where it interleaves with everything else.
- Relay.Stream: the keep-alive frames, the encoding and a client that disconnects are not modelled; how each wait ends
  is an input, tied to the network by `Visit`.
- Turns.TurnHandoffs: a derivation that broke off leaves no record and is charged for a negotiation of full length.
- Latency.LatencyReport: a `call_site` that is not a string reads as absent.
- Preflight.StopsIff: the regular expressions that find dates, amounts and tenors are an arbitrary function from the
  question to the facts found.
- Scrubber.ScrubIdentifiers: the two fixed lists of extra names are not transcribed; the results are for any list of names.
- Pipeline.AgentPipeline.Resume: whether a reply matches the pending question and changes the analysis is an input,
  because the matching rules are another component.
- Pipeline.AgentPipeline.Handle: the labels appended to the trace, the options attached to a question, answer text,
  citations and telemetry are not modelled; the calls made are.
- Validation.ValidateResult: how a text is read as a number is an arbitrary function; interpretation prose is not modelled.
- HistoryTable.History: tenors named like the two fixed columns are excluded, as the tenor list the caller filters by
  contains neither; the snapshot table is not modelled.
- Model calls, prompts, the result cache around them, logging and tracing: the model's answer is an arbitrary value.
- The agent-to-agent transport, its deadlines and call budgets, the rebuilding of objects from messages, Redis, the MCP
  servers and the risk mathematics: artifacts arrive as they were sent.
- Credential redaction, evaluation scorers, number formatting, the frontend and data acquisition: easy members or effects.
