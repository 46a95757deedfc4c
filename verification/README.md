# Price throttler model

A Dafny model of the core of a price-distribution service. The service is a
`PriceThrottler` that passes currency-pair price ticks to a bounded list of
subscribers (`PriceProcessor`s) whose speed is unknown. Three small services
support it. `ExchangeRatesMonitor` decides which pairs are rare, meaning their
rate has not changed for longer than a threshold. `ExchangeRatesGenerator` is
the tick source: it publishes only the rates that changed since the last tick.
`CurrencyUtil` parses a printed pair such as `EURUSD` back into two currency
units. It splits the string with a regular expression after every third
character, and the split stops at the first three-character window holding a
line terminator.

Everything is modelled as immutable datatypes and pure transition functions.
The clock is a `now` parameter (milliseconds). A subscriber's `cancel()` answer
is an oracle function. Each rate is an abstract bit pattern. The currency
registry is a partial map from code to unit. Work handed to the thread pool
shows up as an `Effect`, and each future is a fresh handle number. A delivery's
completion callback is a separate event, `Complete`, which the environment may
fire at any time.

Files:

- `model.dfy`: `CurrencyUnit`, `CcyPair` and its printed form, `Rate`, `Task`.
- `wrappers.dfy`: `Option` and `Result`.
- `currency_util.dfy`: splitting a string into three-character codes, the
  two-code check, registry lookup, and the print/parse round trips.
- `exchange_rates_monitor.dfy`: the timestamp map and `IsRare`.
- `exchange_rates_generator.dfy`: the changed-rates diff and the publish decision.
- `price_throttler.dfy`: the throttler state, the registry operations, the
  tick decision, and completion.
- `throttler_properties.dfy`: lemmas about whole ticks, completions and runs of
  operations.
- `event_flow.dfy`: how the generator's batches and the monitor's stamps relate.

## Where the code departs from the throttling design

The model follows the code. Each departure below is stated as a lemma.

- **Preemption keeps the old task.** On a rare pair, `handleAlreadyRunningTask`
  cancels the old future and sends a new task, but it never removes the old
  task from `runningTasks`. The subscriber then has two tasks for one pair, so
  "at most one delivery per subscriber and pair" does not hold
  (`ThrottlerProperties.OnPricePreemptionKeepsOldTask`). One completion of that
  pair still leaves the slot busy
  (`ThrottlerProperties.CompletionAfterPreemptionLeavesSlotBusy`).
- **The skip test reads the absolute start time.** It compares
  `task.getStartTime()`, a wall-clock reading, with the soft timeout. It does
  not compare the elapsed time (`ThrottlerProperties.SkipIffStartTimeAboveSoftTimeout`).
- **Busy means busy with any pair.** A subscriber running a task for any pair
  gets nothing for other pairs, not even a skip
  (`ThrottlerProperties.OnPriceBusyWithOtherPairs`).
- **Completion finds a task by its pair, not by identity.** The callback
  removes some running task whose pair prints the same. That task may be a
  newer one than the task the callback belongs to (`PriceThrottler.Complete`).
- **The same processor can be subscribed twice.** The list then holds it twice
  and the id is overwritten. One unsubscribe leaves it listed with no id, and
  every later unsubscribe does nothing
  (`PriceThrottler.DoubleSubscribeLeavesListed`).
- **The monitor's `snapshot` map is never written.** Every pair in an event is
  re-stamped whether or not its rate changed
  (`ExchangeRatesMonitor.SnapshotNeverWritten`,
  `ExchangeRatesMonitor.EveryEventPairStamped`). This does no harm because the
  generator publishes only changed rates (`EventFlow.SteadyPairKeepsStamp`).

## Model

| member | source | states |
|---|---|---|
| `Model.CcyPair.ToString` | src/main/java/com/price/processor/model/CcyPair.java:7-9 | The printed pair is as long as both codes together. It starts with the first unit's code, and the rest is the second unit's code. |
| `CurrencyUtil.Chunks` | src/main/java/com/price/processor/service/CurrencyUtil.java:23 | The chunks concatenate back to the input. Every chunk but the last is three characters long with no line terminator. The last is non-empty, and it is at most three long or its first three characters hold a line terminator (where Java's `.` stops matching). An empty input gives one empty chunk. |
| `CurrencyUtil.ChunkCount` | src/main/java/com/price/processor/service/CurrencyUtil.java:23 | A non-empty input gives one chunk plus one split every three characters. The splits stop at the last full window before the end, or at the window holding the first line terminator. An empty input gives one chunk. |
| `CurrencyUtil.ChunkCountWithoutLineTerminator` | src/main/java/com/price/processor/service/CurrencyUtil.java:23 | For an input without line terminators, the number of chunks is the length divided by three, rounded up (one for the empty string). |
| `CurrencyUtil.TwoChunksIffLength` | src/main/java/com/price/processor/service/CurrencyUtil.java:23-28 | There are exactly two codes iff the first three characters hold no line terminator and the rest does not split again. The codes are then the first three characters and the rest. Without line terminators, this means a length of 4 to 6. |
| `CurrencyUtil.TwoCodesWithoutLineTerminator` | src/main/java/com/price/processor/service/CurrencyUtil.java:23-24 | For an input without line terminators, the two-code shape is exactly a length of 4 to 6. |
| `CurrencyUtil.LineTerminatorStopsSplit` | src/main/java/com/price/processor/service/CurrencyUtil.java:23 | "AB\nCDE" stays one chunk, so it is an invalid count. "EUR\nUSD" splits into "EUR" and "\nUSD". |
| `CurrencyUtil.CurrencyCodeToCurrencyUnit` | src/main/java/com/price/processor/service/CurrencyUtil.java:43-51 | A known code yields its unit, and an unknown code is an `UnknownCurrency` error naming that code. With a registry whose units carry their own codes, the unit returned carries the code asked for. |
| `CurrencyUtil.CodePairToCurrPair` | src/main/java/com/price/processor/service/CurrencyUtil.java:21-34 | Input without the two-code shape gives exactly the invalid-count error, with a count other than 2. For input without line terminators, that means a length outside 4 to 6. Success means two codes, both known, and the pair is (unit of code 1, unit of code 2). An unknown first code is reported before the second. |
| `CurrencyUtil.ParseThenPrint` | src/main/java/com/price/processor/service/CurrencyUtil.java:30-33 | With a registry whose units carry their own codes, printing a parsed pair gives back the parsed string. |
| `CurrencyUtil.PrintThenParse` | src/main/java/com/price/processor/model/CcyPair.java:7-9 | A pair parses back from its printed form to the same pair, when its first code is three characters with no line terminator, its second code is one to three characters, and the registry resolves both codes to these units. |
| `CurrencyUtil.PrintInjective` | src/main/java/com/price/processor/service/PriceThrottler.java:97 | Two resolvable pairs with the same printed form are equal, so comparing pairs by string is sound for them. |
| `ExchangeRatesMonitor.OnApplicationEvent` | src/main/java/com/price/processor/service/ExchangeRatesMonitor.java:22-37 | A pair of the event that is new to the snapshot, or differs from it, gets the event time. Every other entry keeps its time, no entry is removed, and the snapshot is unchanged. |
| `ExchangeRatesMonitor.SnapshotNeverWritten` | src/main/java/com/price/processor/service/ExchangeRatesMonitor.java:18 | In every state reachable by events, the snapshot is empty. |
| `ExchangeRatesMonitor.EveryEventPairStamped` | src/main/java/com/price/processor/service/ExchangeRatesMonitor.java:25-36 | With the snapshot empty, every pair of an event is stamped with the event time. Pairs outside the event keep their stamps, and no entry disappears. |
| `ExchangeRatesMonitor.IsRare` | src/main/java/com/price/processor/service/ExchangeRatesMonitor.java:39-45 | A pair with no stamp is never rare. |
| `ExchangeRatesMonitor.NeverCarriedNeverRare` | src/main/java/com/price/processor/service/ExchangeRatesMonitor.java:39-45 | A pair that no event of a run carried has no stamp, so it is not rare at any time or threshold. |
| `ExchangeRatesMonitor.RareIsMonotone` | src/main/java/com/price/processor/service/ExchangeRatesMonitor.java:41 | A pair rare at some time is rare at every later time, as long as there is no new stamp. |
| `ExchangeRatesMonitor.RareThresholdIsStrict` | src/main/java/com/price/processor/service/ExchangeRatesMonitor.java:41 | A pair exactly `threshold` old is not rare. One millisecond later it is. |
| `ExchangeRatesMonitor.RareAfterEvent` | src/main/java/com/price/processor/service/ExchangeRatesMonitor.java:41 | After an event at t, a pair of the event is rare at `now` iff `now - t > threshold`. So it is not rare at t for any threshold >= 0, and with threshold 0 it is rare iff `now > t`. Other pairs keep their previous answer. |
| `ExchangeRatesGenerator.ChangedRates` | src/main/java/com/price/processor/service/ExchangeRatesGenerator.java:96-110 | The batch holds only pairs of the new map, each with its new rate. |
| `ExchangeRatesGenerator.ChangedRatesCharacterised` | src/main/java/com/price/processor/service/ExchangeRatesGenerator.java:99-105 | A pair is in the batch iff it is in the new map and was absent from the previous map or had a different rate there. |
| `ExchangeRatesGenerator.PatchRoundTrip` | src/main/java/com/price/processor/service/ExchangeRatesGenerator.java:96-113 | Applying the batch to the previous map updates every pair of the new map. When no pair disappeared, the result is the new map. |
| `ExchangeRatesGenerator.IdenticalRatesNoChange` | src/main/java/com/price/processor/service/ExchangeRatesGenerator.java:112-114 | Identical previous and new maps give an empty batch. |
| `ExchangeRatesGenerator.FirstTickChangesAll` | src/main/java/com/price/processor/service/ExchangeRatesGenerator.java:100-104 | Against an empty previous map, the batch is the whole new map. |
| `ExchangeRatesGenerator.GenerateExchangeRates` | src/main/java/com/price/processor/service/ExchangeRatesGenerator.java:79-117 | The new map has exactly the template's pairs with their drawn rates. It is stored and returned. An event is published iff some pair is new or changed, and it carries the changed batch. |
| `ExchangeRatesGenerator.SteadyRatesPublishNothing` | src/main/java/com/price/processor/service/ExchangeRatesGenerator.java:112-114 | A tick that draws the same rates as the last one publishes no event. |
| `ExchangeRatesGenerator.FirstTickPublishesAll` | src/main/java/com/price/processor/service/ExchangeRatesGenerator.java:81-114 | The first tick publishes every template pair with its drawn rate. It publishes nothing if the template is empty. |
| `EventFlow.ChangedPairStamped` | src/main/java/com/price/processor/service/ExchangeRatesMonitor.java:25-36 | A pair whose drawn rate is new or changed is stamped by the monitor with the tick's time. |
| `EventFlow.SteadyPairKeepsStamp` | src/main/java/com/price/processor/service/ExchangeRatesGenerator.java:96-114 | A pair whose drawn rate equals the last one keeps its monitor stamp, because it is not in the published batch. |
| `PriceThrottler.InitialValid` | src/main/java/com/price/processor/service/PriceThrottler.java:53-62 | The empty registry and task multimap satisfy the state invariant. |
| `PriceThrottler.PutTask` | src/main/java/com/price/processor/service/PriceThrottler.java:186 | The multimap put adds the task to that processor's collection. Every other processor's tasks, the registry and the counters are unchanged. |
| `PriceThrottler.RemoveTask` | src/main/java/com/price/processor/service/PriceThrottler.java:179 | The multimap remove takes the task out of that processor's collection and drops the key once the collection is empty. Other processors, the registry and the counters are unchanged. |
| `PriceThrottler.MatchingIsPairEquality` | src/main/java/com/price/processor/service/PriceThrottler.java:97 | With a faithful registry, a parsing pair string, and running pairs that print in a form that parses back, the tasks whose printed pair equals the string are exactly the tasks for the parsed pair. |
| `PriceThrottler.FirstIndex` | src/main/java/com/price/processor/service/PriceThrottler.java:154 | The index found holds the element, and no earlier index does. |
| `PriceThrottler.RemoveFirst` | src/main/java/com/price/processor/service/PriceThrottler.java:154 | If the element is present, the result is the list without its first occurrence, with the order kept and one element fewer. Otherwise the list is unchanged. Exactly one copy goes, and every other element keeps its count. |
| `PriceThrottler.RemoveFirstKeepsOthers` | src/main/java/com/price/processor/service/PriceThrottler.java:154 | Every other element of the list is still present after the removal. |
| `PriceThrottler.Subscribe` | src/main/java/com/price/processor/service/PriceThrottler.java:122-134 | At or above `maxSubscribers` nothing changes. Below it, the processor is appended and mapped to an id, and in a valid state that id was not in use. The other ids are unchanged, and running tasks are untouched. The bound and the invariant are preserved. |
| `PriceThrottler.Unsubscribe` | src/main/java/com/price/processor/service/PriceThrottler.java:144-156 | A processor with no id changes nothing. Otherwise its id and exactly its first list occurrence are removed, keeping the order around it. Running tasks are never touched, and the invariant is preserved. |
| `PriceThrottler.UnsubscribeKeepsValid` | src/main/java/com/price/processor/service/PriceThrottler.java:154-155 | Removing a registered processor's id and first entry keeps every remaining id holder listed, and the ids unique. |
| `PriceThrottler.AllMatchCancel` | src/main/java/com/price/processor/service/PriceThrottler.java:160 | The result is true iff every listed subscriber's cancel answers true. The cancels called are a prefix of the list: all of it on true, and up to the first false answer on false. |
| `PriceThrottler.Cancel` | src/main/java/com/price/processor/service/PriceThrottler.java:158-161 | `cancel()` is true iff every subscriber's cancel answers true. An empty list gives true and calls nothing. |
| `PriceThrottler.GetProcessorUuid` | src/main/java/com/price/processor/service/PriceThrottler.java:71-73 | The id is present iff the processor is in the id map, and it is the mapped id. In a valid state, a processor with an id is listed, and no other processor shares its id. |
| `PriceThrottler.GetProcessor` | src/main/java/com/price/processor/service/PriceThrottler.java:75-82 | A result maps to the id. None means no processor has the id. With unique ids, the result is the id's owner. |
| `PriceThrottler.SubscribeThenLookup` | src/main/java/com/price/processor/service/PriceThrottler.java:129-132 | After a successful subscribe, the processor has an id, and no other processor shares it. |
| `PriceThrottler.SubscribeThenUnsubscribe` | src/main/java/com/price/processor/service/PriceThrottler.java:129-155 | Unsubscribing a processor that was just subscribed, and was not there before, restores the list, the id map and the tasks. |
| `PriceThrottler.DoubleSubscribeLeavesListed` | src/main/java/com/price/processor/service/PriceThrottler.java:132-133 | After two subscribes and one unsubscribe, the processor is still listed but has no id, and further unsubscribes change nothing. |
| `PriceThrottler.SendTask` | src/main/java/com/price/processor/service/PriceThrottler.java:163-187 | The work is submitted with a fresh handle whether or not the pair parses. A parse failure records no task and reports the error. A parsed pair adds exactly one new task (pair, handle, now) to that subscriber. No other subscriber is affected. |
| `PriceThrottler.Preempt` | src/main/java/com/price/processor/service/PriceThrottler.java:197-201 | In order, the subscriber's cancel is called, the picked future is cancelled, and a new task is submitted with the next handle. One new task for the parsed pair is added, the picked task stays, and the invariant is kept. |
| `PriceThrottler.HandleAlreadyRunningTask` | src/main/java/com/price/processor/service/PriceThrottler.java:189-208 | If the pair fails to parse, nothing changes and the error is reported. For a rare pair: the subscriber's cancel is called, a matching task's future is cancelled, and one new task is added while the old ones stay. For a frequent pair: the state is unchanged, and a skip is signalled only if some matching task's start time exceeds the soft timeout. When every matching task's start time is at or below the soft timeout, no skip is signalled. |
| `PriceThrottler.DispatchTo` | src/main/java/com/price/processor/service/PriceThrottler.java:95-111 | An idle subscriber gets one new task started now. A subscriber busy with other pairs only gets nothing. One running this pair goes to `HandleAlreadyRunningTask`. Tasks are never removed, and other subscribers are untouched. |
| `PriceThrottler.DispatchAll` | src/main/java/com/price/processor/service/PriceThrottler.java:95 | Over a list of subscribers, no task is removed. Processors not in the list are untouched. Registry and ids are unchanged, and the invariant holds. |
| `PriceThrottler.OnPrice` | src/main/java/com/price/processor/service/PriceThrottler.java:93-112 | A tick removes no task and touches only listed subscribers. It leaves registry and ids unchanged and keeps the invariant. |
| `PriceThrottler.OnApplicationEvent` | src/main/java/com/price/processor/service/PriceThrottler.java:210-215 | An event, one tick per printed pair, removes no task, touches only listed subscribers and keeps the invariant. |
| `PriceThrottler.Complete` | src/main/java/com/price/processor/service/PriceThrottler.java:174-182 | With a matching task, exactly one matching task of that subscriber is removed, whatever the delivery's success, and its success flag is returned. Tasks of other pairs and other subscribers are unchanged. With none, nothing changes and the callback fails. |
| `ThrottlerProperties.DispatchAllAddsOneTask` | src/main/java/com/price/processor/service/PriceThrottler.java:95-111 | A subscriber listed once, whose decision records a task, ends the tick with its old tasks plus one task for the parsed pair started now. That task's handle is at or above the handle counter, which in a valid state makes it new. |
| `ThrottlerProperties.DispatchAllKeepsTasks` | src/main/java/com/price/processor/service/PriceThrottler.java:96-104 | A busy subscriber whose decision adds nothing keeps exactly its tasks however often it is listed. This covers other pairs only, a parse failure, or a frequent pair. If it was busy only with other pairs, no effect concerns it. |
| `ThrottlerProperties.OnPriceIdleSubscriberGetsTask` | src/main/java/com/price/processor/service/PriceThrottler.java:104-110 | An idle subscriber listed once ends the tick with exactly one task, for the parsed pair, started now. |
| `ThrottlerProperties.OnPriceBusyWithOtherPairs` | src/main/java/com/price/processor/service/PriceThrottler.java:96-103 | A subscriber running tasks only for other pairs keeps its tasks and gets no skip. |
| `ThrottlerProperties.OnPriceFrequentPairKeepsTasks` | src/main/java/com/price/processor/service/PriceThrottler.java:202-206 | For a frequent pair already running, the subscriber's tasks are exactly the same after the tick. |
| `ThrottlerProperties.OnPricePreemptionKeepsOldTask` | src/main/java/com/price/processor/service/PriceThrottler.java:197-201 | For a rare pair already running, the subscriber's tasks strictly grow, and it ends with one more task for that pair, at least two in all. |
| `ThrottlerProperties.MatchingGainsOne` | src/main/java/com/price/processor/service/PriceThrottler.java:186 | Adding a new task for a pair that already has one gives one more matching task, and at least two. |
| `ThrottlerProperties.SkipIffStartTimeAboveSoftTimeout` | src/main/java/com/price/processor/service/PriceThrottler.java:203-206 | With one task running for a frequent pair, the state is unchanged. The tick is skipped iff that task's start time exceeds the soft timeout, whatever the current time. |
| `ThrottlerProperties.EventPairRecordedUnderItself` | src/main/java/com/price/processor/service/PriceThrottler.java:213 | A resolvable pair from an event, printed and parsed back, is recorded for an idle subscriber as a task for that same pair. |
| `ThrottlerProperties.DispatchThenCompleteRestores` | src/main/java/com/price/processor/service/PriceThrottler.java:174-186 | Dispatching to an idle subscriber and then completing that pair restores the running-task multimap exactly. The callback yields the delivery's success flag. |
| `ThrottlerProperties.CompletionAfterPreemptionLeavesSlotBusy` | src/main/java/com/price/processor/service/PriceThrottler.java:175-179 | With two or more tasks for a pair, one completion leaves the subscriber busy with that pair. |
| `ThrottlerProperties.RunKeepsInvariants` | src/main/java/com/price/processor/service/PriceThrottler.java:123-127 | Every run of subscribe, unsubscribe, tick, event and completion operations keeps the state invariant and `size <= maxSubscribers`. |
| `ThrottlerProperties.ReachableStatesBounded` | src/main/java/com/price/processor/service/PriceThrottler.java:53-62 | From the initial state, every reachable state is valid and within the subscriber bound. |

## Left out

- Thread pool and `CompletableFuture` scheduling (`PriceThrottler.java:64-69`,
  `:164-174`). Submitting work is an effect, and completion is an explicit
  event. The model does not follow which futures still have a callback
  pending. A future cancelled with `cancel(false)` never runs its dependent
  callback. So each preemption leaves one task for that pair that no callback
  ever removes. Each completion removes some task matching by pair, which may
  be the preempted one. The subscriber then stays busy and never again gets
  ticks for other pairs. The model allows completion events regardless.
- The unsynchronized concurrent use of the list, the id map and the multimap.
  Each operation is atomic here. So a callback that runs before its task is
  recorded shows up only as a completion with no matching task (outcome
  `None`).
- The order between the monitor's and the throttler's listeners for the same
  event, which Spring decides. `onPrice` takes the monitor state as a parameter.
- Random rate generation and double arithmetic (`calculateRate`, `chance`). The
  generator's `draw` function stands for them. The endless `run()` loop with its
  sleep is also left out.
- The generator's `init()`, which loads the JSON template and builds `entryMap`.
  It first parses every entry and throws on the first one that fails. So the
  fallback to a pair of nulls in its collector never runs. The template map
  is an input.
- `Monetary.getCurrency` is a partial map from code to unit. A unit carries
  only its code.
- REST controllers, JSON and Gson I/O, Swagger configuration, the application
  entry point, logging, and the `onSkip` hook's empty body (a skip is an effect).
- Configuration loading. The values are a `Config` parameter. `hardTimeout` is
  never read by the code and is not modelled.
- `DummyPriceProcessor`'s sleep. Its `cancel()` answering true is one possible
  cancel oracle.
- UUID randomness. Ids come from a counter, which makes them fresh.
- HashMap and HashSet iteration order. `findFirst` over a subscriber's task set
  picks an unspecified matching task: Dafny's `:|` choice, with properties stated
  for every choice. An event's rate map is given as a sequence in its iteration
  order.
- Java strings as UTF-16. A string here is a sequence of Unicode code points, which is what the pattern's `.` consumes. Unpaired surrogates are not representable.
- Java `long` overflow in `now - lastChanged` and in start times. Times are
  unbounded integers.
- Reading the clock once per call or per pair. Each event uses one `now`.
- `PriceThrottler.HandleAlreadyRunningTask`: requires a matching running task. `onPrice` calls it only in that case. Without one, `orElseThrow` would raise an unchecked exception, and that path is not modelled.
- `PriceThrottler.Complete`: states that some matching task is removed, not which one, because the multimap's iteration order is unspecified.
- `PriceThrottler.GetProcessor`: without unique ids, states only that the result maps to the id, because the map's iteration order decides which entry `findFirst` returns.
- `ThrottlerProperties.OnPriceIdleSubscriberGetsTask`: assumes the subscriber is listed once. A twice-listed subscriber is handled again on its second entry, as the code does.
- `ThrottlerProperties.OnPricePreemptionKeepsOldTask`: also assumes a single listing, a faithful registry and a valid state. The handle of the new task is stated only to exist.
