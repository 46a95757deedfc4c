/**
 * The throttler: a registry of subscribers and, per subscriber, the set of
 * deliveries still running. Each price tick is offered to every subscriber in
 * list order; a subscriber with no running delivery gets a new one, a subscriber
 * already delivering the same pair either has that delivery preempted (rare
 * pair) or the tick is dropped (frequent pair), and a subscriber busy with other
 * pairs only gets nothing. A delivery's completion is a separate event.
 *
 * The worker pool, the futures and the clock are outside the model: submitting
 * work is recorded as an effect, a future is a fresh handle number, and the time
 * is the `now` of the environment.
 */
module PriceThrottler {
  import opened Wrappers
  import opened Model
  import CurrencyUtil
  import ExchangeRatesMonitor

  /** The throttler's configuration in milliseconds (the hard timeout is never read). */
  datatype Config = Config(maxSubscribers: int, softTimeoutMillis: int, rareChangingThresholdMillis: int)

  /** What a tick decision consults besides the throttler: the currency registry, the rarity monitor, the clock. */
  datatype Env = Env(registry: CurrencyUtil.Registry, monitor: ExchangeRatesMonitor.State, now: int)

  /**
   * The throttler's state: the subscriber list (in subscription order, and a
   * processor may appear twice), the id map, the running-task multimap (a key is
   * present only while it has tasks), and the counters that make ids and future
   * handles fresh.
   */
  datatype State = State(
    subscribers: seq<Processor>,
    subscriberIds: map<Processor, Uuid>,
    runningTasks: map<Processor, set<Task>>,
    nextUuid: nat,
    nextHandle: nat)

  /** The throttler as the service creates it. */
  const Initial: State := State([], map[], map[], 0, 0)

  /** Something the throttler makes happen outside its own state, in order. */
  datatype Effect =
    | Submitted(subscriber: Processor, ccyPair: string, rate: Rate, handle: nat)
    | ParseFailed(subscriber: Processor, ccyPair: string, error: CurrencyUtil.CurrencyError)
    | CancelInvoked(subscriber: Processor)
    | FutureCancelled(subscriber: Processor, handle: nat)
    | Skipped(subscriber: Processor, ccyPair: string)

  /** A transition's new state and the effects it caused. */
  datatype Step = Step(next: State, effects: seq<Effect>)

  /** The result of cancel(): the verdict, and the subscribers whose cancel was actually called. */
  datatype CancelOutcome = CancelOutcome(allCancelled: bool, invoked: seq<Processor>)

  /** The result of a completion callback: the new state, and the value the callback's future completes with (None if it threw). */
  datatype Completion = Completion(next: State, outcome: Option<bool>)

  // ---------------------------------------------------------------------------
  // Invariants

  /** No two processors share an id. */
  ghost predicate IdsUnique(ids: map<Processor, Uuid>)
  {
    forall p, q :: p in ids && q in ids && ids[p] == ids[q] ==> p == q
  }

  /**
   * What every reachable state satisfies: registered processors are listed, ids
   * are unique and below the id counter, the multimap holds no empty collection,
   * and every task's handle is below the handle counter.
   */
  ghost predicate Valid(s: State)
  {
    && (forall p :: p in s.subscriberIds ==> p in s.subscribers)
    && (forall p :: p in s.subscriberIds ==> s.subscriberIds[p] < s.nextUuid)
    && IdsUnique(s.subscriberIds)
    && (forall p :: p in s.runningTasks ==> s.runningTasks[p] != {})
    && (forall p, t :: p in s.runningTasks && t in s.runningTasks[p] ==> t.handle < s.nextHandle)
  }

  lemma InitialValid()
    ensures Valid(Initial)
  {
  }

  // ---------------------------------------------------------------------------
  // The running-task multimap

  /** The tasks running for `p`; empty when the multimap has no key `p`. */
  function Tasks(s: State, p: Processor): set<Task>
  {
    if p in s.runningTasks then s.runningTasks[p] else {}
  }

  /** The tasks of `tasks` whose pair prints as `ccyPair`. */
  function Matching(tasks: set<Task>, ccyPair: string): set<Task>
  {
    set t | t in tasks && t.pair.ToString() == ccyPair
  }

  /**
   * Comparing printed forms finds exactly the tasks for the parsed pair, as long
   * as the registry is faithful and every running pair prints in a form that
   * parses back.
   */
  lemma MatchingIsPairEquality(registry: CurrencyUtil.Registry, tasks: set<Task>, ccyPair: string)
    requires CurrencyUtil.Faithful(registry)
    requires CurrencyUtil.CodePairToCurrPair(registry, ccyPair).Success?
    requires forall t :: t in tasks ==> CurrencyUtil.Printable(registry, t.pair)
    ensures Matching(tasks, ccyPair) == set t | t in tasks && t.pair == CurrencyUtil.CodePairToCurrPair(registry, ccyPair).value
  {
    var parsed := CurrencyUtil.CodePairToCurrPair(registry, ccyPair).value;
    CurrencyUtil.ParseThenPrint(registry, ccyPair);
    forall t | t in tasks && t.pair.ToString() == ccyPair
      ensures t.pair == parsed
    {
      CurrencyUtil.PrintThenParse(registry, t.pair);
    }
  }

  /** Adds `t` to the tasks of `p`. */
  function PutTask(s: State, p: Processor, t: Task): (r: State)
    ensures Tasks(r, p) == Tasks(s, p) + {t}
    ensures forall q :: q != p ==> Tasks(r, q) == Tasks(s, q)
    ensures r.subscribers == s.subscribers && r.subscriberIds == s.subscriberIds
    ensures r.nextUuid == s.nextUuid && r.nextHandle == s.nextHandle
  {
    s.(runningTasks := s.runningTasks[p := Tasks(s, p) + {t}])
  }

  /** Removes `t` from the tasks of `p`, dropping the key once no task is left. */
  function RemoveTask(s: State, p: Processor, t: Task): (r: State)
    ensures Tasks(r, p) == Tasks(s, p) - {t}
    ensures forall q :: q != p ==> Tasks(r, q) == Tasks(s, q)
    ensures p in r.runningTasks ==> r.runningTasks[p] != {}
    ensures r.subscribers == s.subscribers && r.subscriberIds == s.subscriberIds
    ensures r.nextUuid == s.nextUuid && r.nextHandle == s.nextHandle
  {
    var rest := Tasks(s, p) - {t};
    if rest == {} then s.(runningTasks := s.runningTasks - {p})
    else s.(runningTasks := s.runningTasks[p := rest])
  }

  // ---------------------------------------------------------------------------
  // Registry operations

  /** The position of the first occurrence of `x`. */
  function FirstIndex<T(==)>(xs: seq<T>, x: T): (i: nat)
    requires x in xs
    ensures i < |xs| && xs[i] == x && x !in xs[..i]
    decreases |xs|
  {
    if xs[0] == x then 0
    else
      var i := FirstIndex(xs[1..], x) + 1;
      assert xs[..i] == [xs[0]] + xs[1..][..i - 1];
      i
  }

  /** The list with the first occurrence of `x` taken out (List.remove(Object)); one copy of `x` fewer, nothing else lost. */
  function RemoveFirst<T(==)>(xs: seq<T>, x: T): (r: seq<T>)
    ensures multiset(r) == multiset(xs) - multiset{x}
    ensures x !in xs ==> r == xs
    ensures |r| == if x in xs then |xs| - 1 else |xs|
    ensures x in xs ==> r == xs[..FirstIndex(xs, x)] + xs[FirstIndex(xs, x) + 1..]
  {
    if x !in xs then xs
    else
      var i := FirstIndex(xs, x);
      assert xs == xs[..i] + [x] + xs[i + 1..];
      xs[..i] + xs[i + 1..]
  }

  /** Every other element is still there after the removal. */
  lemma RemoveFirstKeepsOthers<T>(xs: seq<T>, x: T)
    ensures forall y :: y in xs && y != x ==> y in RemoveFirst(xs, x)
  {
    forall y | y in xs && y != x
      ensures y in RemoveFirst(xs, x)
    {
      assert multiset(RemoveFirst(xs, x))[y] == multiset(xs)[y];
    }
  }

  /**
   * subscribe: at or above capacity nothing changes; below it the processor is
   * appended to the list and mapped to a fresh id, and running tasks are untouched.
   */
  function Subscribe(s: State, config: Config, p: Processor): (r: State)
    ensures |s.subscribers| >= config.maxSubscribers ==> r == s
    ensures |s.subscribers| < config.maxSubscribers ==>
              && r.subscribers == s.subscribers + [p]
              && p in r.subscriberIds
              && (Valid(s) ==> r.subscriberIds[p] !in s.subscriberIds.Values)
              && (forall q :: q != p ==> (q in r.subscriberIds <==> q in s.subscriberIds))
              && (forall q :: q != p && q in s.subscriberIds ==> r.subscriberIds[q] == s.subscriberIds[q])
    ensures r.runningTasks == s.runningTasks && r.nextHandle == s.nextHandle
    ensures |s.subscribers| <= config.maxSubscribers ==> |r.subscribers| <= config.maxSubscribers
    ensures Valid(s) ==> Valid(r)
  {
    if |s.subscribers| >= config.maxSubscribers then s
    else
      var uuid := s.nextUuid;
      State(s.subscribers + [p], s.subscriberIds[p := uuid], s.runningTasks, s.nextUuid + 1, s.nextHandle)
  }

  /**
   * unsubscribe: a processor without an id changes nothing; otherwise its id and
   * the first list occurrence go, and its running tasks are left to drain.
   */
  function Unsubscribe(s: State, p: Processor): (r: State)
    ensures p !in s.subscriberIds ==> r == s
    ensures p in s.subscriberIds ==>
              && r.subscriberIds == s.subscriberIds - {p}
              && multiset(r.subscribers) == multiset(s.subscribers) - multiset{p}
    ensures p in s.subscriberIds && p in s.subscribers ==>
              var i := FirstIndex(s.subscribers, p);
              r.subscribers == s.subscribers[..i] + s.subscribers[i + 1..]
    ensures r.runningTasks == s.runningTasks && r.nextHandle == s.nextHandle
    ensures |r.subscribers| <= |s.subscribers|
    ensures Valid(s) ==> Valid(r)
  {
    if p !in s.subscriberIds then s
    else
      UnsubscribeKeepsValid(s, p);
      s.(subscribers := RemoveFirst(s.subscribers, p), subscriberIds := s.subscriberIds - {p})
  }

  /** Dropping a registered processor's id and first list entry keeps the state valid. */
  lemma UnsubscribeKeepsValid(s: State, p: Processor)
    requires p in s.subscriberIds
    ensures Valid(s) ==> Valid(s.(subscribers := RemoveFirst(s.subscribers, p), subscriberIds := s.subscriberIds - {p}))
  {
    RemoveFirstKeepsOthers(s.subscribers, p);
  }

  /** Whether every listed cancel call answers true, calling them in order and stopping at the first false (allMatch). */
  function AllMatchCancel(subscribers: seq<Processor>, cancel: Processor -> bool): (r: CancelOutcome)
    ensures r.allCancelled <==> forall i :: 0 <= i < |subscribers| ==> cancel(subscribers[i])
    ensures r.invoked <= subscribers
    ensures r.allCancelled ==> r.invoked == subscribers
    ensures !r.allCancelled ==> r.invoked != [] && !cancel(r.invoked[|r.invoked| - 1])
    ensures forall i :: 0 <= i < |r.invoked| - 1 ==> cancel(r.invoked[i])
    decreases |subscribers|
  {
    if subscribers == [] then CancelOutcome(true, [])
    else if !cancel(subscribers[0]) then CancelOutcome(false, [subscribers[0]])
    else
      var rest := AllMatchCancel(subscribers[1..], cancel);
      assert subscribers == [subscribers[0]] + subscribers[1..];
      CancelOutcome(rest.allCancelled, [subscribers[0]] + rest.invoked)
  }

  /** cancel(): true iff every listed subscriber's cancel answers true; true for an empty list. */
  function Cancel(s: State, cancel: Processor -> bool): (r: CancelOutcome)
    ensures r.allCancelled <==> forall p :: p in s.subscribers ==> cancel(p)
    ensures s.subscribers == [] ==> r == CancelOutcome(true, [])
  {
    AllMatchCancel(s.subscribers, cancel)
  }

  /** getProcessorUUID: the id the processor is mapped to, if any. */
  function GetProcessorUuid(s: State, p: Processor): (r: Option<Uuid>)
    ensures r.Some? <==> p in s.subscriberIds
    ensures r.Some? ==> r.value == s.subscriberIds[p]
    ensures Valid(s) && r.Some? ==>
              && p in s.subscribers
              && forall q :: q in s.subscriberIds && s.subscriberIds[q] == r.value ==> q == p
  {
    if p in s.subscriberIds then Some(s.subscriberIds[p]) else None
  }

  /** getProcessor: a processor mapped to `uuid`, searching the id map's entries; with unique ids it is the one. */
  method GetProcessor(s: State, uuid: Uuid) returns (r: Option<Processor>)
    ensures r.Some? ==> r.value in s.subscriberIds && s.subscriberIds[r.value] == uuid
    ensures r.None? <==> uuid !in s.subscriberIds.Values
    ensures IdsUnique(s.subscriberIds) ==> forall p :: p in s.subscriberIds && s.subscriberIds[p] == uuid ==> r == Some(p)
  {
    var unvisited := s.subscriberIds.Keys;
    while unvisited != {}
      invariant unvisited <= s.subscriberIds.Keys
      invariant forall p :: p in s.subscriberIds && p !in unvisited ==> s.subscriberIds[p] != uuid
      decreases unvisited
    {
      var p :| p in unvisited;
      if s.subscriberIds[p] == uuid {
        return Some(p);
      }
      unvisited := unvisited - {p};
    }
    return None;
  }

  /** After a successful subscribe the processor's id leads back to it, and to nothing else. */
  lemma SubscribeThenLookup(s: State, config: Config, p: Processor)
    requires Valid(s)
    requires |s.subscribers| < config.maxSubscribers
    ensures GetProcessorUuid(Subscribe(s, config, p), p).Some?
    ensures forall q :: (q in Subscribe(s, config, p).subscriberIds
              && Subscribe(s, config, p).subscriberIds[q] == GetProcessorUuid(Subscribe(s, config, p), p).value) ==> q == p
  {
    assert Valid(Subscribe(s, config, p));
  }

  /** Unsubscribing a processor that was just subscribed, and was not listed before, restores the registry. */
  lemma SubscribeThenUnsubscribe(s: State, config: Config, p: Processor)
    requires |s.subscribers| < config.maxSubscribers
    requires p !in s.subscribers && p !in s.subscriberIds
    ensures Unsubscribe(Subscribe(s, config, p), p).subscribers == s.subscribers
    ensures Unsubscribe(Subscribe(s, config, p), p).subscriberIds == s.subscriberIds
    ensures Unsubscribe(Subscribe(s, config, p), p).runningTasks == s.runningTasks
  {
    var r := Subscribe(s, config, p);
    assert r.subscribers[..|s.subscribers|] == s.subscribers;
    assert r.subscriberIds - {p} == s.subscriberIds;
  }

  /** Subscribing twice lists the processor twice; unsubscribing once leaves it listed but without an id. */
  lemma DoubleSubscribeLeavesListed(s: State, config: Config, p: Processor)
    requires |s.subscribers| + 1 < config.maxSubscribers
    ensures var r := Unsubscribe(Subscribe(Subscribe(s, config, p), config, p), p);
            p in r.subscribers && p !in r.subscriberIds && Unsubscribe(r, p) == r
  {
    var twice := Subscribe(Subscribe(s, config, p), config, p);
    assert twice.subscribers == s.subscribers + [p] + [p];
    assert multiset(twice.subscribers)[p] >= 2;
    var r := Unsubscribe(twice, p);
    assert multiset(r.subscribers)[p] >= 1;
  }

  // ---------------------------------------------------------------------------
  // The tick decision

  /** The pair a printed pair parses to. */
  function Parse(env: Env, ccyPair: string): Result<CcyPair, CurrencyUtil.CurrencyError>
  {
    CurrencyUtil.CodePairToCurrPair(env.registry, ccyPair)
  }

  /** Whether the monitor calls the pair rare now. */
  function Rare(config: Config, env: Env, pair: CcyPair): bool
  {
    ExchangeRatesMonitor.IsRare(env.monitor, pair, env.now, config.rareChangingThresholdMillis)
  }

  /**
   * sendTask: the delivery is handed to the pool (a fresh future) and only then
   * is the pair parsed; a parse failure records no task, but the delivery still runs.
   */
  function SendTask(s: State, env: Env, p: Processor, ccyPair: string, rate: Rate): (r: Step)
    ensures r.next.subscribers == s.subscribers && r.next.subscriberIds == s.subscriberIds
    ensures r.next.nextUuid == s.nextUuid && r.next.nextHandle == s.nextHandle + 1
    ensures forall q :: q != p ==> Tasks(r.next, q) == Tasks(s, q)
    ensures |r.effects| >= 1 && r.effects[0] == Submitted(p, ccyPair, rate, s.nextHandle)
    ensures Parse(env, ccyPair).Success? ==>
              && Tasks(r.next, p) == Tasks(s, p) + {Task(Parse(env, ccyPair).value, s.nextHandle, env.now)}
              && r.effects == [Submitted(p, ccyPair, rate, s.nextHandle)]
    ensures Parse(env, ccyPair).Failure? ==>
              && Tasks(r.next, p) == Tasks(s, p)
              && r.effects == [Submitted(p, ccyPair, rate, s.nextHandle), ParseFailed(p, ccyPair, Parse(env, ccyPair).error)]
    ensures Valid(s) ==> Valid(r.next)
    ensures Valid(s) && Parse(env, ccyPair).Success? ==> Task(Parse(env, ccyPair).value, s.nextHandle, env.now) !in Tasks(s, p)
  {
    var handle := s.nextHandle;
    var submitted := s.(nextHandle := handle + 1);
    match Parse(env, ccyPair)
    case Failure(e) =>
      Step(submitted, [Submitted(p, ccyPair, rate, handle), ParseFailed(p, ccyPair, e)])
    case Success(pair) =>
      Step(PutTask(submitted, p, Task(pair, handle, env.now)), [Submitted(p, ccyPair, rate, handle)])
  }

  /**
   * The rare-pair branch of handleAlreadyRunningTask: the subscriber's cancel is
   * called, the picked task's future is cancelled, and a new task is sent. The
   * picked task stays recorded.
   */
  function Preempt(s: State, env: Env, p: Processor, ccyPair: string, rate: Rate, picked: Task): (r: Step)
    requires Parse(env, ccyPair).Success?
    ensures r.next.subscribers == s.subscribers && r.next.subscriberIds == s.subscriberIds && r.next.nextUuid == s.nextUuid
    ensures Tasks(r.next, p) == Tasks(s, p) + {Task(Parse(env, ccyPair).value, s.nextHandle, env.now)}
    ensures forall q :: q != p ==> Tasks(r.next, q) == Tasks(s, q)
    ensures r.next.nextHandle == s.nextHandle + 1
    ensures r.effects == [CancelInvoked(p), FutureCancelled(p, picked.handle), Submitted(p, ccyPair, rate, s.nextHandle)]
    ensures Valid(s) ==> Valid(r.next)
  {
    var sent := SendTask(s, env, p, ccyPair, rate);
    Step(sent.next, [CancelInvoked(p), FutureCancelled(p, picked.handle)] + sent.effects)
  }

  /**
   * handleAlreadyRunningTask, for a subscriber with a running task for the same
   * pair. Some matching task is picked (the multimap's order is unspecified).
   * A rare pair: the subscriber's cancel is called, the picked task's future is
   * cancelled, and a new task is sent; the old task stays recorded. A frequent
   * pair: nothing is added or removed, and the tick counts as skipped iff the
   * picked task's start time, an absolute clock reading, exceeds the soft timeout.
   */
  ghost function HandleAlreadyRunningTask(s: State, config: Config, env: Env, p: Processor, ccyPair: string, rate: Rate): (r: Step)
    requires Matching(Tasks(s, p), ccyPair) != {}
    ensures r.next.subscribers == s.subscribers && r.next.subscriberIds == s.subscriberIds && r.next.nextUuid == s.nextUuid
    ensures Tasks(s, p) <= Tasks(r.next, p)
    ensures forall q :: q != p ==> Tasks(r.next, q) == Tasks(s, q)
    ensures Parse(env, ccyPair).Failure? ==> r == Step(s, [ParseFailed(p, ccyPair, Parse(env, ccyPair).error)])
    ensures Parse(env, ccyPair).Success? && Rare(config, env, Parse(env, ccyPair).value) ==>
              && Tasks(r.next, p) == Tasks(s, p) + {Task(Parse(env, ccyPair).value, s.nextHandle, env.now)}
              && r.next.nextHandle == s.nextHandle + 1
              && |r.effects| == 3
              && r.effects[0] == CancelInvoked(p)
              && (exists t :: t in Matching(Tasks(s, p), ccyPair) && r.effects[1] == FutureCancelled(p, t.handle))
              && r.effects[2] == Submitted(p, ccyPair, rate, s.nextHandle)
    ensures Parse(env, ccyPair).Success? && !Rare(config, env, Parse(env, ccyPair).value) ==>
              && r.next == s
              && (r.effects == [] || r.effects == [Skipped(p, ccyPair)])
              && (r.effects == [Skipped(p, ccyPair)] ==>
                    exists t :: t in Matching(Tasks(s, p), ccyPair) && t.startTime > config.softTimeoutMillis)
              && (r.effects == [] ==>
                    exists t :: t in Matching(Tasks(s, p), ccyPair) && t.startTime <= config.softTimeoutMillis)
    ensures forall i :: 0 <= i < |r.effects| ==> r.effects[i].subscriber == p
    ensures Valid(s) ==> Valid(r.next)
  {
    var task :| task in Matching(Tasks(s, p), ccyPair);
    match Parse(env, ccyPair)
    case Failure(e) =>
      Step(s, [ParseFailed(p, ccyPair, e)])
    case Success(pair) =>
      if Rare(config, env, pair) then
        Preempt(s, env, p, ccyPair, rate, task)
      else if task.startTime > config.softTimeoutMillis then
        Step(s, [Skipped(p, ccyPair)])
      else
        Step(s, [])
  }

  /**
   * The per-subscriber body of onPrice: a subscriber with no running task gets a
   * new one; one running a task for this pair goes to handleAlreadyRunningTask;
   * one running tasks only for other pairs gets nothing, not even a skip.
   */
  ghost function DispatchTo(s: State, config: Config, env: Env, p: Processor, ccyPair: string, rate: Rate): (r: Step)
    ensures r.next.subscribers == s.subscribers && r.next.subscriberIds == s.subscriberIds && r.next.nextUuid == s.nextUuid
    ensures r.next.nextHandle == s.nextHandle || r.next.nextHandle == s.nextHandle + 1
    ensures Tasks(s, p) <= Tasks(r.next, p)
    ensures forall q :: q != p ==> Tasks(r.next, q) == Tasks(s, q)
    ensures forall t :: t in Tasks(r.next, p) && t !in Tasks(s, p) ==>
              Parse(env, ccyPair).Success? && t == Task(Parse(env, ccyPair).value, s.nextHandle, env.now)
    ensures Tasks(s, p) == {} && Parse(env, ccyPair).Success? ==>
              && Tasks(r.next, p) == {Task(Parse(env, ccyPair).value, s.nextHandle, env.now)}
              && r.effects == [Submitted(p, ccyPair, rate, s.nextHandle)]
    ensures Tasks(s, p) != {} && Matching(Tasks(s, p), ccyPair) == {} ==> r == Step(s, [])
    ensures Matching(Tasks(s, p), ccyPair) != {} ==> r == HandleAlreadyRunningTask(s, config, env, p, ccyPair, rate)
    ensures forall i :: 0 <= i < |r.effects| ==> r.effects[i].subscriber == p
    ensures Valid(s) ==> Valid(r.next)
  {
    if Tasks(s, p) != {} then
      if Matching(Tasks(s, p), ccyPair) != {} then HandleAlreadyRunningTask(s, config, env, p, ccyPair, rate)
      else Step(s, [])
    else
      SendTask(s, env, p, ccyPair, rate)
  }

  /** The decision applied to each subscriber of `subscribers` in turn, effects in order. */
  ghost function DispatchAll(s: State, config: Config, env: Env, subscribers: seq<Processor>, ccyPair: string, rate: Rate): (r: Step)
    ensures r.next.subscribers == s.subscribers && r.next.subscriberIds == s.subscriberIds && r.next.nextUuid == s.nextUuid
    ensures s.nextHandle <= r.next.nextHandle
    ensures forall q :: Tasks(s, q) <= Tasks(r.next, q)
    ensures forall q :: q !in subscribers ==> Tasks(r.next, q) == Tasks(s, q)
    ensures Valid(s) ==> Valid(r.next)
    decreases |subscribers|
  {
    if subscribers == [] then Step(s, [])
    else
      var first := DispatchTo(s, config, env, subscribers[0], ccyPair, rate);
      var rest := DispatchAll(first.next, config, env, subscribers[1..], ccyPair, rate);
      assert forall q :: q !in subscribers ==> q !in subscribers[1..] && q != subscribers[0];
      Step(rest.next, first.effects + rest.effects)
  }

  /** onPrice: the decision for every listed subscriber, in list order. */
  ghost function OnPrice(s: State, config: Config, env: Env, ccyPair: string, rate: Rate): (r: Step)
    ensures r.next.subscribers == s.subscribers && r.next.subscriberIds == s.subscriberIds
    ensures forall q :: Tasks(s, q) <= Tasks(r.next, q)
    ensures forall q :: q !in s.subscribers ==> Tasks(r.next, q) == Tasks(s, q)
    ensures Valid(s) ==> Valid(r.next)
  {
    DispatchAll(s, config, env, s.subscribers, ccyPair, rate)
  }

  /** onApplicationEvent: onPrice for every (pair, rate) of a changed-rates event, the pair printed; the event map in its iteration order. */
  ghost function OnApplicationEvent(s: State, config: Config, env: Env, rates: seq<(CcyPair, Rate)>): (r: Step)
    ensures r.next.subscribers == s.subscribers && r.next.subscriberIds == s.subscriberIds
    ensures forall q :: Tasks(s, q) <= Tasks(r.next, q)
    ensures forall q :: q !in s.subscribers ==> Tasks(r.next, q) == Tasks(s, q)
    ensures Valid(s) ==> Valid(r.next)
    decreases |rates|
  {
    if rates == [] then Step(s, [])
    else
      var first := OnPrice(s, config, env, rates[0].0.ToString(), rates[0].1);
      var rest := OnApplicationEvent(first.next, config, env, rates[1..]);
      Step(rest.next, first.effects + rest.effects)
  }

  // ---------------------------------------------------------------------------
  // Completion

  /**
   * The completion callback of a delivery of `ccyPair` to `p`, whether the
   * subscriber's onPrice returned (`succeeded`) or threw. It removes some running
   * task of `p` whose pair prints as `ccyPair` (not necessarily the one it was
   * created for), and throws, removing nothing, when there is none.
   */
  ghost function Complete(s: State, p: Processor, ccyPair: string, succeeded: bool): (r: Completion)
    ensures Matching(Tasks(s, p), ccyPair) == {} ==> r == Completion(s, None)
    ensures Matching(Tasks(s, p), ccyPair) != {} ==>
              && r.outcome == Some(succeeded)
              && (exists t :: t in Matching(Tasks(s, p), ccyPair) && Tasks(r.next, p) == Tasks(s, p) - {t})
              && |Tasks(r.next, p)| == |Tasks(s, p)| - 1
    ensures forall other :: other != ccyPair ==> Matching(Tasks(r.next, p), other) == Matching(Tasks(s, p), other)
    ensures forall q :: q != p ==> Tasks(r.next, q) == Tasks(s, q)
    ensures r.next.subscribers == s.subscribers && r.next.subscriberIds == s.subscriberIds
    ensures r.next.nextUuid == s.nextUuid && r.next.nextHandle == s.nextHandle
    ensures Valid(s) ==> Valid(r.next)
  {
    if Matching(Tasks(s, p), ccyPair) == {} then Completion(s, None)
    else
      var task :| task in Matching(Tasks(s, p), ccyPair);
      Completion(RemoveTask(s, p, task), Some(succeeded))
  }
}
