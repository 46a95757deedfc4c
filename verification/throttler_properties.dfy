/**
 * Properties of the throttler that span several subscribers or several events:
 * what one tick does to one subscriber, how completion undoes a dispatch, how
 * preemption breaks the one-task-per-pair discipline, and which invariants every
 * run of operations keeps.
 */
module ThrottlerProperties {
  import opened Model
  import opened Wrappers
  import CurrencyUtil
  import opened PriceThrottler

  // ---------------------------------------------------------------------------
  // One tick, one subscriber

  /** The decision for `p` records a task: the pair parses and `p` is idle, or runs this pair and the pair is rare. */
  ghost predicate AddsTask(s: State, config: Config, env: Env, p: Processor, ccyPair: string)
  {
    && Parse(env, ccyPair).Success?
    && (Tasks(s, p) == {} || (Matching(Tasks(s, p), ccyPair) != {} && Rare(config, env, Parse(env, ccyPair).value)))
  }

  /** The decision for `p` leaves its tasks alone: it is busy, and with other pairs only, or the pair fails to parse, or it is frequent. */
  ghost predicate KeepsTasks(s: State, config: Config, env: Env, p: Processor, ccyPair: string)
  {
    && Tasks(s, p) != {}
    && (|| Matching(Tasks(s, p), ccyPair) == {}
        || Parse(env, ccyPair).Failure?
        || !Rare(config, env, Parse(env, ccyPair).value))
  }

  /** A subscriber listed once whose decision records a task ends the tick with exactly one more task, started now. */
  lemma {:induction false} DispatchAllAddsOneTask(
    s: State, config: Config, env: Env, subscribers: seq<Processor>, ccyPair: string, rate: Rate, p: Processor)
    requires multiset(subscribers)[p] == 1
    requires AddsTask(s, config, env, p, ccyPair)
    ensures exists h :: s.nextHandle <= h &&
              Tasks(DispatchAll(s, config, env, subscribers, ccyPair, rate).next, p)
                == Tasks(s, p) + {Task(Parse(env, ccyPair).value, h, env.now)}
    decreases |subscribers|
  {
    assert subscribers == [subscribers[0]] + subscribers[1..];
    var first := DispatchTo(s, config, env, subscribers[0], ccyPair, rate);
    if subscribers[0] == p {
      assert multiset(subscribers[1..])[p] == 0;
      assert Tasks(first.next, p) == Tasks(s, p) + {Task(Parse(env, ccyPair).value, s.nextHandle, env.now)};
    } else {
      assert multiset(subscribers[1..])[p] == 1;
      DispatchAllAddsOneTask(first.next, config, env, subscribers[1..], ccyPair, rate, p);
    }
  }

  /**
   * A subscriber whose decision keeps its tasks ends the tick with the same tasks,
   * however often it is listed; if it was busy with other pairs only, the tick
   * causes nothing for it at all, not even a skip.
   */
  lemma {:induction false} DispatchAllKeepsTasks(
    s: State, config: Config, env: Env, subscribers: seq<Processor>, ccyPair: string, rate: Rate, p: Processor)
    requires KeepsTasks(s, config, env, p, ccyPair)
    ensures Tasks(DispatchAll(s, config, env, subscribers, ccyPair, rate).next, p) == Tasks(s, p)
    ensures Matching(Tasks(s, p), ccyPair) == {} ==>
              var effects := DispatchAll(s, config, env, subscribers, ccyPair, rate).effects;
              forall i :: 0 <= i < |effects| ==> effects[i].subscriber != p
    decreases |subscribers|
  {
    if subscribers != [] {
      var first := DispatchTo(s, config, env, subscribers[0], ccyPair, rate);
      assert Tasks(first.next, p) == Tasks(s, p);
      assert Matching(Tasks(s, p), ccyPair) == {} && subscribers[0] == p ==> first.effects == [];
      DispatchAllKeepsTasks(first.next, config, env, subscribers[1..], ccyPair, rate, p);
    }
  }

  /** onPrice gives an idle subscriber, listed once, exactly one task: for the parsed pair, started now. */
  lemma OnPriceIdleSubscriberGetsTask(s: State, config: Config, env: Env, p: Processor, ccyPair: string, rate: Rate)
    requires multiset(s.subscribers)[p] == 1
    requires Tasks(s, p) == {} && Parse(env, ccyPair).Success?
    ensures exists h :: Tasks(OnPrice(s, config, env, ccyPair, rate).next, p) == {Task(Parse(env, ccyPair).value, h, env.now)}
  {
    DispatchAllAddsOneTask(s, config, env, s.subscribers, ccyPair, rate, p);
  }

  /** onPrice gives a subscriber running tasks for other pairs only no task and no skip. */
  lemma OnPriceBusyWithOtherPairs(s: State, config: Config, env: Env, p: Processor, ccyPair: string, rate: Rate)
    requires Tasks(s, p) != {} && Matching(Tasks(s, p), ccyPair) == {}
    ensures Tasks(OnPrice(s, config, env, ccyPair, rate).next, p) == Tasks(s, p)
    ensures forall i :: 0 <= i < |OnPrice(s, config, env, ccyPair, rate).effects| ==>
              OnPrice(s, config, env, ccyPair, rate).effects[i] != Skipped(p, ccyPair)
  {
    DispatchAllKeepsTasks(s, config, env, s.subscribers, ccyPair, rate, p);
  }

  /** For a frequent pair already running, onPrice adds and removes no task of that subscriber. */
  lemma OnPriceFrequentPairKeepsTasks(s: State, config: Config, env: Env, p: Processor, ccyPair: string, rate: Rate)
    requires Matching(Tasks(s, p), ccyPair) != {}
    requires Parse(env, ccyPair).Success? && !Rare(config, env, Parse(env, ccyPair).value)
    ensures Tasks(OnPrice(s, config, env, ccyPair, rate).next, p) == Tasks(s, p)
  {
    DispatchAllKeepsTasks(s, config, env, s.subscribers, ccyPair, rate, p);
  }

  /**
   * For a rare pair already running, onPrice adds a task started now and removes
   * none: the preempted task stays recorded, so the subscriber ends up with one
   * more task for the pair than before, and at least two.
   */
  lemma OnPricePreemptionKeepsOldTask(s: State, config: Config, env: Env, p: Processor, ccyPair: string, rate: Rate)
    requires Valid(s) && CurrencyUtil.Faithful(env.registry)
    requires multiset(s.subscribers)[p] == 1
    requires Matching(Tasks(s, p), ccyPair) != {}
    requires Parse(env, ccyPair).Success? && Rare(config, env, Parse(env, ccyPair).value)
    ensures Tasks(s, p) < Tasks(OnPrice(s, config, env, ccyPair, rate).next, p)
    ensures |Matching(Tasks(OnPrice(s, config, env, ccyPair, rate).next, p), ccyPair)| == |Matching(Tasks(s, p), ccyPair)| + 1
    ensures |Matching(Tasks(OnPrice(s, config, env, ccyPair, rate).next, p), ccyPair)| >= 2
  {
    var after := OnPrice(s, config, env, ccyPair, rate).next;
    DispatchAllAddsOneTask(s, config, env, s.subscribers, ccyPair, rate, p);
    var h :| s.nextHandle <= h && Tasks(after, p) == Tasks(s, p) + {Task(Parse(env, ccyPair).value, h, env.now)};
    CurrencyUtil.ParseThenPrint(env.registry, ccyPair);
    MatchingGainsOne(Tasks(s, p), Task(Parse(env, ccyPair).value, h, env.now), ccyPair);
  }

  /** Adding a new task for a pair already running makes at least two tasks for that pair. */
  lemma MatchingGainsOne(before: set<Task>, added: Task, ccyPair: string)
    requires added !in before && added.pair.ToString() == ccyPair
    requires Matching(before, ccyPair) != {}
    ensures Matching(before + {added}, ccyPair) == Matching(before, ccyPair) + {added}
    ensures |Matching(before + {added}, ccyPair)| == |Matching(before, ccyPair)| + 1 >= 2
  {
    var earlier :| earlier in Matching(before, ccyPair);
    assert {earlier, added} <= Matching(before + {added}, ccyPair);
    assert |{earlier, added}| == 2;
  }

  /**
   * With one task running for a frequent pair, the tick is skipped iff that
   * task's start time, an absolute clock reading, is above the soft timeout; the
   * time elapsed since the start plays no part.
   */
  lemma SkipIffStartTimeAboveSoftTimeout(s: State, config: Config, env: Env, p: Processor, ccyPair: string, rate: Rate, t: Task)
    requires Matching(Tasks(s, p), ccyPair) == {t}
    requires Parse(env, ccyPair).Success? && !Rare(config, env, Parse(env, ccyPair).value)
    ensures DispatchTo(s, config, env, p, ccyPair, rate).next == s
    ensures DispatchTo(s, config, env, p, ccyPair, rate).effects
              == if t.startTime > config.softTimeoutMillis then [Skipped(p, ccyPair)] else []
  {
  }

  /** A pair taken from a changed-rates event is printed, parsed back, and recorded under the same pair. */
  lemma EventPairRecordedUnderItself(s: State, config: Config, env: Env, p: Processor, pair: CcyPair, rate: Rate)
    requires CurrencyUtil.Printable(env.registry, pair)
    requires Tasks(s, p) == {}
    ensures Tasks(DispatchTo(s, config, env, p, pair.ToString(), rate).next, p) == {Task(pair, s.nextHandle, env.now)}
  {
    CurrencyUtil.PrintThenParse(env.registry, pair);
  }

  // ---------------------------------------------------------------------------
  // Completion

  /** Dispatching to an idle subscriber and then completing that pair restores the running tasks exactly. */
  lemma DispatchThenCompleteRestores(
    s: State, config: Config, env: Env, p: Processor, ccyPair: string, rate: Rate, succeeded: bool)
    requires Valid(s) && CurrencyUtil.Faithful(env.registry)
    requires Tasks(s, p) == {} && Parse(env, ccyPair).Success?
    ensures Complete(DispatchTo(s, config, env, p, ccyPair, rate).next, p, ccyPair, succeeded).next.runningTasks == s.runningTasks
    ensures Complete(DispatchTo(s, config, env, p, ccyPair, rate).next, p, ccyPair, succeeded).outcome == Some(succeeded)
  {
    var d := DispatchTo(s, config, env, p, ccyPair, rate).next;
    var t := Task(Parse(env, ccyPair).value, s.nextHandle, env.now);
    CurrencyUtil.ParseThenPrint(env.registry, ccyPair);
    assert Matching(Tasks(d, p), ccyPair) == {t};
    var c := Complete(d, p, ccyPair, succeeded).next;
    assert Tasks(c, p) == {};
    assert p !in s.runningTasks;
    assert p !in c.runningTasks by {
      assert Valid(c);
    }
    assert c.runningTasks.Keys == s.runningTasks.Keys;
    assert forall q :: q in c.runningTasks ==> c.runningTasks[q] == Tasks(c, q) == Tasks(s, q) == s.runningTasks[q];
  }

  /** After a preemption, one completion of the pair still leaves the subscriber busy with that pair. */
  lemma CompletionAfterPreemptionLeavesSlotBusy(s: State, p: Processor, ccyPair: string, succeeded: bool)
    requires |Matching(Tasks(s, p), ccyPair)| >= 2
    ensures Matching(Tasks(Complete(s, p, ccyPair, succeeded).next, p), ccyPair) != {}
  {
    var c := Complete(s, p, ccyPair, succeeded).next;
    var t :| t in Matching(Tasks(s, p), ccyPair) && Tasks(c, p) == Tasks(s, p) - {t};
    assert Matching(Tasks(s, p), ccyPair) - {t} <= Matching(Tasks(c, p), ccyPair);
    assert |Matching(Tasks(s, p), ccyPair) - {t}| >= 1;
  }

  // ---------------------------------------------------------------------------
  // Runs of operations

  /** The throttler's entry points (cancel and the lookups change no state). */
  datatype Op =
    | SubscribeOp(p: Processor)
    | UnsubscribeOp(p: Processor)
    | PriceOp(env: Env, ccyPair: string, rate: Rate)
    | RatesChangedOp(env: Env, rates: seq<(CcyPair, Rate)>)
    | CompleteOp(p: Processor, ccyPair: string, succeeded: bool)

  ghost function Apply(s: State, config: Config, op: Op): State
  {
    match op
    case SubscribeOp(p) => Subscribe(s, config, p)
    case UnsubscribeOp(p) => Unsubscribe(s, p)
    case PriceOp(env, ccyPair, rate) => OnPrice(s, config, env, ccyPair, rate).next
    case RatesChangedOp(env, rates) => OnApplicationEvent(s, config, env, rates).next
    case CompleteOp(p, ccyPair, succeeded) => Complete(s, p, ccyPair, succeeded).next
  }

  ghost function Run(s: State, config: Config, ops: seq<Op>): State
    decreases |ops|
  {
    if ops == [] then s else Run(Apply(s, config, ops[0]), config, ops[1..])
  }

  /** Every run of operations keeps the state valid and the subscriber list within its bound. */
  lemma {:induction false} RunKeepsInvariants(s: State, config: Config, ops: seq<Op>)
    requires Valid(s) && |s.subscribers| <= config.maxSubscribers
    ensures Valid(Run(s, config, ops)) && |Run(s, config, ops).subscribers| <= config.maxSubscribers
    decreases |ops|
  {
    if ops != [] {
      var next := Apply(s, config, ops[0]);
      assert Valid(next) && |next.subscribers| <= config.maxSubscribers;
      RunKeepsInvariants(next, config, ops[1..]);
    }
  }

  /** From the initial state, with a non-negative bound, every reachable state is valid and within the bound. */
  lemma ReachableStatesBounded(config: Config, ops: seq<Op>)
    requires config.maxSubscribers >= 0
    ensures Valid(Run(Initial, config, ops)) && |Run(Initial, config, ops).subscribers| <= config.maxSubscribers
  {
    InitialValid();
    RunKeepsInvariants(Initial, config, ops);
  }
}
