/**
 * The rarity tracker: it records, per currency pair, the time of the last
 * change-event that stamped it, and calls a pair rare once that time is more
 * than a threshold in the past.
 */
module ExchangeRatesMonitor {
  import opened Model

  /**
   * The monitor's two maps. `snapshot` holds the last rate seen per pair and is
   * consulted on every event, but no code path ever writes it.
   */
  datatype State = State(snapshot: map<CcyPair, Rate>, lastChanged: map<CcyPair, int>)

  /** The monitor as the service creates it. */
  const Initial: State := State(map[], map[])

  /** Whether an event re-stamps `pair`: it is in the event and unknown to, or different from, the snapshot. */
  predicate Stamps(m: State, rates: map<CcyPair, Rate>, pair: CcyPair)
  {
    pair in rates && (pair !in m.snapshot || m.snapshot[pair] != rates[pair])
  }

  /** Handles a changed-rates event received at time `now` (milliseconds). */
  function OnApplicationEvent(m: State, rates: map<CcyPair, Rate>, now: int): (r: State)
    ensures r.snapshot == m.snapshot
    ensures r.lastChanged.Keys == m.lastChanged.Keys + (set pair | pair in rates && Stamps(m, rates, pair))
    ensures forall pair :: Stamps(m, rates, pair) ==> r.lastChanged[pair] == now
    ensures forall pair :: pair in m.lastChanged && !Stamps(m, rates, pair) ==> r.lastChanged[pair] == m.lastChanged[pair]
  {
    var stamped := map pair | pair in m.lastChanged.Keys + (set p | p in rates && Stamps(m, rates, p)) ::
      if Stamps(m, rates, pair) then now else m.lastChanged[pair];
    State(m.snapshot, stamped)
  }

  /** Whether `pair` has stayed unchanged for strictly longer than `thresholdMillis` at time `now`. */
  function IsRare(m: State, pair: CcyPair, now: int, thresholdMillis: int): (rare: bool)
    ensures pair !in m.lastChanged ==> !rare
  {
    if pair in m.lastChanged then now - m.lastChanged[pair] > thresholdMillis else false
  }

  /** The monitor's state after a run of events starting from the initial state. */
  function Replay(events: seq<(map<CcyPair, Rate>, int)>): (m: State)
    decreases |events|
  {
    if events == [] then Initial
    else OnApplicationEvent(Replay(events[..|events| - 1]), events[|events| - 1].0, events[|events| - 1].1)
  }

  /** No event ever writes the snapshot, so it stays empty in every reachable state. */
  lemma {:induction false} SnapshotNeverWritten(events: seq<(map<CcyPair, Rate>, int)>)
    ensures Replay(events).snapshot == map[]
    decreases |events|
  {
    if events != [] {
      SnapshotNeverWritten(events[..|events| - 1]);
    }
  }

  /**
   * With the snapshot empty, every pair of an event is stamped with the event's
   * time whether or not its rate changed; other pairs keep their stamps, and no
   * entry is removed.
   */
  lemma EveryEventPairStamped(m: State, rates: map<CcyPair, Rate>, now: int)
    requires m.snapshot == map[]
    ensures forall pair :: pair in rates ==> OnApplicationEvent(m, rates, now).lastChanged[pair] == now
    ensures forall pair :: pair in m.lastChanged && pair !in rates
              ==> OnApplicationEvent(m, rates, now).lastChanged[pair] == m.lastChanged[pair]
    ensures m.lastChanged.Keys <= OnApplicationEvent(m, rates, now).lastChanged.Keys
  {
  }

  /** A pair that no event of a run has carried is never stamped, so it is never rare. */
  lemma {:induction false} NeverCarriedNeverRare(
    events: seq<(map<CcyPair, Rate>, int)>, pair: CcyPair, now: int, thresholdMillis: int)
    requires forall i :: 0 <= i < |events| ==> pair !in events[i].0
    ensures pair !in Replay(events).lastChanged
    ensures !IsRare(Replay(events), pair, now, thresholdMillis)
    decreases |events|
  {
    if events != [] {
      NeverCarriedNeverRare(events[..|events| - 1], pair, now, thresholdMillis);
      SnapshotNeverWritten(events[..|events| - 1]);
    }
  }

  /** Once rare, a pair stays rare at every later time until it is stamped again. */
  lemma RareIsMonotone(m: State, pair: CcyPair, now: int, later: int, thresholdMillis: int)
    requires now <= later
    requires IsRare(m, pair, now, thresholdMillis)
    ensures IsRare(m, pair, later, thresholdMillis)
  {
  }

  /** The comparison is strict: a pair exactly `threshold` old is not yet rare, one millisecond later it is. */
  lemma RareThresholdIsStrict(m: State, pair: CcyPair, thresholdMillis: int)
    requires pair in m.lastChanged
    ensures !IsRare(m, pair, m.lastChanged[pair] + thresholdMillis, thresholdMillis)
    ensures IsRare(m, pair, m.lastChanged[pair] + thresholdMillis + 1, thresholdMillis)
  {
  }

  /**
   * Right after an event at time t (from a reachable state), a pair of the event
   * is rare at time `now` iff more than the threshold has passed since t; in
   * particular it is not rare at t itself for any threshold >= 0, and with
   * threshold 0 it is rare at every later time. Pairs outside the event keep
   * their previous answer.
   */
  lemma RareAfterEvent(m: State, rates: map<CcyPair, Rate>, t: int, pair: CcyPair, now: int, thresholdMillis: int)
    requires m.snapshot == map[]
    ensures pair in rates ==> (IsRare(OnApplicationEvent(m, rates, t), pair, now, thresholdMillis) <==> now - t > thresholdMillis)
    ensures pair in rates && thresholdMillis >= 0 ==> !IsRare(OnApplicationEvent(m, rates, t), pair, t, thresholdMillis)
    ensures pair in rates ==> (IsRare(OnApplicationEvent(m, rates, t), pair, now, 0) <==> now > t)
    ensures pair !in rates ==> (IsRare(OnApplicationEvent(m, rates, t), pair, now, thresholdMillis) <==> IsRare(m, pair, now, thresholdMillis))
  {
  }
}
