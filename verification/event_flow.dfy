/**
 * How the tick source and the rarity monitor fit together: the monitor stamps
 * every pair of an event because its snapshot is never filled, and that is
 * harmless because the source publishes only the pairs that changed.
 */
module EventFlow {
  import opened Wrappers
  import opened Model
  import ExchangeRatesGenerator
  import ExchangeRatesMonitor

  /** The monitor after it receives whatever a tick published at time `now`. */
  function Deliver(m: ExchangeRatesMonitor.State, tick: ExchangeRatesGenerator.Tick, now: int): ExchangeRatesMonitor.State
  {
    match tick.published
    case None => m
    case Some(batch) => ExchangeRatesMonitor.OnApplicationEvent(m, batch, now)
  }

  /** A pair whose drawn rate differs from the last tick's, or is new, is stamped with the tick's time. */
  lemma ChangedPairStamped(
    g: ExchangeRatesGenerator.State, draw: CcyPair -> Rate, m: ExchangeRatesMonitor.State, now: int, pair: CcyPair)
    requires m.snapshot == map[]
    requires pair in g.entryMap
    requires pair !in g.lastGeneratedRates || g.lastGeneratedRates[pair] != draw(pair)
    ensures Deliver(m, ExchangeRatesGenerator.GenerateExchangeRates(g, draw), now).lastChanged[pair] == now
  {
    var tick := ExchangeRatesGenerator.GenerateExchangeRates(g, draw);
    ExchangeRatesGenerator.ChangedRatesCharacterised(g.lastGeneratedRates, tick.returned, pair);
    assert tick.published.Some?;
  }

  /** A pair whose drawn rate equals the last tick's keeps the monitor's stamp: stamps are times of real change. */
  lemma SteadyPairKeepsStamp(
    g: ExchangeRatesGenerator.State, draw: CcyPair -> Rate, m: ExchangeRatesMonitor.State, now: int, pair: CcyPair)
    requires m.snapshot == map[]
    requires pair in g.lastGeneratedRates && g.lastGeneratedRates[pair] == draw(pair)
    requires pair in m.lastChanged
    ensures Deliver(m, ExchangeRatesGenerator.GenerateExchangeRates(g, draw), now).lastChanged[pair] == m.lastChanged[pair]
  {
    var tick := ExchangeRatesGenerator.GenerateExchangeRates(g, draw);
    ExchangeRatesGenerator.ChangedRatesCharacterised(g.lastGeneratedRates, tick.returned, pair);
  }
}
