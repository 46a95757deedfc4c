/**
 * The tick source: on every tick it draws a fresh rate for each configured pair,
 * works out which rates differ from the previous tick, and publishes those as a
 * changed-rates event when there are any. How a rate is drawn (random numbers
 * and floating-point arithmetic) is an oracle here.
 */
module ExchangeRatesGenerator {
  import opened Wrappers
  import opened Model

  /** One entry of the rates template: the printed pair with its bid and ask. */
  datatype ExchEntry = ExchEntry(pair: string, bid: Rate, ask: Rate)

  /** The template entries keyed by parsed pair, and the rates generated on the last tick. */
  datatype State = State(entryMap: map<CcyPair, ExchEntry>, lastGeneratedRates: map<CcyPair, Rate>)

  /** What a tick leaves behind: the new state, the map it returns, and the event it publishes, if any. */
  datatype Tick = Tick(next: State, returned: map<CcyPair, Rate>, published: Option<map<CcyPair, Rate>>)

  /** The rates of `current` that are new or differ from `previous`. */
  function ChangedRates(previous: map<CcyPair, Rate>, current: map<CcyPair, Rate>): (changed: map<CcyPair, Rate>)
    ensures changed.Keys <= current.Keys
    ensures forall pair :: pair in changed ==> changed[pair] == current[pair]
  {
    map pair | pair in current && (pair !in previous || previous[pair] != current[pair]) :: current[pair]
  }

  /**
   * A pair is in the changed batch iff it has a new rate that was absent from, or
   * different in, the previous map; every batch value is the new rate.
   */
  lemma ChangedRatesCharacterised(previous: map<CcyPair, Rate>, current: map<CcyPair, Rate>, pair: CcyPair)
    ensures pair in ChangedRates(previous, current) <==> pair in current && (pair !in previous || previous[pair] != current[pair])
    ensures pair in ChangedRates(previous, current) ==> ChangedRates(previous, current)[pair] == current[pair]
  {
  }

  /**
   * The changed batch is exactly what a listener holding the previous map needs:
   * applying it brings every pair of the new map up to date, and when no pair has
   * disappeared the result is the new map itself.
   */
  lemma PatchRoundTrip(previous: map<CcyPair, Rate>, current: map<CcyPair, Rate>)
    ensures forall pair :: pair in current ==> (previous + ChangedRates(previous, current))[pair] == current[pair]
    ensures previous.Keys <= current.Keys ==> previous + ChangedRates(previous, current) == current
  {
    var patched := previous + ChangedRates(previous, current);
    if previous.Keys <= current.Keys {
      assert patched.Keys == current.Keys;
    }
  }

  /** No change, no batch: identical maps yield an empty batch. */
  lemma IdenticalRatesNoChange(rates: map<CcyPair, Rate>)
    ensures ChangedRates(rates, rates) == map[]
  {
  }

  /** On the first tick there is no previous map, so the whole new map is the batch. */
  lemma FirstTickChangesAll(current: map<CcyPair, Rate>)
    ensures ChangedRates(map[], current) == current
  {
  }

  /**
   * One tick. `draw` stands for the random rate computed from a template entry;
   * the new map has exactly the template's pairs, it is stored and returned, and
   * the changed batch is published iff it is non-empty.
   */
  function GenerateExchangeRates(g: State, draw: CcyPair -> Rate): (t: Tick)
    ensures t.returned.Keys == g.entryMap.Keys
    ensures forall pair :: pair in t.returned ==> t.returned[pair] == draw(pair)
    ensures t.next.entryMap == g.entryMap && t.next.lastGeneratedRates == t.returned
    ensures t.published.Some? <==>
              exists pair :: pair in t.returned && (pair !in g.lastGeneratedRates || g.lastGeneratedRates[pair] != t.returned[pair])
    ensures t.published.Some? ==> t.published.value == ChangedRates(g.lastGeneratedRates, t.returned)
  {
    var current := map pair | pair in g.entryMap :: draw(pair);
    var changed := ChangedRates(g.lastGeneratedRates, current);
    PatchRoundTrip(g.lastGeneratedRates, current);
    if changed != map[] then
      assert exists pair :: pair in changed;
      Tick(State(g.entryMap, current), current, Some(changed))
    else
      assert forall pair :: pair in current ==> pair !in changed;
      Tick(State(g.entryMap, current), current, None)
  }

  /** The generator before its first tick: template loaded, no rates yet. */
  function Start(entryMap: map<CcyPair, ExchEntry>): State
  {
    State(entryMap, map[])
  }

  /** A tick that draws the same rates as the last one publishes nothing. */
  lemma SteadyRatesPublishNothing(g: State, draw: CcyPair -> Rate)
    requires g.lastGeneratedRates == map pair | pair in g.entryMap :: draw(pair)
    ensures GenerateExchangeRates(g, draw).published == None
  {
  }

  /** The first tick publishes every pair of the template, with its drawn rate, unless the template is empty. */
  lemma FirstTickPublishesAll(entryMap: map<CcyPair, ExchEntry>, draw: CcyPair -> Rate)
    ensures entryMap == map[] ==> GenerateExchangeRates(Start(entryMap), draw).published == None
    ensures entryMap != map[] ==>
              GenerateExchangeRates(Start(entryMap), draw).published == Some(map pair | pair in entryMap :: draw(pair))
  {
    var t := GenerateExchangeRates(Start(entryMap), draw);
    if entryMap != map[] {
      var pair :| pair in entryMap;
      assert pair in t.returned;
      FirstTickChangesAll(t.returned);
    }
  }
}
