/**
 * Value types shared by the price services: currency units and pairs, rates,
 * subscriber and id identities, and the record of one running delivery task.
 */
module Model {

  /** A currency unit as the currency registry hands it out; only its ISO code is observed. */
  datatype CurrencyUnit = CurrencyUnit(code: string)

  /** A pair of currency units (a Java record, so equality is field-wise). */
  datatype CcyPair = CcyPair(unitOne: CurrencyUnit, unitTwo: CurrencyUnit)
  {
    /** The printed form of a pair: the two currency codes run together, e.g. "EURUSD". */
    function ToString(): (s: string)
      ensures |s| == |unitOne.code| + |unitTwo.code|
      ensures s[..|unitOne.code|] == unitOne.code
      ensures s[|unitOne.code|..] == unitTwo.code
    {
      unitOne.code + unitTwo.code
    }
  }

  /**
   * An exchange rate. Rates are Java doubles compared with Double.equals, which
   * compares bit patterns, so a rate is identified here by its 64-bit pattern and
   * no arithmetic is done on it.
   */
  datatype Rate = Rate(bits: int)

  /** A subscriber (a PriceProcessor object), compared by object identity. */
  type Processor = nat

  /** A subscriber id (a random UUID in the service, a fresh number here). */
  type Uuid = nat

  /**
   * One delivery in flight: the pair being delivered, the identity of the future
   * that runs it, and the wall-clock time in milliseconds at which it was recorded.
   * Equality is field-wise, and two futures are never equal, so tasks with
   * different handles are different tasks even for the same pair.
   */
  datatype Task = Task(pair: CcyPair, handle: nat, startTime: int)
}
