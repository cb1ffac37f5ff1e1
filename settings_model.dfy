/** The system-settings singleton: one record holding the price of a design
    made from scratch. */
module SettingsModel {
  import opened Common

  datatype Settings = Settings(scratchDesignPrice: int)

  /** The price the lazily created record starts with. */
  const DefaultScratchPrice: int := 99

  /** The record the singleton accessor returns: the stored one when there is
      one, otherwise a new one at the default price. */
  function Ensured(stored: Option<Settings>): (s: Settings)
    ensures stored.Some? ==> s == stored.value
    ensures stored.None? ==> s.scratchDesignPrice == 99
  {
    match stored
    case Some(v) => v
    case None => Settings(DefaultScratchPrice)
  }

  /** The record after an update: the price changes only when one is supplied. */
  function Updated(stored: Option<Settings>, price: Option<int>): (s: Settings)
    ensures price.Some? ==> s.scratchDesignPrice == price.value
    ensures price.None? ==> s == Ensured(stored)
  {
    match price
    case Some(p) => Settings(p)
    case None => Ensured(stored)
  }
}
