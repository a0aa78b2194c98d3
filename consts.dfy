/** The engine's tunable constants. The constants file the server reads them
    from is not part of this model, so they are a parameter here. */
module Consts {

  /** FEE_PERCENT, MIN_ARBITRAGE_TO_TRADE and NOW_TO_LAST_UPDATED_MAX_DIFF. */
  datatype Config = Config(feePercent: real, minArbitrageToTrade: real, maxStaleness: int)

  /** `initialETH`: the notional amount every route is evaluated with. */
  const InitialEth: real := 0.012
}
