/** Route legs, the rate cache's entries and the per-leg lookup
    (`getFormattedPair`, `getPairData`). */
module Market {
  import opened Wrappers
  import opened Numbers

  /** A leg's `order` field: 'buy' acquires the base asset; every other value
      is treated as a sell. */
  datatype Side = Buy | Sell

  /** A configured leg, `{symbol: "ETH/BTC", order: "buy"}`. */
  datatype RouteLeg = RouteLeg(symbol: string, side: Side)

  /** One entry of a mini-ticker batch from the feed. */
  datatype Ticker = Ticker(close: real, eventTime: int)

  /** `marketData[pair]`: the latest rate of a pair and its event time. */
  datatype Snapshot = Snapshot(currRate: real, time: int)

  /** `marketsMinimums[pair]`: the pair's LOT_SIZE minimum order quantity. */
  datatype Minimums = Minimums(minQty: Decimal)

  /** What `getPairData` adds to a leg that has data. */
  datatype MarketInfo = MarketInfo(currRate: real, minOrderQuantity: Decimal, quantityPrecision: nat, time: int)

  /** A leg enriched by `getPairData`; `hasData` is `info.Some?`. */
  datatype WorkOrder = WorkOrder(leg: RouteLeg, info: Option<MarketInfo>)
  {
    predicate HasData()
    {
      info.Some?
    }
  }

  /** `marketsMinimums[pair].minQty` on a pair that has no minimums throws. */
  datatype LookupError = MissingMinimums(pair: string)

  /** Every minimum order quantity is positive (otherwise `getPrecision`
      never returns). */
  predicate MinimumsValid(marketsMinimums: map<string, Minimums>)
  {
    forall pair :: pair in marketsMinimums ==> marketsMinimums[pair].minQty.digits > 0
  }

  /** `s.indexOf(c)`: the first index of c, or -1. */
  function IndexOf(s: string, c: char): (r: int)
    ensures -1 <= r < |s|
    ensures r == -1 <==> c !in s
    ensures 0 <= r ==> s[r] == c && c !in s[..r]
  {
    if |s| == 0 then -1
    else if s[0] == c then 0
    else
      var i := IndexOf(s[1..], c);
      assert i >= 0 ==> s[1..][..i] == s[1..i + 1];
      if i == -1 then -1 else i + 1
  }

  /** `getFormattedPair`: the symbol without the character at the separator
      index, e.g. "ETH/BTC" becomes "ETHBTC". */
  function GetFormattedPair(symbol: string, separatorIdx: nat): (r: string)
    requires separatorIdx < |symbol|
    ensures |r| == |symbol| - 1
    ensures forall j :: 0 <= j < separatorIdx ==> r[j] == symbol[j]
    ensures forall j :: separatorIdx <= j < |r| ==> r[j] == symbol[j + 1]
  {
    symbol[..separatorIdx] + symbol[separatorIdx + 1..]
  }

  /** Putting the removed character back gives the symbol again. */
  lemma FormattedPairRestores(symbol: string, separatorIdx: nat)
    requires separatorIdx < |symbol|
    ensures var pair := GetFormattedPair(symbol, separatorIdx);
      pair[..separatorIdx] + [symbol[separatorIdx]] + pair[separatorIdx..] == symbol
  {
    var pair := GetFormattedPair(symbol, separatorIdx);
    var back := pair[..separatorIdx] + [symbol[separatorIdx]] + pair[separatorIdx..];
    assert |back| == |symbol|;
    forall j | 0 <= j < |symbol|
      ensures back[j] == symbol[j]
    {
      if j > separatorIdx {
        assert back[j] == pair[j - 1];
      }
    }
  }

  /** The `marketData` key of a configured symbol: the symbol without its
      first '/', or nothing when it has none. */
  function ExchangeKey(symbol: string): (r: Option<string>)
    ensures r.None? <==> '/' !in symbol
  {
    var separatorIdx := IndexOf(symbol, '/');
    if separatorIdx == -1 then None else Some(GetFormattedPair(symbol, separatorIdx))
  }

  /** `getPairData`: look a leg up in the rate cache and the minimums. */
  function GetPairData(order: RouteLeg, marketData: map<string, Snapshot>,
                       marketsMinimums: map<string, Minimums>): (r: Result<WorkOrder, LookupError>)
    requires MinimumsValid(marketsMinimums)
    ensures var key := ExchangeKey(order.symbol);
      r.Err? <==> key.Some? && key.value in marketData && key.value !in marketsMinimums
    ensures r.Ok? ==> r.value.leg == order
    ensures r.Ok? ==>
      (r.value.HasData() <==> '/' in order.symbol && ExchangeKey(order.symbol).value in marketData)
    ensures r.Ok? && r.value.HasData() ==>
      var pair := ExchangeKey(order.symbol).value;
      var info := r.value.info.value;
      && info.currRate == marketData[pair].currRate
      && info.time == marketData[pair].time
      && info.minOrderQuantity == marketsMinimums[pair].minQty
      && info.quantityPrecision == Precision(info.minOrderQuantity)
  {
    match ExchangeKey(order.symbol)
    case None => Ok(WorkOrder(order, None))
    case Some(pair) =>
      if pair !in marketData then Ok(WorkOrder(order, None))
      else if pair !in marketsMinimums then Err(MissingMinimums(pair))
      else
        var minQty := marketsMinimums[pair].minQty;
        Ok(WorkOrder(order, Some(MarketInfo(marketData[pair].currRate, minQty, Precision(minQty), marketData[pair].time))))
  }

  /** `orders.map(order => getPairData(order))`: the first throwing leg
      aborts the whole map. */
  function GetWorkOrders(route: seq<RouteLeg>, marketData: map<string, Snapshot>,
                         marketsMinimums: map<string, Minimums>): (r: Result<seq<WorkOrder>, LookupError>)
    requires MinimumsValid(marketsMinimums)
    ensures r.Err? <==> exists i :: 0 <= i < |route| && GetPairData(route[i], marketData, marketsMinimums).Err?
    ensures r.Ok? ==> |r.value| == |route|
    ensures r.Ok? ==> forall i :: 0 <= i < |route| ==>
      GetPairData(route[i], marketData, marketsMinimums) == Ok(r.value[i])
  {
    if route == [] then Ok([])
    else
      match GetPairData(route[0], marketData, marketsMinimums)
      case Err(e) => Err(e)
      case Ok(first) =>
        match GetWorkOrders(route[1..], marketData, marketsMinimums)
        case Err(e) =>
          ghost var i :| 0 <= i < |route[1..]| && GetPairData(route[1..][i], marketData, marketsMinimums).Err?;
          assert GetPairData(route[i + 1], marketData, marketsMinimums).Err?;
          Err(e)
        case Ok(rest) =>
          assert forall i :: 0 < i < |route| ==> route[i] == route[1..][i - 1];
          Ok([first] + rest)
  }
}
