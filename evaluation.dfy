/** Cycle evaluation (`getArbitrage`) and the per-route decision of the
    scan loop. */
module Evaluation {
  import opened Wrappers
  import opened Consts
  import opened Market
  import opened Numbers

  /** A leg after simulation: the quantity entering it, the quantity after
      conversion and the quantity after the fee, which feeds the next leg. */
  datatype EvaluatedLeg = EvaluatedLeg(leg: RouteLeg, info: MarketInfo,
                                       preExecutionQuantity: real, preFeeQuantity: real, quantity: real)

  /** `getArbitrage`'s result: `-1` when a leg has no data, else the list.
      A buy leg whose rate is 0 makes the source divide by zero and carry
      on with Infinity or NaN; exact arithmetic stops there with NonFinite. */
  datatype Arbitrage = NoData | NonFinite | Found(legs: seq<EvaluatedLeg>)

  predicate AllHaveData(orders: seq<WorkOrder>)
  {
    forall i :: 0 <= i < |orders| ==> orders[i].HasData()
  }

  /** The leg's conversion stays within the finite reals. */
  predicate Finite(order: WorkOrder)
    requires order.HasData()
  {
    order.leg.side == Sell || order.info.value.currRate != 0.0
  }

  predicate AllFinite(orders: seq<WorkOrder>)
    requires AllHaveData(orders)
  {
    forall i :: 0 <= i < |orders| ==> Finite(orders[i])
  }

  /** What remains of an amount once the fee is taken from it. */
  function AfterFee(amount: real, fee: real): real
  {
    amount * (1.0 - fee)
  }

  /** One step of the map at lines 171-175: buy divides by the rate, sell
      multiplies by it, and the fee is taken from the result. */
  function EvaluateLeg(order: WorkOrder, quantity: real, fee: real): (r: EvaluatedLeg)
    requires order.HasData() && Finite(order)
    ensures r.leg == order.leg && Some(r.info) == order.info
    ensures r.preExecutionQuantity == quantity
    ensures r.quantity == AfterFee(r.preFeeQuantity, fee)
  {
    var rate := order.info.value.currRate;
    var preFee := if order.leg.side == Buy then quantity / rate else quantity * rate;
    EvaluatedLeg(order.leg, order.info.value, quantity, preFee, AfterFee(preFee, fee))
  }

  /** The running quantity threaded through the legs, from `quantity`. The
      captured variable is reassigned to the converted, pre-fee amount, so
      each leg is evaluated on the previous leg's preFeeQuantity. */
  function Fold(orders: seq<WorkOrder>, quantity: real, fee: real): (r: seq<EvaluatedLeg>)
    requires AllHaveData(orders) && AllFinite(orders)
    ensures |r| == |orders|
    ensures |r| > 0 ==> r[0] == EvaluateLeg(orders[0], quantity, fee)
  {
    if orders == [] then []
    else
      var first := EvaluateLeg(orders[0], quantity, fee);
      [first] + Fold(orders[1..], first.preFeeQuantity, fee)
  }

  /** Every later leg is evaluated on the previous leg's pre-fee quantity. */
  lemma {:induction false} FoldAt(orders: seq<WorkOrder>, quantity: real, fee: real, i: nat)
    requires AllHaveData(orders) && AllFinite(orders) && 0 < i < |orders|
    ensures Fold(orders, quantity, fee)[i] == EvaluateLeg(orders[i], Fold(orders, quantity, fee)[i - 1].preFeeQuantity, fee)
    decreases i
  {
    var first := EvaluateLeg(orders[0], quantity, fee);
    var rest := orders[1..];
    assert AllHaveData(rest) && AllFinite(rest) by {
      assert forall j :: 0 <= j < |rest| ==> rest[j] == orders[j + 1];
    }
    assert Fold(orders, quantity, fee) == [first] + Fold(rest, first.preFeeQuantity, fee);
    if i > 1 {
      FoldAt(rest, first.preFeeQuantity, fee, i - 1);
    }
    assert rest[i - 1] == orders[i];
  }

  lemma {:induction false} FoldUnfolds(orders: seq<WorkOrder>, i: nat, quantity: real, fee: real)
    requires AllHaveData(orders) && AllFinite(orders) && i < |orders|
    ensures AllHaveData(orders[i..]) && AllFinite(orders[i..])
    ensures AllHaveData(orders[i + 1..]) && AllFinite(orders[i + 1..])
    ensures Fold(orders[i..], quantity, fee) ==
      [EvaluateLeg(orders[i], quantity, fee)] + Fold(orders[i + 1..], EvaluateLeg(orders[i], quantity, fee).preFeeQuantity, fee)
  {
    assert orders[i..][0] == orders[i];
    assert orders[i..][1..] == orders[i + 1..];
  }

  /** The value `getArbitrage` returns, all or nothing: NoData exactly when
      some leg lacks data, NonFinite exactly when every leg has data and some
      buy has rate 0, and otherwise one evaluated leg per leg. */
  function Evaluate(orders: seq<WorkOrder>, initialAmount: real, fee: real): (r: Arbitrage)
    ensures r.Found? ==> |r.legs| == |orders|
  {
    if !AllHaveData(orders) then NoData
    else if !AllFinite(orders) then NonFinite
    else Found(Fold(orders, initialAmount, fee))
  }

  /** Which outcome a route gets: no data when some leg has no market data,
      otherwise a non-finite result when some buy leg has a zero rate,
      otherwise one evaluated leg per work order. */
  lemma EvaluateOutcome(orders: seq<WorkOrder>, initialAmount: real, fee: real)
    ensures var r := Evaluate(orders, initialAmount, fee);
      && (r.NoData? <==> exists i :: 0 <= i < |orders| && !orders[i].HasData())
      && (r.NonFinite? <==> AllHaveData(orders) && exists i :: 0 <= i < |orders| && !Finite(orders[i]))
      && (r.Found? ==> |r.legs| == |orders|)
  {
  }

  /** `getArbitrage`: the `every` test, then the map that reassigns the
      captured running quantity. */
  method GetArbitrage(orders: seq<WorkOrder>, initialAmount: real, fee: real) returns (r: Arbitrage)
    ensures r == Evaluate(orders, initialAmount, fee)
  {
    var i := 0;
    while i < |orders|
      invariant 0 <= i <= |orders|
      invariant forall j :: 0 <= j < i ==> orders[j].HasData()
    {
      if !orders[i].HasData() {
        return NoData;
      }
      i := i + 1;
    }
    var quantity := initialAmount;
    var legs: seq<EvaluatedLeg> := [];
    i := 0;
    while i < |orders|
      invariant 0 <= i <= |orders|
      invariant forall j :: 0 <= j < i ==> Finite(orders[j])
      invariant AllFinite(orders) ==> Fold(orders, initialAmount, fee) == legs + Fold(orders[i..], quantity, fee)
    {
      var order := orders[i];
      if order.leg.side == Buy && order.info.value.currRate == 0.0 {
        return NonFinite;
      }
      var evaluated := EvaluateLeg(order, quantity, fee);
      assert AllFinite(orders) ==> Fold(orders[i..], quantity, fee) == [evaluated] + Fold(orders[i + 1..], evaluated.preFeeQuantity, fee) by {
        if AllFinite(orders) {
          FoldUnfolds(orders, i, quantity, fee);
        }
      }
      quantity := evaluated.preFeeQuantity;
      legs := legs + [evaluated];
      i := i + 1;
    }
    assert orders[i..] == [];
    r := Found(legs);
  }

  /** The legs are evaluated in route order, each on the quantity entering
      it: the initial amount for the first, then the previous leg's pre-fee
      quantity (the fee never reaches the running quantity). */
  lemma {:induction false} EvaluatedLegs(orders: seq<WorkOrder>, initialAmount: real, fee: real, i: nat)
    requires Evaluate(orders, initialAmount, fee).Found?
    requires i < |orders|
    ensures var legs := Evaluate(orders, initialAmount, fee).legs;
      && |legs| == |orders|
      && legs[i] == EvaluateLeg(orders[i], if i == 0 then initialAmount else legs[i - 1].preFeeQuantity, fee)
  {
    if i > 0 {
      FoldAt(orders, initialAmount, fee, i);
    }
  }

  /** What an evaluated leg holds: the leg and its market data, the quantity
      entering it, that quantity converted by the leg's factor, and the
      converted quantity less the fee. */
  lemma {:induction false} LegConversion(e: EvaluatedLeg, order: WorkOrder, quantity: real, fee: real)
    requires order.HasData() && Finite(order)
    requires e == EvaluateLeg(order, quantity, fee)
    ensures && e.leg == order.leg
            && Some(e.info) == order.info
            && e.preExecutionQuantity == quantity
            && e.preFeeQuantity == e.preExecutionQuantity * LegFactor(order)
            && e.quantity == AfterFee(e.preFeeQuantity, fee)
  {
    ConvertByFactor(order, quantity, fee);
  }

  /** The factor a leg applies to the running quantity before the fee. */
  function LegFactor(order: WorkOrder): real
    requires order.HasData() && Finite(order)
  {
    if order.leg.side == Buy then 1.0 / order.info.value.currRate else order.info.value.currRate
  }

  /** Every leg's factor, in route order. */
  function Factors(orders: seq<WorkOrder>): (r: seq<real>)
    requires AllHaveData(orders) && AllFinite(orders)
    ensures |r| == |orders|
    ensures forall i :: 0 <= i < |r| ==> r[i] == LegFactor(orders[i])
  {
    seq(|orders|, i requires 0 <= i < |orders| => LegFactor(orders[i]))
  }

  function Prod(s: seq<real>): real
  {
    if s == [] then 1.0 else s[0] * Prod(s[1..])
  }

  /** The product of every leg's factor. */
  function Product(orders: seq<WorkOrder>): real
    requires AllHaveData(orders) && AllFinite(orders)
  {
    Prod(Factors(orders))
  }

  /** A quantity taken through the factors one after the other. */
  function Chain(s: seq<real>, quantity: real): real
  {
    if s == [] then quantity else Chain(s[1..], quantity * s[0])
  }

  lemma {:induction false} ConvertByFactor(order: WorkOrder, quantity: real, fee: real)
    requires order.HasData() && Finite(order)
    ensures EvaluateLeg(order, quantity, fee).preFeeQuantity == quantity * LegFactor(order)
  {
    if order.leg.side == Buy {
      var rate := order.info.value.currRate;
      assert quantity / rate == quantity * (1.0 / rate);
    }
  }

  /** Reassociation for one inductive step of ChainIsProduct. */
  lemma {:induction false} Regroup(q: real, f: real, p: real, first: real, last: real, product: real)
    requires first == q * f
    requires last == first * p
    requires product == f * p
    ensures last == q * product
  {
  }

  /** The last evaluated leg of a non-empty route: the one `getArbitrage`'s
      caller reads the cycle's outcome from. */
  function LastLeg(orders: seq<WorkOrder>, quantity: real, fee: real): EvaluatedLeg
    requires AllHaveData(orders) && AllFinite(orders) && |orders| > 0
  {
    Fold(orders, quantity, fee)[|orders| - 1]
  }

  /** The last leg of a cycle is the last leg of its tail, started from the
      first leg's pre-fee quantity. */
  lemma {:induction false} LastOfTail(orders: seq<WorkOrder>, quantity: real, fee: real)
    requires AllHaveData(orders) && AllFinite(orders) && |orders| > 1
    ensures AllHaveData(orders[1..]) && AllFinite(orders[1..])
    ensures LastLeg(orders, quantity, fee) ==
      LastLeg(orders[1..], EvaluateLeg(orders[0], quantity, fee).preFeeQuantity, fee)
  {
    var rest := orders[1..];
    assert forall i :: 0 <= i < |rest| ==> rest[i] == orders[i + 1];
  }

  lemma {:induction false} ChainStep(s: seq<real>, quantity: real)
    requires s != []
    ensures Chain(s, quantity) == Chain(s[1..], quantity * s[0])
  {
  }

  /** Applying the factors one by one is multiplying by their product. */
  lemma {:induction false} ChainIsProduct(s: seq<real>, quantity: real)
    ensures Chain(s, quantity) == quantity * Prod(s)
    decreases |s|
  {
    if s != [] {
      ChainIsProduct(s[1..], quantity * s[0]);
      Regroup(quantity, s[0], Prod(s[1..]), quantity * s[0], Chain(s, quantity), Prod(s));
    }
  }

  /** The last leg's pre-fee quantity is the starting quantity taken through
      every leg's factor: the fee never enters the running quantity. */
  lemma {:induction false} PreFeeChain(orders: seq<WorkOrder>, quantity: real, fee: real)
    requires AllHaveData(orders) && AllFinite(orders) && |orders| > 0
    ensures LastLeg(orders, quantity, fee).preFeeQuantity == Chain(Factors(orders), quantity)
    decreases |orders|
  {
    var entering := EvaluateLeg(orders[0], quantity, fee).preFeeQuantity;
    var s := Factors(orders);
    assert entering == quantity * s[0] by {
      ConvertByFactor(orders[0], quantity, fee);
    }
    ChainStep(s, quantity);
    if |orders| > 1 {
      LastOfTail(orders, quantity, fee);
      PreFeeChain(orders[1..], entering, fee);
      assert s[1..] == Factors(orders[1..]);
    }
  }

  /** The last leg's pre-fee quantity is the starting quantity times every
      leg's factor. */
  lemma {:induction false} PreFeeProduct(orders: seq<WorkOrder>, quantity: real, fee: real)
    requires AllHaveData(orders) && AllFinite(orders) && |orders| > 0
    ensures LastLeg(orders, quantity, fee).preFeeQuantity == quantity * Product(orders)
  {
    PreFeeChain(orders, quantity, fee);
    ChainIsProductOfRoute(orders, quantity);
  }

  lemma {:induction false} ChainIsProductOfRoute(orders: seq<WorkOrder>, quantity: real)
    requires AllHaveData(orders) && AllFinite(orders)
    ensures Chain(Factors(orders), quantity) == quantity * Product(orders)
  {
    ChainIsProduct(Factors(orders), quantity);
  }

  /** The last leg's quantity is the initial amount times every leg's factor
      times (1 - fee) exactly once: the running quantity skips the fee, so
      the fee is not compounded over the legs. */
  lemma {:induction false} FinalQuantity(orders: seq<WorkOrder>, quantity: real, fee: real)
    requires AllHaveData(orders) && AllFinite(orders) && |orders| > 0
    ensures LastLeg(orders, quantity, fee).quantity == AfterFee(quantity * Product(orders), fee)
  {
    LastLegFee(orders, quantity, fee);
    PreFeeProduct(orders, quantity, fee);
  }

  /** The fee is taken once, from the last leg's converted quantity. */
  lemma {:induction false} LastLegFee(orders: seq<WorkOrder>, quantity: real, fee: real)
    requires AllHaveData(orders) && AllFinite(orders) && |orders| > 0
    ensures LastLeg(orders, quantity, fee).quantity == AfterFee(LastLeg(orders, quantity, fee).preFeeQuantity, fee)
  {
    if |orders| > 1 {
      FoldAt(orders, quantity, fee, |orders| - 1);
    }
  }

  /** `last.quantity / initialETH - 1`: the gain relative to the initial
      amount, so the last leg's quantity is `initialETH * (1 + r)`. */
  function NetReturn(legs: seq<EvaluatedLeg>): (r: real)
    requires |legs| > 0
    ensures InitialEth * (r + 1.0) == legs[|legs| - 1].quantity
  {
    legs[|legs| - 1].quantity / InitialEth - 1.0
  }

  /** The net return of an evaluated cycle does not depend on the notional
      amount: it is the product of the leg factors, times one fee factor,
      less 1. */
  lemma {:induction false} NetReturnOfCycle(orders: seq<WorkOrder>, fee: real)
    requires Evaluate(orders, InitialEth, fee).Found? && |orders| > 0
    ensures NetReturn(Evaluate(orders, InitialEth, fee).legs) == AfterFee(Product(orders), fee) - 1.0
  {
    var final := LastLeg(orders, InitialEth, fee).quantity;
    assert NetReturn(Evaluate(orders, InitialEth, fee).legs) == final / InitialEth - 1.0;
    FinalQuantity(orders, InitialEth, fee);
    ReturnOnInitial(final, Product(orders), fee);
  }

  lemma {:induction false} ReturnOnInitial(final: real, product: real, fee: real)
    requires final == AfterFee(InitialEth * product, fee)
    ensures final / InitialEth - 1.0 == AfterFee(product, fee) - 1.0
  {
  }

  /** Three sell legs at 1.003 with a 0.1% fee: the cycle's net return is
      1.003^3 * 0.999 - 1 (about 0.80%), so it clears a 0.7% threshold. With
      the fee taken on every leg it would be (1.003 * 0.999)^3 - 1 (about
      0.60%), which does not. */
  lemma {:induction false} SingleFeeExample()
    ensures var o := WorkOrder(RouteLeg("ETH/BTC", Sell), Some(MarketInfo(1.003, Decimal(1, 3), 3, 0)));
      var r := Evaluate([o, o, o], InitialEth, 0.001);
      && r.Found?
      && NetReturn(r.legs) == 1.003 * 1.003 * 1.003 * 0.999 - 1.0
      && NetReturn(r.legs) > 0.007
      && (1.003 * 0.999) * (1.003 * 0.999) * (1.003 * 0.999) - 1.0 < 0.007
  {
    var o := WorkOrder(RouteLeg("ETH/BTC", Sell), Some(MarketInfo(1.003, Decimal(1, 3), 3, 0)));
    var orders := [o, o, o];
    NetReturnOfCycle(orders, 0.001);
    assert Factors(orders) == [1.003, 1.003, 1.003];
    assert Prod([1.003, 1.003, 1.003]) == 1.003 * 1.003 * 1.003 by {
      assert [1.003, 1.003, 1.003][1..] == [1.003, 1.003];
      assert [1.003, 1.003][1..] == [1.003];
      assert [1.003][1..] == [];
    }
  }

  /** Lines 86-92: the route is evaluated and its net return exceeds the
      threshold. A lookup that throws, a missing rate, a non-finite result
      and an empty route (whose last leg does not exist) all skip it. */
  predicate Qualifies(route: seq<RouteLeg>, marketData: map<string, Snapshot>,
                      marketsMinimums: map<string, Minimums>, config: Config): (q: bool)
    requires MinimumsValid(marketsMinimums)
    ensures q ==> |route| > 0 && GetWorkOrders(route, marketData, marketsMinimums).Ok?
  {
    var work := GetWorkOrders(route, marketData, marketsMinimums);
    && work.Ok?
    && var arbitrage := Evaluate(work.value, InitialEth, config.feePercent);
    && arbitrage.Found?
    && |arbitrage.legs| > 0
    && NetReturn(arbitrage.legs) > config.minArbitrageToTrade
  }

  /** A route qualifies exactly when its lookups succeed, every leg has
      data and a finite factor, and the product of the leg factors after one
      fee, less 1, beats the threshold: the notional amount plays no part. */
  lemma QualifiesByProduct(route: seq<RouteLeg>, marketData: map<string, Snapshot>,
                           marketsMinimums: map<string, Minimums>, config: Config)
    requires MinimumsValid(marketsMinimums)
    ensures Qualifies(route, marketData, marketsMinimums, config) <==>
      && GetWorkOrders(route, marketData, marketsMinimums).Ok?
      && var work := GetWorkOrders(route, marketData, marketsMinimums).value;
      && |work| > 0 && AllHaveData(work) && AllFinite(work)
      && AfterFee(Product(work), config.feePercent) - 1.0 > config.minArbitrageToTrade
  {
    var lookup := GetWorkOrders(route, marketData, marketsMinimums);
    if lookup.Ok? && |lookup.value| > 0 && Evaluate(lookup.value, InitialEth, config.feePercent).Found? {
      NetReturnOfCycle(lookup.value, config.feePercent);
    }
  }

  /** The evaluated legs of a qualifying route. */
  function QualifyingLegs(route: seq<RouteLeg>, marketData: map<string, Snapshot>,
                          marketsMinimums: map<string, Minimums>, config: Config): (legs: seq<EvaluatedLeg>)
    requires MinimumsValid(marketsMinimums)
    requires Qualifies(route, marketData, marketsMinimums, config)
    ensures |legs| == |route| > 0
    ensures forall i :: 0 <= i < |legs| ==> legs[i].leg == route[i] && '/' in legs[i].leg.symbol
  {
    var work := GetWorkOrders(route, marketData, marketsMinimums).value;
    var legs := Evaluate(work, InitialEth, config.feePercent).legs;
    forall i | 0 <= i < |legs|
      ensures legs[i].leg == route[i] && '/' in legs[i].leg.symbol
    {
      EvaluatedLegs(work, InitialEth, config.feePercent, i);
      LegConversion(legs[i], work[i], if i == 0 then InitialEth else legs[i - 1].preFeeQuantity, config.feePercent);
      assert GetPairData(route[i], marketData, marketsMinimums) == Ok(work[i]);
    }
    legs
  }

  /** The index of the first set flag at or after `from`, if any. */
  function FirstTrue(flags: seq<bool>, from: nat): (r: Option<nat>)
    requires from <= |flags|
    ensures r.Some? ==> from <= r.value < |flags| && flags[r.value] && forall j :: from <= j < r.value ==> !flags[j]
    ensures r.None? ==> forall j :: from <= j < |flags| ==> !flags[j]
    decreases |flags| - from
  {
    if from == |flags| then None
    else if flags[from] then Some(from)
    else FirstTrue(flags, from + 1)
  }

  /** Whether each route qualifies, in route order. */
  function QualifyingFlags(routes: seq<seq<RouteLeg>>, marketData: map<string, Snapshot>,
                           marketsMinimums: map<string, Minimums>, config: Config): (flags: seq<bool>)
    requires MinimumsValid(marketsMinimums)
    ensures |flags| == |routes|
    ensures forall i :: 0 <= i < |routes| ==> flags[i] == Qualifies(routes[i], marketData, marketsMinimums, config)
  {
    seq(|routes|, i requires 0 <= i < |routes| => Qualifies(routes[i], marketData, marketsMinimums, config))
  }

  /** The index of the first route that qualifies, if any. */
  function FirstQualifying(routes: seq<seq<RouteLeg>>, from: nat, marketData: map<string, Snapshot>,
                           marketsMinimums: map<string, Minimums>, config: Config): (r: Option<nat>)
    requires MinimumsValid(marketsMinimums)
    requires from <= |routes|
    ensures r.Some? ==>
      && from <= r.value < |routes|
      && Qualifies(routes[r.value], marketData, marketsMinimums, config)
      && forall j :: from <= j < r.value ==> !Qualifies(routes[j], marketData, marketsMinimums, config)
    ensures r.None? ==> forall j :: from <= j < |routes| ==> !Qualifies(routes[j], marketData, marketsMinimums, config)
  {
    FirstTrue(QualifyingFlags(routes, marketData, marketsMinimums, config), from)
  }

}
