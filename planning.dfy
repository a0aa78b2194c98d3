/** Execution planning (`createExecutionOrders`) and the correction applied
    between legs (`fixRoundingErrors`). */
module Planning {
  import opened Wrappers
  import opened Numbers
  import opened Market
  import opened Evaluation

  /** An order ready to send: the configured symbol, the exchange pair, the
      side and the quantity; `oldQuantity` is set once a correction has
      replaced the planned quantity. */
  datatype ExecutionOrder = ExecutionOrder(unformattedPair: string, pair: string, side: Side,
                                           quantity: Decimal, oldQuantity: Option<Decimal>)

  /** The amount a leg is planned on: what a buy receives before the fee,
      what a sell spends. */
  function PlannedAmount(leg: EvaluatedLeg): real
  {
    if leg.leg.side == Buy then leg.preFeeQuantity else leg.preExecutionQuantity
  }

  /** One element of the map at lines 179-184: the symbol without its '/',
      and the planned amount floored to the pair's precision. */
  function PlanOrder(leg: EvaluatedLeg): (r: ExecutionOrder)
    requires '/' in leg.leg.symbol
    ensures r.unformattedPair == leg.leg.symbol
    ensures Some(r.pair) == ExchangeKey(leg.leg.symbol)
    ensures r.side == leg.leg.side
    ensures r.oldQuantity.None?
    ensures Canonical(r.quantity) && r.quantity.scale <= leg.info.quantityPrecision
  {
    var separatorIdx := IndexOf(leg.leg.symbol, '/');
    ExecutionOrder(leg.leg.symbol, GetFormattedPair(leg.leg.symbol, separatorIdx), leg.leg.side,
                   FloorTo(PlannedAmount(leg), leg.info.quantityPrecision), None)
  }

  /** `createExecutionOrders`: every leg planned, in order. */
  function CreateExecutionOrders(legs: seq<EvaluatedLeg>): (r: seq<ExecutionOrder>)
    requires forall i :: 0 <= i < |legs| ==> '/' in legs[i].leg.symbol
    ensures |r| == |legs|
    ensures forall i :: 0 <= i < |legs| ==> r[i] == PlanOrder(legs[i])
  {
    seq(|legs|, i requires 0 <= i < |legs| => PlanOrder(legs[i]))
  }

  /** Every order's quantity is printed without trailing zeros. */
  predicate AllCanonical(orders: seq<ExecutionOrder>)
  {
    forall i :: 0 <= i < |orders| ==> Canonical(orders[i].quantity)
  }

  /** The planned quantity does not exceed the planned amount and falls
      short of it by less than one step of the pair's precision. */
  lemma PlanIsFloored(leg: EvaluatedLeg)
    requires '/' in leg.leg.symbol
    ensures var q := PlanOrder(leg).quantity;
      q.Value() <= PlannedAmount(leg) < q.Value() + Step(leg.info.quantityPrecision)
  {
  }

  /** The planned quantity is the largest multiple of the pair's step that
      does not exceed the planned amount. */
  lemma PlanIsLargestStep(leg: EvaluatedLeg, d: Decimal)
    requires '/' in leg.leg.symbol
    requires d.scale <= leg.info.quantityPrecision && d.Value() <= PlannedAmount(leg)
    ensures d.Value() <= PlanOrder(leg).quantity.Value()
  {
    FloorToIsGreatest(PlannedAmount(leg), leg.info.quantityPrecision, d);
  }

  /** The plan of a qualifying route: one order per leg, each canonical. */
  lemma {:induction false} PlanIsCanonical(legs: seq<EvaluatedLeg>)
    requires forall i :: 0 <= i < |legs| ==> '/' in legs[i].leg.symbol
    ensures AllCanonical(CreateExecutionOrders(legs))
  {
    var r := CreateExecutionOrders(legs);
    forall i | 0 <= i < |r|
      ensures Canonical(r[i].quantity)
    {
      assert r[i] == PlanOrder(legs[i]);
    }
  }

  /** An exchange response: whether the callback received an error, the
      response's status code (absent on some responses) and the executed
      quantity (absent when the response carries none). */
  datatype Fill = Fill(err: bool, statusCode: Option<int>, executedQty: Option<real>)

  /** `err || res.statusCode > 200`; an absent status code compares false. */
  predicate Failed(fill: Fill)
  {
    fill.err || (fill.statusCode.Some? && fill.statusCode.value > 200)
  }

  /** The guard at line 228: a buy followed by a sell whose planned quantity
      exceeds what the buy executed (an absent quantity compares false). */
  predicate NeedsCorrection(executed: ExecutionOrder, next: ExecutionOrder, fill: Fill)
  {
    && executed.side == Buy
    && next.side == Sell
    && fill.executedQty.Some?
    && next.quantity.Value() > fill.executedQty.value
  }

  /** `fixRoundingErrors` as a value: the next order, shrunk to what the buy
      executed when the guard holds. The floor keeps as many decimals as the
      planned quantity prints with; a planned quantity printed without '.'
      makes `getNumOfDecimals` throw. */
  function FixRoundingErrors(executed: ExecutionOrder, next: ExecutionOrder, fill: Fill): (r: Result<ExecutionOrder, NumberError>)
    requires Canonical(next.quantity)
    ensures !NeedsCorrection(executed, next, fill) ==> r == Ok(next)
    ensures NeedsCorrection(executed, next, fill) ==> (r.Err? <==> IsIntegral(next.quantity.Value()))
    ensures NeedsCorrection(executed, next, fill) && r.Ok? ==>
      && r.value == next.(quantity := r.value.quantity, oldQuantity := Some(next.quantity))
      && Canonical(r.value.quantity)
      && r.value.quantity.scale <= next.quantity.scale
  {
    if !NeedsCorrection(executed, next, fill) then Ok(next)
    else
      match NumOfDecimals(next.quantity)
      case Err(e) => Err(e)
      case Ok(decimals) =>
        Ok(next.(oldQuantity := Some(next.quantity), quantity := FloorTo(fill.executedQty.value, decimals)))
  }

  /** A corrected quantity is the executed quantity floored to the plan's
      decimals: at most what the buy executed, which is below the plan, and
      less than one step of those decimals under it. */
  lemma CorrectionBounds(executed: ExecutionOrder, next: ExecutionOrder, fill: Fill)
    requires Canonical(next.quantity)
    requires NeedsCorrection(executed, next, fill)
    requires FixRoundingErrors(executed, next, fill).Ok?
    ensures var fixed := FixRoundingErrors(executed, next, fill).value.quantity;
      && fixed.Value() <= fill.executedQty.value < next.quantity.Value()
      && fill.executedQty.value < fixed.Value() + Step(next.quantity.scale)
  {
    var decimals := NumOfDecimals(next.quantity).value;
    assert decimals == next.quantity.scale;
  }

  /** A correction never raises a quantity, and the result stays canonical. */
  lemma FixNeverRaises(executed: ExecutionOrder, next: ExecutionOrder, fill: Fill)
    requires Canonical(next.quantity)
    requires FixRoundingErrors(executed, next, fill).Ok?
    ensures var fixed := FixRoundingErrors(executed, next, fill).value;
      && Canonical(fixed.quantity)
      && fixed.quantity.Value() <= next.quantity.Value()
      && fixed.side == next.side && fixed.pair == next.pair
  {
    if NeedsCorrection(executed, next, fill) {
      CorrectionBounds(executed, next, fill);
    }
  }

  /** A corrected quantity is the largest value with no more decimals than
      the plan that the buy's executed quantity covers. */
  lemma FixIsLargestCovered(executed: ExecutionOrder, next: ExecutionOrder, fill: Fill, d: Decimal)
    requires Canonical(next.quantity)
    requires NeedsCorrection(executed, next, fill)
    requires FixRoundingErrors(executed, next, fill).Ok?
    requires d.scale <= next.quantity.scale && d.Value() <= fill.executedQty.value
    ensures d.Value() <= FixRoundingErrors(executed, next, fill).value.quantity.Value()
  {
    FloorToIsGreatest(fill.executedQty.value, next.quantity.scale, d);
  }

  /** A planned sell of 2.5 after a buy that executed 1.987 becomes 1.9,
      floored to the plan's one decimal rather than to the pair's step; a
      planned sell of 2, printed without '.', makes the correction throw. */
  lemma FixExamples()
    ensures var buy := ExecutionOrder("ETH/BTC", "ETHBTC", Buy, Decimal(3, 0), None);
      var sell := ExecutionOrder("BNB/ETH", "BNBETH", Sell, Decimal(25, 1), None);
      var fill := Fill(false, Some(200), Some(1.987));
      && FixRoundingErrors(buy, sell, fill) == Ok(sell.(quantity := Decimal(19, 1), oldQuantity := Some(Decimal(25, 1))))
      && FixRoundingErrors(buy, sell.(quantity := Decimal(2, 0)), fill) == Err(NoDecimalPoint)
      && FixRoundingErrors(sell, sell, fill) == Ok(sell)
  {
    assert (1.987 * Scale(1)).Floor == 19;
    assert Normalize(Decimal(19, 1)) == Decimal(19, 1);
  }

  /** `fixRoundingErrors(orders[i], orders[i + 1], res)`: the next order is
      corrected in place, in the array the chain reads from. When
      `getNumOfDecimals` throws nothing has been written yet. */
  method FixRoundingErrorsAt(orders: array<ExecutionOrder>, i: nat, fill: Fill) returns (r: Result<ExecutionOrder, NumberError>)
    requires i + 1 < orders.Length
    requires Canonical(orders[i + 1].quantity)
    modifies orders
    ensures r == FixRoundingErrors(old(orders[i]), old(orders[i + 1]), fill)
    ensures r.Ok? ==> orders[..] == old(orders[..])[i + 1 := r.value]
    ensures r.Err? ==> orders[..] == old(orders[..])
  {
    var executed := orders[i];
    var next := orders[i + 1];
    if executed.side == Buy && next.side == Sell && fill.executedQty.Some?
       && next.quantity.Value() > fill.executedQty.value {
      var currPrecision := NumOfDecimals(next.quantity);
      if currPrecision.Err? {
        return Err(currPrecision.error);
      }
      orders[i + 1] := orders[i + 1].(oldQuantity := Some(next.quantity));
      orders[i + 1] := orders[i + 1].(quantity := FloorTo(fill.executedQty.value, currPrecision.value));
    }
    r := Ok(orders[i + 1]);
  }
}
