# Triangular arbitrage engine of the Binance socket server

This project models the arbitrage engine inside `bSocketServer.js`, a
Node.js server that watches Binance mini-ticker prices and trades
three-leg currency cycles, and proves properties of that model in Dafny.

The engine has five parts.

- **Pair lookup.** A configured symbol such as `ETH/BTC` becomes the exchange
  key `ETHBTC` by deleting its `/`. Each leg of a route is then enriched from
  the rate cache (`marketData`) and the lot-size minimums (`marketsMinimums`).
- **Cycle evaluation.** `getArbitrage` returns `-1` when any leg lacks data.
  Otherwise it threads a running quantity through the legs, starting from
  `initialETH = 0.012`: a buy divides by the rate, a sell multiplies by it.
  The scan loop computes the cycle's net return and starts a trade on the
  first route that beats the threshold while no trade is in progress.
- **Execution planning.** Every leg's quantity is floored to the pair's step,
  `10^-p`, where `p` counts the decimal shifts that bring the minimum order
  quantity to 1.
- **Rounding correction.** After a buy fills, a following sell that plans
  more than the buy executed is shrunk, in place, to the executed quantity.
  The floor uses as many decimals as the planned quantity prints with.
- **Rate cache, trade gate and executor.** Each tick overwrites the entries
  of its batch and the global time stamp. The executor submits the three
  legs one after another, stops at the first failed response, and
  disallows trading when it does.

Prices and quantities are exact `real`s. A floored quantity is a
`Numbers.Decimal`: an integer count of `10^-scale` units, kept in the
shortest form that JavaScript prints.

The fee is not compounded over the legs. One would expect each leg's
running quantity to carry the fee, giving a final quantity of
`initial * product of leg factors * (1 - fee)^n`. In the code (lines
172-174), each leg stores `quantity * (1 - fee)`, but the running variable
keeps the pre-fee amount. The next leg starts from the previous leg's
`preFeeQuantity`, and the fee is taken once, from the last leg. The model
follows the code:

- `Evaluation.FinalQuantity` proves the single-fee product;
- `Evaluation.SingleFeeExample` shows a cycle that clears a 0.7% threshold
  only because of this (0.80% instead of 0.60%).

The cooldown `await` at line 98 suspends only that route's own callback:
the other routes of the pass and the next pass are not delayed by it. The
model has no cooldown state.

The guards at lines 193, 201 and 209 test `isTradeOn` without calling it.
A function is always truthy, so every leg is sent whatever the gate would
say. The model sends every leg the same way; `Engine.TradeGate` models the
function itself, which only the tick handler's contract uses.

Modules (one file each): `Wrappers`, `Numbers`, `Consts`, `Market`,
`Evaluation`, `Planning`, `Engine`.

- The JavaScript's pure code is written as functions with lemmas.
- `getArbitrage` and `getPrecision` are loop methods, each proved equal to
  the function that specifies it.
- `fixRoundingErrors` works in place on an `array`.
- The module state is the class `Engine.ArbitrageEngine`. Its tick handler
  is a method proved against the function `Engine.Refreshed`. Its response
  callbacks and scan pass are methods proved against the specification
  function `Engine.RunFrom` of the three-leg chain.

## Model

| member | source | states |
|---|---|---|
| Numbers.FloorTo | bSocketServer.js:181-183 | `Math.floor(x * 10^p) / 10^p` is a shortest-form decimal with at most p decimals, at most x and within one step `10^-p` of x |
| Numbers.FloorToIsGreatest | bSocketServer.js:181-183 | no multiple of `10^-p` at or below x exceeds the floored value: the truncation loses less than one step |
| Numbers.NumOfDecimals | bSocketServer.js:253-255 | the count of characters after '.' is the least k with `num * 10^k` integral and is positive; it fails (the source throws) exactly when the number is integral and prints without '.' |
| Numbers.PrecisionIsLeast | bSocketServer.js:244-251 | the precision p of a positive minimum is the least count with `minQty * 10^p >= 1` (0 when minQty >= 1) |
| Numbers.Precision | bSocketServer.js:244-251 | the precision of a positive minimum is 0 exactly when the minimum is at least 1 |
| Numbers.GetPrecision | bSocketServer.js:244-251 | the loop multiplying by ten while below 1 returns that least count; it needs a positive minimum to stop |
| Market.IndexOf | bSocketServer.js:123 | `indexOf`: -1 exactly when the character is absent, otherwise the position of its first occurrence |
| Market.GetFormattedPair | bSocketServer.js:163-165 | the result is the symbol with exactly the character at the separator index removed |
| Market.FormattedPairRestores | bSocketServer.js:163-165 | putting the removed character back at the index gives the original symbol |
| Market.ExchangeKey | bSocketServer.js:123-125 | a symbol has an exchange key exactly when it contains '/' |
| Market.GetPairData | bSocketServer.js:122-129 | throws exactly when the key has a rate but no minimums; otherwise keeps the leg, has data exactly when the symbol has '/' and its key is cached, and then copies rate and time from the cache, the minimum from the minimums and its precision |
| Market.GetWorkOrders | bSocketServer.js:86 | the map throws exactly when some leg's lookup throws, and otherwise returns each leg's lookup in order |
| Evaluation.GetArbitrage | bSocketServer.js:167-176 | the data check followed by the map over a reassigned running quantity returns exactly the evaluation `Evaluate` |
| Evaluation.Fold | bSocketServer.js:170-175 | one evaluated leg per leg, the first converted from the initial amount |
| Evaluation.FoldAt | bSocketServer.js:171-174 | each later leg is evaluated on the previous leg's pre-fee quantity |
| Evaluation.EvaluateLeg | bSocketServer.js:171-174 | an evaluated leg keeps its leg and market data, enters with the running quantity, and its quantity is its pre-fee quantity less the fee |
| Evaluation.Evaluate | bSocketServer.js:167-176 | a found evaluation has one evaluated leg per work order |
| Evaluation.EvaluateOutcome | bSocketServer.js:169-175 | the result is the no-data sentinel exactly when some leg lacks data, non-finite exactly when every leg has data and some buy leg has a zero rate, and otherwise one evaluated leg per work order |
| Evaluation.EvaluatedLegs | bSocketServer.js:170-175 | leg i of a found result is leg i evaluated on the initial amount (i = 0) or on leg i-1's pre-fee quantity |
| Evaluation.LegConversion | bSocketServer.js:172-174 | an evaluated leg keeps its leg and market data, enters with the running quantity, converts it by the leg's factor (1/rate for a buy, rate for a sell) and takes the fee from the converted amount |
| Evaluation.LastLegFee | bSocketServer.js:174 | the last leg's quantity is its pre-fee quantity times (1 - fee) |
| Evaluation.FinalQuantity | bSocketServer.js:170-175 | the last leg's quantity is the initial amount times the product of the leg factors times (1 - fee), once |
| Evaluation.NetReturnOfCycle | bSocketServer.js:91 | the net return `last.quantity / initialETH - 1` equals the product of the leg factors times (1 - fee), less 1 |
| Evaluation.SingleFeeExample | bSocketServer.js:173-174 | three sells at 1.003 with a 0.1% fee return 1.003^3 * 0.999 - 1 > 0.7%, while a per-leg fee would return less than 0.7% |
| Evaluation.NetReturn | bSocketServer.js:91 | the net return r satisfies `initialETH * (r + 1) = last leg's quantity` |
| Evaluation.Qualifies | bSocketServer.js:86-92 | a qualifying route has at least one leg and all its lookups succeed |
| Evaluation.QualifiesByProduct | bSocketServer.js:86-92 | a route qualifies exactly when its lookups succeed, it has legs, every leg has data and a finite factor, and the product of the leg factors times (1 - fee), less 1, beats the threshold; the notional amount plays no part |
| Evaluation.QualifyingLegs | bSocketServer.js:86-94 | a qualifying route's evaluated legs are one per leg, in route order, each with a '/' in its symbol |
| Evaluation.FirstQualifying | bSocketServer.js:85-96 | the first index from which a route qualifies, with no qualifying route before it; none when no route qualifies |
| Planning.PlanOrder | bSocketServer.js:180-183 | an order keeps the symbol and side, its pair is the symbol's exchange key, nothing is recorded as an old quantity, and its quantity is a shortest-form decimal with no more decimals than the pair's precision |
| Planning.PlanIsFloored | bSocketServer.js:181-183 | the planned quantity is at most the planned amount (pre-fee for a buy, pre-execution for a sell) and falls short of it by less than one step of the pair's precision |
| Planning.CreateExecutionOrders | bSocketServer.js:178-185 | one order per leg, in order, each the plan of its leg |
| Planning.PlanIsLargestStep | bSocketServer.js:181-183 | no multiple of the pair's step at or below the planned amount exceeds the planned quantity |
| Planning.PlanIsCanonical | bSocketServer.js:178-185 | every planned quantity is in the shortest printed form the correction reads |
| Planning.FixRoundingErrors | bSocketServer.js:227-238 | the next order is returned unchanged unless a buy is followed by a sell that plans more than executed; then it throws exactly when the planned quantity prints without '.', and otherwise records the plan as `oldQuantity` and sets a shortest-form quantity with no more decimals than the plan, changing nothing else |
| Planning.CorrectionBounds | bSocketServer.js:228-232 | a corrected quantity is at most the executed quantity, which is below the plan, and falls short of the executed quantity by less than one step of the plan's decimals |
| Planning.FixNeverRaises | bSocketServer.js:228-232 | a correction never raises a quantity and keeps the pair and side |
| Planning.FixIsLargestCovered | bSocketServer.js:229-232 | the corrected quantity is the largest value with no more decimals than the plan that the executed quantity covers |
| Planning.FixExamples | bSocketServer.js:227-238 | 2.5 after a buy that executed 1.987 becomes 1.9 (one decimal, not the pair's step); a planned 2 throws; a sell after a sell is unchanged |
| Planning.FixRoundingErrorsAt | bSocketServer.js:227-238 | the in-place correction writes only the next order's slot, with the value `FixRoundingErrors` gives, and writes nothing when it throws |
| Engine.Proceed | bSocketServer.js:193-216 | after leg k goes out, the chain continues, with the corrected next order in shortest form, exactly when the response is not failed, the leg is not the third, a next order exists and its correction does not throw; it awaits exactly when there is no response, is rejected exactly when the response failed, completes exactly when the third leg filled, and throws at leg k+1 exactly when a good response meets a missing next order or a correction that throws |
| Engine.RunFrom | bSocketServer.js:191-222 | the chain from leg k sends at most the remaining legs and leaves an orders list of the same length |
| Engine.RunChain | bSocketServer.js:191-222 | the whole chain sends at most three orders |
| Engine.RunShape | bSocketServer.js:191-209 | the chain from leg k sends nothing exactly when there is no order k, and otherwise first sends the planned order k |
| Engine.RunIsSequential | bSocketServer.js:195-209 | leg j+1 is sent only after leg j's response succeeded, and it is `fixRoundingErrors(sent leg j, planned leg j+1, response j)` |
| Engine.RunWrites | bSocketServer.js:199-207 | afterwards the orders list holds each sent order in its leg's slot and the planned order everywhere else |
| Engine.SentNeverExceedsPlan | bSocketServer.js:199-209 | every sent order keeps its leg's pair and side and never exceeds its planned quantity |
| Engine.RunOutcome | bSocketServer.js:193-216 | a chain completes only after every leg filled, a rejection is at the last sent leg with a failed response, an awaited leg is the last sent one (the first without a response), and a throw names the leg after the last sent |
| Engine.RunEndsAtLastSent | bSocketServer.js:193-216 | conversely, the last sent leg's response decides the outcome: none sent means thrown at leg k; no response means awaiting it; a failed response means rejected there; a good one means completed after the third leg, and otherwise thrown at the next leg because that order is missing or its correction throws |
| Engine.RunGoesOn | bSocketServer.js:199-209 | after a good response to a sent leg that is not the third, the next leg goes out whenever its order exists and its correction does not throw |
| Engine.ChainCompletes | bSocketServer.js:191-216 | three planned orders, three good responses and no throwing correction: all three legs go out and the chain completes |
| Engine.Refreshed | bSocketServer.js:28-33 | a tick's cache has the old keys plus the batch's, the batch's entries set to close and event time, every other entry kept |
| Engine.TicksCompose | bSocketServer.js:28-33 | two ticks leave the cache as one tick of the merged batches, the later batch winning |
| Engine.TickIsIdempotent | bSocketServer.js:28-33 | replaying a batch changes nothing |
| Engine.TradeGate | bSocketServer.js:240-242 | disallowed trading closes the gate, and right after a tick it is open exactly when trading is allowed and the maximum age is positive |
| Engine.GateFreshness | bSocketServer.js:240-242 | right after a tick the gate is open exactly when trading is allowed and the maximum age is positive; a gate closed by age stays closed later; disallowed trading closes it |
| Engine.PlanFor | bSocketServer.js:94 | the plan of a qualifying route has one shortest-form order per leg, with its symbol and side |
| Engine.ArbitrageEngine.constructor | bSocketServer.js:13-18 | an empty cache, no time stamp and all three flags false |
| Engine.ArbitrageEngine.OnTick | bSocketServer.js:26-33 | the cache becomes the refreshed cache, the time stamp is now, the flags are unchanged, and the gate is then open exactly when trading is allowed and the maximum age is positive |
| Engine.ArbitrageEngine.StartRun | bSocketServer.js:77-78 | running and trading allowed, nothing else changed |
| Engine.ArbitrageEngine.BeginTrade | bSocketServer.js:189 | a trade is in progress, nothing else changed |
| Engine.ArbitrageEngine.OnLegFilled | bSocketServer.js:193-216 | one response callback yields `Proceed`, corrects only the next order in place, disallows trading exactly on a rejection and clears the in-progress flag exactly on completion |
| Engine.ArbitrageEngine.ExecuteLegs | bSocketServer.js:191-222 | the orders sent, the orders list afterwards and the outcome are those of the chain `RunChain`; trading is disallowed exactly on a rejection and the in-progress flag is cleared only on completion |
| Engine.ArbitrageEngine.MakeArbitrageTrade | bSocketServer.js:187-225 | raises the in-progress flag, runs the chain, and leaves the flag raised unless all three legs filled; a failed response to the last sent leg rejects the chain and disallows trading; three sent legs with three good responses complete it and clear the flag; with three planned orders, three good responses and no correction that throws, all three legs go out, the chain completes and the flag is cleared |
| Engine.ArbitrageEngine.EvaluateRoute | bSocketServer.js:86-94 | yields a plan exactly when the route qualifies, and then it is the route's plan |
| Engine.ArbitrageEngine.ExecutePlan | bSocketServer.js:96 | runs the chain on a fresh list holding the plan, with the outcome and flag changes of `RunChain` |
| Engine.ArbitrageEngine.ScanPass | bSocketServer.js:85-102 | with no trade in progress, the trade started is the first qualifying route's, and at most one per pass; with one in progress none starts; the started chain's outcome sets the flags as above; the cache is unchanged |

## Left out

- The HTTP and socket.io server, client counting, the `connection`, `disconnect` and `single trade` handlers, the `emit` notifications and all logging are not modelled. They are transport around the engine.
- The Binance websocket subscription and the `exchangeInfo` fetch (`getMinimums`) are not modelled. The minimums are a constructor input holding each pair's `minQty` as a decimal, and a tick is a map from pair to close and event time.
- `bConsts.js` is not part of this model. `FEE_PERCENT`, `MIN_ARBITRAGE_TO_TRADE` and `NOW_TO_LAST_UPDATED_MAX_DIFF` are the fields of a `Consts.Config` parameter; the clock's value is a parameter `now`.
- The exchange order calls are replaced by a sequence of abstract responses, one per leg. A chain whose response is missing ends as `AwaitingFill`; a response arriving later is not modelled.
- Callback scheduling is not modelled. The scan pass runs synchronously and raises the in-progress flag at once; the chain it starts runs after the pass ends.
- Timers are not modelled: `TEST_DURATION`, the cooldowns and the `while (isRunning)` loop. One call of `ScanPass` is one pass of that loop.
- IEEE-754 behaviour is not modelled. Arithmetic is exact, so there is no binary rounding inside `Math.floor(x * 10^p) / 10^p`.
- JavaScript's string-to-number coercion of `executedQty`, `minQty` and the ticker's `close` is not modelled: all three are numbers here. `close` is stored in the cache as received (line 31) and becomes a number only inside the arithmetic at line 173. An absent `executedQty` or `statusCode` compares false, as in the source.
- Exponent notation in `num + ""` is not modelled. In JavaScript, 1e-7 prints without '.', so `getNumOfDecimals` throws; the model prints every quantity positionally.
- Evaluation.GetArbitrage: a buy leg whose rate is 0 divides by zero in the source and continues with Infinity or NaN. The model stops with `NonFinite` and the scan skips the route, so a cycle whose return would come out as Infinity starts no trade here.
- Evaluation.Qualifies: a route with no legs makes the source throw inside its route callback, and the promise rejection goes unhandled. Here the route is skipped, with the same effect on the engine's state.
- Market.GetWorkOrders: a lookup that throws (a rate without minimums) becomes an unhandled rejection of that route's callback. Here the route is skipped; the rejection itself is not modelled.
- Market.GetPairData, and every member that looks legs up (`GetWorkOrders`, `Qualifies`, `PlanFor`, `ScanPass` and the rest), requires every `minQty` in the whole minimums map to be present and positive (`Market.MinimumsValid`). The source takes whatever `exchangeInfo` sent. A zero or negative minimum on a pair that a route looks up while its rate is cached makes the synchronous `while` at line 246 run forever and freezes the process; on a pair no route reaches it does no harm. A pair without a LOT_SIZE filter has no `minQty`: `getPrecision(undefined)` returns 0 because `undefined < 1` is false, so that pair's quantities are floored to whole units.
- Planning.CreateExecutionOrders requires a '/' in each symbol. A symbol without one never has data (`getPairData`), so it never reaches planning.
- Engine.Proceed: the outcome `Threw(k)` stands for an uncaught TypeError inside a Binance callback: `getNumOfDecimals` (line 254, reached from lines 199 and 207) on a quantity that prints without '.', or a missing `orders[k]`. By default Node ends the process on it. The model records `Threw` and the engine keeps running with `isPerformingArbitrage` still raised.
- Concurrent chains are not modelled. A chain still waiting on a response while later passes run is outside the model.

