/** The rate cache, the trade gate, the three-leg executor
    (`makeArbitrageTrade`) and one pass of the scan loop. */
module Engine {
  import opened Wrappers
  import opened Numbers
  import opened Consts
  import opened Market
  import opened Evaluation
  import opened Planning

  /** `makeArbitrageTrade` submits at most three legs. */
  const ChainLength: nat := 3

  /** How a chain ended: all three legs filled; leg `leg` came back with an
      error or a status above 200; reading leg `leg` threw (a missing order,
      or a correction whose quantity has no '.'); or leg `leg` was submitted
      and its response has not arrived. */
  datatype TradeOutcome = Completed | Rejected(leg: nat) | Threw(leg: nat) | AwaitingFill(leg: nat)

  /** A chain's trace: the orders submitted, in order, the orders list after
      the in-place corrections, and the outcome. */
  datatype Run = Run(sent: seq<ExecutionOrder>, orders: seq<ExecutionOrder>, outcome: TradeOutcome)

  /** What happens once leg k has been sent: `Err(outcome)` when the chain
      stops there, `Ok(next)` with the corrected order of leg k + 1 when it
      goes on. */
  function Proceed(orders: seq<ExecutionOrder>, fills: seq<Fill>, k: nat): (r: Result<ExecutionOrder, TradeOutcome>)
    requires k < ChainLength && k < |orders| && AllCanonical(orders)
    ensures r.Ok? <==>
      && k < |fills| && !Failed(fills[k]) && k + 1 < ChainLength && k + 1 < |orders|
      && FixRoundingErrors(orders[k], orders[k + 1], fills[k]).Ok?
    ensures r.Ok? ==> FixRoundingErrors(orders[k], orders[k + 1], fills[k]) == Ok(r.value)
    ensures r.Ok? ==> Canonical(r.value.quantity)
    ensures r == Err(AwaitingFill(k)) <==> k >= |fills|
    ensures r == Err(Rejected(k)) <==> k < |fills| && Failed(fills[k])
    ensures r == Err(Completed) <==> k < |fills| && !Failed(fills[k]) && k + 1 == ChainLength
    ensures r == Err(Threw(k + 1)) <==>
      && k < |fills| && !Failed(fills[k]) && k + 1 < ChainLength
      && (k + 1 >= |orders| || FixRoundingErrors(orders[k], orders[k + 1], fills[k]).Err?)
  {
    if k >= |fills| then Err(AwaitingFill(k))
    else if Failed(fills[k]) then Err(Rejected(k))
    else if k + 1 == ChainLength then Err(Completed)
    else if k + 1 >= |orders| then Err(Threw(k + 1))
    else
      match FixRoundingErrors(orders[k], orders[k + 1], fills[k])
      case Err(_) => Err(Threw(k + 1))
      case Ok(next) => Ok(next)
  }

  /** The chain from leg k on, fed the responses in `fills` (`fills[j]` is the
      response to leg j). It sends at most the remaining legs, and the list
      it reads from keeps its length. */
  function RunFrom(orders: seq<ExecutionOrder>, fills: seq<Fill>, k: nat): (r: Run)
    requires k < ChainLength && AllCanonical(orders)
    ensures |r.sent| <= ChainLength - k
    ensures |r.orders| == |orders|
    decreases ChainLength - k
  {
    if k >= |orders| then Run([], orders, Threw(k))
    else
      match Proceed(orders, fills, k)
      case Err(outcome) => Run([orders[k]], orders, outcome)
      case Ok(next) =>
        var rest := RunFrom(orders[k + 1 := next], fills, k + 1);
        rest.(sent := [orders[k]] + rest.sent)
  }

  /** The chain starts with the planned order of leg k, and sends nothing
      only when there is no leg k. */
  lemma {:induction false} RunShape(orders: seq<ExecutionOrder>, fills: seq<Fill>, k: nat)
    requires k < ChainLength && AllCanonical(orders)
    ensures var r := RunFrom(orders, fills, k);
      && (|r.sent| == 0 <==> k >= |orders|)
      && (|r.sent| > 0 ==> r.sent[0] == orders[k])
  {
  }

  /** `whole` is the chain whose first legs went out as `sent` and whose
      remaining legs run from leg k on `orders`. */
  predicate RunsAs(whole: Run, orders: seq<ExecutionOrder>, fills: seq<Fill>, k: nat, sent: seq<ExecutionOrder>)
    requires k < ChainLength && AllCanonical(orders)
  {
    var rest := RunFrom(orders, fills, k);
    whole == rest.(sent := sent + rest.sent)
  }

  /** With no order for leg k the chain throws there and sends nothing more. */
  lemma ChainMissing(whole: Run, orders: seq<ExecutionOrder>, fills: seq<Fill>, k: nat, sent: seq<ExecutionOrder>)
    requires k < ChainLength && AllCanonical(orders) && k >= |orders|
    requires RunsAs(whole, orders, fills, k, sent)
    ensures whole == Run(sent, orders, Threw(k))
  {
    assert sent + [] == sent;
  }

  /** A chain that stops after leg k sends that leg last. */
  lemma ChainStops(whole: Run, orders: seq<ExecutionOrder>, fills: seq<Fill>, k: nat, sent: seq<ExecutionOrder>,
                   outcome: TradeOutcome)
    requires k < ChainLength && k < |orders| && AllCanonical(orders)
    requires Proceed(orders, fills, k) == Err(outcome)
    requires RunsAs(whole, orders, fills, k, sent)
    ensures whole == Run(sent + [orders[k]], orders, outcome)
  {
  }

  /** A chain that goes on after leg k sends it, then runs from leg k + 1 on
      the corrected list. */
  lemma ChainGoesOn(whole: Run, orders: seq<ExecutionOrder>, fills: seq<Fill>, k: nat, sent: seq<ExecutionOrder>,
                    next: ExecutionOrder)
    requires k < ChainLength && k < |orders| && AllCanonical(orders)
    requires Proceed(orders, fills, k) == Ok(next)
    requires RunsAs(whole, orders, fills, k, sent)
    ensures k + 1 < ChainLength && AllCanonical(orders[k + 1 := next])
    ensures RunsAs(whole, orders[k + 1 := next], fills, k + 1, sent + [orders[k]])
  {
    var rest := RunFrom(orders[k + 1 := next], fills, k + 1);
    assert sent + ([orders[k]] + rest.sent) == (sent + [orders[k]]) + rest.sent;
  }

  /** The chain as `makeArbitrageTrade` runs it, from the first leg: at most
      three orders go out. */
  function RunChain(orders: seq<ExecutionOrder>, fills: seq<Fill>): (r: Run)
    requires AllCanonical(orders)
    ensures |r.sent| <= ChainLength
  {
    RunFrom(orders, fills, 0)
  }

  /** Leg k + j + 1 goes out only after leg k + j filled without error, and
      it is `fixRoundingErrors` of the order sent for leg k + j, the planned
      order of leg k + j + 1 and the response to leg k + j. */
  lemma {:induction false} RunIsSequential(orders: seq<ExecutionOrder>, fills: seq<Fill>, k: nat, j: nat)
    requires k < ChainLength && AllCanonical(orders)
    requires j + 1 < |RunFrom(orders, fills, k).sent|
    ensures k + j < |fills| && !Failed(fills[k + j]) && k + j + 1 < |orders|
    ensures FixRoundingErrors(RunFrom(orders, fills, k).sent[j], orders[k + j + 1], fills[k + j])
         == Ok(RunFrom(orders, fills, k).sent[j + 1])
    decreases ChainLength - k
  {
    var r := RunFrom(orders, fills, k);
    var next := Proceed(orders, fills, k).value;
    var updated := orders[k + 1 := next];
    var rest := RunFrom(updated, fills, k + 1);
    assert r.sent == [orders[k]] + rest.sent;
    if j > 0 {
      RunIsSequential(updated, fills, k + 1, j - 1);
      assert updated[k + j + 1] == orders[k + j + 1];
    }
  }

  /** After the chain, the list it reads from holds the order sent for each
      leg that went out, and the planned order everywhere else. */
  lemma {:induction false} RunWrites(orders: seq<ExecutionOrder>, fills: seq<Fill>, k: nat, i: nat)
    requires k < ChainLength && AllCanonical(orders)
    requires i < |orders|
    ensures var r := RunFrom(orders, fills, k);
      && i < |r.orders|
      && r.orders[i] == if k <= i < k + |r.sent| then r.sent[i - k] else orders[i]
    decreases ChainLength - k
  {
    if k < |orders| && Proceed(orders, fills, k).Ok? {
      var r := RunFrom(orders, fills, k);
      var updated := orders[k + 1 := Proceed(orders, fills, k).value];
      var rest := RunFrom(updated, fills, k + 1);
      assert r.sent == [orders[k]] + rest.sent;
      RunWrites(updated, fills, k + 1, i);
      if k + 1 <= i < k + |r.sent| {
        assert r.sent[i - k] == rest.sent[i - (k + 1)];
      }
    }
  }

  /** Every order the chain sends is its leg's planned order, on the same
      pair and side, with a quantity no larger than planned. */
  lemma SentNeverExceedsPlan(orders: seq<ExecutionOrder>, fills: seq<Fill>, j: nat)
    requires AllCanonical(orders)
    requires j < |RunChain(orders, fills).sent|
    ensures j < |orders|
    ensures var order := RunChain(orders, fills).sent[j];
      && order.pair == orders[j].pair && order.side == orders[j].side
      && order.quantity.Value() <= orders[j].quantity.Value()
  {
    if j > 0 {
      var sent := RunChain(orders, fills).sent;
      RunIsSequential(orders, fills, 0, j - 1);
      FixNeverRaises(sent[j - 1], orders[j], fills[j - 1]);
    }
  }

  /** How a chain ends, and where: it completes only after every leg from k
      on filled, it stops at the first rejected leg, it waits on the leg whose
      response is missing, and a throw happens before the leg it names is
      sent. */
  lemma {:induction false} RunOutcome(orders: seq<ExecutionOrder>, fills: seq<Fill>, k: nat)
    requires k < ChainLength && AllCanonical(orders)
    ensures var r := RunFrom(orders, fills, k);
      && (r.outcome == Completed ==>
            |r.sent| == ChainLength - k && forall j :: k <= j < ChainLength ==> j < |fills| && !Failed(fills[j]))
      && (r.outcome.Rejected? ==> r.outcome.leg == k + |r.sent| - 1 < |fills| && Failed(fills[r.outcome.leg]))
      && (r.outcome.AwaitingFill? ==>
            r.outcome.leg == k + |r.sent| - 1 >= |fills| && (k <= |fills| ==> r.outcome.leg == |fills|))
      && (r.outcome.Threw? ==> r.outcome.leg == k + |r.sent|)
    decreases ChainLength - k
  {
    if k < |orders| && Proceed(orders, fills, k).Ok? {
      var updated := orders[k + 1 := Proceed(orders, fills, k).value];
      var rest := RunFrom(updated, fills, k + 1);
      assert RunFrom(orders, fills, k).sent == [orders[k]] + rest.sent;
      RunOutcome(updated, fills, k + 1);
    }
  }

  /** The outcome is fixed by the last leg sent: no leg sent is a throw at
      leg k; a missing response is awaited; a failed response is a
      rejection; a good response completes the chain on the third leg and
      otherwise means the next leg threw before going out, because its
      order is missing or its correction throws. */
  lemma {:induction false} RunEndsAtLastSent(orders: seq<ExecutionOrder>, fills: seq<Fill>, k: nat)
    requires k < ChainLength && AllCanonical(orders)
    ensures var r := RunFrom(orders, fills, k);
      var last := k + |r.sent| - 1;
      && (|r.sent| == 0 ==> r.outcome == Threw(k))
      && (|r.sent| > 0 && last >= |fills| ==> r.outcome == AwaitingFill(last))
      && (|r.sent| > 0 && last < |fills| && Failed(fills[last]) ==> r.outcome == Rejected(last))
      && (|r.sent| > 0 && last < |fills| && !Failed(fills[last]) ==>
            r.outcome == if last + 1 == ChainLength then Completed else Threw(last + 1))
      && (|r.sent| > 0 && last < |fills| && !Failed(fills[last]) && last + 1 < ChainLength ==>
            last + 1 >= |orders| || FixRoundingErrors(r.sent[|r.sent| - 1], orders[last + 1], fills[last]).Err?)
    decreases ChainLength - k
  {
    if k < |orders| && Proceed(orders, fills, k).Ok? {
      var updated := orders[k + 1 := Proceed(orders, fills, k).value];
      var rest := RunFrom(updated, fills, k + 1);
      assert RunFrom(orders, fills, k) == rest.(sent := [orders[k]] + rest.sent);
      RunEndsAtLastSent(updated, fills, k + 1);
    }
  }

  /** The chain moves on: once leg k + j is sent and its response is good,
      leg k + j + 1 goes out whenever it exists and its correction does not
      throw. */
  lemma RunGoesOn(orders: seq<ExecutionOrder>, fills: seq<Fill>, k: nat, j: nat)
    requires k < ChainLength && AllCanonical(orders)
    requires j < |RunFrom(orders, fills, k).sent|
    requires k + j + 1 < ChainLength && k + j + 1 < |orders|
    requires k + j < |fills| && !Failed(fills[k + j])
    requires FixRoundingErrors(RunFrom(orders, fills, k).sent[j], orders[k + j + 1], fills[k + j]).Ok?
    ensures j + 1 < |RunFrom(orders, fills, k).sent|
  {
    RunEndsAtLastSent(orders, fills, k);
  }

  /** Three planned orders, three good responses and no correction that
      throws: all three legs go out and the chain completes. */
  lemma ChainCompletes(orders: seq<ExecutionOrder>, fills: seq<Fill>)
    requires AllCanonical(orders) && |orders| >= ChainLength && |fills| >= ChainLength
    requires forall j :: 0 <= j < ChainLength ==> !Failed(fills[j])
    requires forall j :: 0 <= j < |RunChain(orders, fills).sent| && j + 1 < ChainLength ==>
      FixRoundingErrors(RunChain(orders, fills).sent[j], orders[j + 1], fills[j]).Ok?
    ensures |RunChain(orders, fills).sent| == ChainLength
    ensures RunChain(orders, fills).outcome == Completed
  {
    RunShape(orders, fills, 0);
    RunGoesOn(orders, fills, 0, 0);
    RunGoesOn(orders, fills, 0, 1);
    RunEndsAtLastSent(orders, fills, 0);
  }

  /** `marketData` after a tick: every key of the batch overwritten with its
      close and event time, every other key kept, no key dropped or added
      beyond the batch. */
  function Refreshed(marketData: map<string, Snapshot>, markets: map<string, Ticker>): (r: map<string, Snapshot>)
    ensures r.Keys == marketData.Keys + markets.Keys
    ensures forall k :: k in markets ==> r[k] == Snapshot(markets[k].close, markets[k].eventTime)
    ensures forall k :: k in marketData && k !in markets ==> r[k] == marketData[k]
  {
    map k | k in marketData.Keys + markets.Keys ::
      if k in markets then Snapshot(markets[k].close, markets[k].eventTime) else marketData[k]
  }

  /** The part of a batch already applied. */
  function Restrict(markets: map<string, Ticker>, done: set<string>): (r: map<string, Ticker>)
    ensures r.Keys == markets.Keys * done
  {
    map k | k in markets.Keys * done :: markets[k]
  }

  /** Before the first key the cache is as it was. */
  lemma RefreshedNothing(marketData: map<string, Snapshot>, markets: map<string, Ticker>)
    ensures Refreshed(marketData, Restrict(markets, {})) == marketData
  {
  }

  /** Applying one more key of the batch. */
  lemma RefreshedStep(marketData: map<string, Snapshot>, markets: map<string, Ticker>, done: set<string>, key: string)
    requires key in markets
    ensures Refreshed(marketData, Restrict(markets, done + {key})) ==
      Refreshed(marketData, Restrict(markets, done))[key := Snapshot(markets[key].close, markets[key].eventTime)]
  {
  }

  /** Once every key is applied the whole batch is. */
  lemma RefreshedAll(marketData: map<string, Snapshot>, markets: map<string, Ticker>, done: set<string>)
    requires done == markets.Keys
    ensures Refreshed(marketData, Restrict(markets, done)) == Refreshed(marketData, markets)
  {
    assert Restrict(markets, done) == markets;
  }

  /** Two ticks leave the cache as one tick of their merged batches, the
      later batch winning on shared keys. */
  lemma TicksCompose(marketData: map<string, Snapshot>, first: map<string, Ticker>, second: map<string, Ticker>)
    ensures Refreshed(Refreshed(marketData, first), second) == Refreshed(marketData, first + second)
  {
  }

  /** Replaying a batch changes nothing. */
  lemma TickIsIdempotent(marketData: map<string, Snapshot>, markets: map<string, Ticker>)
    ensures Refreshed(Refreshed(marketData, markets), markets) == Refreshed(marketData, markets)
  {
  }

  /** `isTradeOn`: trading allowed and the last tick younger than the
      maximum age; a cache that never ticked counts as ticked at time 0.
      Disallowed trading keeps it closed, and right after a tick only the
      flag and the maximum age decide. */
  predicate TradeGate(allowed: bool, lastUpdated: Option<int>, now: int, maxStaleness: int): (open: bool)
    ensures !allowed ==> !open
    ensures lastUpdated == Some(now) ==> (open <==> allowed && maxStaleness > 0)
  {
    allowed && now - (if lastUpdated.Some? then lastUpdated.value else 0) < maxStaleness
  }

  /** Right after a tick the gate is open exactly when trading is allowed
      and the maximum age is positive; once closed by age it stays closed. */
  lemma GateFreshness(allowed: bool, lastUpdated: Option<int>, now: int, later: int, maxStaleness: int)
    ensures TradeGate(allowed, Some(now), now, maxStaleness) <==> allowed && maxStaleness > 0
    ensures now <= later && TradeGate(allowed, lastUpdated, later, maxStaleness) ==>
      TradeGate(allowed, lastUpdated, now, maxStaleness)
    ensures !allowed ==> !TradeGate(allowed, lastUpdated, now, maxStaleness)
  {
  }

  /** The orders planned for a qualifying route. */
  function PlanFor(route: seq<RouteLeg>, marketData: map<string, Snapshot>,
                   marketsMinimums: map<string, Minimums>, config: Config): (plan: seq<ExecutionOrder>)
    requires MinimumsValid(marketsMinimums)
    requires Qualifies(route, marketData, marketsMinimums, config)
    ensures |plan| == |route|
    ensures AllCanonical(plan)
    ensures forall i :: 0 <= i < |plan| ==> plan[i].unformattedPair == route[i].symbol && plan[i].side == route[i].side
  {
    var legs := QualifyingLegs(route, marketData, marketsMinimums, config);
    PlanIsCanonical(legs);
    CreateExecutionOrders(legs)
  }

  /** The engine's state: the settings, the minimums, the rate cache and the
      three flags of the module. */
  class ArbitrageEngine {
    const config: Config
    const marketsMinimums: map<string, Minimums>
    var marketData: map<string, Snapshot>
    var lastUpdated: Option<int>
    var isTradeAllowed: bool
    var isRunning: bool
    var isPerformingArbitrage: bool

    /** The module's initial state, with the minimums already loaded. */
    constructor(config: Config, marketsMinimums: map<string, Minimums>)
      requires MinimumsValid(marketsMinimums)
      ensures this.config == config && this.marketsMinimums == marketsMinimums
      ensures marketData == map[] && lastUpdated.None?
      ensures !isTradeAllowed && !isRunning && !isPerformingArbitrage
    {
      this.config := config;
      this.marketsMinimums := marketsMinimums;
      marketData := map[];
      lastUpdated := None;
      isTradeAllowed := false;
      isRunning := false;
      isPerformingArbitrage := false;
    }

    /** The mini-ticker handler: stamp the cache, then overwrite each pair of
      the batch. */
    method OnTick(markets: map<string, Ticker>, now: int)
      modifies this
      ensures marketData == Refreshed(old(marketData), markets)
      ensures lastUpdated == Some(now)
      ensures isTradeAllowed == old(isTradeAllowed) && isRunning == old(isRunning)
      ensures isPerformingArbitrage == old(isPerformingArbitrage)
      ensures IsTradeOn(now) <==> isTradeAllowed && config.maxStaleness > 0
    {
      lastUpdated := Some(now);
      var keys := markets.Keys;
      ghost var done: set<string> := {};
      RefreshedNothing(marketData, markets);
      while keys != {}
        invariant keys <= markets.Keys && done == markets.Keys - keys
        invariant marketData == Refreshed(old(marketData), Restrict(markets, done))
        invariant lastUpdated == Some(now)
        invariant isTradeAllowed == old(isTradeAllowed) && isRunning == old(isRunning)
        invariant isPerformingArbitrage == old(isPerformingArbitrage)
        decreases keys
      {
        var key :| key in keys;
        RefreshedStep(old(marketData), markets, done, key);
        marketData := marketData[key := Snapshot(markets[key].close, markets[key].eventTime)];
        keys := keys - {key};
        done := done + {key};
      }
      RefreshedAll(old(marketData), markets, done);
    }

    /** `isTradeOn()` at time `now`. */
    predicate IsTradeOn(now: int)
      reads this
    {
      TradeGate(isTradeAllowed, lastUpdated, now, config.maxStaleness)
    }

    /** The test handler's start: run the loop and allow trading. */
    method StartRun()
      modifies this
      ensures isRunning && isTradeAllowed
      ensures marketData == old(marketData) && lastUpdated == old(lastUpdated)
      ensures isPerformingArbitrage == old(isPerformingArbitrage)
    {
      isRunning := true;
      isTradeAllowed := true;
    }

    /** The synchronous start of `makeArbitrageTrade`. */
    method BeginTrade()
      modifies this
      ensures isPerformingArbitrage
      ensures marketData == old(marketData) && lastUpdated == old(lastUpdated)
      ensures isTradeAllowed == old(isTradeAllowed) && isRunning == old(isRunning)
    {
      isPerformingArbitrage := true;
    }

    /** One response callback of `makeArbitrageTrade`, for leg k already
      submitted: a failed response disallows trading and ends the chain; the
      third fill clears `isPerformingArbitrage`; otherwise the next order is
      corrected in place and is the one to submit. Reading an order that is
      not there, or a correction that throws, ends the chain. */
    method OnLegFilled(orders: array<ExecutionOrder>, k: nat, fills: seq<Fill>) returns (step: Result<ExecutionOrder, TradeOutcome>)
      requires k < ChainLength && k < orders.Length && AllCanonical(orders[..])
      modifies this, orders
      ensures step == Proceed(old(orders[..]), fills, k)
      ensures orders[..] == if step.Ok? then old(orders[..])[k + 1 := step.value] else old(orders[..])
      ensures isTradeAllowed == (old(isTradeAllowed) && !(step.Err? && step.error.Rejected?))
      ensures isPerformingArbitrage == (old(isPerformingArbitrage) && step != Err(Completed))
      ensures marketData == old(marketData) && lastUpdated == old(lastUpdated) && isRunning == old(isRunning)
    {
      if k >= |fills| {
        return Err(AwaitingFill(k));
      }
      if Failed(fills[k]) {
        isTradeAllowed := false;
        return Err(Rejected(k));
      }
      if k + 1 == ChainLength {
        isPerformingArbitrage := false;
        return Err(Completed);
      }
      if k + 1 >= orders.Length {
        return Err(Threw(k + 1));
      }
      var fixed := FixRoundingErrorsAt(orders, k, fills[k]);
      if fixed.Err? {
        return Err(Threw(k + 1));
      }
      step := Ok(fixed.value);
    }

    /** The chain of response callbacks of `makeArbitrageTrade`: submit a
      leg and handle its response, until a response ends the chain. The
      `isTradeOn` guards test the function itself, which is always truthy,
      so they never stop a leg. */
    method ExecuteLegs(orders: array<ExecutionOrder>, fills: seq<Fill>) returns (outcome: TradeOutcome, sent: seq<ExecutionOrder>)
      requires AllCanonical(orders[..])
      modifies this, orders
      ensures RunChain(old(orders[..]), fills) == Run(sent, orders[..], outcome)
      ensures isTradeAllowed == (old(isTradeAllowed) && !outcome.Rejected?)
      ensures isPerformingArbitrage == (old(isPerformingArbitrage) && outcome != Completed)
      ensures marketData == old(marketData) && lastUpdated == old(lastUpdated) && isRunning == old(isRunning)
    {
      var k: nat := 0;
      sent := [];
      ghost var whole := RunChain(orders[..], fills);
      while true
        invariant k < ChainLength
        invariant AllCanonical(orders[..])
        invariant whole == RunChain(old(orders[..]), fills)
        invariant RunsAs(whole, orders[..], fills, k, sent)
        invariant isTradeAllowed == old(isTradeAllowed) && isPerformingArbitrage == old(isPerformingArbitrage)
        invariant marketData == old(marketData) && lastUpdated == old(lastUpdated) && isRunning == old(isRunning)
        decreases ChainLength - k
      {
        if k >= orders.Length {
          outcome := Threw(k);
          ChainMissing(whole, orders[..], fills, k, sent);
          return;
        }
        ghost var before := orders[..];
        ghost var prefix := sent;
        sent := sent + [orders[k]];
        var step := OnLegFilled(orders, k, fills);
        if step.Err? {
          outcome := step.error;
          ChainStops(whole, before, fills, k, prefix, outcome);
          return;
        }
        ChainGoesOn(whole, before, fills, k, prefix, step.value);
        k := k + 1;
      }
    }

    /** `makeArbitrageTrade` on its own: raise the flag, then run the chain. */
    method MakeArbitrageTrade(orders: array<ExecutionOrder>, fills: seq<Fill>) returns (outcome: TradeOutcome, sent: seq<ExecutionOrder>)
      requires AllCanonical(orders[..])
      modifies this, orders
      ensures RunChain(old(orders[..]), fills) == Run(sent, orders[..], outcome)
      ensures isTradeAllowed == (old(isTradeAllowed) && !outcome.Rejected?)
      ensures isPerformingArbitrage == (outcome != Completed)
      ensures marketData == old(marketData) && lastUpdated == old(lastUpdated) && isRunning == old(isRunning)
      ensures |sent| > 0 && |sent| - 1 < |fills| && Failed(fills[|sent| - 1]) ==>
        outcome == Rejected(|sent| - 1) && !isTradeAllowed
      ensures |sent| == ChainLength && |fills| >= ChainLength && (forall j :: 0 <= j < ChainLength ==> !Failed(fills[j])) ==>
        outcome == Completed && !isPerformingArbitrage
      ensures && orders.Length >= ChainLength && |fills| >= ChainLength
              && (forall j :: 0 <= j < ChainLength ==> !Failed(fills[j]))
              && (forall j :: 0 <= j < |sent| && j + 1 < ChainLength ==>
                    FixRoundingErrors(sent[j], old(orders[j + 1]), fills[j]).Ok?) ==>
        |sent| == ChainLength && outcome == Completed && !isPerformingArbitrage
    {
      BeginTrade();
      outcome, sent := ExecuteLegs(orders, fills);
      RunEndsAtLastSent(old(orders[..]), fills, 0);
      assert |fills| >= ChainLength && (forall j :: 0 <= j < ChainLength ==> !Failed(fills[j])) ==>
        !Failed(fills[ChainLength - 1]);
      if && orders.Length >= ChainLength && |fills| >= ChainLength
         && (forall j :: 0 <= j < ChainLength ==> !Failed(fills[j]))
         && (forall j :: 0 <= j < |sent| && j + 1 < ChainLength ==>
               FixRoundingErrors(sent[j], old(orders[j + 1]), fills[j]).Ok?) {
        ChainCompletes(old(orders[..]), fills);
      }
    }

    /** The body of the route loop up to the trade decision (lines 86-94):
      look the legs up, evaluate the route and, when its return beats the
      threshold, plan its orders. A lookup that throws, a route without data
      and one at or below the threshold yield no plan. */
    method EvaluateRoute(route: seq<RouteLeg>) returns (plan: Option<seq<ExecutionOrder>>)
      requires MinimumsValid(marketsMinimums)
      ensures plan.Some? <==> Qualifies(route, marketData, marketsMinimums, config)
      ensures plan.Some? ==> plan.value == PlanFor(route, marketData, marketsMinimums, config)
    {
      plan := None;
      var work := GetWorkOrders(route, marketData, marketsMinimums);
      if work.Ok? {
        var arbitrage := GetArbitrage(work.value, InitialEth, config.feePercent);
        if arbitrage.Found? && |arbitrage.legs| > 0 && NetReturn(arbitrage.legs) > config.minArbitrageToTrade {
          var legs := QualifyingLegs(route, marketData, marketsMinimums, config);
          plan := Some(CreateExecutionOrders(legs));
        }
      }
    }

    /** The asynchronous part of `makeArbitrageTrade` on a planned route:
      the orders go into a fresh list and the chain runs on it. */
    method ExecutePlan(plan: seq<ExecutionOrder>, fills: seq<Fill>) returns (outcome: TradeOutcome)
      requires AllCanonical(plan)
      modifies this
      ensures outcome == RunChain(plan, fills).outcome
      ensures isTradeAllowed == (old(isTradeAllowed) && !outcome.Rejected?)
      ensures isPerformingArbitrage == (old(isPerformingArbitrage) && outcome != Completed)
      ensures marketData == old(marketData) && lastUpdated == old(lastUpdated) && isRunning == old(isRunning)
    {
      var orders := new ExecutionOrder[|plan|](j requires 0 <= j < |plan| => plan[j]);
      assert orders[..] == plan;
      var sent;
      outcome, sent := ExecuteLegs(orders, fills);
    }

    /** One pass of the scan loop over `routes` (lines 85-102). Every route
      is evaluated; the first qualifying route found while no trade is in
      progress starts one, which raises the flag at once, so later routes of
      the pass start none. The exchange's responses arrive after the pass, so
      the chain runs after it. */
    method ScanPass(routes: seq<seq<RouteLeg>>, fills: seq<Fill>) returns (started: Option<nat>, outcome: Option<TradeOutcome>)
      requires MinimumsValid(marketsMinimums)
      modifies this
      ensures old(isPerformingArbitrage) ==> started.None?
      ensures !old(isPerformingArbitrage) ==>
        started == FirstQualifying(routes, 0, marketData, marketsMinimums, config)
      ensures started.None? <==> outcome.None?
      ensures started.Some? ==>
        && started.value < |routes|
        && Qualifies(routes[started.value], marketData, marketsMinimums, config)
        && outcome.value == RunChain(PlanFor(routes[started.value], marketData, marketsMinimums, config), fills).outcome
        && isTradeAllowed == (old(isTradeAllowed) && !outcome.value.Rejected?)
        && isPerformingArbitrage == (outcome.value != Completed)
      ensures started.None? ==>
        isTradeAllowed == old(isTradeAllowed) && isPerformingArbitrage == old(isPerformingArbitrage)
      ensures marketData == old(marketData) && lastUpdated == old(lastUpdated) && isRunning == old(isRunning)
    {
      started := None;
      outcome := None;
      var chosen: seq<ExecutionOrder> := [];
      var i := 0;
      ghost var flags := QualifyingFlags(routes, marketData, marketsMinimums, config);
      while i < |routes|
        invariant 0 <= i <= |routes|
        invariant marketData == old(marketData) && lastUpdated == old(lastUpdated) && isRunning == old(isRunning)
        invariant isTradeAllowed == old(isTradeAllowed)
        invariant old(isPerformingArbitrage) ==> started.None?
        invariant started.None? ==> isPerformingArbitrage == old(isPerformingArbitrage)
        invariant started.None? && !old(isPerformingArbitrage) ==>
          FirstQualifying(routes, 0, marketData, marketsMinimums, config) == FirstTrue(flags, i)
        invariant started.Some? ==>
          && started == FirstQualifying(routes, 0, marketData, marketsMinimums, config)
          && isPerformingArbitrage
          && chosen == PlanFor(routes[started.value], marketData, marketsMinimums, config)
      {
        var plan := EvaluateRoute(routes[i]);
        if plan.Some? && !isPerformingArbitrage {
          BeginTrade();
          started := Some(i);
          chosen := plan.value;
        }
        i := i + 1;
      }
      if started.Some? {
        var o := ExecutePlan(chosen, fills);
        outcome := Some(o);
      }
    }
  }
}
