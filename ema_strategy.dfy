/**
 * The two-EMA crossover sample strategy (`EmaStrategy`): an entry-state
 * machine driven by the short and long exponential moving averages of each
 * bar, two flags that track whether the entry order or the exit order is
 * outstanding, and the counter that numbers every order the strategy sends.
 *
 * The step functions on `StrategyState` specify the strategy; the class
 * methods change the strategy's fields in place and are proved to perform
 * exactly those steps.
 */
module EmaCrossover {
  import opened Text
  import opened Domain

  /** The first order number; every order sent takes the current number and then increments it. */
  const FirstOrderId: nat := 0xA00

  /** Every order the strategy sends is for 100 shares. */
  const OrderQuantity: int := 100

  /** The fixed limit price of the entry order. */
  const EntryLimitPrice: real := 1.24

  /** An order handed to the order execution service; `id` is the order number in upper-case hexadecimal. */
  datatype SentOrder =
    | LimitSent(id: string, side: string, size: int, limitPrice: real, symbol: string, provider: string)
    | MarketSent(id: string, side: string, size: int, symbol: string, provider: string)

  /**
   * The strategy's mutable fields: `_currentEntryState`, `_previousEntryState`,
   * `_entryOrderSent`, `_exitOrderSent`, `_orderId`, and the orders sent so far.
   */
  datatype StrategyState = StrategyState(current: int, previous: int, entrySent: bool, exitSent: bool,
                                         nextId: nat, sent: seq<SentOrder>)

  const Initial: StrategyState := StrategyState(0, 0, false, false, FirstOrderId, [])

  // ---------------------------------------------------------------------------
  // Entry states and the entry signal
  // ---------------------------------------------------------------------------

  /** `ManageEntryStates`: the new current entry state is the sign of short - long, or unchanged when they are equal. */
  function EntryState(current: int, longEma: real, shortEma: real): (r: int)
    ensures shortEma != longEma ==> (r == 1 || r == -1) && (r == 1 <==> shortEma > longEma)
    ensures shortEma == longEma ==> r == current
  {
    if shortEma > longEma then 1
    else if shortEma < longEma then -1
    else current
  }

  /** `EntrySignal`: BUY on a move from state -1 to 1, SELL on a move from 1 to -1, NONE otherwise. */
  function Signal(previous: int, current: int): (side: string)
    ensures side == BUY <==> previous == -1 && current == 1
    ensures side == SELL <==> previous == 1 && current == -1
    ensures side == NONE <==> !(previous == -1 && current == 1) && !(previous == 1 && current == -1)
  {
    assert BUY != SELL && BUY != NONE && SELL[0] != NONE[0];
    if previous == -1 && current == 1 then BUY
    else if previous == 1 && current == -1 then SELL
    else NONE
  }

  /**
   * What the entry-state update and the signal amount to: from state -1 a BUY
   * arises exactly when the short EMA is now above the long one, and from
   * state 1 a SELL arises exactly when it is now below.
   */
  lemma CrossoverSignals(previous: int, longEma: real, shortEma: real)
    ensures Signal(previous, EntryState(previous, longEma, shortEma)) == BUY <==> previous == -1 && shortEma > longEma
    ensures Signal(previous, EntryState(previous, longEma, shortEma)) == SELL <==> previous == 1 && shortEma < longEma
    ensures previous != -1 && previous != 1 ==> Signal(previous, EntryState(previous, longEma, shortEma)) == NONE
  {
  }

  /** The exit side for a filled entry order: SELL after a BUY, BUY after anything else. */
  function ExitSide(entrySide: string): (side: string)
    ensures side == SELL || side == BUY
    ensures side == SELL <==> entrySide == BUY
  {
    assert BUY != SELL;
    if entrySide == BUY then SELL else BUY
  }

  // ---------------------------------------------------------------------------
  // Sending orders
  // ---------------------------------------------------------------------------

  /** `SendEntryOrder`: for a side other than NONE, set the entry flag and send a limit order under a fresh number. */
  function SendEntry(s: StrategyState, side: string, symbol: string, provider: string): (r: StrategyState)
    ensures side == NONE ==> r == s
    ensures side != NONE ==>
      && r.entrySent && r.nextId == s.nextId + 1
      && r.sent == s.sent + [LimitSent(HexString(s.nextId), side, OrderQuantity, EntryLimitPrice, symbol, provider)]
      && r.(entrySent := s.entrySent, nextId := s.nextId, sent := s.sent) == s
  {
    if side == NONE then s
    else
      var o := LimitSent(HexString(s.nextId), side, OrderQuantity, EntryLimitPrice, symbol, provider);
      s.(entrySent := true, nextId := s.nextId + 1, sent := s.sent + [o])
  }

  /** `SendExitOrder`: for a side other than NONE, set the exit flag and send a market order under a fresh number. */
  function SendExit(s: StrategyState, side: string, symbol: string, provider: string): (r: StrategyState)
    ensures side == NONE ==> r == s
    ensures side != NONE ==>
      && r.exitSent && r.nextId == s.nextId + 1
      && r.sent == s.sent + [MarketSent(HexString(s.nextId), side, OrderQuantity, symbol, provider)]
      && r.(exitSent := s.exitSent, nextId := s.nextId, sent := s.sent) == s
  {
    if side == NONE then s
    else
      var o := MarketSent(HexString(s.nextId), side, OrderQuantity, symbol, provider);
      s.(exitSent := true, nextId := s.nextId + 1, sent := s.sent + [o])
  }

  /**
   * `SendMarketOrder`: for a side other than NONE, set the entry flag and send a
   * market BUY order under a fresh number, whatever side was asked for.
   */
  function SendMarket(s: StrategyState, side: string, symbol: string, provider: string): (r: StrategyState)
    ensures side == NONE ==> r == s
    ensures side != NONE ==>
      && r.entrySent && r.nextId == s.nextId + 1
      && r.sent == s.sent + [MarketSent(HexString(s.nextId), BUY, OrderQuantity, symbol, provider)]
      && r.(entrySent := s.entrySent, nextId := s.nextId, sent := s.sent) == s
  {
    if side == NONE then s
    else
      var o := MarketSent(HexString(s.nextId), BUY, OrderQuantity, symbol, provider);
      s.(entrySent := true, nextId := s.nextId + 1, sent := s.sent + [o])
  }

  // ---------------------------------------------------------------------------
  // The two event handlers
  // ---------------------------------------------------------------------------

  /**
   * `InitiateTrade` for a bar whose EMAs are `longEma` and `shortEma`: when both
   * are positive, update the current entry state, send an entry order on the
   * signal if neither flag is set, and make the previous state the current one.
   */
  function InitiateTradeStep(s: StrategyState, longEma: real, shortEma: real, symbol: string,
                             provider: string): (r: StrategyState)
    ensures !(longEma > 0.0 && shortEma > 0.0) ==> r == s
    ensures longEma > 0.0 && shortEma > 0.0 ==>
      r.previous == r.current == EntryState(s.current, longEma, shortEma)
    ensures s.entrySent || s.exitSent ==>
      r.entrySent == s.entrySent && r.exitSent == s.exitSent && r.nextId == s.nextId && r.sent == s.sent
    ensures |r.sent| == |s.sent| + 1 <==>
      && longEma > 0.0 && shortEma > 0.0 && !s.entrySent && !s.exitSent
      && Signal(s.previous, EntryState(s.current, longEma, shortEma)) != NONE
    ensures |r.sent| == |s.sent| + 1 ==>
      && r.entrySent && r.nextId == s.nextId + 1
      && r.sent == s.sent + [LimitSent(HexString(s.nextId), Signal(s.previous, EntryState(s.current, longEma, shortEma)),
                                       OrderQuantity, EntryLimitPrice, symbol, provider)]
    ensures |r.sent| != |s.sent| + 1 ==> r.sent == s.sent && r.nextId == s.nextId && r.entrySent == s.entrySent
    ensures r.exitSent == s.exitSent
  {
    if longEma > 0.0 && shortEma > 0.0 then
      var entered := s.(current := EntryState(s.current, longEma, shortEma));
      var sent := if !entered.entrySent && !entered.exitSent
                  then SendEntry(entered, Signal(entered.previous, entered.current), symbol, provider)
                  else entered;
      sent.(previous := sent.current)
    else s
  }

  /**
   * `OnExecutionArrived` for an execution with `leaves` shares still open, of an
   * order on `side` for `symbol`: on a full fill of the entry order send the
   * exit order on the opposite side; on a full fill otherwise clear the exit flag.
   */
  function ExecutionStep(s: StrategyState, leaves: int, side: string, symbol: string,
                         provider: string): (r: StrategyState)
    ensures leaves != 0 ==> r == s
    ensures leaves == 0 && s.entrySent ==>
      && !r.entrySent && r.exitSent && r.nextId == s.nextId + 1
      && r.sent == s.sent + [MarketSent(HexString(s.nextId), ExitSide(side), OrderQuantity, symbol, provider)]
    ensures leaves == 0 && !s.entrySent ==> r == s.(exitSent := false)
    ensures r.current == s.current && r.previous == s.previous
  {
    if leaves == 0 then
      if s.entrySent then SendExit(s.(entrySent := false), ExitSide(side), symbol, provider)
      else if s.exitSent then s.(exitSent := false)
      else s
    else s
  }

  // ---------------------------------------------------------------------------
  // The invariant the handlers keep
  // ---------------------------------------------------------------------------

  function Last<T>(q: seq<T>): T
    requires q != []
  {
    q[|q| - 1]
  }

  /**
   * The flags are never both set; the order counter is the first number plus
   * the count of orders sent, and the i-th order sent carries number
   * `FirstOrderId + i`; a set entry flag means the last order sent is the limit
   * entry order, a set exit flag that it is the market exit order; the entry
   * states stay within -1..1 and agree between bars.
   */
  ghost predicate Consistent(s: StrategyState)
  {
    && !(s.entrySent && s.exitSent)
    && s.nextId == FirstOrderId + |s.sent|
    && (forall i | 0 <= i < |s.sent| :: s.sent[i].id == HexString(FirstOrderId + i))
    && (s.entrySent ==> s.sent != [] && Last(s.sent).LimitSent?)
    && (s.exitSent ==> s.sent != [] && Last(s.sent).MarketSent?)
    && -1 <= s.current <= 1 && -1 <= s.previous <= 1
    && s.previous == s.current
  }

  lemma InitialConsistent()
    ensures Consistent(Initial)
  {
  }

  /** Appending one order under the next number keeps the numbering. */
  lemma AppendKeepsNumbering(s: StrategyState, o: SentOrder)
    requires s.nextId == FirstOrderId + |s.sent|
    requires forall i | 0 <= i < |s.sent| :: s.sent[i].id == HexString(FirstOrderId + i)
    requires o.id == HexString(s.nextId)
    ensures forall i | 0 <= i < |s.sent + [o]| :: (s.sent + [o])[i].id == HexString(FirstOrderId + i)
  {
    forall i | 0 <= i < |s.sent + [o]|
      ensures (s.sent + [o])[i].id == HexString(FirstOrderId + i)
    {
      if i < |s.sent| {
        assert (s.sent + [o])[i] == s.sent[i];
      }
    }
  }

  lemma InitiateTradeConsistent(s: StrategyState, longEma: real, shortEma: real, symbol: string, provider: string)
    requires Consistent(s)
    ensures Consistent(InitiateTradeStep(s, longEma, shortEma, symbol, provider))
  {
    var r := InitiateTradeStep(s, longEma, shortEma, symbol, provider);
    if |r.sent| == |s.sent| + 1 {
      var e := EntryState(s.current, longEma, shortEma);
      var o := LimitSent(HexString(s.nextId), Signal(s.previous, e), OrderQuantity, EntryLimitPrice, symbol, provider);
      assert r.sent == s.sent + [o];
      AppendKeepsNumbering(s, o);
    }
  }

  lemma ExecutionConsistent(s: StrategyState, leaves: int, side: string, symbol: string, provider: string)
    requires Consistent(s)
    ensures Consistent(ExecutionStep(s, leaves, side, symbol, provider))
  {
    if leaves == 0 && s.entrySent {
      AppendKeepsNumbering(s, MarketSent(HexString(s.nextId), ExitSide(side), OrderQuantity, symbol, provider));
    }
  }

  /** The events the strategy reacts to: a bar (through its two EMAs) or an execution. */
  datatype Input =
    | BarInput(longEma: real, shortEma: real, symbol: string)
    | ExecutionInput(leaves: int, side: string, symbol: string)

  /** The state after handling `inputs` in order. */
  function Run(s: StrategyState, inputs: seq<Input>, provider: string): StrategyState
    decreases |inputs|
  {
    if inputs == [] then s
    else
      var next := match inputs[0]
        case BarInput(l, sh, sym) => InitiateTradeStep(s, l, sh, sym, provider)
        case ExecutionInput(lv, sd, sym) => ExecutionStep(s, lv, sd, sym, provider);
      Run(next, inputs[1..], provider)
  }

  /** Every sequence of bars and executions keeps the invariant. */
  lemma {:induction false} RunConsistent(s: StrategyState, inputs: seq<Input>, provider: string)
    requires Consistent(s)
    ensures Consistent(Run(s, inputs, provider))
    decreases |inputs|
  {
    if inputs != [] {
      match inputs[0]
      case BarInput(l, sh, sym) =>
        InitiateTradeConsistent(s, l, sh, sym, provider);
        RunConsistent(InitiateTradeStep(s, l, sh, sym, provider), inputs[1..], provider);
      case ExecutionInput(lv, sd, sym) =>
        ExecutionConsistent(s, lv, sd, sym, provider);
        RunConsistent(ExecutionStep(s, lv, sd, sym, provider), inputs[1..], provider);
    }
  }

  /**
   * Between bars the previous and the current entry state agree, so the signal
   * of the next bar is the one `CrossoverSignals` describes: a BUY exactly on
   * an upward crossing from state -1, a SELL exactly on a downward one from 1.
   */
  lemma NextBarSignal(inputs: seq<Input>, provider: string, longEma: real, shortEma: real)
    ensures var s := Run(Initial, inputs, provider);
            && s.previous == s.current
            && (Signal(s.previous, EntryState(s.current, longEma, shortEma)) == BUY <==> s.current == -1 && shortEma > longEma)
            && (Signal(s.previous, EntryState(s.current, longEma, shortEma)) == SELL <==> s.current == 1 && shortEma < longEma)
  {
    InitialConsistent();
    RunConsistent(Initial, inputs, provider);
    CrossoverSignals(Run(Initial, inputs, provider).current, longEma, shortEma);
  }

  /** Starting from both flags clear, the entry and exit flags are never set together. */
  lemma FlagsExclusive(inputs: seq<Input>, provider: string)
    ensures !(Run(Initial, inputs, provider).entrySent && Run(Initial, inputs, provider).exitSent)
  {
    InitialConsistent();
    RunConsistent(Initial, inputs, provider);
  }

  /**
   * Order numbers are strictly increasing in the order the orders were sent,
   * all below the counter, and their hexadecimal ids are pairwise distinct.
   */
  lemma IdsIncreasing(s: StrategyState)
    requires Consistent(s)
    ensures forall i | 0 <= i < |s.sent| :: HexValue(s.sent[i].id) == FirstOrderId + i < s.nextId
    ensures forall i, j | 0 <= i < j < |s.sent| :: HexValue(s.sent[i].id) < HexValue(s.sent[j].id)
    ensures forall i, j | 0 <= i < j < |s.sent| :: s.sent[i].id != s.sent[j].id
  {
    forall i | 0 <= i < |s.sent|
      ensures HexValue(s.sent[i].id) == FirstOrderId + i
    {
      HexRoundTrip(FirstOrderId + i);
    }
    forall i, j | 0 <= i < j < |s.sent|
      ensures s.sent[i].id != s.sent[j].id
    {
      HexInjective(FirstOrderId + i, FirstOrderId + j);
    }
  }

  // ---------------------------------------------------------------------------
  // The strategy object
  // ---------------------------------------------------------------------------

  class EmaStrategy {
    /** `_orderExecutionProvider`, stamped on every order sent. */
    const provider: string
    var currentEntryState: int
    var previousEntryState: int
    var entryOrderSent: bool
    var exitOrderSent: bool
    var orderId: nat
    /** The orders handed to the order execution service, oldest first. */
    var sent: seq<SentOrder>

    function State(): StrategyState
      reads this
    {
      StrategyState(currentEntryState, previousEntryState, entryOrderSent, exitOrderSent, orderId, sent)
    }

    constructor (provider: string)
      ensures this.provider == provider && State() == Initial
    {
      this.provider := provider;
      currentEntryState, previousEntryState := 0, 0;
      entryOrderSent, exitOrderSent := false, false;
      orderId, sent := FirstOrderId, [];
    }

    method ManageEntryStates(currentLongEma: real, currentShortEma: real)
      modifies this
      ensures State() == old(State()).(current := EntryState(old(currentEntryState), currentLongEma, currentShortEma))
    {
      if currentShortEma > currentLongEma {
        currentEntryState := 1;
      } else if currentShortEma < currentLongEma {
        currentEntryState := -1;
      }
    }

    method EntrySignal() returns (side: string)
      ensures side == BUY <==> previousEntryState == -1 && currentEntryState == 1
      ensures side == SELL <==> previousEntryState == 1 && currentEntryState == -1
      ensures side == Signal(previousEntryState, currentEntryState)
    {
      side := NONE;
      if previousEntryState == -1 && currentEntryState == 1 {
        side := BUY;
      } else if previousEntryState == 1 && currentEntryState == -1 {
        side := SELL;
      }
    }

    /** Takes the current order number, rendered in hexadecimal, and advances the counter. */
    method NextId() returns (id: string)
      modifies this
      ensures id == HexString(old(orderId)) && orderId == old(orderId) + 1
      ensures currentEntryState == old(currentEntryState) && previousEntryState == old(previousEntryState)
      ensures entryOrderSent == old(entryOrderSent) && exitOrderSent == old(exitOrderSent) && sent == old(sent)
    {
      id := HexString(orderId);
      orderId := orderId + 1;
    }

    method SendEntryOrder(orderSide: string, symbol: string)
      modifies this
      ensures State() == SendEntry(old(State()), orderSide, symbol, provider)
    {
      if orderSide != NONE {
        entryOrderSent := true;
        var id := NextId();
        sent := sent + [LimitSent(id, orderSide, OrderQuantity, EntryLimitPrice, symbol, provider)];
      }
    }

    method SendExitOrder(orderSide: string, symbol: string)
      modifies this
      ensures State() == SendExit(old(State()), orderSide, symbol, provider)
    {
      if orderSide != NONE {
        exitOrderSent := true;
        var id := NextId();
        sent := sent + [MarketSent(id, orderSide, OrderQuantity, symbol, provider)];
      }
    }

    method SendMarketOrder(orderSide: string, symbol: string)
      modifies this
      ensures State() == SendMarket(old(State()), orderSide, symbol, provider)
    {
      if orderSide != NONE {
        entryOrderSent := true;
        var id := NextId();
        sent := sent + [MarketSent(id, BUY, OrderQuantity, symbol, provider)];
      }
    }

    /** Handles one bar, given the long and short EMA the indicator computed for it. */
    method InitiateTrade(longEma: real, shortEma: real, symbol: string)
      modifies this
      ensures State() == InitiateTradeStep(old(State()), longEma, shortEma, symbol, provider)
      ensures Consistent(old(State())) ==> Consistent(State())
    {
      ghost var before := State();
      if longEma > 0.0 && shortEma > 0.0 {
        ManageEntryStates(longEma, shortEma);
        if !entryOrderSent && !exitOrderSent {
          var orderSide := EntrySignal();
          SendEntryOrder(orderSide, symbol);
        }
        previousEntryState := currentEntryState;
      }
      if Consistent(before) {
        InitiateTradeConsistent(before, longEma, shortEma, symbol, provider);
      }
    }

    method OnExecutionArrived(execution: Execution)
      modifies this
      ensures State() == ExecutionStep(old(State()), execution.leavesQuantity, execution.order.side,
                                       execution.order.symbol, provider)
      ensures Consistent(old(State())) ==> Consistent(State())
    {
      ghost var before := State();
      if execution.leavesQuantity == 0 {
        if entryOrderSent {
          entryOrderSent := false;
          var orderSide := if execution.order.side == BUY then SELL else BUY;
          SendExitOrder(orderSide, execution.order.symbol);
        } else if exitOrderSent {
          exitOrderSent := false;
        }
      }
      if Consistent(before) {
        ExecutionConsistent(before, execution.leavesQuantity, execution.order.side, execution.order.symbol, provider);
      }
    }
  }
}
