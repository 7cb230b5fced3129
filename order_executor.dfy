/**
 * The simulated exchange `OrderExecutorGeneric`: it validates incoming market
 * and limit orders, fills market orders at once, keeps limit orders in a book
 * keyed by the index carried in their remarks, fills at most one of them per
 * bar, and cancels on request. Every notification it raises is appended to the
 * `events` log in the order the exchange raises it.
 */
module OrderExecution {
  import opened Wrappers
  import opened Text
  import opened Domain
  import opened OrderBook

  // ---------------------------------------------------------------------------
  // Fill prices of limit orders
  // ---------------------------------------------------------------------------

  /**
   * The price a buy limit order fills at against a bar; 0 stands for "no fill".
   * A bar that opens at its low fills at the low; a bar that opens above its
   * low fills at the better of the open and the limit; a bar whose open lies
   * below its low is malformed and gives 0.
   */
  function BuySidePriceCalculation(limitPrice: real, bar: Bar): (price: real)
    ensures bar.open == bar.low ==> price == bar.low
    ensures bar.low < bar.open ==> price == (if bar.open <= limitPrice then bar.open else limitPrice)
    ensures bar.open < bar.low ==> price == 0.0
    ensures bar.low <= limitPrice && price != 0.0 ==> bar.low <= price <= limitPrice
  {
    if bar.open == bar.low then bar.low
    else if bar.low < bar.open then
      // the source's second guard, `limit < open`, is the complement of the first
      if bar.open <= limitPrice then bar.open else limitPrice
    else 0.0
  }

  /**
   * The price a sell limit order fills at: the mirror image of the buy side,
   * against the bar's high, filling at the better of the open and the limit.
   */
  function SellSidePriceCalculation(limitPrice: real, bar: Bar): (price: real)
    ensures bar.open == bar.high ==> price == bar.open
    ensures bar.open < bar.high ==> price == (if limitPrice <= bar.open then bar.open else limitPrice)
    ensures bar.high < bar.open ==> price == 0.0
    ensures limitPrice <= bar.high && price != 0.0 ==> limitPrice <= price <= bar.high
  {
    if bar.open == bar.high then bar.open
    else if bar.open < bar.high then
      if limitPrice <= bar.open then bar.open else limitPrice
    else 0.0
  }

  /**
   * The decision of `ExecuteLimitOrder`: the price a resting order fills at
   * against a bar, or None. Nothing fills on the bar stamped with the order's
   * own time, and only BUY and SELL orders fill at all.
   */
  function LimitFillPrice(o: Order, bar: Bar): (r: Option<real>)
    ensures r.Some? ==> o.orderDateTime != bar.dateTime && r.value != 0.0
    ensures r.Some? ==> o.side == BUY || o.side == SELL
    ensures r.Some? && o.side == BUY ==> bar.low <= r.value <= o.limitPrice
    ensures r.Some? && o.side == SELL ==> o.limitPrice <= r.value <= bar.high
    ensures (o.orderDateTime != bar.dateTime && o.side == BUY && bar.low <= o.limitPrice
             && BuySidePriceCalculation(o.limitPrice, bar) != 0.0) ==> r == Some(BuySidePriceCalculation(o.limitPrice, bar))
    ensures (o.orderDateTime != bar.dateTime && o.side == SELL && o.limitPrice <= bar.high
             && SellSidePriceCalculation(o.limitPrice, bar) != 0.0) ==> r == Some(SellSidePriceCalculation(o.limitPrice, bar))
    ensures r.Some? && o.side == BUY ==> r.value in {bar.low, bar.open, o.limitPrice}
    ensures r.Some? && o.side == SELL ==> r.value in {bar.open, o.limitPrice}
  {
    if o.orderDateTime == bar.dateTime then None
    else if o.side == BUY && bar.low <= o.limitPrice && BuySidePriceCalculation(o.limitPrice, bar) != 0.0 then
      Some(BuySidePriceCalculation(o.limitPrice, bar))
    else if o.side == SELL && o.limitPrice <= bar.high && SellSidePriceCalculation(o.limitPrice, bar) != 0.0 then
      Some(SellSidePriceCalculation(o.limitPrice, bar))
    else None
  }

  /** The order under key 3 waits as long as an order rests under key 2. */
  predicate Deferred(b: seq<Entry>, i: int)
    requires 0 <= i < |b|
  {
    b[i].key == 3 && 2 in Keys(b)
  }

  /** Position `i` of the book would fill against `bar` when the bar scan reaches it. */
  predicate Fills(b: seq<Entry>, i: int, bar: Bar)
    requires 0 <= i < |b|
  {
    !Deferred(b, i) && LimitFillPrice(b[i].order, bar).Some?
  }

  function FirstFillFrom(b: seq<Entry>, bar: Bar, from: nat): (r: int)
    requires from <= |b|
    ensures r == -1 || from <= r < |b|
    ensures r >= 0 ==> Fills(b, r, bar)
    ensures forall j | from <= j < |b| && (r < 0 || j < r) :: !Fills(b, j, bar)
    decreases |b| - from
  {
    if from == |b| then -1
    else if Fills(b, from, bar) then from
    else FirstFillFrom(b, bar, from + 1)
  }

  /**
   * The position the bar scan fills, or -1: the first position in key order
   * that fills, skipping key 3 while key 2 rests.
   */
  function FirstFill(b: seq<Entry>, bar: Bar): (r: int)
    ensures -1 <= r < |b|
    ensures r >= 0 ==> Fills(b, r, bar)
    ensures forall j | 0 <= j < |b| && (r < 0 || j < r) :: !Fills(b, j, bar)
    ensures r >= 0 && 2 in Keys(b) ==> b[r].key != 3
  {
    FirstFillFrom(b, bar, 0)
  }

  /** The order a bar fills, as a set: empty when nothing in the book fills. */
  function FilledBy(b: seq<Entry>, bar: Bar): set<Order>
  {
    var i := FirstFill(b, bar);
    if i < 0 then {} else {b[i].order}
  }

  /** A fillable position with no fillable position before it is the one the scan stops at. */
  lemma FirstFillAt(b: seq<Entry>, bar: Bar, i: int)
    requires 0 <= i < |b| && Fills(b, i, bar)
    requires forall k | 0 <= k < i :: !Fills(b, k, bar)
    ensures FirstFill(b, bar) == i
  {
  }

  /** A book with no fillable position yields no fill. */
  lemma FirstFillNone(b: seq<Entry>, bar: Bar)
    requires forall k | 0 <= k < |b| :: !Fills(b, k, bar)
    ensures FirstFill(b, bar) == -1
  {
  }

  /**
   * The execution of a limit order filled at `price`: a full fill stamped with
   * the bar's time. The reported and the average price sit one slippage on
   * either side of the fill price (reported above it for BUY, below otherwise).
   */
  function LimitExecution(o: Order, price: real, bar: Bar): (e: Execution)
    ensures e.orderId == o.id && e.side == o.side && e.order == o && e.provider == SimulatedExchange
    ensures e.size == o.size && e.cumulativeQuantity == o.size && e.leavesQuantity == 0
    ensures e.dateTime == bar.dateTime
    ensures e.price + e.averagePrice == 2.0 * price
    ensures o.side == BUY ==> e.price - e.averagePrice == 2.0 * o.slippage
    ensures o.side != BUY ==> e.averagePrice - e.price == 2.0 * o.slippage
  {
    var reported := if o.side == BUY then price + o.slippage else price - o.slippage;
    var average := if o.side == BUY then price - o.slippage else price + o.slippage;
    Execution(o.id, o.side, o.size, reported, average, 0, o.size, bar.dateTime, SimulatedExchange, o)
  }

  // ---------------------------------------------------------------------------
  // Market orders
  // ---------------------------------------------------------------------------

  predicate IsBuySide(side: string)
  {
    side == BUY || side == COVER
  }

  predicate IsSellSide(side: string)
  {
    side == SELL || side == SHORT
  }

  /**
   * The price of a market order: a non-zero trigger moved by the slippage
   * against the trader, else the last tick price, else the last bar's close.
   * None where the exchange dereferences a missing bar snapshot; a side that
   * is none of the four gets price 0.
   */
  function MarketPrice(side: string, trigger: real, slippage: real, tick: Option<Tick>, bar: Option<Bar>): (r: Option<real>)
    ensures r.None? <==> (IsBuySide(side) || IsSellSide(side)) && trigger == 0.0 && tick.None? && bar.None?
    ensures IsBuySide(side) && trigger != 0.0 ==> r == Some(trigger + slippage)
    ensures IsSellSide(side) && trigger != 0.0 ==> r == Some(trigger - slippage)
    ensures (IsBuySide(side) || IsSellSide(side)) && trigger == 0.0 && tick.Some? ==> r == Some(tick.value.lastPrice)
    ensures (IsBuySide(side) || IsSellSide(side)) && trigger == 0.0 && tick.None? && bar.Some? ==> r == Some(bar.value.close)
    ensures !IsBuySide(side) && !IsSellSide(side) ==> r == Some(0.0)
  {
    if IsBuySide(side) || IsSellSide(side) then
      if trigger != 0.0 then
        Some(if IsBuySide(side) then trigger + slippage else trigger - slippage)
      else if tick.Some? then Some(tick.value.lastPrice)
      else if bar.Some? then Some(bar.value.close)
      else None
    else Some(0.0)
  }

  /** The remarks and trigger price of a market order after the exchange has read its signal price. */
  datatype Annotation = Annotation(remarks: string, triggerPrice: real)

  /**
   * The `label:value` convention of market order remarks: a value that parses
   * as a decimal becomes the trigger price, and the value and every ':' are
   * removed from the remarks. None when the value is empty: removing the empty
   * string throws and the execution is abandoned.
   */
  function TriggerAnnotation(remarks: string, trigger: real): (r: Option<Annotation>)
    ensures r.None? <==> SecondField(remarks, ':') == Some([])
    ensures r.Some? ==> ':' !in r.value.remarks && |r.value.remarks| <= |remarks|
    ensures ':' !in remarks ==> r == Some(Annotation(remarks, trigger))
    ensures r.Some? && r.value.triggerPrice != trigger ==> ParseDecimal(SecondField(remarks, ':').value) == Some(r.value.triggerPrice)
    ensures r.Some? && SecondField(remarks, ':').Some? && ParseDecimal(SecondField(remarks, ':').value).Some? ==>
              r.value.triggerPrice == ParseDecimal(SecondField(remarks, ':').value).value
    ensures r.Some? && SecondField(remarks, ':').Some? && ParseDecimal(SecondField(remarks, ':').value).None? ==>
              r.value.triggerPrice == trigger
  {
    match SecondField(remarks, ':')
    case None => Some(Annotation(remarks, trigger))
    case Some(field) =>
      if field == [] then None
      else
        var price := match ParseDecimal(field) case Some(v) => v case None => trigger;
        var stripped := RemoveAll(remarks, field);
        RemoveAllChar(stripped, ':');
        Some(Annotation(RemoveAll(stripped, [':']), price))
  }

  /** The market execution: a full fill at `price`, stamped with the bar's time. */
  function MarketExecution(o: Order, price: real, bar: Bar): (e: Execution)
    ensures e.price == price && e.averagePrice == price
    ensures e.orderId == o.id && e.side == o.side && e.order == o && e.provider == SimulatedExchange
    ensures e.size == o.size && e.cumulativeQuantity == o.size && e.leavesQuantity == 0
    ensures e.dateTime == bar.dateTime
  {
    Execution(o.id, o.side, o.size, price, price, 0, o.size, bar.dateTime, SimulatedExchange, o)
  }

  // ---------------------------------------------------------------------------
  // Intake
  // ---------------------------------------------------------------------------

  /**
   * `ValidMarketOrder`: non-empty id, side and provider, positive size. Each
   * missing field alone rejects the order; an order with none missing passes.
   */
  predicate ValidMarketOrder(o: Order): (ok: bool)
    ensures o.id == [] || o.side == [] || o.provider == [] || o.size <= 0 ==> !ok
    ensures o.id != [] && o.side != [] && o.provider != [] && o.size > 0 ==> ok
  {
    o.id != [] && o.side != [] && o.provider != [] && o.size > 0
  }

  /**
   * `ValideLimitOrder`: positive size and limit price, a symbol with at least
   * one character that is not white space, non-empty id and side. A symbol of
   * white space alone rejects the order as an empty one does.
   */
  predicate ValideLimitOrder(o: Order): (ok: bool)
    ensures ok ==> o.size > 0 && o.limitPrice > 0.0 && o.id != [] && o.side != []
    ensures ok ==> exists i | 0 <= i < |o.symbol| :: !IsWhiteSpace(o.symbol[i])
    ensures (forall i | 0 <= i < |o.symbol| :: IsWhiteSpace(o.symbol[i])) ==> !ok
    ensures (o.size > 0 && o.limitPrice > 0.0 && o.id != [] && o.side != []
             && exists i | 0 <= i < |o.symbol| :: !IsWhiteSpace(o.symbol[i])) ==> ok
  {
    o.size > 0 && !IsBlank(o.symbol) && o.limitPrice > 0.0 && o.id != [] && o.side != []
  }

  /**
   * The book key of a limit order: the integer after the first '-' of its
   * remarks, 0 when that text does not parse; None when there is no '-'.
   */
  function BookIndex(remarks: string): (r: Option<int>)
    ensures r.None? <==> '-' !in remarks
    ensures r.Some? ==> Int32Min <= r.value <= Int32Max
  {
    match SecondField(remarks, '-')
    case None => None
    case Some(field) => Some(match ParseInt32(field) case Some(v) => v case None => 0)
  }

  /** Remarks of the form `label-n` carry the book key `n`. */
  lemma BookIndexOfLabel(name: string, n: nat)
    requires '-' !in name && n <= Int32Max
    ensures BookIndex(name + "-" + NatToString(n)) == Some(n)
  {
    var digits := NatToString(n);
    var s := name + "-" + digits;
    assert s[|name|] == '-';
    assert forall k | 0 <= k < |name| :: s[k] == name[k];
    assert IndexOfChar(s, '-') == |name|;
    assert s[|name| + 1..] == digits;
    assert '-' !in digits by {
      forall k | 0 <= k < |digits| ensures digits[k] != '-' {
        assert IsDigit(digits[k]);
      }
    }
    assert SecondField(s, '-') == Some(digits);
    ParseInt32RoundTrip(n);
  }

  /** The fresh OPEN copy of an order handed to the Accepted event. */
  function AcceptedView(o: Order): (v: OrderView)
    ensures v.status == Open && v.id == o.id && v.side == o.side && v.size == o.size
  {
    OrderView(o.id, o.side, o.size, o.tif, o.currency, o.symbol, o.provider, o.strategyId, Open)
  }

  function RejectionOf(o: Order): Rejection
  {
    Rejection(o.symbol, SimulatedExchange, o.id, RejectReason)
  }

  /** The first book position whose order has the given id, or -1. */
  function FirstWithId(b: seq<Entry>, id: string): (r: int)
    ensures -1 <= r < |b|
    ensures r >= 0 ==> b[r].order.id == id
    ensures forall j | 0 <= j < |b| && (r < 0 || j < r) :: b[j].order.id != id
  {
    if b == [] then -1
    else if b[0].order.id == id then 0
    else
      var r := FirstWithId(b[1..], id);
      if r < 0 then -1 else r + 1
  }

  // ---------------------------------------------------------------------------
  // The exchange
  // ---------------------------------------------------------------------------

  class OrderExecutorGeneric {
    /** `_limitOrders`: the resting limit orders in ascending key order. */
    var book: seq<Entry>
    var latestTick: Option<Tick>
    var latestBar: Option<Bar>
    /** Accepted, Executed, Cancelled and Rejected notifications, oldest first. */
    var events: seq<Event>

    /** The book is a sorted list with distinct keys and holds only orders that passed validation. */
    ghost predicate Valid()
      reads this
    {
      Sorted(book) && Validated(book)
    }

    constructor ()
      ensures Valid()
      ensures book == [] && latestTick.None? && latestBar.None? && events == []
    {
      book, latestTick, latestBar, events := [], None, None, [];
    }

    method TickArrived(tick: Tick)
      requires Valid()
      modifies this
      ensures Valid()
      ensures latestTick == Some(tick)
      ensures book == old(book) && latestBar == old(latestBar) && events == old(events)
    {
      latestTick := Some(tick);
    }

    /**
     * Records the bar and fills at most one resting order: the first in key
     * order that fills, passing over key 3 while key 2 rests.
     */
    method BarArrived(bar: Bar)
      requires Valid()
      modifies this, FilledBy(book, bar)
      ensures Valid()
      ensures latestBar == Some(bar) && latestTick == old(latestTick)
      ensures var i := FirstFill(old(book), bar);
              if i < 0 then book == old(book) && events == old(events)
              else
                var o := old(book)[i].order;
                && book == RemoveAt(old(book), IndexOfOrder(old(book), o))
                && events == old(events) + [ExecutionArrived(LimitExecution(o, LimitFillPrice(o, bar).value, bar))]
                && o.status == Executed && o.audit == old(o.audit) + [bar]
                && o.remarks == old(o.remarks) && o.triggerPrice == old(o.triggerPrice)
    {
      latestBar := Some(bar);
      var snapshot := book;
      var i := 0;
      while i < |snapshot|
        invariant 0 <= i <= |snapshot|
        invariant Valid() && snapshot == book == old(book) && events == old(events)
        invariant latestBar == Some(bar) && latestTick == old(latestTick)
        invariant forall k | 0 <= k < i :: !Fills(snapshot, k, bar)
        invariant forall o | o in FilledBy(snapshot, bar) :: unchanged(o)
      {
        var entry := snapshot[i];
        if !(entry.key == 3 && 2 in Keys(book)) {
          assert !Deferred(snapshot, i);
          if LimitFillPrice(entry.order, bar).Some? {
            FirstFillAt(snapshot, bar, i);
          }
          var filled := ExecuteLimitOrder(entry.order, bar);
          if filled {
            return;
          }
        }
        i := i + 1;
      }
      FirstFillNone(snapshot, bar);
    }

    /** Accepts or rejects a market order; an accepted one is executed at once. */
    method NewMarketOrderArrived(o: Order)
      requires Valid()
      modifies this, o
      ensures Valid()
      ensures book == old(book) && latestTick == old(latestTick) && latestBar == old(latestBar)
      ensures !ValidMarketOrder(o) ==>
                && events == old(events) + [RejectionArrived(RejectionOf(o))]
                && o.status == Rejected
                && o.remarks == old(o.remarks) && o.triggerPrice == old(o.triggerPrice) && o.audit == old(o.audit)
      ensures ValidMarketOrder(o) ==>
                var price := MarketPrice(o.side, old(o.triggerPrice), o.slippage, latestTick, latestBar);
                var note := TriggerAnnotation(old(o.remarks), old(o.triggerPrice));
                var executes := price.Some? && note.Some? && latestBar.Some?;
                && events == old(events) + [NewOrderArrived(AcceptedView(o))]
                             + (if executes then [ExecutionArrived(MarketExecution(o, price.value, latestBar.value))] else [])
                && o.status == (if executes then Executed else old(o.status))
                && o.audit == (if executes then old(o.audit) + [latestBar.value] else old(o.audit))
                && (if price.Some? && note.Some?
                    then o.remarks == note.value.remarks && o.triggerPrice == note.value.triggerPrice
                    else o.remarks == old(o.remarks) && o.triggerPrice == old(o.triggerPrice))
    {
      if ValidMarketOrder(o) {
        events := events + [NewOrderArrived(AcceptedView(o))];
        ExecuteMarketOrder(o);
      } else {
        o.status := Rejected;
        events := events + [RejectionArrived(RejectionOf(o))];
      }
    }

    /**
     * Accepts or rejects a limit order. An accepted order rests under the key
     * its remarks carry; remarks without '-' or a key already taken raise an
     * error that is swallowed, leaving no trace. The caller's order keeps its
     * status: only the Accepted copy says OPEN.
     */
    method NewLimitOrderArrived(o: Order)
      requires Valid()
      modifies this, o
      ensures Valid()
      ensures latestTick == old(latestTick) && latestBar == old(latestBar)
      ensures o.remarks == old(o.remarks) && o.triggerPrice == old(o.triggerPrice) && o.audit == old(o.audit)
      ensures !ValideLimitOrder(o) ==>
                book == old(book) && o.status == Rejected && events == old(events) + [RejectionArrived(RejectionOf(o))]
      ensures ValideLimitOrder(o) ==>
                o.status == old(o.status) &&
                var key := BookIndex(o.remarks);
                if key.Some? && key.value !in Keys(old(book)) then
                  && book == Insert(old(book), key.value, o)
                  && AsMap(book) == AsMap(old(book))[key.value := o]
                  && events == old(events) + [NewOrderArrived(AcceptedView(o))]
                else book == old(book) && events == old(events)
    {
      if ValideLimitOrder(o) {
        var key := BookIndex(o.remarks);
        if key.None? {
          return;   // `Split('-')[1]` is out of range
        }
        if key.value in Keys(book) {
          return;   // `SortedList.Add` refuses a duplicate key
        }
        Accept(key.value, o);
      } else {
        o.status := Rejected;
        events := events + [RejectionArrived(RejectionOf(o))];
      }
    }

    /** The tail of `NewLimitOrderArrived` once the key is known to be free: the order rests and Accepted is emitted. */
    method Accept(key: int, o: Order)
      requires Valid() && ValideLimitOrder(o) && key !in Keys(book)
      modifies this
      ensures Valid()
      ensures book == Insert(old(book), key, o) && AsMap(book) == AsMap(old(book))[key := o]
      ensures events == old(events) + [NewOrderArrived(AcceptedView(o))]
      ensures latestTick == old(latestTick) && latestBar == old(latestBar)
    {
      InsertView(book, key, o);
      InsertKeepsValid(book, key, o);
      book := Insert(book, key, o);
      events := events + [NewOrderArrived(AcceptedView(o))];
    }

    /** Cancels the first resting order with the request's id; an unknown id changes nothing. */
    method CancelOrderArrived(request: Order)
      requires Valid()
      modifies this, request
      ensures Valid()
      ensures latestTick == old(latestTick) && latestBar == old(latestBar)
      ensures request.remarks == old(request.remarks) && request.triggerPrice == old(request.triggerPrice)
      ensures request.audit == old(request.audit)
      ensures var i := FirstWithId(old(book), request.id);
              if i < 0 then
                book == old(book) && events == old(events) && request.status == old(request.status)
              else
                && book == RemoveAt(old(book), i)
                && AsMap(book) == AsMap(old(book)) - {old(book)[i].key}
                && request.status == Cancelled
                && events == old(events) + [CancellationArrived(request)]
    {
      var snapshot := book;
      for i := 0 to |snapshot|
        invariant Valid() && book == snapshot == old(book) && events == old(events)
        invariant request.status == old(request.status)
        invariant forall k | 0 <= k < i :: snapshot[k].order.id != request.id
      {
        if snapshot[i].order.id == request.id {
          CancelAt(i, request);
          return;
        }
      }
    }

    /** The body of the cancel loop once it has found the order at position `i`. */
    method CancelAt(i: int, request: Order)
      requires Valid() && 0 <= i < |book|
      modifies this, request
      ensures Valid()
      ensures book == RemoveAt(old(book), i) && AsMap(book) == AsMap(old(book)) - {old(book)[i].key}
      ensures request.status == Cancelled && events == old(events) + [CancellationArrived(request)]
      ensures latestTick == old(latestTick) && latestBar == old(latestBar)
      ensures request.remarks == old(request.remarks) && request.triggerPrice == old(request.triggerPrice)
      ensures request.audit == old(request.audit)
    {
      RemoveKeyAt(book, i);
      RemoveAtSorted(book, i);
      RemoveAtView(book, i);
      RemoveAtKeepsValid(book, i);
      book := RemoveKey(book, book[i].key);
      request.status := Cancelled;
      events := events + [CancellationArrived(request)];
    }

    /**
     * Fills a market order: computes the price (from the trigger price as it
     * was on arrival), reads the signal price from the remarks, and raises the
     * execution stamped with the last bar. A missing snapshot or an empty
     * signal value abandons the execution at the point the source throws.
     */
    method ExecuteMarketOrder(o: Order)
      requires Valid()
      modifies this, o
      ensures Valid()
      ensures book == old(book) && latestTick == old(latestTick) && latestBar == old(latestBar)
      ensures var price := MarketPrice(o.side, old(o.triggerPrice), o.slippage, latestTick, latestBar);
              var note := TriggerAnnotation(old(o.remarks), old(o.triggerPrice));
              var executes := price.Some? && note.Some? && latestBar.Some?;
              && events == old(events) + (if executes then [ExecutionArrived(MarketExecution(o, price.value, latestBar.value))] else [])
              && o.status == (if executes then Executed else old(o.status))
              && o.audit == (if executes then old(o.audit) + [latestBar.value] else old(o.audit))
              && (if price.Some? && note.Some?
                  then o.remarks == note.value.remarks && o.triggerPrice == note.value.triggerPrice
                  else o.remarks == old(o.remarks) && o.triggerPrice == old(o.triggerPrice))
    {
      var price := MarketPrice(o.side, o.triggerPrice, o.slippage, latestTick, latestBar);
      if price.None? {
        return;   // the missing bar snapshot is dereferenced
      }
      var note := TriggerAnnotation(o.remarks, o.triggerPrice);
      if note.None? {
        return;   // `Replace("", "")` throws
      }
      o.triggerPrice := note.value.triggerPrice;
      o.remarks := note.value.remarks;
      if latestBar.None? {
        return;   // the OHLC annotation dereferences the missing bar snapshot
      }
      o.audit := o.audit + [latestBar.value];
      o.status := Executed;
      events := events + [ExecutionArrived(MarketExecution(o, price.value, latestBar.value))];
    }

    /**
     * Tries to fill one resting order against a bar. When it fills, the order
     * leaves the book (by the first position holding it), is marked EXECUTED,
     * gets the last bar appended to its remarks, and one execution is raised.
     */
    method ExecuteLimitOrder(o: Order, bar: Bar) returns (filled: bool)
      requires Valid() && latestBar.Some? && IndexOfOrder(book, o) >= 0
      modifies this, if LimitFillPrice(o, bar).Some? then {o} else {}
      ensures Valid()
      ensures filled <==> LimitFillPrice(o, bar).Some?
      ensures !filled ==> unchanged(this) && unchanged(o)
      ensures filled ==>
                && book == RemoveAt(old(book), IndexOfOrder(old(book), o))
                && events == old(events) + [ExecutionArrived(LimitExecution(o, LimitFillPrice(o, bar).value, bar))]
                && latestTick == old(latestTick) && latestBar == old(latestBar)
                && o.status == Executed && o.audit == old(o.audit) + [old(latestBar).value]
                && o.remarks == old(o.remarks) && o.triggerPrice == old(o.triggerPrice)
    {
      if o.orderDateTime == bar.dateTime {
        return false;
      }
      if o.side == BUY && bar.low <= o.limitPrice {
        var price := BuySidePriceCalculation(o.limitPrice, bar);
        if price != 0.0 {
          Fill(o, price, bar);
          return true;
        }
      }
      if o.side == SELL && bar.high >= o.limitPrice {
        var price := SellSidePriceCalculation(o.limitPrice, bar);
        if price != 0.0 {
          Fill(o, price, bar);
          return true;
        }
      }
      return false;
    }

    /** The common tail of both sides of `ExecuteLimitOrder`. */
    method Fill(o: Order, price: real, bar: Bar)
      requires Valid() && latestBar.Some? && IndexOfOrder(book, o) >= 0
      modifies this, o
      ensures Valid()
      ensures book == RemoveAt(old(book), IndexOfOrder(old(book), o))
      ensures events == old(events) + [ExecutionArrived(LimitExecution(o, price, bar))]
      ensures latestTick == old(latestTick) && latestBar == old(latestBar)
      ensures o.status == Executed && o.audit == old(o.audit) + [old(latestBar).value]
      ensures o.remarks == old(o.remarks) && o.triggerPrice == old(o.triggerPrice)
    {
      var index := IndexOfOrder(book, o);
      RemoveAtSorted(book, index);
      RemoveAtKeepsValid(book, index);
      book := RemoveAt(book, index);
      o.audit := o.audit + [latestBar.value];
      o.status := Executed;
      events := events + [ExecutionArrived(LimitExecution(o, price, bar))];
    }

    /** `Clear`: empties the book and nothing else. */
    method Clear()
      requires Valid()
      modifies this
      ensures Valid()
      ensures book == [] && latestTick == old(latestTick) && latestBar == old(latestBar) && events == old(events)
    {
      book := [];
    }
  }

  /** Every entry of a book after an insertion is an old entry or the new one. */
  lemma InsertMembers(b: seq<Entry>, key: int, o: Order)
    requires Sorted(b) && key !in Keys(b)
    ensures forall i | 0 <= i < |Insert(b, key, o)| :: Insert(b, key, o)[i] in b || Insert(b, key, o)[i] == Entry(key, o)
  {
    if b != [] && b[0].key < key {
      KeysCons(b);
      SortedTail(b);
      InsertMembers(b[1..], key, o);
    }
  }

  /** Every order resting in the book passed `ValideLimitOrder`. */
  predicate Validated(b: seq<Entry>)
  {
    forall i | 0 <= i < |b| :: ValideLimitOrder(b[i].order)
  }

  /** Inserting a validated order into a book of validated orders gives a book of validated orders. */
  lemma InsertKeepsValid(b: seq<Entry>, key: int, o: Order)
    requires Sorted(b) && key !in Keys(b) && ValideLimitOrder(o) && Validated(b)
    ensures Validated(Insert(b, key, o))
  {
    var r := Insert(b, key, o);
    InsertMembers(b, key, o);
    forall i | 0 <= i < |r|
      ensures ValideLimitOrder(r[i].order)
    {
      if r[i] != Entry(key, o) {
        var j :| 0 <= j < |b| && b[j] == r[i];
      }
    }
  }

  /** Removing an entry from a book of validated orders leaves a book of validated orders. */
  lemma RemoveAtKeepsValid(b: seq<Entry>, i: int)
    requires 0 <= i < |b| && Validated(b)
    ensures Validated(RemoveAt(b, i))
  {
    var r := RemoveAt(b, i);
    forall j | 0 <= j < |r|
      ensures ValideLimitOrder(r[j].order)
    {
      assert r[j] == (if j < i then b[j] else b[j + 1]);
    }
  }
}
