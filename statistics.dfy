/**
 * A strategy's running statistics (`Statistics`): share counters and average
 * prices of the open position, the profit and loss settled each time the
 * position goes flat, the per-record accumulators behind the utility figure
 * `GetRisk`, and the fractional position machine `MatlabStatisticsFunction`.
 */
module StrategyStatistics {
  import opened Wrappers
  import opened Text
  import opened Domain

  // ---------------------------------------------------------------------------
  // The position text
  // ---------------------------------------------------------------------------

  /**
   * The `Position` getter: "Long n", "Short n" or "NONE" for the net count
   * n = bought - sold; the count after the word reads back as the size of the
   * net position.
   */
  function PositionText(bought: int, sold: int): (t: string)
    ensures bought == sold <==> t == "NONE"
    ensures bought > sold ==> |t| > 5 && t[..5] == "Long " && AllDigits(t[5..]) && DigitsValue(t[5..]) == bought - sold
    ensures bought < sold ==> |t| > 6 && t[..6] == "Short " && AllDigits(t[6..]) && DigitsValue(t[6..]) == sold - bought
  {
    var net := bought + -sold;
    if net > 0 then
      DigitsRoundTrip(net);
      assert ("Long " + NatToString(net))[5..] == NatToString(net);
      "Long " + NatToString(net)
    else if net < 0 then
      DigitsRoundTrip(-net);
      assert ("Short " + NatToString(-net))[6..] == NatToString(-net);
      "Short " + NatToString(-net)
    else "NONE"
  }

  lemma DigitsLack(d: string, c: char)
    requires AllDigits(d) && !IsDigit(c)
    ensures c !in d
  {
    forall i | 0 <= i < |d|
      ensures d[i] != c
    {
      assert IsDigit(d[i]);
    }
  }

  /**
   * The three `Contains` tests the statistics make on the position text
   * separate the three cases exactly: "NONE" when flat, "Long" when more was
   * bought than sold, "Short" when more was sold than bought.
   */
  lemma PositionDispatch(bought: int, sold: int)
    ensures Contains(PositionText(bought, sold), "NONE") <==> bought == sold
    ensures Contains(PositionText(bought, sold), "Long") <==> bought > sold
    ensures Contains(PositionText(bought, sold), "Short") <==> bought < sold
  {
    var t := PositionText(bought, sold);
    if bought > sold {
      var d := NatToString(bought - sold);
      DigitsLack(d, 'N');
      DigitsLack(d, 'S');
      assert t == "Long " + d;
      assert t[0..4] == "Long";
      assert MatchesAt(t, "Long", 0);
      NotContainsWithoutFirstChar(t, "NONE");
      NotContainsWithoutFirstChar(t, "Short");
    } else if bought < sold {
      var d := NatToString(sold - bought);
      DigitsLack(d, 'N');
      DigitsLack(d, 'L');
      assert t == "Short " + d;
      assert t[0..5] == "Short";
      assert MatchesAt(t, "Short", 0);
      NotContainsWithoutFirstChar(t, "NONE");
      NotContainsWithoutFirstChar(t, "Long");
    } else {
      assert t == "NONE";
      assert MatchesAt(t, "NONE", 0);
      NotContainsWithoutFirstChar(t, "Long");
      NotContainsWithoutFirstChar(t, "Short");
    }
  }

  // ---------------------------------------------------------------------------
  // The open position and its settlement
  // ---------------------------------------------------------------------------

  /** The five per-position fields: `Pnl`, `SharesBought`, `SharesSold`, `AvgBuyPrice`, `AvgSellPrice`. */
  datatype Holdings = Holdings(pnl: real, bought: int, sold: int, avgBuy: real, avgSell: real)

  const Flat: Holdings := Holdings(0.0, 0, 0, 0.0, 0.0)

  /** Counters never go negative, and a flat position has all five fields at zero. */
  ghost predicate HoldingsValid(h: Holdings)
  {
    h.bought >= 0 && h.sold >= 0 && (h.bought == h.sold ==> h == Flat)
  }

  function Min(x: real, y: real): real
  {
    if x <= y then x else y
  }

  function Max(x: real, y: real): real
  {
    if x <= y then y else x
  }

  /**
   * The new average price after `size` more shares at `price` join `count`
   * shares at `avg`: the total cost is additive, the first fill sets the
   * average to its own price, and the average stays between the two prices.
   */
  function WeightedAverage(avg: real, count: int, price: real, size: int): (r: real)
    requires count >= 0 && size > 0
    ensures r * (count + size) as real == avg * count as real + price * size as real
    ensures count == 0 ==> r == price
    ensures Min(avg, price) <= r <= Max(avg, price)
  {
    AverageCost(avg, count, price, size);
    AverageOfFirst(avg, count, price, size);
    AverageBetween(avg, count, price, size);
    (price * size as real + avg * count as real) / (count + size) as real
  }

  lemma AverageCost(avg: real, count: int, price: real, size: int)
    requires count >= 0 && size > 0
    ensures (price * size as real + avg * count as real) / (count + size) as real * (count + size) as real
            == avg * count as real + price * size as real
  {
    DivExact(price * size as real + avg * count as real, (count + size) as real);
  }

  lemma AverageOfFirst(avg: real, count: int, price: real, size: int)
    requires count >= 0 && size > 0
    ensures count == 0 ==> (price * size as real + avg * count as real) / (count + size) as real == price
  {
    if count == 0 {
      assert price * size as real + avg * count as real == price * size as real;
      DivExact(price, size as real);
    }
  }

  lemma AverageBetween(avg: real, count: int, price: real, size: int)
    requires count >= 0 && size > 0
    ensures var r := (price * size as real + avg * count as real) / (count + size) as real;
            Min(avg, price) <= r <= Max(avg, price)
  {
    var n, c := size as real, count as real;
    var total := (count + size) as real;
    var sum := price * n + avg * c;
    var lo, hi := Min(avg, price), Max(avg, price);
    ScaleLe(lo, price, n);
    ScaleLe(lo, avg, c);
    ScaleLe(price, hi, n);
    ScaleLe(avg, hi, c);
    assert lo * total == lo * n + lo * c;
    assert hi * total == hi * n + hi * c;
    DivBounds(lo, sum, hi, total);
  }

  lemma ScaleLe(x: real, y: real, k: real)
    requires x <= y && k >= 0.0
    ensures x * k <= y * k
  {
    assert y * k - x * k == (y - x) * k;
  }

  lemma DivBounds(lo: real, x: real, hi: real, k: real)
    requires k > 0.0 && lo * k <= x <= hi * k
    ensures lo <= x / k <= hi
  {
    assert x / k * k == x;
    if x / k < lo {
      ScaleLe(x / k, lo, k);
    }
  }

  lemma DivExact(x: real, k: real)
    requires k > 0.0
    ensures (x * k) / k == x && (x / k) * k == x
  {
  }

  lemma DivNonNegative(x: real, y: real)
    requires x >= 0.0 && y > 0.0
    ensures x / y >= 0.0
  {
  }

  /** The execution adds to the bought side: a BUY, or a COVER while short. */
  predicate AddsToBought(h: Holdings, side: string)
  {
    side == BUY || (side == COVER && h.bought < h.sold)
  }

  /** The execution adds to the sold side: a SELL or SHORT, or a COVER while long. */
  predicate AddsToSold(h: Holdings, side: string)
  {
    side == SELL || side == SHORT || (side == COVER && h.bought > h.sold)
  }

  /**
   * The position bookkeeping of `UpdateCalulcationsOnExecution` before the
   * flat check: one side's counter and average absorb the fill, the other
   * side is untouched, and Pnl is revalued from both sides.
   */
  function Fill(h: Holdings, side: string, price: real, size: int): (r: Holdings)
    requires h.bought >= 0 && h.sold >= 0 && size > 0
    ensures r.bought >= 0 && r.sold >= 0
    ensures r.pnl == MarkedPnl(r)
    ensures AddsToBought(h, side) ==>
              && r.bought == h.bought + size && r.sold == h.sold && r.avgSell == h.avgSell
              && r.avgBuy == WeightedAverage(h.avgBuy, h.bought, price, size)
    ensures AddsToSold(h, side) ==>
              && r.sold == h.sold + size && r.bought == h.bought && r.avgBuy == h.avgBuy
              && r.avgSell == WeightedAverage(h.avgSell, h.sold, price, size)
    ensures !AddsToBought(h, side) && !AddsToSold(h, side) ==>
              r.bought == h.bought && r.sold == h.sold && r.avgBuy == h.avgBuy && r.avgSell == h.avgSell
  {
    if AddsToBought(h, side) then BuyMore(h, price, size)
    else if AddsToSold(h, side) then SellMore(h, price, size)
    else Revalue(h)
  }

  /** The value of what was sold less the cost of what was bought. */
  function MarkedPnl(h: Holdings): real
  {
    h.avgSell * h.sold as real - h.avgBuy * h.bought as real
  }

  /** Pnl revalued from both sides; nothing else changes. */
  function Revalue(h: Holdings): (r: Holdings)
    ensures r.pnl == MarkedPnl(h) && r.pnl == MarkedPnl(r)
    ensures r.(pnl := h.pnl) == h
  {
    h.(pnl := MarkedPnl(h))
  }

  function BuyMore(h: Holdings, price: real, size: int): (r: Holdings)
    requires h.bought >= 0 && size > 0
    ensures r.bought == h.bought + size && r.sold == h.sold && r.avgSell == h.avgSell
    ensures r.avgBuy == WeightedAverage(h.avgBuy, h.bought, price, size)
    ensures r.pnl == MarkedPnl(r)
  {
    Revalue(h.(bought := h.bought + size, avgBuy := WeightedAverage(h.avgBuy, h.bought, price, size)))
  }

  function SellMore(h: Holdings, price: real, size: int): (r: Holdings)
    requires h.sold >= 0 && size > 0
    ensures r.sold == h.sold + size && r.bought == h.bought && r.avgBuy == h.avgBuy
    ensures r.avgSell == WeightedAverage(h.avgSell, h.sold, price, size)
    ensures r.pnl == MarkedPnl(r)
  {
    Revalue(h.(sold := h.sold + size, avgSell := WeightedAverage(h.avgSell, h.sold, price, size)))
  }

  /**
   * The per-record accumulators: the sums of squares of the losing and the
   * winning records, the sum of all records, and the two counts.
   */
  datatype Tally = Tally(sigmaTop: real, sigmaBottom: real, pnlSum: real, negCount: int, posCount: int)

  const EmptyTally: Tally := Tally(0.0, 0.0, 0.0, 0, 0)

  /** Counts and sums of squares are non-negative, and a sum of squares stays zero while its count is. */
  ghost predicate TallyValid(a: Tally)
  {
    && a.negCount >= 0 && a.posCount >= 0
    && a.sigmaTop >= 0.0 && a.sigmaBottom >= 0.0
    && (a.negCount == 0 ==> a.sigmaTop == 0.0)
    && (a.posCount == 0 ==> a.sigmaBottom == 0.0)
  }

  /**
   * Records one value `q`: a loss counts on the top, a gain on the bottom,
   * zero on neither; every value joins the sum.
   */
  function Record(a: Tally, q: real): (r: Tally)
    ensures TallyValid(a) ==> TallyValid(r)
    ensures r.pnlSum == a.pnlSum + q
    ensures r.negCount + r.posCount == a.negCount + a.posCount + (if q == 0.0 then 0 else 1)
    ensures r.sigmaTop + r.sigmaBottom == a.sigmaTop + a.sigmaBottom + q * q
    ensures q < 0.0 ==> r.negCount == a.negCount + 1 && r.posCount == a.posCount && r.sigmaBottom == a.sigmaBottom
    ensures q > 0.0 ==> r.posCount == a.posCount + 1 && r.negCount == a.negCount && r.sigmaTop == a.sigmaTop
    ensures q == 0.0 ==> r.negCount == a.negCount && r.posCount == a.posCount
                         && r.sigmaTop == a.sigmaTop && r.sigmaBottom == a.sigmaBottom
  {
    if q < 0.0 then Tally(a.sigmaTop + q * q, a.sigmaBottom, a.pnlSum + q, a.negCount + 1, a.posCount)
    else if q > 0.0 then Tally(a.sigmaTop, a.sigmaBottom + q * q, a.pnlSum + q, a.negCount, a.posCount + 1)
    else Tally(a.sigmaTop, a.sigmaBottom, a.pnlSum + q, a.negCount, a.posCount)
  }

  /**
   * `UpdateCalcualtions`: when the position text says NONE, the position's
   * Pnl is recorded and the five per-position fields go back to zero.
   */
  function Settle(h: Holdings, a: Tally): (r: (Holdings, Tally))
    ensures h.bought == h.sold ==> r == (Flat, Record(a, h.pnl))
    ensures h.bought != h.sold ==> r == (h, a)
  {
    PositionDispatch(h.bought, h.sold);
    if Contains(PositionText(h.bought, h.sold), "NONE") then (Flat, Record(a, h.pnl)) else (h, a)
  }

  /** A long round trip, BUY n at p then SELL n at q, records (q - p) * n and leaves the position flat. */
  lemma LongRoundTrip(a: Tally, n: int, p: real, q: real)
    requires n > 0
    ensures var entered := Settle(Fill(Flat, BUY, p, n), a);
            && entered.1 == a
            && Settle(Fill(entered.0, SELL, q, n), entered.1) == (Flat, Record(a, (q - p) * n as real))
  {
    var h1 := Fill(Flat, BUY, p, n);
    assert h1 == Holdings(-(p * n as real), n, 0, p, 0.0);
    var h2 := Fill(h1, SELL, q, n);
    assert h2.pnl == q * n as real - p * n as real;
  }

  /** A short round trip, SHORT n at p then COVER n at q, records (p - q) * n and leaves the position flat. */
  lemma ShortRoundTrip(a: Tally, n: int, p: real, q: real)
    requires n > 0
    ensures var entered := Settle(Fill(Flat, SHORT, p, n), a);
            && entered.1 == a
            && Settle(Fill(entered.0, COVER, q, n), entered.1) == (Flat, Record(a, (p - q) * n as real))
  {
    var h1 := Fill(Flat, SHORT, p, n);
    assert h1 == Holdings(p * n as real, 0, n, 0.0, p);
    assert AddsToBought(h1, COVER);
    var h2 := Fill(h1, COVER, q, n);
    assert h2.pnl == p * n as real - q * n as real;
  }

  // ---------------------------------------------------------------------------
  // The fractional position machine
  // ---------------------------------------------------------------------------

  /** The step `MatlabStatisticsFunction` takes: the new `Pos` and `Flag`, and the value it records (before scaling). */
  datatype MatlabOutcome = MatlabOutcome(pos: real, flag: bool, perpnl: real)

  /** A partial exit: a "PT" remark other than the last profit target "PT-3". */
  predicate PartialExit(remarks: string)
  {
    Contains(remarks, "PT") && !Contains(remarks, "PT-3")
  }

  /** The bars `MatlabStatisticsFunction` dereferences on its path: exactly those must be present. */
  predicate MatlabBarsPresent(pos: real, flag: bool, side: string, remarks: string, current: Option<Bar>, prev: Option<Bar>)
  {
    if pos == 0.0 then (side == SELL || side == SHORT || side == BUY) ==> current.Some?
    else !flag ==> prev.Some? && (PartialExit(remarks) ==> current.Some?)
  }

  /** Position in [-1, 1], and a set flag marks a position just opened at full size. */
  predicate StanceValid(pos: real, flag: bool)
  {
    -1.0 <= pos <= 1.0 && (flag ==> pos == 1.0 || pos == -1.0)
  }

  /**
   * From flat, SELL or SHORT opens a full short and BUY a full long, raising
   * the flag. With the flag down, "PT-3" or a remark without "PT" closes the
   * position and any other "PT" remark moves it 0.33 toward zero.
   */
  function MatlabStep(pos: real, flag: bool, side: string, price: real, remarks: string,
                      current: Option<Bar>, prev: Option<Bar>): (r: MatlabOutcome)
    requires MatlabBarsPresent(pos, flag, side, remarks, current, prev)
    ensures StanceValid(pos, flag) ==> StanceValid(r.pos, r.flag)
    ensures pos == 0.0 && (side == SELL || side == SHORT) ==> r.pos == -1.0 && r.flag
    ensures pos == 0.0 && side == BUY ==> r.pos == 1.0 && r.flag
    ensures pos == 0.0 && side != SELL && side != SHORT && side != BUY ==> r == MatlabOutcome(pos, flag, 0.0)
    ensures pos != 0.0 && flag ==> r == MatlabOutcome(pos, flag, 0.0)
    ensures pos != 0.0 && !flag && !PartialExit(remarks) ==> r.pos == 0.0 && !r.flag
    ensures pos < 0.0 && !flag && PartialExit(remarks) ==> r.pos == pos + 0.33 && !r.flag
    ensures pos > 0.0 && !flag && PartialExit(remarks) ==> r.pos == pos - 0.33 && !r.flag
  {
    if pos == 0.0 then
      if side == SELL || side == SHORT then MatlabOutcome(-1.0, true, (price - current.value.close) * -1.0 * -1.0)
      else if side == BUY then MatlabOutcome(1.0, true, (current.value.close - price) * 1.0)
      else MatlabOutcome(pos, flag, 0.0)
    else if flag then MatlabOutcome(pos, flag, 0.0)
    else if pos < 0.0 then
      if Contains(remarks, "PT-3") then MatlabOutcome(0.0, flag, (prev.value.close - price) * -1.0 * pos)
      else if Contains(remarks, "PT") then
        var p := pos + 0.33;
        MatlabOutcome(p, flag, (prev.value.close - price) - (current.value.close - prev.value.close) * -1.0 * p)
      else MatlabOutcome(0.0, flag, (prev.value.close - price) * -1.0 * pos)
    else
      if Contains(remarks, "PT-3") then MatlabOutcome(0.0, flag, (price - prev.value.close) * pos)
      else if Contains(remarks, "PT") then
        var p := pos - 0.33;
        MatlabOutcome(p, flag, (price - prev.value.close) + (current.value.close - prev.value.close) * p)
      else MatlabOutcome(0.0, flag, (price - prev.value.close) * pos)
  }

  /**
   * Where `Pos` is left when a bar the step reads is absent and the read
   * throws: from flat the new full position is already set (the flag is not
   * yet raised), a partial exit has already moved 0.33 toward zero, and a
   * full close has not yet happened.
   */
  function MatlabFault(pos: real, side: string, remarks: string): (r: real)
    ensures -1.0 <= pos <= 1.0 ==> -1.0 <= r <= 1.0
  {
    if pos == 0.0 then
      if side == SELL || side == SHORT then -1.0 else if side == BUY then 1.0 else pos
    else if PartialExit(remarks) then
      if pos < 0.0 then pos + 0.33 else pos - 0.33
    else pos
  }

  /**
   * A step that faults on an absent bar leaves `Pos` where the completed step
   * would have put it when the move comes before the failing read (opening
   * from flat, a partial exit), and where it was otherwise (a full close).
   */
  lemma FaultLeavesMove(pos: real, flag: bool, side: string, price: real, remarks: string,
                        current: Option<Bar>, prev: Option<Bar>, someCurrent: Option<Bar>, somePrev: Option<Bar>)
    requires !MatlabBarsPresent(pos, flag, side, remarks, current, prev)
    requires MatlabBarsPresent(pos, flag, side, remarks, someCurrent, somePrev)
    ensures MatlabFault(pos, side, remarks)
            == (if pos == 0.0 || PartialExit(remarks) then MatlabStep(pos, flag, side, price, remarks, someCurrent, somePrev).pos
                else pos)
  {
  }

  /**
   * Three profit targets close a full long: "PT-1" and "PT-2" each take 0.33
   * off, and "PT-3" closes what is left.
   */
  lemma ProfitTargetsCloseLong(price: real, bar: Bar)
    ensures var b := Some(bar);
            var s1 := MatlabStep(1.0, false, SELL, price, "PT-1", b, b);
            var s2 := MatlabStep(s1.pos, s1.flag, SELL, price, "PT-2", b, b);
            var s3 := MatlabStep(s2.pos, s2.flag, SELL, price, "PT-3", b, b);
            s1.pos == 0.67 && s2.pos == 0.34 && s3.pos == 0.0 && !s3.flag
  {
    assert MatchesAt("PT-1", "PT", 0) && MatchesAt("PT-2", "PT", 0) && MatchesAt("PT-3", "PT-3", 0);
    assert !Contains("PT-1", "PT-3") by {
      assert "PT-1"[0..4][3] != "PT-3"[3];
    }
    assert !Contains("PT-2", "PT-3") by {
      assert "PT-2"[0..4][3] != "PT-3"[3];
    }
  }

  // ---------------------------------------------------------------------------
  // The statistics object
  // ---------------------------------------------------------------------------

  /** What an open position of size `pos` gains or loses from the previous close to the current one. */
  function BarMove(current: Bar, prev: Bar, pos: real): real
  {
    (current.close - prev.close) * pos
  }

  class Statistics {
    const id: string
    var pnl: real
    var sharesBought: int
    var sharesSold: int
    var avgBuyPrice: real
    var avgSellPrice: real
    var pos: real
    var flag: bool
    var sigmaTop: real
    var sigmaBottom: real
    var pnlSum: real
    /** `_risk`, the weight of the dispersion term in the utility. */
    var risk: real
    var negCount: int
    var posCount: int
    var currentBar: Option<Bar>
    var prevBar: Option<Bar>

    ghost function Position(): Holdings
      reads this
    {
      Holdings(pnl, sharesBought, sharesSold, avgBuyPrice, avgSellPrice)
    }

    ghost function Accumulated(): Tally
      reads this
    {
      Tally(sigmaTop, sigmaBottom, pnlSum, negCount, posCount)
    }

    ghost predicate Valid()
      reads this
    {
      HoldingsValid(Position()) && TallyValid(Accumulated()) && StanceValid(pos, flag) && risk == 0.5
    }

    constructor (id: string)
      ensures Valid()
      ensures this.id == id && Position() == Flat && Accumulated() == EmptyTally
      ensures pos == 0.0 && !flag && currentBar.None? && prevBar.None?
    {
      this.id := id;
      pnl, sharesBought, sharesSold, avgBuyPrice, avgSellPrice := 0.0, 0, 0, 0.0, 0.0;
      pos, flag := 0.0, false;
      sigmaTop, sigmaBottom, pnlSum, risk, negCount, posCount := 0.0, 0.0, 0.0, 0.5, 0, 0;
      currentBar, prevBar := None, None;
    }

    /** Records fifteen times the given value in the accumulators. */
    method UpdatePnl(p: real)
      requires Valid()
      modifies this
      ensures Valid()
      ensures Accumulated() == Record(old(Accumulated()), 15.0 * p)
      ensures Position() == old(Position()) && pos == old(pos) && flag == old(flag)
      ensures currentBar == old(currentBar) && prevBar == old(prevBar)
    {
      var perpnl := p * 15.0;
      if perpnl < 0.0 {
        negCount := negCount + 1;
        sigmaTop := sigmaTop + perpnl * perpnl;
      } else if perpnl > 0.0 {
        posCount := posCount + 1;
        sigmaBottom := sigmaBottom + perpnl * perpnl;
      }
      pnlSum := pnlSum + perpnl;
      assert Accumulated() == Record(old(Accumulated()), perpnl);
    }

    /** Zeroes the five per-position fields and nothing else. */
    method ResetValues()
      modifies this
      ensures Position() == Flat
      ensures Accumulated() == old(Accumulated()) && pos == old(pos) && flag == old(flag) && risk == old(risk)
      ensures currentBar == old(currentBar) && prevBar == old(prevBar)
    {
      pnl, sharesBought, sharesSold, avgBuyPrice, avgSellPrice := 0.0, 0, 0, 0.0, 0.0;
    }

    /** Folds an execution into the open position, then settles it if it went flat. */
    method UpdateCalulcationsOnExecution(execution: Execution)
      requires Valid() && execution.size > 0
      modifies this
      ensures Valid()
      ensures (Position(), Accumulated())
              == Settle(Fill(old(Position()), execution.side, execution.price, execution.size), old(Accumulated()))
      ensures pos == old(pos) && flag == old(flag) && currentBar == old(currentBar) && prevBar == old(prevBar)
    {
      Absorb(execution.side, execution.price, execution.size);
      UpdateCalcualtions();
    }

    /** The body of `UpdateCalulcationsOnExecution` up to the flat check: the fill is absorbed and Pnl revalued. */
    method Absorb(side: string, price: real, size: int)
      requires sharesBought >= 0 && sharesSold >= 0 && size > 0
      modifies this
      ensures Position() == Fill(old(Position()), side, price, size)
      ensures Accumulated() == old(Accumulated()) && pos == old(pos) && flag == old(flag) && risk == old(risk)
      ensures currentBar == old(currentBar) && prevBar == old(prevBar)
    {
      ghost var before := Position();
      PositionDispatch(sharesBought, sharesSold);
      if side == BUY {
        BuyShares(price, size);
        assert AddsToBought(before, side);
      } else if side == SELL || side == SHORT {
        SellShares(price, size);
        assert AddsToSold(before, side) && !AddsToBought(before, side);
      } else if side == COVER {
        var position := PositionText(sharesBought, sharesSold);
        if Contains(position, "Long") {
          SellShares(price, size);
          assert AddsToSold(before, side) && !AddsToBought(before, side);
        } else if Contains(position, "Short") {
          BuyShares(price, size);
          assert AddsToBought(before, side);
        } else {
          assert !AddsToBought(before, side) && !AddsToSold(before, side);
        }
      } else {
        assert !AddsToBought(before, side) && !AddsToSold(before, side);
      }
      ghost var counted := Position();
      assert Revalue(counted) == Fill(before, side, price, size);
      RevaluePnl();
    }

    /** Pnl as the value of the shares sold less the cost of the shares bought. */
    method RevaluePnl()
      modifies this
      ensures Position() == Revalue(old(Position()))
      ensures Accumulated() == old(Accumulated()) && pos == old(pos) && flag == old(flag) && risk == old(risk)
      ensures currentBar == old(currentBar) && prevBar == old(prevBar)
    {
      pnl := avgSellPrice * sharesSold as real - avgBuyPrice * sharesBought as real;
    }

    /** One buy-side branch of `UpdateCalulcationsOnExecution`: the average buy price and the bought count absorb the fill. */
    method BuyShares(price: real, size: int)
      requires sharesBought >= 0 && size > 0
      modifies this
      ensures Position() == old(Position()).(bought := old(sharesBought) + size,
                                              avgBuy := WeightedAverage(old(avgBuyPrice), old(sharesBought), price, size))
      ensures Accumulated() == old(Accumulated()) && pos == old(pos) && flag == old(flag) && risk == old(risk)
      ensures currentBar == old(currentBar) && prevBar == old(prevBar)
    {
      avgBuyPrice := (price * size as real + avgBuyPrice * sharesBought as real) / (sharesBought + size) as real;
      sharesBought := sharesBought + size;
    }

    /** One sell-side branch of `UpdateCalulcationsOnExecution`: the average sell price and the sold count absorb the fill. */
    method SellShares(price: real, size: int)
      requires sharesSold >= 0 && size > 0
      modifies this
      ensures Position() == old(Position()).(sold := old(sharesSold) + size,
                                              avgSell := WeightedAverage(old(avgSellPrice), old(sharesSold), price, size))
      ensures Accumulated() == old(Accumulated()) && pos == old(pos) && flag == old(flag) && risk == old(risk)
      ensures currentBar == old(currentBar) && prevBar == old(prevBar)
    {
      avgSellPrice := (price * size as real + avgSellPrice * sharesSold as real) / (sharesSold + size) as real;
      sharesSold := sharesSold + size;
    }

    /** Settles the position when it is flat: records its Pnl and zeroes it. */
    method UpdateCalcualtions()
      requires TallyValid(Accumulated()) && sharesBought >= 0 && sharesSold >= 0
      modifies this
      ensures TallyValid(Accumulated())
      ensures (Position(), Accumulated()) == Settle(old(Position()), old(Accumulated()))
      ensures pos == old(pos) && flag == old(flag) && risk == old(risk)
      ensures currentBar == old(currentBar) && prevBar == old(prevBar)
    {
      PositionDispatch(sharesBought, sharesSold);
      if Contains(PositionText(sharesBought, sharesSold), "NONE") {
        if pnl < 0.0 {
          negCount := negCount + 1;
          sigmaTop := sigmaTop + pnl * pnl;
        } else if pnl > 0.0 {
          posCount := posCount + 1;
          sigmaBottom := sigmaBottom + pnl * pnl;
        }
        pnlSum := pnlSum + pnl;
        assert Accumulated() == Record(old(Accumulated()), old(pnl));
        ResetValues();
      }
    }

    /** The latest bar becomes the current one and the current one the previous. */
    method UpdateBar(bar: Bar)
      requires Valid()
      modifies this
      ensures Valid()
      ensures currentBar == Some(bar) && prevBar == old(currentBar)
      ensures Position() == old(Position()) && Accumulated() == old(Accumulated()) && pos == old(pos) && flag == old(flag)
    {
      prevBar := currentBar;
      currentBar := Some(bar);
    }

    /**
     * Lowers the flag and records the open position's move from the previous
     * to the current close. With a position open and a bar absent, reading the
     * close throws after the flag was lowered: `completed` is false and
     * nothing is recorded.
     */
    method CalculatePnlAfterBar() returns (completed: bool)
      requires Valid()
      modifies this
      ensures Valid()
      ensures Position() == old(Position()) && currentBar == old(currentBar) && prevBar == old(prevBar)
      ensures !flag && pos == old(pos)
      ensures completed <==> pos == 0.0 || (currentBar.Some? && prevBar.Some?)
      ensures !completed || pos == 0.0 ==> Accumulated() == old(Accumulated())
      ensures completed && pos != 0.0 ==>
                Accumulated() == Record(old(Accumulated()), 15.0 * BarMove(currentBar.value, prevBar.value, pos))
    {
      flag := false;
      completed := true;
      if !flag && pos != 0.0 {
        // the long and the short branch of the source compute the same value
        if currentBar.None? || prevBar.None? {
          completed := false;
          return;
        }
        var perpnl := (currentBar.value.close - prevBar.value.close) * pos;
        assert perpnl == BarMove(currentBar.value, prevBar.value, pos);
        UpdatePnl(perpnl);
      }
    }

    /**
     * Steps the fractional position machine on an execution and records the
     * resulting value. When a bar the step reads is absent the read throws:
     * `completed` is false, `Pos` is left as `MatlabFault` says and nothing
     * is recorded.
     */
    method MatlabStatisticsFunction(execution: Execution) returns (completed: bool)
      requires Valid()
      modifies this
      ensures Valid()
      ensures completed <==> MatlabBarsPresent(old(pos), old(flag), execution.side, old(execution.order.remarks),
                                               old(currentBar), old(prevBar))
      ensures completed ==>
                var step := MatlabStep(old(pos), old(flag), execution.side, execution.price,
                                       old(execution.order.remarks), old(currentBar), old(prevBar));
                && pos == step.pos && flag == step.flag
                && Accumulated() == Record(old(Accumulated()), 15.0 * step.perpnl)
      ensures !completed ==>
                && pos == MatlabFault(old(pos), execution.side, old(execution.order.remarks))
                && flag == old(flag) && Accumulated() == old(Accumulated())
      ensures Position() == old(Position()) && currentBar == old(currentBar) && prevBar == old(prevBar)
    {
      var perpnl;
      perpnl, completed := StepPosition(execution.side, execution.price, execution.order.remarks);
      if completed {
        UpdatePnl(perpnl);
      }
    }

    /** The position machine of `MatlabStatisticsFunction`: moves `Pos` and `Flag` and returns the value to record. */
    method StepPosition(side: string, price: real, remarks: string) returns (perpnl: real, completed: bool)
      requires StanceValid(pos, flag)
      modifies this
      ensures completed <==> MatlabBarsPresent(old(pos), old(flag), side, remarks, old(currentBar), old(prevBar))
      ensures completed ==>
                var step := MatlabStep(old(pos), old(flag), side, price, remarks, old(currentBar), old(prevBar));
                pos == step.pos && flag == step.flag && perpnl == step.perpnl
      ensures !completed ==> pos == MatlabFault(old(pos), side, remarks) && flag == old(flag)
      ensures StanceValid(pos, flag)
      ensures Position() == old(Position()) && Accumulated() == old(Accumulated()) && risk == old(risk)
      ensures currentBar == old(currentBar) && prevBar == old(prevBar)
    {
      perpnl, completed := 0.0, true;
      if pos == 0.0 {
        if side == SELL || side == SHORT {
          pos := -1.0;
          if currentBar.None? {
            completed := false;
            return;
          }
          perpnl := (price - currentBar.value.close) * -1.0 * pos;
          flag := true;
        } else if side == BUY {
          pos := 1.0;
          if currentBar.None? {
            completed := false;
            return;
          }
          perpnl := (currentBar.value.close - price) * pos;
          flag := true;
        }
      }
      if !flag {
        if pos < 0.0 {
          if Contains(remarks, "PT-3") {
            if prevBar.None? {
              completed := false;
              return;
            }
            perpnl := (prevBar.value.close - price) * -1.0 * pos;
            pos := 0.0;
          } else if Contains(remarks, "PT") {
            pos := pos + 0.33;
            if prevBar.None? || currentBar.None? {
              completed := false;
              return;
            }
            var gl := prevBar.value.close - price;
            perpnl := gl - (currentBar.value.close - prevBar.value.close) * -1.0 * pos;
          } else {
            if prevBar.None? {
              completed := false;
              return;
            }
            perpnl := (prevBar.value.close - price) * -1.0 * pos;
            pos := 0.0;
          }
        } else if pos > 0.0 {
          if Contains(remarks, "PT-3") {
            if prevBar.None? {
              completed := false;
              return;
            }
            perpnl := (price - prevBar.value.close) * pos;
            pos := 0.0;
          } else if Contains(remarks, "PT") {
            pos := pos - 0.33;
            if prevBar.None? || currentBar.None? {
              completed := false;
              return;
            }
            var gl := price - prevBar.value.close;
            perpnl := gl + (currentBar.value.close - prevBar.value.close) * pos;
          } else {
            if prevBar.None? {
              completed := false;
              return;
            }
            perpnl := (price - prevBar.value.close) * pos;
            pos := 0.0;
          }
        }
      }
    }

    /**
     * The utility figure: half the recorded sum less half the dispersion ratio
     * sigmaTop / sigmaBottom, which cannot enter before there has been at least
     * one losing and one winning record, and never raises the figure.
     */
    method GetRisk() returns (utility: real)
      requires Valid()
      ensures negCount == 0 || posCount == 0 ==> utility == 0.5 * pnlSum
      ensures sigmaTop != 0.0 && sigmaBottom != 0.0 ==> utility == 0.5 * pnlSum - 0.5 * (sigmaTop / sigmaBottom)
      ensures utility <= 0.5 * pnlSum
      ensures utility == 0.5 * pnlSum - 0.5 * (if sigmaTop != 0.0 && sigmaBottom != 0.0 then sigmaTop / sigmaBottom else 0.0)
    {
      var sigma := 0.0;
      if sigmaTop != 0.0 && sigmaBottom != 0.0 {
        sigma := sigmaTop / sigmaBottom;
        DivNonNegative(sigmaTop, sigmaBottom);
      }
      utility := 1.0 * ((1.0 - risk) * pnlSum - risk * sigma);
    }

    /** Back to the state of a fresh object, except the id and the bars. */
    method ResetAllValues()
      modifies this
      ensures Valid()
      ensures Position() == Flat && Accumulated() == EmptyTally && pos == 0.0 && !flag && risk == 0.5
      ensures currentBar == old(currentBar) && prevBar == old(prevBar)
    {
      ResetValues();
      sigmaTop := 0.0;
      sigmaBottom := 0.0;
      pnlSum := 0.0;
      risk := 0.5;
      negCount := 0;
      posCount := 0;
      pos := 0.0;
      flag := false;
    }
  }
}
