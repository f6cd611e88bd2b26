/**
 * The pre-trade risk gate: a drawdown limit against the running peak of
 * capital, a limit on the number of open positions and a limit on position
 * size, plus the stop-loss and stop-based sizing helpers.
 */
module Risk {
  import opened Types
  import opened Ledger

  const DefaultMaxDrawdown: real := 0.2
  const DefaultMaxPositionSize: real := 0.1
  const DefaultMaxPositions: int := 5
  const DefaultStopMultiplier: real := 2.0

  function Max(a: real, b: real): real
  {
    if a >= b then a else b
  }

  function Abs(x: real): real
  {
    if x >= 0.0 then x else -x
  }

  /** The peak after observing `caps` in order, starting from 0. */
  function RunningPeak(caps: seq<real>): real
  {
    if caps == [] then 0.0 else Max(RunningPeak(caps[..|caps| - 1]), caps[|caps| - 1])
  }

  /** The running peak is at least 0 and at least every capital observed, and it is one of them unless it is 0. */
  lemma {:induction false} RunningPeakBounds(caps: seq<real>)
    ensures RunningPeak(caps) >= 0.0
    ensures forall i :: 0 <= i < |caps| ==> caps[i] <= RunningPeak(caps)
    ensures RunningPeak(caps) == 0.0 || RunningPeak(caps) in caps
  {
    if caps != [] {
      var init := caps[..|caps| - 1];
      RunningPeakBounds(init);
      forall i | 0 <= i < |caps| - 1 ensures caps[i] <= RunningPeak(caps) {
        assert caps[i] == init[i];
      }
    }
  }

  /** Observing more capitals never lowers the peak. */
  lemma {:induction false} RunningPeakMonotone(caps: seq<real>, more: seq<real>)
    ensures RunningPeak(caps) <= RunningPeak(caps + more)
  {
    if more != [] {
      assert (caps + more)[..|caps + more| - 1] == caps + more[..|more| - 1];
      RunningPeakMonotone(caps, more[..|more| - 1]);
    } else {
      assert caps + more == caps;
    }
  }

  /** Drawdown is defined when the peak is nonzero, and sizing when price and capital are too, once reached. */
  predicate GateDefined(peak: real, capital: real, openCount: nat, price: real,
                        maxDrawdown: real, maxPositions: int)
  {
    && peak > 0.0
    && (1.0 - capital / peak <= maxDrawdown && openCount < maxPositions ==> price != 0.0 && capital != 0.0)
  }

  /**
   * The gate's verdict, the three checks in order: drawdown strictly above
   * the limit rejects, an open count at or above the limit rejects, and a
   * default-risk size above the limit's fraction of capital rejects.
   */
  function Approves(peak: real, capital: real, openCount: nat, price: real,
                    maxDrawdown: real, maxPositionSize: real, maxPositions: int): (ok: bool)
    requires GateDefined(peak, capital, openCount, price, maxDrawdown, maxPositions)
    ensures ok ==> 1.0 - capital / peak <= maxDrawdown
    ensures openCount >= maxPositions ==> !ok
  {
    if 1.0 - capital / peak > maxDrawdown then false
    else if openCount >= maxPositions then false
    else if PositionSizeFor(capital, DefaultRiskPerTrade, price) / capital > maxPositionSize then false
    else true
  }

  /** For a positive peak, the drawdown check passes exactly when capital is at least (1 - limit) of the peak. */
  lemma DrawdownClosedForm(peak: real, capital: real, maxDrawdown: real)
    requires peak > 0.0
    ensures 1.0 - capital / peak <= maxDrawdown <==> capital >= (1.0 - maxDrawdown) * peak
  {
    var q := capital / peak;
    assert q * peak == capital;
    var d := q - (1.0 - maxDrawdown);
    assert capital - (1.0 - maxDrawdown) * peak == d * peak;
    if d >= 0.0 {
      assert d * peak >= 0.0;
    } else {
      assert d * peak < 0.0;
    }
  }

  /** The size fraction the gate tests is 0.02 / price whatever the (nonzero) capital. */
  lemma SizeFractionIndependentOfCapital(capital: real, price: real)
    requires capital != 0.0 && price != 0.0
    ensures PositionSizeFor(capital, DefaultRiskPerTrade, price) / capital == DefaultRiskPerTrade / price
  {
    var size := PositionSizeFor(capital, DefaultRiskPerTrade, price);
    var f := size / capital;
    assert f * capital == size;
    assert (f * price) * capital == (DefaultRiskPerTrade) * capital;
    assert f * price == DefaultRiskPerTrade;
  }

  /**
   * With positive capital the gate approves exactly when capital is at least
   * (1 - max drawdown) of the peak, fewer than the limit of positions are
   * open, and 0.02 / price is within the size limit.
   */
  lemma ApprovesClosedForm(peak: real, capital: real, openCount: nat, price: real,
                           maxDrawdown: real, maxPositionSize: real, maxPositions: int)
    requires peak > 0.0 && capital > 0.0 && price != 0.0
    ensures Approves(peak, capital, openCount, price, maxDrawdown, maxPositionSize, maxPositions) <==>
      && capital >= (1.0 - maxDrawdown) * peak
      && openCount < maxPositions
      && DefaultRiskPerTrade / price <= maxPositionSize
  {
    DrawdownClosedForm(peak, capital, maxDrawdown);
    SizeFractionIndependentOfCapital(capital, price);
  }

  /** A drawdown exactly at the limit is accepted; one strictly beyond it is rejected. */
  lemma DrawdownBoundary(openCount: nat, price: real)
    requires openCount < DefaultMaxPositions && price >= 1.0
    ensures Approves(100.0, 80.0, openCount, price, DefaultMaxDrawdown, DefaultMaxPositionSize, DefaultMaxPositions)
    ensures !Approves(100.0, 79.0, openCount, price, DefaultMaxDrawdown, DefaultMaxPositionSize, DefaultMaxPositions)
  {
    SizeFractionIndependentOfCapital(80.0, price);
    assert DefaultRiskPerTrade / price <= DefaultRiskPerTrade;
  }

  /** With the default limit of 5, a fifth open position blocks a new trade and a fourth does not. */
  lemma PositionCountBoundary(price: real)
    requires price >= 1.0
    ensures !Approves(100.0, 100.0, 5, price, DefaultMaxDrawdown, DefaultMaxPositionSize, DefaultMaxPositions)
    ensures Approves(100.0, 100.0, 4, price, DefaultMaxDrawdown, DefaultMaxPositionSize, DefaultMaxPositions)
  {
    SizeFractionIndependentOfCapital(100.0, price);
    assert DefaultRiskPerTrade / price <= DefaultRiskPerTrade;
  }

  class RiskManager {
    var maxDrawdown: real
    var maxPositionSize: real
    var maxPositions: int
    var peakCapital: real
    /** Every capital the gate has been shown, in order. */
    ghost var seen: seq<real>

    /** The peak is the running maximum, from 0, of every capital seen. */
    ghost predicate Valid()
      reads this
    {
      peakCapital == RunningPeak(seen)
    }

    constructor (maxDrawdown: real := DefaultMaxDrawdown,
                 maxPositionSize: real := DefaultMaxPositionSize,
                 maxPositions: int := DefaultMaxPositions)
      ensures Valid()
      ensures this.maxDrawdown == maxDrawdown && this.maxPositionSize == maxPositionSize
      ensures this.maxPositions == maxPositions
      ensures peakCapital == 0.0 && seen == []
    {
      this.maxDrawdown := maxDrawdown;
      this.maxPositionSize := maxPositionSize;
      this.maxPositions := maxPositions;
      peakCapital := 0.0;
      seen := [];
    }

    /**
     * Raises the peak to the ledger's current capital if that is higher,
     * then runs the three checks. Only the peak changes; the ledger is read.
     */
    method ValidateTrade(signal: Signal, pm: PositionManager) returns (ok: bool)
      requires Valid()
      requires GateDefined(Max(peakCapital, pm.currentCapital), pm.currentCapital, pm.TotalPositions(),
                           signal.price, maxDrawdown, maxPositions)
      modifies this
      ensures Valid()
      ensures seen == old(seen) + [pm.currentCapital]
      ensures peakCapital == Max(old(peakCapital), pm.currentCapital)
      ensures peakCapital >= old(peakCapital) && peakCapital >= pm.currentCapital
      ensures maxDrawdown == old(maxDrawdown) && maxPositionSize == old(maxPositionSize)
      ensures maxPositions == old(maxPositions)
      ensures unchanged(pm)
      ensures ok == Approves(peakCapital, pm.currentCapital, pm.TotalPositions(), signal.price,
                             maxDrawdown, maxPositionSize, maxPositions)
    {
      peakCapital := Max(peakCapital, pm.currentCapital);
      seen := seen + [pm.currentCapital];
      assert seen[..|seen| - 1] == old(seen);

      var currentDrawdown := 1.0 - pm.currentCapital / peakCapital;
      if currentDrawdown > maxDrawdown {
        return false;
      }
      if pm.TotalPositions() >= maxPositions {
        return false;
      }
      var positionSize := pm.GetPositionSize(signal, signal.price);
      if positionSize / pm.currentCapital > maxPositionSize {
        return false;
      }
      return true;
    }

    /**
     * Stop placed `atr * multiplier` below the price for a long entry and the
     * same distance above it for every other signal kind.
     */
    function CalculateStopLoss(signal: Signal, atr: real, multiplier: real := DefaultStopMultiplier): (stop: real)
      ensures Abs(stop - signal.price) == Abs(atr * multiplier)
      ensures signal.kind == EntryLong ==> (stop <= signal.price <==> atr * multiplier >= 0.0)
      ensures signal.kind != EntryLong ==> (stop >= signal.price <==> atr * multiplier >= 0.0)
    {
      if signal.kind == EntryLong then signal.price - atr * multiplier
      else signal.price + atr * multiplier
    }

    /**
     * With a truthy stop, the size whose loss at the stop is `riskPerTrade`
     * of capital; otherwise the ledger's generic sizing at the signal price.
     */
    function CalculatePositionSize(signal: Signal, pm: PositionManager, stopLoss: Option<real> := None,
                                   riskPerTrade: real := DefaultRiskPerTrade): (size: real)
      reads pm
      requires Truthy(stopLoss) ==> stopLoss.value != signal.price
      requires !Truthy(stopLoss) ==> signal.price != 0.0
      ensures Truthy(stopLoss) ==> size * Abs(signal.price - stopLoss.value) == pm.currentCapital * riskPerTrade
      ensures !Truthy(stopLoss) ==> size * signal.price == pm.currentCapital * riskPerTrade
    {
      if Truthy(stopLoss) then
        var riskAmount := pm.currentCapital * riskPerTrade;
        var priceRisk := Abs(signal.price - stopLoss.value);
        riskAmount / priceRisk
      else
        pm.GetPositionSize(signal, signal.price, riskPerTrade)
    }
  }

  /**
   * Sizing against an ATR stop that is not at zero risks `riskPerTrade` of
   * capital over a price distance of exactly `atr * multiplier`.
   */
  lemma StopBasedSizing(rm: RiskManager, signal: Signal, pm: PositionManager, atr: real, multiplier: real,
                        riskPerTrade: real)
    requires atr * multiplier != 0.0
    requires rm.CalculateStopLoss(signal, atr, multiplier) != 0.0
    ensures var stop := rm.CalculateStopLoss(signal, atr, multiplier);
      rm.CalculatePositionSize(signal, pm, Some(stop), riskPerTrade) * Abs(atr * multiplier)
        == pm.currentCapital * riskPerTrade
  {
  }
}
