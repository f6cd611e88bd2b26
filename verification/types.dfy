/**
 * The signal and trade value types of the backtester: positions, signal kinds,
 * signals and trade records with their derived profit, duration and openness.
 * Prices are modelled as `real`, timestamps as opaque integers.
 */
module Types {

  datatype Option<+T> = None | Some(value: T)

  /** Directional exposure for one symbol. */
  datatype Position = Long | Short | Flat

  /** The intended ledger transition a strategy asks for. */
  datatype SignalType = EntryLong | EntryShort | ExitLong | ExitShort {
    predicate IsEntry() { EntryLong? || EntryShort? }
    predicate IsExit() { ExitLong? || ExitShort? }
  }

  /** A strategy's instruction to enter or leave a position at a price and time. */
  datatype Signal = Signal(kind: SignalType, price: real, timestamp: int)

  /** Python's truthiness of an optional float: unset and 0.0 are both false. */
  predicate Truthy(x: Option<real>)
  {
    x.Some? && x.value != 0.0
  }

  /** The sign a trade's price move is weighted by: +1 for LONG, -1 for anything else. */
  function Multiplier(p: Position): (m: real)
    ensures m == 1.0 || m == -1.0
    ensures m == 1.0 <==> p == Long
  {
    if p == Long then 1.0 else -1.0
  }

  /**
   * A trade record. A record built with only the entry fields has size 1.0
   * and every optional field unset.
   */
  datatype Trade = Trade(
    entryPrice: real,
    entryTime: int,
    position: Position,
    size: real := 1.0,
    exitPrice: Option<real> := None,
    exitTime: Option<int> := None,
    stopLoss: Option<real> := None,
    takeProfit: Option<real> := None)
  {
    /** Open means no exit time has been recorded. */
    function IsOpen(): (open: bool)
      ensures open ==> Duration() == 0
    {
      exitTime.None?
    }

    /** Time between entry and exit; zero while no exit time is recorded. */
    function Duration(): (d: int)
      ensures exitTime.None? ==> d == 0
      ensures exitTime.Some? ==> entryTime + d == exitTime.value
    {
      if exitTime.None? then 0 else exitTime.value - entryTime
    }

    /**
     * Realised profit. Zero unless the exit price is truthy; otherwise the
     * price move, signed by the position, times the size.
     */
    function Profit(): (r: real)
      ensures !Truthy(exitPrice) ==> r == 0.0
      ensures Truthy(exitPrice) && position == Long ==> r == (exitPrice.value - entryPrice) * size
      ensures Truthy(exitPrice) && position != Long ==> r == (entryPrice - exitPrice.value) * size
      ensures Truthy(exitPrice) && size > 0.0 ==>
        (r > 0.0 <==> (position == Long && exitPrice.value > entryPrice) ||
                      (position != Long && exitPrice.value < entryPrice))
    {
      if !Truthy(exitPrice) then 0.0
      else (exitPrice.value - entryPrice) * Multiplier(position) * size
    }
  }

  /** Total realised profit of a list of trades. */
  function TotalProfit(trades: seq<Trade>): real
  {
    if trades == [] then 0.0 else TotalProfit(trades[..|trades| - 1]) + trades[|trades| - 1].Profit()
  }

  /** The trades whose exit price is truthy, in their original order. */
  function Priced(trades: seq<Trade>): (r: seq<Trade>)
    ensures |r| <= |trades|
    ensures forall t :: t in r ==> t in trades && Truthy(t.exitPrice)
    ensures forall t :: t in trades && Truthy(t.exitPrice) ==> t in r
  {
    if trades == [] then []
    else
      var last := trades[|trades| - 1];
      Priced(trades[..|trades| - 1]) + (if Truthy(last.exitPrice) then [last] else [])
  }

  /** A trade built from its entry fields alone is open, with size 1.0, and reports no profit or duration. */
  lemma FreshTrade(entryPrice: real, entryTime: int, position: Position)
    ensures var t := Trade(entryPrice, entryTime, position);
      && t.size == 1.0 && t.exitPrice == None && t.exitTime == None
      && t.stopLoss == None && t.takeProfit == None
      && t.IsOpen() && t.Profit() == 0.0 && t.Duration() == 0
  {
  }

  /** Swapping LONG for SHORT negates the profit; FLAT is weighted exactly like SHORT. */
  lemma ProfitDirectionSymmetry(t: Trade)
    ensures t.(position := Short).Profit() == -t.(position := Long).Profit()
    ensures t.(position := Flat).Profit() == t.(position := Short).Profit()
  {
  }

  /** Profit looks only at the exit price: the exit time never changes it. */
  lemma ProfitIgnoresExitTime(t: Trade, e: Option<int>)
    ensures t.(exitTime := e).Profit() == t.Profit()
  {
  }

  /** A trade can be open (no exit time) and still report a nonzero profit once its exit price is set. */
  lemma OpenTradeWithExitPriceHasProfit()
    ensures var t := Trade(100.0, 0, Long, exitPrice := Some(110.0));
      t.IsOpen() && t.Profit() == 10.0
  {
  }

  /** An exit price of 0.0 is falsy, so the trade reports no profit even though the price fell to zero. */
  lemma ZeroExitPriceCountsAsUnset(t: Trade)
    requires t.exitPrice == Some(0.0)
    ensures t.Profit() == 0.0
  {
  }

  /** The long and short round trips of one unit: 100 -> 110 long and 100 -> 90 short both earn 10. */
  lemma RoundTripScenarios()
    ensures Trade(100.0, 0, Long, exitPrice := Some(110.0), exitTime := Some(1)).Profit() == 10.0
    ensures Trade(100.0, 0, Short, exitPrice := Some(90.0), exitTime := Some(1)).Profit() == 10.0
  {
  }

  /** Trades without a truthy exit price contribute nothing to the total profit. */
  lemma {:induction false} UnpricedTradesAddNothing(trades: seq<Trade>)
    ensures TotalProfit(trades) == TotalProfit(Priced(trades))
  {
    if trades != [] {
      var init, last := trades[..|trades| - 1], trades[|trades| - 1];
      UnpricedTradesAddNothing(init);
      TotalProfitAppend(Priced(init), if Truthy(last.exitPrice) then [last] else []);
    }
  }

  /** Total profit is additive over concatenation. */
  lemma {:induction false} TotalProfitAppend(a: seq<Trade>, b: seq<Trade>)
    ensures TotalProfit(a + b) == TotalProfit(a) + TotalProfit(b)
  {
    if b != [] {
      assert (a + b)[..|a + b| - 1] == a + b[..|b| - 1];
      TotalProfitAppend(a, b[..|b| - 1]);
    } else {
      assert a + b == a;
    }
  }
}
