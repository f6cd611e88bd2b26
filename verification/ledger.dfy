/**
 * The position ledger: capital that moves only by realised trade profit, and
 * a symbol -> position map whose unseen symbols read as FLAT.
 */
module Ledger {
  import opened Types

  const DefaultInitialCapital: real := 100000.0
  const DefaultRiskPerTrade: real := 0.02
  const DefaultSymbol: string := "default"

  /** Position of a symbol, FLAT when the symbol has no entry. */
  function Lookup(m: map<string, Position>, symbol: string): Position
  {
    if symbol in m then m[symbol] else Flat
  }

  /** The symbols holding a non-FLAT position. */
  function OpenSymbols(m: map<string, Position>): (s: set<string>)
    ensures s <= m.Keys
    ensures forall k :: k in s <==> k in m && m[k] != Flat
  {
    set k | k in m && m[k] != Flat
  }

  /** Number of map entries whose position is not FLAT. */
  function OpenCount(m: map<string, Position>): (n: nat)
    ensures n <= |m|
  {
    CardinalityOfSubset(OpenSymbols(m), m.Keys);
    |OpenSymbols(m)|
  }

  lemma CardinalityOfSubset<T>(a: set<T>, b: set<T>)
    requires a <= b
    ensures |a| <= |b|
  {
    assert b == a + (b - a);
  }

  /** Removing one element from a set lowers its size by one exactly when it was there. */
  lemma CardinalityWithout<T>(a: set<T>, x: T)
    ensures |a| == |a - {x}| + (if x in a then 1 else 0)
  {
    if x in a {
      assert a == (a - {x}) + {x};
    } else {
      assert a - {x} == a;
    }
  }

  /**
   * How the open count moves when one symbol is overwritten: it loses the
   * symbol's old non-FLAT position, if any, and gains the new one, if any.
   */
  lemma OpenCountAfterSet(m: map<string, Position>, symbol: string, p: Position)
    ensures OpenCount(m[symbol := p]) ==
      OpenCount(m) - (if Lookup(m, symbol) != Flat then 1 else 0) + (if p != Flat then 1 else 0)
  {
    var before, after := OpenSymbols(m), OpenSymbols(m[symbol := p]);
    OthersUnaffected(m, symbol, p);
    CardinalityWithout(before, symbol);
    CardinalityWithout(after, symbol);
  }

  /** Overwriting one symbol leaves the open status of every other symbol as it was. */
  lemma OthersUnaffected(m: map<string, Position>, symbol: string, p: Position)
    ensures OpenSymbols(m[symbol := p]) - {symbol} == OpenSymbols(m) - {symbol}
  {
    forall k | k != symbol
      ensures k in OpenSymbols(m[symbol := p]) <==> k in OpenSymbols(m)
    {
      assert k in m[symbol := p] <==> k in m;
    }
  }

  /** Position size that risks `risk` of `capital` at `price`: size * price == capital * risk. */
  function PositionSizeFor(capital: real, risk: real, price: real): (size: real)
    requires price != 0.0
    ensures size * price == capital * risk
  {
    capital * risk / price
  }

  /** 100000 capital at 2% risk and price 50 sizes to 40 units. */
  lemma PositionSizeScenario()
    ensures PositionSizeFor(100000.0, 0.02, 50.0) == 40.0
  {
  }

  class PositionManager {
    var initialCapital: real
    var currentCapital: real
    /** Entries materialised so far; symbols without an entry read as FLAT. */
    var positions: map<string, Position>
    /** The trades whose profit has been applied, in order. */
    ghost var applied: seq<Trade>

    /** Capital is always the initial capital plus the profit of every applied trade. */
    ghost predicate Valid()
      reads this
    {
      currentCapital == initialCapital + TotalProfit(applied)
    }

    constructor (initialCapital: real := DefaultInitialCapital)
      ensures Valid()
      ensures this.initialCapital == initialCapital && currentCapital == initialCapital
      ensures positions == map[] && applied == []
      ensures forall symbol :: PositionOf(symbol) == Flat
      ensures TotalPositions() == 0
    {
      this.initialCapital := initialCapital;
      currentCapital := initialCapital;
      positions := map[];
      applied := [];
    }

    /** The position a read of `symbol` reports, without materialising an entry. */
    function PositionOf(symbol: string): Position
      reads this
    {
      Lookup(positions, symbol)
    }

    /** Size that risks `riskPerTrade` of the current capital at `price`; the signal is not consulted. */
    function GetPositionSize(signal: Signal, price: real, riskPerTrade: real := DefaultRiskPerTrade): (size: real)
      reads this
      requires price != 0.0
      ensures size * price == currentCapital * riskPerTrade
    {
      PositionSizeFor(currentCapital, riskPerTrade, price)
    }

    /** Number of symbols whose position is not FLAT. */
    function TotalPositions(): (n: nat)
      reads this
      ensures n <= |positions|
      ensures n == |OpenSymbols(positions)|
    {
      OpenCount(positions)
    }

    /** Adds the trade's profit to the current capital; nothing else changes. */
    method UpdateCapital(trade: Trade)
      requires Valid()
      modifies this
      ensures Valid()
      ensures currentCapital == old(currentCapital) + trade.Profit()
      ensures applied == old(applied) + [trade]
      ensures initialCapital == old(initialCapital) && positions == old(positions)
    {
      currentCapital := currentCapital + trade.Profit();
      applied := applied + [trade];
      assert applied[..|applied| - 1] == old(applied);
    }

    /**
     * Reports the symbol's position. Reading an unseen symbol materialises a
     * FLAT entry for it, which leaves every reported position and the open
     * count unchanged.
     */
    method GetCurrentPosition(symbol: string := DefaultSymbol) returns (p: Position)
      modifies this
      ensures old(Valid()) ==> Valid()
      ensures p == old(PositionOf(symbol))
      ensures positions == if symbol in old(positions) then old(positions) else old(positions)[symbol := Flat]
      ensures forall s :: PositionOf(s) == old(PositionOf(s))
      ensures TotalPositions() == old(TotalPositions())
      ensures initialCapital == old(initialCapital) && currentCapital == old(currentCapital)
      ensures applied == old(applied)
    {
      if symbol !in positions {
        OpenCountAfterSet(positions, symbol, Flat);
        positions := positions[symbol := Flat];
      }
      p := positions[symbol];
    }

    /**
     * Overwrites the symbol's position. The open count rises by one on
     * FLAT -> non-FLAT, falls by one on non-FLAT -> FLAT, and is otherwise kept.
     */
    method SetPosition(position: Position, symbol: string := DefaultSymbol)
      modifies this
      ensures old(Valid()) ==> Valid()
      ensures positions == old(positions)[symbol := position]
      ensures PositionOf(symbol) == position
      ensures forall s :: s != symbol ==> PositionOf(s) == old(PositionOf(s))
      ensures old(PositionOf(symbol)) == Flat && position != Flat ==> TotalPositions() == old(TotalPositions()) + 1
      ensures old(PositionOf(symbol)) != Flat && position == Flat ==> TotalPositions() == old(TotalPositions()) - 1
      ensures (old(PositionOf(symbol)) == Flat) == (position == Flat) ==> TotalPositions() == old(TotalPositions())
      ensures initialCapital == old(initialCapital) && currentCapital == old(currentCapital)
      ensures applied == old(applied)
    {
      OpenCountAfterSet(positions, symbol, position);
      positions := positions[symbol := position];
    }
  }
}
