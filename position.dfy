/**
 * `Position`: an open trade with its entry, size, leverage, optional stop-loss and
 * take-profit, and the unrealised profit and loss it last computed. Optional numbers
 * count by JavaScript truthiness, so a bound of 0 acts as no bound and a leverage of 0
 * becomes 1.
 */
module Positions {
  import opened Numbers

  datatype Side = Long | Short

  /** `PositionConfig`: the optional fields are `Option`s. */
  datatype PositionConfig = PositionConfig(
    entryPrice: real,
    size: real,
    leverage: Option<real>,
    stopLoss: Option<real>,
    takeProfit: Option<real>,
    side: Side)

  /** A JavaScript number that is present and truthy: defined and not 0. */
  predicate IsSet(x: Option<real>)
  {
    x.Some? && x.value != 0.0
  }

  /** `config.leverage || 1`. */
  function LeverageOf(leverage: Option<real>): (r: real)
    ensures IsSet(leverage) ==> r == leverage.value
    ensures !IsSet(leverage) ==> r == 1.0
    ensures r != 0.0
  {
    if IsSet(leverage) then leverage.value else 1.0
  }

  /** The profit of a position of `size` units at `leverage` when the price moves from `entryPrice` to `price`. */
  function ProfitAndLoss(side: Side, entryPrice: real, price: real, size: real, leverage: real): real
  {
    match side
    case Long => (price - entryPrice) * size * leverage
    case Short => (entryPrice - price) * size * leverage
  }

  /** Whether a price reaches a bound: at or below for a stop-loss on a long position, and so on. */
  predicate Reaches(bound: Option<real>, price: real, fromBelow: bool)
  {
    IsSet(bound) && (if fromBelow then price >= bound.value else price <= bound.value)
  }

  class Position {
    var entryPrice: real
    var size: real
    var leverage: real
    var stopLoss: Option<real>
    var takeProfit: Option<real>
    var side: Side
    var unrealizedPnL: real

    /** `new Position(config)`: copies the config, defaults the leverage to 1 and starts with no profit or loss. */
    constructor (config: PositionConfig)
      ensures entryPrice == config.entryPrice && size == config.size
      ensures leverage == LeverageOf(config.leverage)
      ensures stopLoss == config.stopLoss && takeProfit == config.takeProfit
      ensures side == config.side
      ensures unrealizedPnL == 0.0
    {
      entryPrice := config.entryPrice;
      size := config.size;
      leverage := LeverageOf(config.leverage);
      stopLoss := config.stopLoss;
      takeProfit := config.takeProfit;
      side := config.side;
      unrealizedPnL := 0.0;
    }

    /** `updatePnL`: the profit at `currentPrice`; nothing else changes. */
    method UpdatePnL(currentPrice: real)
      modifies this`unrealizedPnL
      ensures unrealizedPnL == ProfitAndLoss(side, entryPrice, currentPrice, size, leverage)
    {
      if side == Long {
        unrealizedPnL := (currentPrice - entryPrice) * size * leverage;
      } else {
        unrealizedPnL := (entryPrice - currentPrice) * size * leverage;
      }
    }

    /**
     * `shouldClose`: a long position closes at or below its stop-loss and at or above
     * its take-profit; a short one the other way round. Unset or zero bounds never fire.
     */
    predicate ShouldClose(currentPrice: real)
      reads this
      ensures ShouldClose(currentPrice) <==>
        match side
        case Long => Reaches(stopLoss, currentPrice, false) || Reaches(takeProfit, currentPrice, true)
        case Short => Reaches(stopLoss, currentPrice, true) || Reaches(takeProfit, currentPrice, false)
    {
      if IsSet(stopLoss) && side == Long && currentPrice <= stopLoss.value then true
      else if IsSet(stopLoss) && side == Short && currentPrice >= stopLoss.value then true
      else if IsSet(takeProfit) && side == Long && currentPrice >= takeProfit.value then true
      else if IsSet(takeProfit) && side == Short && currentPrice <= takeProfit.value then true
      else false
    }
  }

  // ---------------------------------------------------------------------------
  // Properties
  // ---------------------------------------------------------------------------

  function Opposite(side: Side): Side
  {
    match side
    case Long => Short
    case Short => Long
  }

  function Negated(x: Option<real>): (r: Option<real>)
    ensures IsSet(r) <==> IsSet(x)
  {
    match x
    case None => None
    case Some(v) => Some(-v)
  }

  /** The two sides of the same trade gain and lose the same amounts. */
  lemma ProfitAndLossOppositeSides(entryPrice: real, price: real, size: real, leverage: real)
    ensures ProfitAndLoss(Short, entryPrice, price, size, leverage) ==
      -ProfitAndLoss(Long, entryPrice, price, size, leverage)
  {
  }

  /** The profit changes by the price move times size times leverage, in the direction of the side. */
  lemma ProfitAndLossIsLinear(side: Side, entryPrice: real, p: real, q: real, size: real, leverage: real)
    ensures ProfitAndLoss(side, entryPrice, q, size, leverage) - ProfitAndLoss(side, entryPrice, p, size, leverage) ==
      (if side == Long then q - p else p - q) * size * leverage
    ensures ProfitAndLoss(side, entryPrice, entryPrice, size, leverage) == 0.0
  {
  }

  /**
   * With a positive exposure a long position is in profit exactly when the price is
   * above the entry, and a short one exactly when it is below.
   */
  lemma ProfitAndLossSign(side: Side, entryPrice: real, price: real, size: real, leverage: real)
    requires size * leverage > 0.0
    ensures ProfitAndLoss(side, entryPrice, price, size, leverage) > 0.0 <==>
      (if side == Long then price > entryPrice else price < entryPrice)
  {
    var d := if side == Long then price - entryPrice else entryPrice - price;
    assert ProfitAndLoss(side, entryPrice, price, size, leverage) == d * (size * leverage);
    if d > 0.0 {
      MulPositive(d, size * leverage);
    } else {
      MulNonNegative(-d, size * leverage);
    }
  }

  /** A bound of 0 behaves exactly as a missing one. */
  lemma ZeroBoundIsUnset(p: Position, q: Position, price: real)
    requires p.side == q.side
    requires p.stopLoss == Some(0.0) && q.stopLoss == None
    requires p.takeProfit == q.takeProfit
    ensures p.ShouldClose(price) == q.ShouldClose(price)
  {
  }

  /** Without a stop-loss or take-profit a position never asks to be closed. */
  lemma NoBoundsNeverClose(p: Position, price: real)
    requires !IsSet(p.stopLoss) && !IsSet(p.takeProfit)
    ensures !p.ShouldClose(price)
  {
  }

  /**
   * Mirroring every price through 0 turns a long position into a short one with the
   * same closing decisions.
   */
  lemma ShouldCloseMirrored(p: Position, q: Position, price: real)
    requires q.side == Opposite(p.side)
    requires q.stopLoss == Negated(p.stopLoss) && q.takeProfit == Negated(p.takeProfit)
    ensures q.ShouldClose(-price) == p.ShouldClose(price)
  {
  }

  /** Between a long position's stop-loss and take-profit, exclusive, it stays open. */
  lemma LongOpenBetweenBounds(p: Position, price: real)
    requires p.side == Long && IsSet(p.stopLoss) && IsSet(p.takeProfit)
    ensures p.ShouldClose(price) <==> !(p.stopLoss.value < price < p.takeProfit.value)
  {
  }

  /** The long position of the source's tests: entry 100, one unit, leverage 2, stop 95, target 110. */
  method LongExample() returns (pnlUp: real, pnlDown: real, closeBelow: bool, closeAbove: bool, closeAtEntry: bool)
    ensures pnlUp == 10.0 && pnlDown == -6.0
    ensures closeBelow && closeAbove && !closeAtEntry
  {
    var p := new Position(PositionConfig(100.0, 1.0, Some(2.0), Some(95.0), Some(110.0), Long));
    p.UpdatePnL(105.0);
    pnlUp := p.unrealizedPnL;
    p.UpdatePnL(97.0);
    pnlDown := p.unrealizedPnL;
    closeBelow := p.ShouldClose(94.0);
    closeAbove := p.ShouldClose(111.0);
    closeAtEntry := p.ShouldClose(100.0);
  }

  /** The short position of the source's tests: entry 100, one unit, leverage 2, stop 105, target 90. */
  method ShortExample() returns (pnlDown: real, pnlUp: real, closeAbove: bool, closeBelow: bool, closeAtEntry: bool)
    ensures pnlDown == 10.0 && pnlUp == -6.0
    ensures closeAbove && closeBelow && !closeAtEntry
  {
    var p := new Position(PositionConfig(100.0, 1.0, Some(2.0), Some(105.0), Some(90.0), Short));
    p.UpdatePnL(95.0);
    pnlDown := p.unrealizedPnL;
    p.UpdatePnL(103.0);
    pnlUp := p.unrealizedPnL;
    closeAbove := p.ShouldClose(106.0);
    closeBelow := p.ShouldClose(89.0);
    closeAtEntry := p.ShouldClose(100.0);
  }

  /** Without a leverage the profit is unlevered; without bounds nothing closes. */
  method DefaultsExample() returns (pnl: real, closeLow: bool, closeHigh: bool)
    ensures pnl == 10.0
    ensures !closeLow && !closeHigh
  {
    var p := new Position(PositionConfig(100.0, 1.0, None, None, None, Long));
    p.UpdatePnL(110.0);
    pnl := p.unrealizedPnL;
    closeLow := p.ShouldClose(90.0);
    closeHigh := p.ShouldClose(110.0);
  }
}
