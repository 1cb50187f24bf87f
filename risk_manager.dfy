/**
 * `RiskManager`: the account balance and the two risk fractions, position sizing by
 * the smaller of a risk cap and a size cap, and the two-stage trade check. Divisions
 * follow IEEE semantics through `Value`, so a zero price distance or a zero entry
 * price is modelled rather than excluded.
 */
module Risk {
  import opened Numbers

  /** Why `validateTrade` rejects a trade; the source's reason strings, without their text. */
  datatype RejectReason = RiskExceedsMaximum | RewardRatioBelowTwo

  /** `{ isValid, reason? }`: a reason exactly when the trade is rejected. */
  datatype TradeValidation = TradeValidation(isValid: bool, reason: Option<RejectReason>)

  class RiskManager {
    var accountBalance: real
    var maxRiskPerTrade: real
    var maxPositionSize: real

    /** `new RiskManager(accountBalance, maxRiskPerTrade = 0.02, maxPositionSize = 0.1)`. */
    constructor (accountBalance: real, maxRiskPerTrade: real := 0.02, maxPositionSize: real := 0.1)
      ensures this.accountBalance == accountBalance
      ensures this.maxRiskPerTrade == maxRiskPerTrade
      ensures this.maxPositionSize == maxPositionSize
    {
      this.accountBalance := accountBalance;
      this.maxRiskPerTrade := maxRiskPerTrade;
      this.maxPositionSize := maxPositionSize;
    }

    /** `balance * maxRiskPerTrade`: the currency the account may lose on one trade. */
    function RiskAmount(): real
      reads this
    {
      accountBalance * maxRiskPerTrade
    }

    /** `balance * maxPositionSize / entryPrice`: the most units the size cap allows. */
    function MaxAllowedSize(entryPrice: real): Value
      reads this
    {
      Divide(accountBalance * maxPositionSize, entryPrice)
    }

    /**
     * `calculatePositionSize`: the units whose loss at the stop is the risk amount,
     * `Math.min`-ed with the size cap. With distinct finite caps the result is the
     * smaller one; a zero price distance makes the risk cap infinite (or NaN when
     * nothing may be risked), so the size cap decides (or NaN propagates).
     */
    function CalculatePositionSize(entryPrice: real, stopLoss: real): (r: Value)
      reads this
      ensures entryPrice != stopLoss && entryPrice != 0.0 ==>
        var riskCap := RiskAmount() / Abs(entryPrice - stopLoss);
        var sizeCap := accountBalance * maxPositionSize / entryPrice;
        r.Finite? && r.v <= riskCap && r.v <= sizeCap && (r.v == riskCap || r.v == sizeCap)
      ensures entryPrice == stopLoss && entryPrice != 0.0 && RiskAmount() > 0.0 ==>
        r == Finite(accountBalance * maxPositionSize / entryPrice)
      ensures entryPrice == stopLoss && RiskAmount() == 0.0 ==> r == NotANumber
      ensures entryPrice == stopLoss && RiskAmount() > 0.0 ==> r == Divide(accountBalance * maxPositionSize, entryPrice)
      ensures entryPrice == stopLoss && entryPrice != 0.0 && RiskAmount() < 0.0 ==> r == MinusInfinity
      ensures entryPrice == 0.0 && stopLoss != 0.0 ==>
        r == (if accountBalance * maxPositionSize > 0.0 then Finite(RiskAmount() / Abs(entryPrice - stopLoss))
              else if accountBalance * maxPositionSize < 0.0 then MinusInfinity
              else NotANumber)
    {
      var riskAmount := RiskAmount();
      var riskPerUnit := Abs(entryPrice - stopLoss);
      var positionSize := Divide(riskAmount, riskPerUnit);
      MinValue(positionSize, MaxAllowedSize(entryPrice))
    }

    /** `calculatePotentialLoss`: `|positionSize * (entryPrice - stopLoss)|`. */
    function CalculatePotentialLoss(positionSize: real, entryPrice: real, stopLoss: real): (r: real)
      ensures r >= 0.0
      ensures r == Abs(positionSize) * Abs(entryPrice - stopLoss)
    {
      AbsOfProduct(positionSize, entryPrice - stopLoss);
      Abs(positionSize * (entryPrice - stopLoss))
    }

    /**
     * `validateTrade`: first reject when the stop distance per unit exceeds the whole
     * risk amount, then reject when the reward is less than twice the risk. An equal
     * entry and stop makes the ratio Infinity or NaN, which is never below 2.
     */
    function ValidateTrade(entryPrice: real, stopLoss: real, targetPrice: real): (r: TradeValidation)
      reads this
      ensures Abs(entryPrice - stopLoss) > RiskAmount() ==> r == TradeValidation(false, Some(RiskExceedsMaximum))
      ensures Abs(entryPrice - stopLoss) <= RiskAmount() ==>
        (r.isValid <==> Abs(targetPrice - entryPrice) >= 2.0 * Abs(stopLoss - entryPrice))
      ensures r.isValid <==> r.reason == None
      ensures !r.isValid && Abs(entryPrice - stopLoss) <= RiskAmount() ==> r.reason == Some(RewardRatioBelowTwo)
    {
      var riskPerUnit := Abs(entryPrice - stopLoss);
      var maxRiskAmount := RiskAmount();
      if riskPerUnit > maxRiskAmount then TradeValidation(false, Some(RiskExceedsMaximum))
      else
        var riskRewardRatio := Divide(Abs(targetPrice - entryPrice), Abs(stopLoss - entryPrice));
        RatioBelowTwo(Abs(targetPrice - entryPrice), Abs(stopLoss - entryPrice));
        if LessThan(riskRewardRatio, 2.0) then TradeValidation(false, Some(RewardRatioBelowTwo))
        else TradeValidation(true, None)
    }

    /** `updateBalance`: replaces the balance; the risk fractions stay. */
    method UpdateBalance(newBalance: real)
      modifies this`accountBalance
      ensures accountBalance == newBalance
      ensures GetAccountBalance() == newBalance
    {
      accountBalance := newBalance;
    }

    /** `getAccountBalance`. */
    function GetAccountBalance(): (r: real)
      reads this
      ensures r == accountBalance
    {
      accountBalance
    }

    /** `getMaxRiskPerTrade`. */
    function GetMaxRiskPerTrade(): (r: real)
      reads this
      ensures r == maxRiskPerTrade
    {
      maxRiskPerTrade
    }
  }

  lemma AbsOfProduct(a: real, b: real)
    ensures Abs(a * b) == Abs(a) * Abs(b)
  {
    if a < 0.0 && b >= 0.0 {
      assert a * b <= 0.0 by { MulNonNegative(-a, b); }
    } else if a >= 0.0 && b < 0.0 {
      assert a * b <= 0.0 by { MulNonNegative(a, -b); }
    } else if a < 0.0 && b < 0.0 {
      MulNonNegative(-a, -b);
    } else {
      MulNonNegative(a, b);
    }
  }

  /**
   * `reward / risk < 2` for non-negative distances, in IEEE terms, is `reward < 2 * risk`:
   * a zero risk gives Infinity or NaN, neither of which is below 2.
   */
  lemma RatioBelowTwo(reward: real, risk: real)
    requires reward >= 0.0 && risk >= 0.0
    ensures LessThan(Divide(reward, risk), 2.0) <==> reward < 2.0 * risk
  {
    if risk > 0.0 {
      var q := reward / risk;
      assert q * risk == reward;
      if q < 2.0 {
        MulLess(q, 2.0, risk);
        assert reward < 2.0 * risk;
      } else {
        MulAtLeast(q, 2.0, risk);
        assert reward >= 2.0 * risk;
      }
    }
  }

  lemma MulLess(a: real, b: real, p: real)
    requires a < b && p > 0.0
    ensures a * p < b * p
  {
  }

  lemma MulAtLeast(a: real, b: real, p: real)
    requires a >= b && p > 0.0
    ensures a * p >= b * p
  {
  }

  // ---------------------------------------------------------------------------
  // Properties
  // ---------------------------------------------------------------------------

  /**
   * With no negative balance or fraction, a positive entry and a stop away from it,
   * the size is non-negative and losing the stop distance on it costs at most the
   * risk amount.
   */
  lemma PotentialLossWithinBudget(rm: RiskManager, entryPrice: real, stopLoss: real)
    requires rm.accountBalance >= 0.0 && rm.maxRiskPerTrade >= 0.0 && rm.maxPositionSize >= 0.0
    requires entryPrice > 0.0 && stopLoss != entryPrice
    ensures rm.CalculatePositionSize(entryPrice, stopLoss).Finite?
    ensures var size := rm.CalculatePositionSize(entryPrice, stopLoss).v;
      size >= 0.0 && rm.CalculatePotentialLoss(size, entryPrice, stopLoss) <= rm.RiskAmount()
  {
    var size := rm.CalculatePositionSize(entryPrice, stopLoss).v;
    var d := Abs(entryPrice - stopLoss);
    var budget := rm.RiskAmount();
    MulNonNegative(rm.accountBalance, rm.maxRiskPerTrade);
    MulNonNegative(rm.accountBalance, rm.maxPositionSize);
    DivNonNegative(budget, d);
    DivNonNegative(rm.accountBalance * rm.maxPositionSize, entryPrice);
    assert 0.0 <= size <= budget / d;
    LossAtMostBudget(size, d, budget);
  }

  lemma LossAtMostBudget(size: real, d: real, budget: real)
    requires d > 0.0 && 0.0 <= size <= budget / d
    ensures size * d <= budget
  {
    MulAtLeast(budget / d, size, d);
  }

  /** The potential loss does not change when entry and stop swap. */
  lemma PotentialLossSymmetric(rm: RiskManager, positionSize: real, entryPrice: real, stopLoss: real)
    ensures rm.CalculatePotentialLoss(positionSize, entryPrice, stopLoss) ==
      rm.CalculatePotentialLoss(positionSize, stopLoss, entryPrice)
  {
  }

  /**
   * The rejection for risk comes first: a stop further than the risk amount rejects
   * the trade for risk, whatever the target.
   */
  lemma RiskCheckFirst(rm: RiskManager, entryPrice: real, stopLoss: real, targetPrice: real, otherTarget: real)
    requires Abs(entryPrice - stopLoss) > rm.RiskAmount()
    ensures rm.ValidateTrade(entryPrice, stopLoss, targetPrice) == rm.ValidateTrade(entryPrice, stopLoss, otherTarget)
  {
  }

  /** A reward of exactly twice the risk passes; an entry equal to the stop always passes the ratio check. */
  lemma RatioBoundary(rm: RiskManager, entryPrice: real, stopLoss: real, targetPrice: real)
    requires Abs(entryPrice - stopLoss) <= rm.RiskAmount()
    ensures Abs(targetPrice - entryPrice) == 2.0 * Abs(stopLoss - entryPrice) ==>
      rm.ValidateTrade(entryPrice, stopLoss, targetPrice).isValid
    ensures stopLoss == entryPrice ==> rm.ValidateTrade(entryPrice, stopLoss, targetPrice).isValid
  {
  }

  /**
   * The account of the source's tests: 50000 at 2% risk and 10% size. The size cap
   * of 50 units binds below the risk cap of 200 for a stop 5 below an entry of 100;
   * a target 10 above passes and a target 5 above fails the ratio check.
   */
  lemma TestAccount(rm: RiskManager)
    requires rm.accountBalance == 50000.0 && rm.maxRiskPerTrade == 0.02 && rm.maxPositionSize == 0.1
    ensures rm.CalculatePositionSize(100.0, 95.0) == Finite(50.0)
    ensures rm.CalculatePositionSize(100.0, 99.0) == Finite(50.0)
    ensures rm.ValidateTrade(100.0, 95.0, 110.0) == TradeValidation(true, None)
    ensures rm.ValidateTrade(100.0, 95.0, 105.0) == TradeValidation(false, Some(RewardRatioBelowTwo))
    ensures rm.GetMaxRiskPerTrade() == 0.02
  {
    assert rm.RiskAmount() == 1000.0;
  }

  /** `updateBalance` followed by `getAccountBalance` returns the new balance and keeps the fractions. */
  method UpdateThenRead(rm: RiskManager, newBalance: real) returns (balance: real)
    modifies rm`accountBalance
    ensures balance == newBalance
    ensures rm.maxRiskPerTrade == old(rm.maxRiskPerTrade) && rm.maxPositionSize == old(rm.maxPositionSize)
  {
    rm.UpdateBalance(newBalance);
    balance := rm.GetAccountBalance();
  }

  /** The constructor's defaults. */
  method DefaultManager(accountBalance: real) returns (rm: RiskManager)
    ensures rm.GetAccountBalance() == accountBalance
    ensures rm.GetMaxRiskPerTrade() == 0.02 && rm.maxPositionSize == 0.1
  {
    rm := new RiskManager(accountBalance);
  }
}
