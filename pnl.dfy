/**
 * Realized profit of one buy/sell pair with a fee charged on each side
 * (pnl.py).
 */
module Pnl {

  /** The default fee rate per side, 0.1%. */
  const DefaultFeeRate: real := 0.001

  /**
   * `calculate_realized_profit_usd`: gross profit minus the fee paid on the
   * buy notional and on the sell notional. The net per unit is what a sale
   * keeps after its fee less what the purchase cost with its fee.
   */
  function RealizedProfitUsd(buyPrice: real, sellPrice: real, quantity: real, feeRate: real): (r: real)
    ensures r == quantity * (sellPrice * (1.0 - feeRate) - buyPrice * (1.0 + feeRate))
  {
    var gross := (sellPrice - buyPrice) * quantity;
    var buyFees := buyPrice * quantity * feeRate;
    var sellFees := sellPrice * quantity * feeRate;
    gross - (buyFees + sellFees)
  }

  /** `realized_profit_usd`, the legacy name: the same computation with the same default. */
  function LegacyRealizedProfitUsd(buyPrice: real, sellPrice: real, qty: real, feeRate: real): (r: real)
    ensures r == qty * (sellPrice * (1.0 - feeRate) - buyPrice * (1.0 + feeRate))
  {
    RealizedProfitUsd(buyPrice, sellPrice, qty, feeRate)
  }

  /** The documented example: buy at 100, sell at 110, one unit, 0.1% per side nets 9.79. */
  lemma DocExample()
    ensures RealizedProfitUsd(100.0, 110.0, 1.0, DefaultFeeRate) == 9.79
  {
  }

  /** Without fees the profit is the gross price difference times the quantity. */
  lemma ZeroFeeIsGross(buyPrice: real, sellPrice: real, quantity: real)
    ensures RealizedProfitUsd(buyPrice, sellPrice, quantity, 0.0) == (sellPrice - buyPrice) * quantity
  {
  }

  /** Profit is additive in the quantity: splitting a fill splits its profit. */
  lemma AdditiveInQuantity(buyPrice: real, sellPrice: real, q1: real, q2: real, feeRate: real)
    ensures RealizedProfitUsd(buyPrice, sellPrice, q1 + q2, feeRate)
         == RealizedProfitUsd(buyPrice, sellPrice, q1, feeRate) + RealizedProfitUsd(buyPrice, sellPrice, q2, feeRate)
  {
    var m := sellPrice * (1.0 - feeRate) - buyPrice * (1.0 + feeRate);
    assert (q1 + q2) * m == q1 * m + q2 * m;
  }

  /** Profit scales with the quantity. */
  lemma ScalesWithQuantity(buyPrice: real, sellPrice: real, quantity: real, c: real, feeRate: real)
    ensures RealizedProfitUsd(buyPrice, sellPrice, c * quantity, feeRate)
         == c * RealizedProfitUsd(buyPrice, sellPrice, quantity, feeRate)
  {
    var m := sellPrice * (1.0 - feeRate) - buyPrice * (1.0 + feeRate);
    assert (c * quantity) * m == c * (quantity * m);
  }

  /** For a positive quantity the pair is profitable exactly when the net sale beats the gross cost. */
  lemma ProfitableIff(buyPrice: real, sellPrice: real, quantity: real, feeRate: real)
    requires quantity > 0.0
    ensures RealizedProfitUsd(buyPrice, sellPrice, quantity, feeRate) > 0.0
        <==> sellPrice * (1.0 - feeRate) > buyPrice * (1.0 + feeRate)
  {
    var m := sellPrice * (1.0 - feeRate) - buyPrice * (1.0 + feeRate);
    if m > 0.0 {
      assert quantity * m > 0.0;
    } else {
      assert quantity * m <= 0.0 by {
        assert quantity * (-m) >= 0.0;
      }
    }
  }
}
