/** The detector's two arithmetic helpers, on integer American prices and
    exact real arithmetic: the arbitrage profit percentage of a pair of
    prices and the stake split that equalises the two legs' returns. */
module Pricing {

  function Abs(x: int): nat
  {
    if x < 0 then -x else x
  }

  /** The win probability a bookmaker's American price implies:
      100/(p+100) for a positive price, |p|/(|p|+100) otherwise. */
  function ImpliedProbability(price: int): (r: real)
    ensures 0.0 <= r < 1.0
    ensures price != 0 ==> 0.0 < r
  {
    if price > 0 then 100.0 / (price as real + 100.0)
    else
      FractionBelowOne(Abs(price) as real, 100.0);
      Abs(price) as real / (Abs(price) as real + 100.0)
  }

  lemma FractionBelowOne(a: real, b: real)
    requires a >= 0.0 && b > 0.0
    ensures 0.0 <= a / (a + b) < 1.0
  {
    assert a / (a + b) * (a + b) == a;
  }

  /** Percentage by which the two implied probabilities fall short of 1;
      positive exactly when backing both sides locks in a profit. */
  function ArbitrageProfit(odds1: int, odds2: int): (r: real)
    ensures -100.0 < r <= 100.0
    ensures r > 0.0 <==> ImpliedProbability(odds1) + ImpliedProbability(odds2) < 1.0
  {
    var totalProbability := ImpliedProbability(odds1) + ImpliedProbability(odds2);
    (1.0 - totalProbability) * 100.0
  }

  lemma ArbitrageProfitSymmetric(odds1: int, odds2: int)
    ensures ArbitrageProfit(odds1, odds2) == ArbitrageProfit(odds2, odds1)
  {
  }

  /** The decimal (European) form of a non-zero American price: the total
      payout per unit staked. A zero price would divide by zero. */
  function DecimalOdds(price: int): (r: real)
    requires price != 0
    ensures r > 1.0
    ensures price > 0 ==> r == 1.0 + price as real / 100.0
  {
    if price > 0 then price as real / 100.0 + 1.0
    else 100.0 / Abs(price) as real + 1.0
  }

  /** Decimal odds and implied probability are reciprocal. */
  lemma DecimalIsReciprocal(price: int)
    requires price != 0
    ensures DecimalOdds(price) * ImpliedProbability(price) == 1.0
  {
    if price > 0 {
      var p := price as real;
      calc {
        DecimalOdds(price) * ImpliedProbability(price);
        (p / 100.0 + 1.0) * (100.0 / (p + 100.0));
        ((p + 100.0) / 100.0) * (100.0 / (p + 100.0));
        1.0;
      }
    } else {
      var a := Abs(price) as real;
      assert a > 0.0;
      calc {
        DecimalOdds(price) * ImpliedProbability(price);
        (100.0 / a + 1.0) * (a / (a + 100.0));
        ((100.0 + a) / a) * (a / (a + 100.0));
        1.0;
      }
    }
  }

  function Min(x: real, y: real): real
  {
    if x <= y then x else y
  }

  /** Stakes on the two legs that split `totalBet` so that either outcome
      pays the same, and the profit that payout guarantees. */
  function BetAmounts(odds1: int, odds2: int, totalBet: real): (r: (real, real, real))
    requires odds1 != 0 && odds2 != 0
    ensures r.0 + r.1 == totalBet
    ensures r.0 * DecimalOdds(odds1) == r.1 * DecimalOdds(odds2)
    ensures r.2 == r.0 * DecimalOdds(odds1) - totalBet
    ensures r.2 == r.1 * DecimalOdds(odds2) - totalBet
    ensures totalBet > 0.0 ==> r.0 > 0.0 && r.1 > 0.0
  {
    SplitStakes(totalBet, DecimalOdds(odds1), DecimalOdds(odds2))
  }

  /** The split of `BetAmounts` on decimal odds: each stake is the total
      weighted by the other leg's decimal odds. */
  function SplitStakes(totalBet: real, decimal1: real, decimal2: real): (r: (real, real, real))
    requires decimal1 > 0.0 && decimal2 > 0.0
    ensures r.0 + r.1 == totalBet
    ensures r.0 * decimal1 == r.1 * decimal2
    ensures r.2 == r.0 * decimal1 - totalBet && r.2 == r.1 * decimal2 - totalBet
    ensures totalBet > 0.0 ==> r.0 > 0.0 && r.1 > 0.0
  {
    var bet1 := (totalBet * decimal2) / (decimal1 + decimal2);
    var bet2 := totalBet - bet1;
    var profit1 := bet1 * decimal1 - totalBet;
    var profit2 := bet2 * decimal2 - totalBet;
    SplitEqualises(totalBet, decimal1, decimal2);
    (bet1, bet2, Min(profit1, profit2))
  }

  /** The algebra behind `BetAmounts`, on arbitrary positive decimal odds. */
  lemma SplitEqualises(t: real, d1: real, d2: real)
    requires d1 > 0.0 && d2 > 0.0
    ensures (t * d2) / (d1 + d2) * d1 == (t - (t * d2) / (d1 + d2)) * d2
    ensures t > 0.0 ==> (t * d2) / (d1 + d2) > 0.0 && t - (t * d2) / (d1 + d2) > 0.0
  {
    var s := d1 + d2;
    var b1 := (t * d2) / s;
    assert b1 * s == t * d2;
    assert t - b1 == (t * d1) / s by {
      assert (t - b1) * s == t * d1;
    }
    assert b1 * d1 == (t * d1 * d2) / s;
    assert (t * d1) / s * d2 == (t * d1 * d2) / s;
    if t > 0.0 {
      assert t * d2 > 0.0 && t * d1 > 0.0;
    }
  }

  /** For any split of the stake `t` into legs `b1`, `b2` with equal
      returns (as `BetAmounts` produces), the guaranteed profit is the
      profit percentage of the stake, scaled by the total implied
      probability. */
  lemma TotalProfitMatchesPercentage(odds1: int, odds2: int, b1: real, b2: real, t: real)
    requires odds1 != 0 && odds2 != 0
    requires b1 + b2 == t && b1 * DecimalOdds(odds1) == b2 * DecimalOdds(odds2)
    ensures (b1 * DecimalOdds(odds1) - t) * (ImpliedProbability(odds1) + ImpliedProbability(odds2)) * 100.0
            == t * ArbitrageProfit(odds1, odds2)
  {
    hide ImpliedProbability, DecimalOdds;
    DecimalIsReciprocal(odds1);
    DecimalIsReciprocal(odds2);
    EqualPayoutAlgebra(b1, b2, DecimalOdds(odds1), DecimalOdds(odds2), ImpliedProbability(odds1),
                       ImpliedProbability(odds2), t, b1 * DecimalOdds(odds1) - t, ArbitrageProfit(odds1, odds2));
  }

  /** For such a split of a positive stake, the guaranteed profit is
      non-negative exactly when the profit percentage is. */
  lemma TotalProfitSign(odds1: int, odds2: int, b1: real, b2: real, t: real)
    requires odds1 != 0 && odds2 != 0 && t > 0.0
    requires b1 + b2 == t && b1 * DecimalOdds(odds1) == b2 * DecimalOdds(odds2)
    ensures b1 * DecimalOdds(odds1) - t >= 0.0 <==> ArbitrageProfit(odds1, odds2) >= 0.0
  {
    hide ImpliedProbability, DecimalOdds;
    DecimalIsReciprocal(odds1);
    DecimalIsReciprocal(odds2);
    EqualPayoutSign(b1, b2, DecimalOdds(odds1), DecimalOdds(odds2),
                    ImpliedProbability(odds1), ImpliedProbability(odds2), t, ArbitrageProfit(odds1, odds2));
  }

  /** The sign half of the algebra: with positive implied probabilities and
      a positive stake, an equal-payout split profits exactly when the
      probabilities sum to at most 1. */
  lemma EqualPayoutSign(b1: real, b2: real, d1: real, d2: real, q1: real, q2: real, t: real, pct: real)
    requires d1 * q1 == 1.0 && d2 * q2 == 1.0 && q1 > 0.0 && q2 > 0.0 && t > 0.0
    requires b1 + b2 == t && b1 * d1 == b2 * d2
    requires pct == (1.0 - (q1 + q2)) * 100.0
    ensures b1 * d1 - t >= 0.0 <==> pct >= 0.0
  {
    EqualPayoutAlgebra(b1, b2, d1, d2, q1, q2, t, b1 * d1 - t, pct);
    SignOfScaled(b1 * d1 - t, q1 + q2, t, pct);
  }

  /** If each leg returns the same payout, the payout times the total
      implied probability is the stake. */
  lemma EqualPayoutAlgebra(b1: real, b2: real, d1: real, d2: real, q1: real, q2: real, t: real, profit: real, pct: real)
    requires d1 * q1 == 1.0 && d2 * q2 == 1.0
    requires b1 + b2 == t && b1 * d1 == b2 * d2 && profit == b1 * d1 - t
    requires pct == (1.0 - (q1 + q2)) * 100.0
    ensures profit * (q1 + q2) * 100.0 == t * pct
  {
    var payout := b1 * d1;
    assert payout * q1 == b1 by {
      assert payout * q1 == b1 * (d1 * q1);
    }
    assert payout * q2 == b2 by {
      assert payout * q2 == b2 * (d2 * q2);
    }
    assert payout * (q1 + q2) == t;
  }

  lemma SignOfScaled(profit: real, s: real, t: real, pct: real)
    requires s > 0.0 && profit * s * 100.0 == t * pct
    ensures t > 0.0 ==> (profit >= 0.0 <==> pct >= 0.0)
  {
    if t > 0.0 {
      if profit >= 0.0 {
        assert profit * s * 100.0 >= 0.0;
      } else {
        assert profit * s * 100.0 < 0.0;
      }
      if pct >= 0.0 {
        assert t * pct >= 0.0;
      } else {
        assert t * pct < 0.0;
      }
    }
  }
}
