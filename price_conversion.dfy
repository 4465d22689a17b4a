/*
 * Fixed-point USD/ETH arithmetic of the salary contract: the price feed
 * reports USD per ETH with 8 decimals, the contract works with 18 decimals
 * (wei precision), and a USD salary is converted to wei by truncating
 * integer division.
 */
module PriceConversion {

  import opened Results

  /** 10^8: one dollar in the feed's 8-decimal fixed point. */
  const FEED_UNIT: nat := 100_000_000
  /** 10^10: scales an 8-decimal feed answer to 18 decimals. */
  const FEED_TO_WEI_SCALE: nat := 10_000_000_000
  /** 10^18: one ETH in wei, and one dollar in 18-decimal fixed point. */
  const WEI_PER_ETH: nat := 1_000_000_000_000_000_000

  /**
   * getLatestETHPrice: the feed answer rescaled to 18 decimals. The rescaled
   * price denotes the same dollar amount (price / 10^18 == answer / 10^8).
   * A feed that reports no positive price yields None.
   */
  function LatestETHPrice(answer: int): (r: Option<nat>)
    ensures r.Some? <==> answer > 0
    ensures r.Some? ==> r.value * FEED_UNIT == answer * WEI_PER_ETH
  {
    if answer > 0 then Some(answer * FEED_TO_WEI_SCALE) else None
  }

  /**
   * calculateETHAmount: the wei worth usdAmount dollars at price18 (USD per ETH,
   * 18 decimals), i.e. usdAmount * 10^36 / price18 truncated. The result is the
   * largest wei amount whose dollar value does not exceed usdAmount.
   */
  function ETHAmount(usdAmount: nat, price18: nat): (wei: nat)
    requires price18 > 0
    ensures wei * price18 <= usdAmount * WEI_PER_ETH * WEI_PER_ETH
    ensures usdAmount * WEI_PER_ETH * WEI_PER_ETH < (wei + 1) * price18
  {
    var x := usdAmount * WEI_PER_ETH * WEI_PER_ETH;
    assert x == price18 * (x / price18) + x % price18;
    x / price18
  }

  /** The two bounds of ETHAmount single out one value: they specify it completely. */
  lemma ETHAmountUnique(usdAmount: nat, price18: nat, wei: nat)
    requires price18 > 0
    requires wei * price18 <= usdAmount * WEI_PER_ETH * WEI_PER_ETH < (wei + 1) * price18
    ensures wei == ETHAmount(usdAmount, price18)
  {
    var r := ETHAmount(usdAmount, price18);
    if wei < r {
      MulMonotone(wei + 1, r, price18);
    } else if r < wei {
      MulMonotone(r + 1, wei, price18);
    }
  }

  /** A higher ETH price never buys more wei for the same salary. */
  lemma HigherPriceFewerWei(usdAmount: nat, p1: nat, p2: nat)
    requires 0 < p1 <= p2
    ensures ETHAmount(usdAmount, p2) <= ETHAmount(usdAmount, p1)
  {
    var w1, w2 := ETHAmount(usdAmount, p1), ETHAmount(usdAmount, p2);
    MulMonotone(w2, w2, p1);
    assert w2 * p1 <= w2 * p2 by { MulLeftMonotone(w2, p1, p2); }
    if w1 < w2 {
      MulMonotone(w1 + 1, w2, p1);
    }
  }

  /** A larger salary never converts to fewer wei at the same price. */
  lemma LargerSalaryMoreWei(u1: nat, u2: nat, price18: nat)
    requires u1 <= u2 && price18 > 0
    ensures ETHAmount(u1, price18) <= ETHAmount(u2, price18)
  {
    var w1, w2 := ETHAmount(u1, price18), ETHAmount(u2, price18);
    assert u1 * WEI_PER_ETH * WEI_PER_ETH <= u2 * WEI_PER_ETH * WEI_PER_ETH;
    if w2 < w1 {
      MulMonotone(w2 + 1, w1, price18);
    }
  }

  lemma MulMonotone(a: nat, b: nat, c: nat)
    requires a <= b
    ensures a * c <= b * c
  {
  }

  lemma MulLeftMonotone(a: nat, b: nat, c: nat)
    requires b <= c
    ensures a * b <= a * c
  {
  }

  /** At $2000 per ETH (feed answer 2000 * 10^8), $1000 is exactly 0.5 ETH. */
  lemma ConversionAt2000()
    ensures LatestETHPrice(200_000_000_000) == Some(2000 * WEI_PER_ETH)
    ensures ETHAmount(1000, 2000 * WEI_PER_ETH) == WEI_PER_ETH / 2
  {
    ETHAmountUnique(1000, 2000 * WEI_PER_ETH, WEI_PER_ETH / 2);
  }

  /** At $4000 per ETH (feed answer 4000 * 10^8), $1000 is exactly 0.25 ETH. */
  lemma ConversionAt4000()
    ensures LatestETHPrice(400_000_000_000) == Some(4000 * WEI_PER_ETH)
    ensures ETHAmount(1000, 4000 * WEI_PER_ETH) == WEI_PER_ETH / 4
  {
    ETHAmountUnique(1000, 4000 * WEI_PER_ETH, WEI_PER_ETH / 4);
  }
}
