/**
 * The derived metrics of a fact row. Each is guarded so that a zero (or
 * non-positive) denominator yields exactly 0. Arithmetic is over the reals.
 */
module Metrics {

  /** Click-through rate: clicks per hundred impressions. */
  function Ctr(impressions: int, clicks: int): (r: real)
    ensures impressions <= 0 ==> r == 0.0
    ensures impressions > 0 ==> r * impressions as real == 100.0 * clicks as real
    ensures 0 <= clicks <= impressions ==> 0.0 <= r <= 100.0
  {
    if impressions > 0 then (clicks as real / impressions as real) * 100.0 else 0.0
  }

  /** Cost per click. */
  function Cpc(clicks: int, spend: real): (r: real)
    ensures clicks <= 0 ==> r == 0.0
    ensures clicks > 0 ==> r * clicks as real == spend
    ensures spend >= 0.0 ==> r >= 0.0
    ensures clicks > 0 && spend >= 0.0 ==> r <= spend
  {
    if clicks > 0 then spend / clicks as real else 0.0
  }

  /** Cost per thousand impressions. */
  function Cpm(impressions: int, spend: real): (r: real)
    ensures impressions <= 0 ==> r == 0.0
    ensures impressions > 0 ==> r * impressions as real == 1000.0 * spend
    ensures spend >= 0.0 ==> r >= 0.0
  {
    if impressions > 0 then (spend / impressions as real) * 1000.0 else 0.0
  }

  /** Return on ad spend: purchase value per unit of spend. */
  function Roas(spend: real, purchaseValue: real): (r: real)
    ensures spend <= 0.0 ==> r == 0.0
    ensures spend > 0.0 ==> r * spend == purchaseValue
    ensures purchaseValue >= 0.0 ==> r >= 0.0
  {
    if spend > 0.0 then purchaseValue / spend else 0.0
  }

  /** When both guards pass, cpm is ten times cpc times ctr (ctr being a percentage). */
  lemma CpmFromCpcAndCtr(impressions: int, clicks: int, spend: real)
    requires impressions > 0 && clicks > 0
    ensures Cpm(impressions, spend) == 10.0 * Cpc(clicks, spend) * Ctr(impressions, clicks)
  {
    var i := impressions as real;
    var c := clicks as real;
    var cpc := Cpc(clicks, spend);
    var ctr := Ctr(impressions, clicks);
    assert cpc * c == spend;
    assert ctr * i == 100.0 * c;
    calc {
      10.0 * cpc * ctr * i;
      10.0 * cpc * (ctr * i);
      10.0 * cpc * (100.0 * c);
      1000.0 * (cpc * c);
      1000.0 * spend;
    }
    assert Cpm(impressions, spend) * i == 1000.0 * spend;
  }

  /** The four metrics for 1000 impressions, 20 clicks, 50 spent and 150 of purchases. */
  lemma MetricsExample()
    ensures Ctr(1000, 20) == 2.0
    ensures Cpc(20, 50.0) == 2.5
    ensures Cpm(1000, 50.0) == 50.0
    ensures Roas(50.0, 150.0) == 3.0
  {
  }
}
