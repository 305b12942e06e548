/** The position-size calculator of the risk-management lesson: four numeric
    inputs and four values derived from them on every render. */
module RiskManagement {

  /** The calculator's input fields. */
  datatype Inputs = Inputs(accountSize: real, riskPercent: real, entryPrice: real, stopLoss: real)

  /** The values the calculator displays. */
  datatype Position = Position(riskAmount: real, riskPerShare: real, positionSize: int, totalPosition: real)

  /** The fields' initial values: a 10000 account, 2% risk, entry 50, stop 48. */
  const Defaults := Inputs(10000.0, 2.0, 50.0, 48.0)

  /** The money put at risk: `riskPercent` percent of the account. */
  function RiskAmount(accountSize: real, riskPercent: real): (r: real)
    ensures r * 100.0 == accountSize * riskPercent
    ensures accountSize >= 0.0 && riskPercent >= 0.0 ==> r >= 0.0
    ensures accountSize >= 0.0 && riskPercent <= 100.0 && riskPercent >= 0.0 ==> r <= accountSize
  {
    accountSize * riskPercent / 100.0
  }

  /** The loss per share if the stop is hit: the distance between entry and stop. */
  function RiskPerShare(entryPrice: real, stopLoss: real): (d: real)
    ensures d >= 0.0
    ensures d == entryPrice - stopLoss || d == stopLoss - entryPrice
    ensures d == 0.0 <==> entryPrice == stopLoss
  {
    if entryPrice >= stopLoss then entryPrice - stopLoss else stopLoss - entryPrice
  }

  /** The number of whole shares whose combined stop-out loss fits the risk
      amount; zero when entry and stop coincide. */
  function PositionSize(riskAmount: real, riskPerShare: real): (n: int)
    ensures riskPerShare <= 0.0 ==> n == 0
    ensures riskPerShare > 0.0 ==>
      n as real * riskPerShare <= riskAmount < (n + 1) as real * riskPerShare
    ensures riskPerShare > 0.0 && riskAmount >= 0.0 ==> n >= 0
  {
    if riskPerShare > 0.0 then
      var q := riskAmount / riskPerShare;
      assert q * riskPerShare == riskAmount;
      var n := q.Floor;
      assert n as real <= q < (n + 1) as real;
      MultiplyBounds(n as real, q, (n + 1) as real, riskPerShare);
      assert riskAmount < (n + 1) as real * riskPerShare;
      n
    else 0
  }

  /** Multiplying a bracket `lo <= q < hi` by a positive factor keeps it. */
  lemma MultiplyBounds(lo: real, q: real, hi: real, k: real)
    requires lo <= q < hi && k > 0.0
    ensures lo * k <= q * k < hi * k
  {
  }

  /** The market value of the position at the entry price. */
  function TotalPosition(positionSize: int, entryPrice: real): (v: real)
    ensures entryPrice != 0.0 ==> v / entryPrice == positionSize as real
    ensures positionSize == 0 || entryPrice == 0.0 ==> v == 0.0
    ensures positionSize >= 0 && entryPrice >= 0.0 ==> v >= 0.0
  {
    positionSize as real * entryPrice
  }

  /** The four displayed values, in the order the component derives them:
      the size is the share count whose stop-out loss fits the risk amount,
      and the total is that many shares at the entry price. */
  function Calculate(i: Inputs): (p: Position)
    ensures p.riskAmount * 100.0 == i.accountSize * i.riskPercent
    ensures p.riskPerShare >= 0.0
    ensures p.riskPerShare == i.entryPrice - i.stopLoss || p.riskPerShare == i.stopLoss - i.entryPrice
    ensures p.riskPerShare == 0.0 <==> i.entryPrice == i.stopLoss
    ensures p.riskPerShare == 0.0 ==> p.positionSize == 0 && p.totalPosition == 0.0
    ensures p.riskPerShare > 0.0 ==>
      p.positionSize as real * p.riskPerShare <= p.riskAmount < (p.positionSize + 1) as real * p.riskPerShare
    ensures i.entryPrice != 0.0 ==> p.totalPosition / i.entryPrice == p.positionSize as real
    ensures i.entryPrice == 0.0 ==> p.totalPosition == 0.0
  {
    var risk := RiskAmount(i.accountSize, i.riskPercent);
    var perShare := RiskPerShare(i.entryPrice, i.stopLoss);
    var size := PositionSize(risk, perShare);
    Position(risk, perShare, size, TotalPosition(size, i.entryPrice))
  }

  /** The risk per share does not depend on which of entry and stop is higher. */
  lemma RiskPerShareSymmetric(entryPrice: real, stopLoss: real)
    ensures RiskPerShare(entryPrice, stopLoss) == RiskPerShare(stopLoss, entryPrice)
  {
  }

  /** Entry equal to stop is the division guard: nothing is bought. */
  lemma NoPositionWithoutStopDistance(i: Inputs)
    requires i.entryPrice == i.stopLoss
    ensures Calculate(i).riskPerShare == 0.0
    ensures Calculate(i).positionSize == 0
    ensures Calculate(i).totalPosition == 0.0
  {
  }

  /** If the stop is hit, the loss on the whole position is at most the
      chosen percentage of the account, and one more share would exceed it. */
  lemma StopOutLossWithinRisk(i: Inputs)
    requires i.entryPrice != i.stopLoss
    ensures var p := Calculate(i);
      && p.positionSize as real * p.riskPerShare <= i.accountSize * i.riskPercent / 100.0
      && i.accountSize * i.riskPercent / 100.0 < (p.positionSize + 1) as real * p.riskPerShare
  {
  }

  /** The position size is the largest whole number of shares whose stop-out
      loss stays within the risk amount. */
  lemma PositionSizeIsLargestAffordable(riskAmount: real, riskPerShare: real, shares: int)
    requires riskPerShare > 0.0
    ensures shares as real * riskPerShare <= riskAmount <==> shares <= PositionSize(riskAmount, riskPerShare)
  {
    var n := PositionSize(riskAmount, riskPerShare);
    if shares <= n {
      ScaleBelow(shares as real, n as real, riskPerShare, riskAmount);
    } else {
      ScaleAbove((n + 1) as real, shares as real, riskPerShare, riskAmount);
    }
  }

  /** Scaling by a positive factor preserves `<=`: below a bound stays below it. */
  lemma ScaleBelow(a: real, b: real, k: real, bound: real)
    requires a <= b && k > 0.0 && b * k <= bound
    ensures a * k <= bound
  {
    assert a * k <= b * k;
  }

  /** Scaling by a positive factor preserves `<=`: above a bound stays above it. */
  lemma ScaleAbove(a: real, b: real, k: real, bound: real)
    requires a <= b && k > 0.0 && bound < a * k
    ensures bound < b * k
  {
    assert a * k <= b * k;
  }

  /** With a non-negative account and risk percentage, the size is never negative. */
  lemma NonNegativeInputsGiveNonNegativeSize(i: Inputs)
    requires i.accountSize >= 0.0 && i.riskPercent >= 0.0
    ensures Calculate(i).positionSize >= 0
    ensures i.entryPrice >= 0.0 ==> Calculate(i).totalPosition >= 0.0
  {
    var p := Calculate(i);
    assert p.riskAmount >= 0.0;
  }

  /** The lesson's worked example, which is also the calculator's initial
      display: risk 200, 2 per share, 100 shares, 5000 invested, which is
      half of the account. */
  lemma DefaultScenario()
    ensures Calculate(Defaults) == Position(200.0, 2.0, 100, 5000.0)
    ensures Calculate(Defaults).totalPosition * 2.0 == Defaults.accountSize
  {
    assert RiskAmount(10000.0, 2.0) == 200.0;
    assert RiskPerShare(50.0, 48.0) == 2.0;
    assert (200.0 / 2.0).Floor == 100;
  }
}
