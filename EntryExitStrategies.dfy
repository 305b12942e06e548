/** The entry/exit lesson: a fixed table of long trade setups (entry, stop,
    target and the price series they are drawn on), a tab bar selecting one
    of them, and the risk-per-share and reward-to-risk figures shown for the
    selected setup. */
module EntryExitStrategies {

  /** A point of a price series (`x` is the time step). */
  datatype Point = Point(x: int, price: int)

  /** A setup as far as its numbers go; descriptions, labels and rules are
      display text and are omitted. */
  datatype Strategy = Strategy(title: string, data: seq<Point>, entry: Point, stop: int, target: int)

  const Strategies: seq<Strategy> := [
    Strategy("Pullback Entry",
      [Point(1, 100), Point(2, 108), Point(3, 115), Point(4, 112),
       Point(5, 107), Point(6, 109), Point(7, 116), Point(8, 122)],
      Point(6, 109), 105, 120),
    Strategy("Breakout Entry",
      [Point(1, 95), Point(2, 98), Point(3, 100), Point(4, 99),
       Point(5, 101), Point(6, 106), Point(7, 110), Point(8, 112)],
      Point(6, 106), 99, 115),
    Strategy("Trend Reversal Entry",
      [Point(1, 120), Point(2, 110), Point(3, 95), Point(4, 90),
       Point(5, 92), Point(6, 98), Point(7, 105), Point(8, 110)],
      Point(6, 98), 88, 110)
  ]

  /** The shape every setup of the table has: a long trade with the stop
      below the entry and the target above it, an eight-point series with
      time steps 1..8 in order, and the entry drawn on a point of the series.
      The entry marker's time step then picks out that very point. */
  predicate WellFormed(s: Strategy)
    ensures WellFormed(s) ==> 1 <= s.entry.x <= |s.data| && s.data[s.entry.x - 1] == s.entry
  {
    && s.stop < s.entry.price < s.target
    && |s.data| == 8
    && (forall j :: 0 <= j < |s.data| ==> s.data[j].x == j + 1)
    && s.entry in s.data
  }

  /** The displayed risk per share: entry minus stop, without an absolute value. */
  function RiskPerShare(s: Strategy): (r: int)
    ensures r > 0 <==> s.stop < s.entry.price
    ensures r == 0 <==> s.stop == s.entry.price
    ensures s.stop + r == s.entry.price
  {
    s.entry.price - s.stop
  }

  /** The displayed reward-to-risk ratio: the gain to the target over the
      loss to the stop. */
  function RewardToRisk(s: Strategy): (q: real)
    requires s.entry.price != s.stop
    ensures q * RiskPerShare(s) as real == (s.target - s.entry.price) as real
    ensures q == 0.0 <==> s.target == s.entry.price
  {
    (s.target - s.entry.price) as real / (s.entry.price - s.stop) as real
  }

  /** For any setup shaped like the table's, the risk per share is positive,
      so the ratio's denominator is never zero, and the ratio is positive. */
  lemma WellFormedFigures(s: Strategy)
    requires s.stop < s.entry.price < s.target
    ensures RiskPerShare(s) > 0
    ensures RewardToRisk(s) > 0.0
    ensures RewardToRisk(s) * RiskPerShare(s) as real == (s.target - s.entry.price) as real
  {
    var reward := (s.target - s.entry.price) as real;
    var risk := (s.entry.price - s.stop) as real;
    assert reward > 0.0 && risk > 0.0;
    assert reward / risk > 0.0;
  }

  /** Every row of the table is well formed. */
  lemma TableWellFormed()
    ensures |Strategies| == 3
    ensures forall i :: 0 <= i < |Strategies| ==> WellFormed(Strategies[i])
  {
    forall i | 0 <= i < |Strategies|
      ensures WellFormed(Strategies[i])
    {
      var s := Strategies[i];
      assert s.entry == s.data[5];
    }
  }

  /** The figures the three tabs display: risk 4, 7 and 10 per share, and
      reward-to-risk 2.75, 9/7 and 1.2. */
  lemma TableFigures()
    ensures RiskPerShare(Strategies[0]) == 4 && RewardToRisk(Strategies[0]) == 2.75
    ensures RiskPerShare(Strategies[1]) == 7 && RewardToRisk(Strategies[1]) == 9.0 / 7.0
    ensures RiskPerShare(Strategies[2]) == 10 && RewardToRisk(Strategies[2]) == 1.2
  {
  }

  // ----- The tab bar -----

  class StrategyTabs {
    var currentStrategy: nat

    predicate Valid()
      reads this
    {
      currentStrategy < |Strategies|
    }

    constructor ()
      ensures Valid() && currentStrategy == 0
    {
      currentStrategy := 0;
    }

    /** One tab button per row of the table, each selecting its own index. */
    method Select(idx: nat)
      requires idx < |Strategies|
      modifies this
      ensures Valid()
      ensures currentStrategy == idx
    {
      currentStrategy := idx;
    }

    /** The risk per share shown for the selected setup. */
    function ShownRiskPerShare(): (r: int)
      reads this
      requires Valid()
      ensures r > 0
    {
      TableWellFormed();
      WellFormedFigures(Strategies[currentStrategy]);
      RiskPerShare(Strategies[currentStrategy])
    }

    /** The reward-to-risk ratio shown for the selected setup. */
    function ShownRewardToRisk(): (q: real)
      reads this
      requires Valid()
      ensures q > 0.0
    {
      TableWellFormed();
      WellFormedFigures(Strategies[currentStrategy]);
      RewardToRisk(Strategies[currentStrategy])
    }
  }
}
