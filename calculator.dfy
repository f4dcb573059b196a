/**
 * The Altman Z-Score for manufacturing companies: five balance-sheet ratios, each
 * guarded against a zero denominator, their weighted sum, and the three-way zone
 * classification of that sum. Arithmetic is exact (`real`).
 */
module Calculator {
  import opened PyNum

  /** ZoneType: the interpretation zones, with the labels the API reports. */
  datatype Zone = Safe | Grey | Distress {

    function Value(): string {
      match this
      case Safe => "Safe Zone"
      case Grey => "Grey Zone"
      case Distress => "Distress Zone"
    }

    /** Distress < Grey < Safe. */
    function Rank(): nat {
      match this
      case Distress => 0
      case Grey => 1
      case Safe => 2
    }
  }

  datatype Ratios = Ratios(x1: real, x2: real, x3: real, x4: real, x5: real)

  /**
   * X1 = working capital / total assets, X2 = retained earnings / total assets,
   * X3 = operating income / total assets, X4 = market value of equity / total
   * liabilities, X5 = sales / total assets; a ratio is 0.0 when its denominator is 0.
   */
  function ComputeRatios(workingCapital: real, totalAssets: real, retainedEarnings: real,
                         operatingIncome: real, marketValueEquity: real,
                         totalLiabilities: real, sales: real): (x: Ratios)
    ensures totalAssets == 0.0 ==> x.x1 == 0.0 && x.x2 == 0.0 && x.x3 == 0.0 && x.x5 == 0.0
    ensures totalAssets != 0.0 ==>
      && x.x1 * totalAssets == workingCapital
      && x.x2 * totalAssets == retainedEarnings
      && x.x3 * totalAssets == operatingIncome
      && x.x5 * totalAssets == sales
    ensures totalLiabilities == 0.0 ==> x.x4 == 0.0
    ensures totalLiabilities != 0.0 ==> x.x4 * totalLiabilities == marketValueEquity
  {
    Ratios(
      if totalAssets != 0.0 then workingCapital / totalAssets else 0.0,
      if totalAssets != 0.0 then retainedEarnings / totalAssets else 0.0,
      if totalAssets != 0.0 then operatingIncome / totalAssets else 0.0,
      if totalLiabilities != 0.0 then marketValueEquity / totalLiabilities else 0.0,
      if totalAssets != 0.0 then sales / totalAssets else 0.0)
  }

  /** Z = 1.2 X1 + 1.4 X2 + 3.3 X3 + 0.6 X4 + 1.0 X5 */
  function Score(x: Ratios): real {
    1.2 * x.x1 + 1.4 * x.x2 + 3.3 * x.x3 + 0.6 * x.x4 + 1.0 * x.x5
  }

  /** Safe above 2.99, Grey above 1.81 up to 2.99, Distress at 1.81 and below. */
  function ZoneOf(z: real): (zone: Zone)
    ensures zone == Safe <==> z > 2.99
    ensures zone == Grey <==> 1.81 < z <= 2.99
    ensures zone == Distress <==> z <= 1.81
  {
    if z > 2.99 then Safe
    else if z > 1.81 then Grey
    else Distress
  }

  /** The dictionary calculate_altman_z_score returns. */
  datatype ZScoreResult = ZScoreResult(
    zScore: real, x1: real, x2: real, x3: real, x4: real, x5: real, zone: Zone,
    workingCapital: real, totalAssets: real, retainedEarnings: real, operatingIncome: real,
    marketValueEquity: real, totalLiabilities: real, sales: real)

  /**
   * calculate_altman_z_score: the score rounded to 4 places and the ratios to 6
   * places for presentation, the zone decided on the unrounded score, and the
   * seven inputs carried through unchanged.
   */
  function CalculateAltmanZScore(workingCapital: real, totalAssets: real, retainedEarnings: real,
                                 operatingIncome: real, marketValueEquity: real,
                                 totalLiabilities: real, sales: real): (r: ZScoreResult)
    ensures var x := ComputeRatios(workingCapital, totalAssets, retainedEarnings, operatingIncome,
                                   marketValueEquity, totalLiabilities, sales);
      && r.zone == ZoneOf(Score(x))
      && -0.00005 <= r.zScore - Score(x) <= 0.00005
      && -0.0000005 <= r.x1 - x.x1 <= 0.0000005
      && -0.0000005 <= r.x2 - x.x2 <= 0.0000005
      && -0.0000005 <= r.x3 - x.x3 <= 0.0000005
      && -0.0000005 <= r.x4 - x.x4 <= 0.0000005
      && -0.0000005 <= r.x5 - x.x5 <= 0.0000005
    ensures && r.workingCapital == workingCapital && r.totalAssets == totalAssets
            && r.retainedEarnings == retainedEarnings && r.operatingIncome == operatingIncome
            && r.marketValueEquity == marketValueEquity && r.totalLiabilities == totalLiabilities
            && r.sales == sales
  {
    var x := ComputeRatios(workingCapital, totalAssets, retainedEarnings, operatingIncome,
                           marketValueEquity, totalLiabilities, sales);
    var z := Score(x);
    assert Pow10(4) == 10000 && Pow10(6) == 1000000;
    ZScoreResult(
      Round(z, 4), Round(x.x1, 6), Round(x.x2, 6), Round(x.x3, 6), Round(x.x4, 6), Round(x.x5, 6),
      ZoneOf(z),
      workingCapital, totalAssets, retainedEarnings, operatingIncome,
      marketValueEquity, totalLiabilities, sales)
  }

  // ---------------------------------------------------------------------
  // Properties

  /** With non-zero denominators the score is the closed-form weighted sum of the quotients. */
  lemma ScoreClosedForm(workingCapital: real, totalAssets: real, retainedEarnings: real,
                        operatingIncome: real, marketValueEquity: real,
                        totalLiabilities: real, sales: real)
    requires totalAssets != 0.0 && totalLiabilities != 0.0
    ensures Score(ComputeRatios(workingCapital, totalAssets, retainedEarnings, operatingIncome,
                                marketValueEquity, totalLiabilities, sales))
         == 1.2 * (workingCapital / totalAssets) + 1.4 * (retainedEarnings / totalAssets)
          + 3.3 * (operatingIncome / totalAssets) + 0.6 * (marketValueEquity / totalLiabilities)
          + 1.0 * (sales / totalAssets)
  {
  }

  /** A larger score never gives a worse zone. */
  lemma ZoneMonotone(z1: real, z2: real)
    requires z1 <= z2
    ensures ZoneOf(z1).Rank() <= ZoneOf(z2).Rank()
  {
  }

  /** The comparisons are strict: each threshold itself belongs to the lower zone. */
  lemma ZoneAtBoundaries()
    ensures ZoneOf(2.99) == Grey && ZoneOf(2.990001) == Safe
    ensures ZoneOf(1.81) == Distress && ZoneOf(1.810001) == Grey
  {
  }

  /**
   * The zone is decided before rounding: sales of 2.99004 against total assets
   * of 1 score 2.99004 (Safe) while the reported score rounds to 2.99, whose own
   * zone would be Grey.
   */
  lemma ZoneUsesUnroundedScore()
    ensures var r := CalculateAltmanZScore(0.0, 1.0, 0.0, 0.0, 0.0, 0.0, 2.99004);
      r.zone == Safe && r.zScore == 2.99 && ZoneOf(r.zScore) == Grey
  {
    assert Pow10(4) == 10000;
    assert (29900.4).Floor == 29900;
  }

  /** Feeding the carried-through inputs back into the calculation reproduces the result. */
  lemma ResultReproducible(workingCapital: real, totalAssets: real, retainedEarnings: real,
                           operatingIncome: real, marketValueEquity: real,
                           totalLiabilities: real, sales: real)
    ensures var r := CalculateAltmanZScore(workingCapital, totalAssets, retainedEarnings,
                                           operatingIncome, marketValueEquity, totalLiabilities, sales);
      CalculateAltmanZScore(r.workingCapital, r.totalAssets, r.retainedEarnings, r.operatingIncome,
                            r.marketValueEquity, r.totalLiabilities, r.sales) == r
  {
  }
}
