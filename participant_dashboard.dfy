/**
 * What a participant's own dashboard derives from their record and the settings: the
 * pending notice, the cycle progress and its bar, the portfolio value, the projected
 * growth series and the receipts table.
 */
module Dashboard {
  import opened Types

  /** A JavaScript number, as far as a division by a zero target can take it. */
  datatype Number = Finite(value: real) | Infinity | NaN

  /** The month's bottles as a percentage of the monthly target, with no guard against a zero target. */
  function CycleProgress(bottlesThisMonth: nat, minMonthlyTarget: int): (r: Number)
    ensures minMonthlyTarget != 0 <==> r.Finite?
    ensures minMonthlyTarget == 0 ==> (r == Infinity <==> bottlesThisMonth > 0)
    ensures minMonthlyTarget > 0 ==> r.value >= 0.0
    ensures minMonthlyTarget > 0 ==> (r.value >= 100.0 <==> bottlesThisMonth >= minMonthlyTarget)
    ensures minMonthlyTarget != 0 ==> r.value * minMonthlyTarget as real == bottlesThisMonth as real * 100.0
  {
    if minMonthlyTarget == 0 then
      (if bottlesThisMonth > 0 then Infinity else NaN)
    else
      var p := bottlesThisMonth as real / minMonthlyTarget as real * 100.0;
      assert p * minMonthlyTarget as real == bottlesThisMonth as real * 100.0 by {
        var b, t := bottlesThisMonth as real, minMonthlyTarget as real;
        var q := b / t;
        assert q * t == b;
        assert p * t == (q * t) * 100.0;
      }
      assert minMonthlyTarget > 0 ==>
        (p >= 100.0 <==> bottlesThisMonth as real >= minMonthlyTarget as real) by {
        if minMonthlyTarget > 0 {
          var b, t := bottlesThisMonth as real, minMonthlyTarget as real;
          var q := b / t;
          assert q * t == b;
          if q >= 1.0 {
            assert (q - 1.0) * t >= 0.0;
          } else {
            assert (1.0 - q) * t > 0.0;
          }
        }
      }
      Finite(p)
  }

  /** The progress is not clamped: a participant past the target reports more than 100. */
  lemma ProgressExample()
    ensures CycleProgress(250, 200) == Finite(125.0)
  {
  }

  /** The bar width: the progress, capped at 100. */
  function BarWidth(progress: Number): (r: Number)
    ensures r.Finite? ==> r.value <= 100.0
    ensures progress.Finite? && progress.value <= 100.0 ==> r == progress
    ensures progress.Infinity? || (progress.Finite? && progress.value > 100.0) ==> r == Finite(100.0)
    ensures r.NaN? <==> progress.NaN?
  {
    match progress
    case Finite(v) => Finite(if v <= 100.0 then v else 100.0)
    case Infinity => Finite(100.0)
    case NaN => NaN
  }

  /** The bar turns green once the progress reaches 100, that is exactly when it is full; NaN compares false. */
  function BarIsGreen(progress: Number): (r: bool)
    ensures r <==> BarWidth(progress) == Finite(100.0)
    ensures r ==> !progress.NaN?
  {
    match progress
    case Finite(v) => v >= 100.0
    case Infinity => true
    case NaN => false
  }

  /** With a positive target the bar turns green exactly when the target is reached. */
  lemma GreenIffTargetMet(bottlesThisMonth: nat, minMonthlyTarget: nat)
    requires minMonthlyTarget > 0
    ensures BarIsGreen(CycleProgress(bottlesThisMonth, minMonthlyTarget)) <==> bottlesThisMonth >= minMonthlyTarget
    ensures BarWidth(CycleProgress(bottlesThisMonth, minMonthlyTarget)).Finite?
  {
  }

  /** With a zero target any bottle turns the bar green and full; none leaves it NaN. */
  lemma ZeroTarget(bottlesThisMonth: nat)
    ensures BarIsGreen(CycleProgress(bottlesThisMonth, 0)) <==> bottlesThisMonth > 0
    ensures bottlesThisMonth > 0 ==> BarWidth(CycleProgress(bottlesThisMonth, 0)) == Finite(100.0)
    ensures bottlesThisMonth == 0 ==> BarWidth(CycleProgress(bottlesThisMonth, 0)) == NaN
  {
  }

  /** One point of the projected-growth chart. */
  datatype GrowthPoint = GrowthPoint(month: string, val: real)

  /** The projected value of one month's earnings held for the given number of months. */
  function Projected(m: MonthlyEarning, months: nat): real
  {
    m.xrpEarned * months as real
  }

  /**
   * The projected-growth chart: a "Start" point at zero, then one point per month of history,
   * the i-th (from zero) valued at that month's earnings times i + 1.
   */
  function GrowthSeries(history: seq<MonthlyEarning>): (r: seq<GrowthPoint>)
    ensures |r| == |history| + 1
    ensures r[0] == GrowthPoint("Start", 0.0)
    ensures forall i :: 0 <= i < |history| ==>
              r[i + 1] == GrowthPoint(history[i].month, Projected(history[i], i + 1))
  {
    [GrowthPoint("Start", 0.0)]
      + seq(|history|, i requires 0 <= i < |history| =>
              GrowthPoint(history[i].month, Projected(history[i], i + 1)))
  }

  /** One more month of history adds one point at the end and leaves the others as they were. */
  lemma GrowthSeriesAppend(history: seq<MonthlyEarning>, e: MonthlyEarning)
    ensures GrowthSeries(history + [e])
         == GrowthSeries(history) + [GrowthPoint(e.month, Projected(e, |history| + 1))]
  {
    var h := history + [e];
    var l, r := GrowthSeries(h), GrowthSeries(history) + [GrowthPoint(e.month, Projected(e, |history| + 1))];
    forall i | 0 < i <= |history|
      ensures l[i] == r[i]
    {
      assert h[i - 1] == history[i - 1];
    }
    assert h[|history|] == e;
  }

  /** The chart's month axis: "Start", then the history's months in order. */
  function Months(points: seq<GrowthPoint>): seq<string>
  {
    seq(|points|, i requires 0 <= i < |points| => points[i].month)
  }

  lemma GrowthMonths(history: seq<MonthlyEarning>)
    ensures Months(GrowthSeries(history))
         == ["Start"] + seq(|history|, i requires 0 <= i < |history| => history[i].month)
  {
    var g := GrowthSeries(history);
    assert forall i :: 0 <= i < |history| ==> g[i + 1].month == history[i].month;
  }

  datatype Receipts = Table(rows: seq<CollectionRecord>) | NoRecordsMessage

  /** The receipts table when there is at least one collection record, the empty-state message otherwise. */
  function ReceiptsView(records: Option<seq<CollectionRecord>>): (r: Receipts)
    ensures r.Table? <==> records.Some? && |records.value| > 0
    ensures r.Table? ==> r.rows == records.value
  {
    if records.Some? && |records.value| > 0 then Table(records.value) else NoRecordsMessage
  }

  /** The next-steps list of the pending notice. */
  datatype NextSteps = SendCashFee | DropOffBottles

  datatype View =
    | PendingNotice(paymentMethod: string, steps: NextSteps)
    | ActiveDashboard(progress: Number, barWidth: Number, barIsGreen: bool, portfolioValue: real,
                      growth: seq<GrowthPoint>, receipts: Receipts)

  /** The whole component: the pending branch first, the active dashboard otherwise. */
  function DashboardView(user: User, minMonthlyTarget: int, mockXrpPriceBwp: real): (r: View)
    ensures r.PendingNotice? <==> user.registrationStatus == Pending
    ensures r.PendingNotice? ==> r.paymentMethod == user.registrationPaymentMethod
    ensures r.PendingNotice? ==> (r.steps == SendCashFee <==> user.registrationPaymentMethod == "CASH")
    ensures r.ActiveDashboard? ==>
      && r.progress == CycleProgress(user.bottlesThisMonth, minMonthlyTarget)
      && r.barWidth == BarWidth(r.progress)
      && r.barIsGreen == BarIsGreen(r.progress)
      && r.portfolioValue == user.totalXrp * mockXrpPriceBwp
      && r.growth == GrowthSeries(user.history)
      && r.receipts == ReceiptsView(user.collectionRecords)
  {
    if user.registrationStatus == Pending then
      PendingNotice(user.registrationPaymentMethod,
                    if user.registrationPaymentMethod == "CASH" then SendCashFee else DropOffBottles)
    else
      var progress := CycleProgress(user.bottlesThisMonth, minMonthlyTarget);
      ActiveDashboard(progress, BarWidth(progress), BarIsGreen(progress),
                      user.totalXrp * mockXrpPriceBwp,
                      GrowthSeries(user.history), ReceiptsView(user.collectionRecords))
  }

  /**
   * A pending participant's view depends only on the payment method: no progress or value
   * is derived, whatever their bottles, balance or the target.
   */
  lemma PendingComputesNothing(user: User, other: User, target: int, target': int, price: real, price': real)
    requires user.registrationStatus == Pending && other.registrationStatus == Pending
    requires user.registrationPaymentMethod == other.registrationPaymentMethod
    ensures DashboardView(user, target, price) == DashboardView(other, target', price')
  {
  }
}
