/** A production record as the store returns it, and the per-record derived metrics:
    profit, return on investment, production efficiency, revenue and cost per unit, and the
    growth period in days (`calculate_metrics`), with the date rendering used by the CSV
    export (`format_date_for_csv`). */
module Metrics {
  import opened Wrappers
  import opened Calendar
  import opened Rounding
  import Digits

  /** The lifecycle status column. It is set by whoever writes the record and is never
      derived from the dates; text other than the three known values is kept as it is. */
  datatype Status = Planted | Harvested | Sold | Unrecognised(text: UnknownStatus)

  /** Status text other than the three values the exporters compare against. */
  type UnknownStatus = s: string | s != "PLANTED" && s != "HARVESTED" && s != "SOLD"

  /** The status column's text. */
  function StatusText(st: Status): string
  {
    match st
    case Planted => "PLANTED"
    case Harvested => "HARVESTED"
    case Sold => "SOLD"
    case Unrecognised(t) => t
  }

  /** The status a column's text stands for, as the exporters' `==` tests read it: each
      text has exactly one status, and the status gives back its text. */
  function StatusOf(text: string): (st: Status)
    ensures StatusText(st) == text
    ensures st == Planted <==> text == "PLANTED"
    ensures st == Harvested <==> text == "HARVESTED"
    ensures st == Sold <==> text == "SOLD"
  {
    if text == "PLANTED" then Planted
    else if text == "HARVESTED" then Harvested
    else if text == "SOLD" then Sold
    else Unrecognised(text)
  }

  /** Reading back the text of a status gives that status. */
  lemma StatusRoundTrip(st: Status)
    ensures StatusOf(StatusText(st)) == st
  {
  }

  /** A date column as a record holds it: NULL, text, or a `datetime`. */
  datatype DateField = Missing | Text(text: string) | Stamp(at: DateTime)

  datatype Record = Record(
    id: int,
    productName: string,
    quantity: real,
    salePrice: real,
    costPrice: real,
    plantingDate: DateField,
    harvestDate: DateField,
    status: Status,
    createdAt: DateField,
    updatedAt: DateField)

  datatype DerivedMetrics = DerivedMetrics(
    profit: real,
    roiPercent: real,
    productionEfficiency: real,
    revenuePerUnit: real,
    costPerUnit: real,
    growthPeriodDays: int)

  /** Python truthiness of a date column: NULL and the empty string are false. */
  predicate IsPresent(f: DateField)
  {
    match f
    case Missing => false
    case Text(s) => s != ""
    case Stamp(_) => true
  }

  /** The `datetime` a date column stands for: text goes through the strict parser and
      lands at midnight; text that does not parse has none. */
  function AsDateTime(f: DateField): Option<DateTime>
  {
    match f
    case Missing => None
    case Text(s) => (match Parse(s) case Some(d) => Some(DateTime(d, 0)) case None => None)
    case Stamp(t) => Some(t)
  }

  /** Days from planting to harvest; 0 when either date is absent or does not parse (the
      parse error is caught, never raised). Not clamped: a harvest before planting gives a
      negative count. */
  function GrowthPeriodDays(r: Record): int
  {
    if IsPresent(r.plantingDate) && IsPresent(r.harvestDate) then
      match (AsDateTime(r.plantingDate), AsDateTime(r.harvestDate))
      case (Some(planting), Some(harvest)) => WholeDaysBetween(planting, harvest)
      case _ => 0
    else 0
  }

  /** `calculate_metrics`: every ratio is guarded by its own `> 0` tests. */
  function CalculateMetrics(r: Record): DerivedMetrics
  {
    DerivedMetrics(Profit(r), RoiPercent(r), ProductionEfficiency(r),
                   RevenuePerUnit(r), CostPerUnit(r), GrowthPeriodDays(r))
  }

  function Profit(r: Record): real
  {
    if r.costPrice > 0.0 && r.salePrice > 0.0 then Round(r.salePrice - r.costPrice, 2) else 0.0
  }

  function RoiPercent(r: Record): real
  {
    if r.costPrice > 0.0 && r.salePrice > 0.0
    then Round((r.salePrice - r.costPrice) / r.costPrice * 100.0, 2)
    else 0.0
  }

  function ProductionEfficiency(r: Record): real
  {
    if r.costPrice > 0.0 then Round(r.quantity / r.costPrice, 4) else 0.0
  }

  function RevenuePerUnit(r: Record): real
  {
    if r.quantity > 0.0 && r.salePrice > 0.0 then Round(r.salePrice / r.quantity, 4) else 0.0
  }

  function CostPerUnit(r: Record): real
  {
    if r.quantity > 0.0 && r.costPrice > 0.0 then Round(r.costPrice / r.quantity, 4) else 0.0
  }

  /** `format_date_for_csv`: NULL becomes "", text is left alone, a `datetime` is written
      as `YYYY-MM-DD`. */
  function FormatDateForCsv(f: DateField): string
  {
    match f
    case Missing => ""
    case Text(s) => s
    case Stamp(t) => Format(t.date)
  }

  /** The record after the full export has overwritten its four date columns with their
      CSV text. */
  function WithCsvDates(r: Record): Record
  {
    r.(plantingDate := Text(FormatDateForCsv(r.plantingDate)),
       harvestDate := Text(FormatDateForCsv(r.harvestDate)),
       createdAt := Text(FormatDateForCsv(r.createdAt)),
       updatedAt := Text(FormatDateForCsv(r.updatedAt)))
  }

  // ---------------------------------------------------------------------------
  // Properties of the metrics

  /** A non-positive denominator makes its ratios 0. */
  lemma GuardedRatiosAreZero(r: Record)
    ensures var m := CalculateMetrics(r);
      && (r.costPrice <= 0.0 ==>
            m.profit == 0.0 && m.roiPercent == 0.0 && m.productionEfficiency == 0.0 && m.costPerUnit == 0.0)
      && (r.salePrice <= 0.0 ==> m.profit == 0.0 && m.roiPercent == 0.0 && m.revenuePerUnit == 0.0)
      && (r.quantity <= 0.0 ==> m.revenuePerUnit == 0.0 && m.costPerUnit == 0.0)
  {
  }

  /** With both prices positive, profit is the (possibly negative) price difference and ROI is
      profit over cost as a percentage, each to within the rounding to 2 places; the sign of
      a non-zero profit is the sign of the difference. */
  lemma ProfitAndReturn(r: Record)
    requires r.costPrice > 0.0 && r.salePrice > 0.0
    ensures var m := CalculateMetrics(r); var diff := r.salePrice - r.costPrice;
      && -0.005 <= m.profit - diff <= 0.005
      && -0.005 <= m.roiPercent - diff / r.costPrice * 100.0 <= 0.005
      && (m.profit > 0.0 ==> r.salePrice > r.costPrice)
      && (m.profit < 0.0 ==> r.salePrice < r.costPrice)
  {
    var diff := r.salePrice - r.costPrice;
    RoundClose(diff, 2);
    RoundClose(diff / r.costPrice * 100.0, 2);
    RoundSign(diff, 2);
  }

  /** Revenue per unit, multiplied back by the quantity, recovers the sale price to within
      the rounding to 4 places. */
  lemma RevenuePerUnitReconstructsSale(r: Record)
    requires r.quantity > 0.0 && r.salePrice > 0.0
    ensures var u := CalculateMetrics(r).revenuePerUnit;
      -0.00005 * r.quantity <= u * r.quantity - r.salePrice <= 0.00005 * r.quantity
  {
    ScaledRounding(r.salePrice, r.quantity);
  }

  /** Cost per unit, multiplied back by the quantity, recovers the cost price to within the
      rounding to 4 places. */
  lemma CostPerUnitReconstructsCost(r: Record)
    requires r.quantity > 0.0 && r.costPrice > 0.0
    ensures var u := CalculateMetrics(r).costPerUnit;
      -0.00005 * r.quantity <= u * r.quantity - r.costPrice <= 0.00005 * r.quantity
  {
    ScaledRounding(r.costPrice, r.quantity);
  }

  /** Efficiency, multiplied back by the cost price, recovers the quantity to within the
      rounding to 4 places. */
  lemma EfficiencyReconstructsQuantity(r: Record)
    requires r.costPrice > 0.0
    ensures var e := CalculateMetrics(r).productionEfficiency;
      -0.00005 * r.costPrice <= e * r.costPrice - r.quantity <= 0.00005 * r.costPrice
  {
    ScaledRounding(r.quantity, r.costPrice);
  }

  /** Rounding `a / b` to 4 places and multiplying by `b` misses `a` by at most `b / 20000`. */
  lemma ScaledRounding(a: real, b: real)
    requires b > 0.0
    ensures -0.00005 * b <= Round(a / b, 4) * b - a <= 0.00005 * b
  {
    RoundClose(a / b, 4);
    var e := Round(a / b, 4) - a / b;
    assert Scale(4) == 10000.0;
    assert -0.00005 <= e <= 0.00005;
    assert Round(a / b, 4) * b - a == e * b;
    assert -0.00005 * b <= e * b <= 0.00005 * b;
  }

  /** The growth period, case by case: both dates present and parsed give the whole-day
      difference; anything else gives 0. */
  lemma GrowthPeriodCases(r: Record)
    ensures (AsDateTime(r.plantingDate).None? || AsDateTime(r.harvestDate).None?)
            ==> GrowthPeriodDays(r) == 0
    ensures (AsDateTime(r.plantingDate).Some? && AsDateTime(r.harvestDate).Some?)
            ==> GrowthPeriodDays(r)
                == WholeDaysBetween(AsDateTime(r.plantingDate).value, AsDateTime(r.harvestDate).value)
  {
    match r.plantingDate {
      case Text(s) => if s == "" { assert Parse(s).None?; }
      case _ =>
    }
    match r.harvestDate {
      case Text(s) => if s == "" { assert Parse(s).None?; }
      case _ =>
    }
  }

  /** Dates given as `YYYY-MM-DD` text and the same calendar days given as midnight
      `datetime` values yield the same growth period: the day-number difference. */
  lemma TextAndParsedDatesAgree(r: Record, planting: CalendarDate, harvest: CalendarDate)
    ensures
      var asText := r.(plantingDate := Text(Format(planting)), harvestDate := Text(Format(harvest)));
      var asStamps := r.(plantingDate := Stamp(DateTime(planting, 0)), harvestDate := Stamp(DateTime(harvest, 0)));
      GrowthPeriodDays(asText) == GrowthPeriodDays(asStamps) == DayNumber(harvest) - DayNumber(planting)
  {
    ParseFormat(planting);
    ParseFormat(harvest);
  }

  /** The growth period is positive exactly when, at equal times of day, harvest falls on a
      later calendar day than planting. */
  lemma GrowthPositiveWhenHarvestLater(r: Record)
    requires AsDateTime(r.plantingDate).Some? && AsDateTime(r.harvestDate).Some?
    requires AsDateTime(r.plantingDate).value.second == AsDateTime(r.harvestDate).value.second
    ensures GrowthPeriodDays(r) > 0
            <==> Before(AsDateTime(r.plantingDate).value.date, AsDateTime(r.harvestDate).value.date)
  {
    GrowthPeriodCases(r);
    WholeDaysSign(AsDateTime(r.plantingDate).value, AsDateTime(r.harvestDate).value);
  }

  /** A rendered `datetime` parses back to its calendar day; text and NULL render as given. */
  lemma FormatDateForCsvRoundTrip(f: DateField)
    ensures f.Stamp? ==> Parse(FormatDateForCsv(f)) == Some(f.at.date)
    ensures f.Text? ==> FormatDateForCsv(f) == f.text
    ensures f.Missing? ==> FormatDateForCsv(f) == ""
  {
    if f.Stamp? {
      ParseFormat(f.at.date);
    }
  }

  predicate AtMidnight(f: DateField)
  {
    f.Stamp? ==> f.at.second == 0
  }

  /** Overwriting the date columns with their CSV text, as the full export does before it
      computes the metrics, leaves every metric unchanged when the planting and harvest values
      carry no time of day (values written through `strptime` never do). */
  lemma CsvDatesKeepMetrics(r: Record)
    requires AtMidnight(r.plantingDate) && AtMidnight(r.harvestDate)
    ensures CalculateMetrics(WithCsvDates(r)) == CalculateMetrics(r)
  {
    var r' := WithCsvDates(r);
    SameDateTime(r.plantingDate);
    SameDateTime(r.harvestDate);
    assert GrowthPeriodDays(r') == GrowthPeriodDays(r);
  }

  lemma SameDateTime(f: DateField)
    requires AtMidnight(f)
    ensures IsPresent(Text(FormatDateForCsv(f))) == IsPresent(f)
    ensures AsDateTime(Text(FormatDateForCsv(f))) == AsDateTime(f)
  {
    if f.Stamp? {
      ParseFormat(f.at.date);
    }
  }

  /** The worked case: 100 units, cost 50, sale 80, planted 2024-01-01, harvested 2024-03-01
      (across a leap February). */
  lemma WorkedExample(r: Record)
    requires r.quantity == 100.0 && r.costPrice == 50.0 && r.salePrice == 80.0
    requires r.plantingDate == Text("2024-01-01") && r.harvestDate == Text("2024-03-01")
    ensures CalculateMetrics(r) == DerivedMetrics(30.0, 60.0, 2.0, 0.8, 0.5, 60)
  {
    FormatExamples();
    TextAndParsedDatesAgree(r, Date(2024, 1, 1), Date(2024, 3, 1));
    LeapFebruaryExample();
    WorkedRatios(r);
  }

  lemma WorkedRatios(r: Record)
    requires r.quantity == 100.0 && r.costPrice == 50.0 && r.salePrice == 80.0
    ensures Profit(r) == 30.0 && RoiPercent(r) == 60.0 && ProductionEfficiency(r) == 2.0
    ensures RevenuePerUnit(r) == 0.8 && CostPerUnit(r) == 0.5
  {
    assert Scale(2) == 100.0 && Scale(4) == 10000.0;
    RoundExact(30.0, 3000, 2);
    RoundExact(60.0, 6000, 2);
    RoundExact(2.0, 20000, 4);
    RoundExact(0.8, 8000, 4);
    RoundExact(0.5, 5000, 4);
  }

  /** No prices: every ratio is 0, and no dates: no growth period. */
  lemma UnpricedExample(r: Record)
    requires r.quantity == 10.0 && r.costPrice == 0.0 && r.salePrice == 0.0
    requires r.plantingDate == Missing && r.harvestDate == Missing
    ensures CalculateMetrics(r) == DerivedMetrics(0.0, 0.0, 0.0, 0.0, 0.0, 0)
  {
  }
}
