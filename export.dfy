/** The three exporters as their outcomes: each reads all records, refuses an empty store
    (returns `False` and writes nothing), and otherwise yields the rows of its file. The file
    itself, its name and the console messages are not modelled. */
module Export {
  import opened Wrappers
  import opened Calendar
  import opened Metrics
  import ProductSummary
  import MonthlyAnalysis

  /** The full export's column names, in the order of the `ExportRow` fields followed by the
      `DerivedMetrics` fields. */
  const FULL_EXPORT_HEADERS: seq<string> := [
    "id", "product_name", "quantity", "sale_price", "cost_price", "planting_date",
    "harvest_date", "production_status", "created_at", "updated_at", "profit", "roi_percent",
    "production_efficiency", "revenue_per_unit", "cost_per_unit", "growth_period_days"]

  /** A row of the full export: the record's columns with the four dates as CSV text, and the
      derived metrics after them. */
  datatype ExportRow = ExportRow(
    id: int,
    productName: string,
    quantity: real,
    salePrice: real,
    costPrice: real,
    plantingDate: string,
    harvestDate: string,
    productionStatus: Status,
    createdAt: string,
    updatedAt: string,
    metrics: DerivedMetrics)

  /** One record as the full export writes it: the dates are rendered first and the metrics
      are computed from the record that already holds the rendered dates. */
  function EnrichRecord(r: Record): ExportRow
  {
    var written := WithCsvDates(r);
    ExportRow(
      r.id, r.productName, r.quantity, r.salePrice, r.costPrice,
      written.plantingDate.text, written.harvestDate.text, r.status,
      written.createdAt.text, written.updatedAt.text,
      CalculateMetrics(written))
  }

  /** `export_to_csv`: none for an empty store, otherwise one enriched row per record, in
      the store's order. */
  method ExportRecords(records: seq<Record>) returns (rows: Option<seq<ExportRow>>)
    ensures rows.None? <==> records == []
    ensures rows.Some? ==> |rows.value| == |records|
    ensures rows.Some? ==> forall i :: 0 <= i < |records| ==> rows.value[i] == EnrichRecord(records[i])
  {
    if records == [] {
      return None;
    }
    var written: seq<ExportRow> := [];
    var i := 0;
    while i < |records|
      invariant 0 <= i <= |records|
      invariant |written| == i
      invariant forall j :: 0 <= j < i ==> written[j] == EnrichRecord(records[j])
    {
      written := written + [EnrichRecord(records[i])];
      i := i + 1;
    }
    return Some(written);
  }

  /** `export_summary_csv`: none for an empty store, otherwise the per-product rows. */
  method ExportSummary(records: seq<Record>) returns (rows: Option<seq<ProductSummary.ProductRow>>)
    ensures rows.None? <==> records == []
    ensures rows.Some? ==> rows.value == ProductSummary.SummaryRows(records)
  {
    if records == [] {
      return None;
    }
    var summary := ProductSummary.Summarise(records);
    return Some(summary);
  }

  /** `export_monthly_analysis`: none for an empty store, otherwise the per-month rows
      (possibly none, when no record has a usable harvest date: the file then holds only
      its header and the export still succeeds). */
  method ExportMonthly(records: seq<Record>) returns (rows: Option<seq<MonthlyAnalysis.MonthRow>>)
    ensures rows.None? <==> records == []
    ensures rows.Some? ==> rows.value == MonthlyAnalysis.MonthlyRows(records)
  {
    if records == [] {
      return None;
    }
    var monthly := MonthlyAnalysis.MonthlyAnalysisRows(records);
    return Some(monthly);
  }

  // ---------------------------------------------------------------------------
  // Properties of an exported row

  /** The row keeps the record's own columns; each date column is its CSV text, and a
      `datetime` date column reads back as its calendar day. */
  lemma EnrichRecordColumns(r: Record)
    ensures var row := EnrichRecord(r);
      && row.id == r.id && row.productName == r.productName && row.quantity == r.quantity
      && row.salePrice == r.salePrice && row.costPrice == r.costPrice && row.productionStatus == r.status
      && (r.plantingDate.Stamp? ==> Parse(row.plantingDate) == Some(r.plantingDate.at.date))
      && (r.harvestDate.Stamp? ==> Parse(row.harvestDate) == Some(r.harvestDate.at.date))
      && (r.createdAt.Stamp? ==> Parse(row.createdAt) == Some(r.createdAt.at.date))
      && (r.updatedAt.Stamp? ==> Parse(row.updatedAt) == Some(r.updatedAt.at.date))
      && (r.plantingDate.Missing? ==> row.plantingDate == "")
      && (r.harvestDate.Missing? ==> row.harvestDate == "")
      && (r.createdAt.Missing? ==> row.createdAt == "")
      && (r.updatedAt.Missing? ==> row.updatedAt == "")
      && (r.plantingDate.Text? ==> row.plantingDate == r.plantingDate.text)
      && (r.harvestDate.Text? ==> row.harvestDate == r.harvestDate.text)
      && (r.createdAt.Text? ==> row.createdAt == r.createdAt.text)
      && (r.updatedAt.Text? ==> row.updatedAt == r.updatedAt.text)
  {
    FormatDateForCsvRoundTrip(r.plantingDate);
    FormatDateForCsvRoundTrip(r.harvestDate);
    FormatDateForCsvRoundTrip(r.createdAt);
    FormatDateForCsvRoundTrip(r.updatedAt);
  }

  /** Rendering the dates before computing the metrics changes no metric when the planting
      and harvest values carry no time of day: the full export's metric columns are then
      exactly `calculate_metrics` of the stored record, the values the summary adds up. */
  lemma EnrichRecordMetrics(r: Record)
    requires AtMidnight(r.plantingDate) && AtMidnight(r.harvestDate)
    ensures EnrichRecord(r).metrics == CalculateMetrics(r)
  {
    CsvDatesKeepMetrics(r);
  }

  /** With both dates stored as `datetime` values, the summary's growth period is the floored
      difference of the stored times, while the full export, which reads the rendered days,
      gets the plain difference of the calendar days. */
  lemma RenderedGrowthPeriod(r: Record)
    requires r.plantingDate.Stamp? && r.harvestDate.Stamp?
    ensures GrowthPeriodDays(r) == WholeDaysBetween(r.plantingDate.at, r.harvestDate.at)
    ensures EnrichRecord(r).metrics.growthPeriodDays
            == DayNumber(r.harvestDate.at.date) - DayNumber(r.plantingDate.at.date)
  {
    FormatDateForCsvRoundTrip(r.plantingDate);
    FormatDateForCsvRoundTrip(r.harvestDate);
    var written := WithCsvDates(r);
    assert AsDateTime(written.plantingDate) == Some(DateTime(r.plantingDate.at.date, 0));
    assert AsDateTime(written.harvestDate) == Some(DateTime(r.harvestDate.at.date, 0));
  }

  /** So a planting at noon and a harvest at midnight the next day count 0 days in the summary
      and 1 day in the full export. */
  lemma RenderingDropsTimeOfDay(r: Record)
    requires r.plantingDate == Stamp(DateTime(Date(2024, 1, 1), 43200))
    requires r.harvestDate == Stamp(DateTime(Date(2024, 1, 2), 0))
    ensures GrowthPeriodDays(r) == 0
    ensures EnrichRecord(r).metrics.growthPeriodDays == 1
  {
    RenderedGrowthPeriod(r);
    var noon: CalendarDate := Date(2024, 1, 1);
    var next: CalendarDate := Date(2024, 1, 2);
    assert DayNumber(next) == DayNumber(noon) + 1;
  }
}
