/** The per-product summary of `export_summary_csv`: records grouped by their exact product
    name, raw quantities and prices summed, statuses counted, positive growth periods averaged,
    then profit and return on investment computed from the totals. */
module ProductSummary {
  import opened Metrics
  import opened Tallies
  import opened Rounding

  /** One entry of the summary table while the records are read, helper fields included. */
  datatype Accumulator = Accumulator(
    productName: string,
    totalQuantity: real,
    totalCost: real,
    totalRevenue: real,
    countPlanted: nat,
    countHarvested: nat,
    countSold: nat,
    totalGrowthPeriods: int,
    growthPeriodCount: nat)

  /** A row of the product summary file, fields in its column order. */
  datatype ProductRow = ProductRow(
    productName: string,
    totalQuantity: real,
    totalCost: real,
    totalRevenue: real,
    totalProfit: real,
    totalRoiPercent: real,
    countPlanted: nat,
    countHarvested: nat,
    countSold: nat,
    avgGrowthPeriod: real)

  /** The summary file's column names, in the order of the `ProductRow` fields. */
  const SUMMARY_HEADERS: seq<string> := [
    "product_name", "total_quantity", "total_cost", "total_revenue", "total_profit",
    "total_roi_percent", "count_planted", "count_harvested", "count_sold", "avg_growth_period"]

  /** The entry created the first time a product name is seen. */
  function Fresh(name: string): Accumulator
  {
    Accumulator(name, 0.0, 0.0, 0.0, 0, 0, 0, 0, 0)
  }

  /** One record folded into its product's entry. */
  function Add(acc: Accumulator, r: Record): Accumulator
  {
    var g := GrowthPeriodDays(r);
    acc.(totalQuantity := acc.totalQuantity + r.quantity,
         totalCost := acc.totalCost + r.costPrice,
         totalRevenue := acc.totalRevenue + r.salePrice,
         countPlanted := acc.countPlanted + (if r.status == Planted then 1 else 0),
         countHarvested := acc.countHarvested + (if r.status == Harvested then 1 else 0),
         countSold := acc.countSold + (if r.status == Sold then 1 else 0),
         totalGrowthPeriods := acc.totalGrowthPeriods + (if g > 0 then g else 0),
         growthPeriodCount := acc.growthPeriodCount + (if g > 0 then 1 else 0))
  }

  /** Reference: the entry for `name` stated through sums and counts over that product's
      records. */
  function Expected(rs: seq<Record>, name: string): Accumulator
  {
    var mine := WithName(rs, name);
    Accumulator(name, TotalQuantity(mine), TotalCost(mine), TotalRevenue(mine),
                StatusCount(mine, Planted), StatusCount(mine, Harvested), StatusCount(mine, Sold),
                PositiveGrowthTotal(mine), PositiveGrowthCount(mine))
  }

  /** Product names in the order they are first met, the order the table's rows come out. */
  function Names(rs: seq<Record>): seq<string>
  {
    if rs == [] then []
    else
      var ns := Names(Init(rs));
      if Last(rs).productName in ns then ns else ns + [Last(rs).productName]
  }

  /** The finalisation pass: profit from the totals, ROI to 2 places (0 when the total cost
      is not positive), and the average of the positive growth periods to 1 place (0 when
      there are none). */
  function Finalize(acc: Accumulator): ProductRow
  {
    ProductRow(
      acc.productName, acc.totalQuantity, acc.totalCost, acc.totalRevenue,
      acc.totalRevenue - acc.totalCost,
      TotalRoiPercent(acc.totalRevenue - acc.totalCost, acc.totalCost),
      acc.countPlanted, acc.countHarvested, acc.countSold,
      AverageGrowth(acc.totalGrowthPeriods, acc.growthPeriodCount))
  }

  function TotalRoiPercent(profit: real, cost: real): real
  {
    if cost > 0.0 then Round(profit / cost * 100.0, 2) else 0.0
  }

  function AverageGrowth(total: int, count: nat): real
  {
    if count > 0 then Round(total as real / count as real, 1) else 0.0
  }

  /** Reference: the rows of the summary file. */
  function SummaryRows(rs: seq<Record>): seq<ProductRow>
  {
    var names := Names(rs);
    seq(|names|, i requires 0 <= i < |names| => Finalize(Expected(rs, names[i])))
  }

  // ---------------------------------------------------------------------------
  // The two passes

  /** The grouping loop: the table holds, for every product name met, exactly the reference
      entry, and the names come in first-met order. */
  method GroupByProduct(records: seq<Record>) returns (summary: map<string, Accumulator>, names: seq<string>)
    ensures names == Names(records)
    ensures forall n :: n in summary <==> n in names
    ensures forall n :: n in summary ==> summary[n] == Expected(records, n)
  {
    summary, names := map[], [];
    var i := 0;
    while i < |records|
      invariant 0 <= i <= |records|
      invariant names == Names(records[..i])
      invariant SameKeys(summary, names)
      invariant Tabulates(summary, records[..i])
    {
      var r := records[i];
      var product := r.productName;
      GroupStep(summary, names, records, i);
      if product !in summary {
        summary := summary[product := Fresh(product)];
        names := names + [product];
      }
      summary := summary[product := Add(summary[product], r)];
      i := i + 1;
    }
    assert records[..i] == records;
  }

  /** The table's keys are exactly the listed names. */
  ghost predicate SameKeys(summary: map<string, Accumulator>, names: seq<string>)
  {
    forall n :: n in summary <==> n in names
  }

  /** One pass of the grouping loop keeps the names, the keys and the entries in step with
      the records read so far. */
  lemma GroupStep(summary: map<string, Accumulator>, names: seq<string>, records: seq<Record>, i: nat)
    requires i < |records|
    requires names == Names(records[..i])
    requires SameKeys(summary, names)
    requires Tabulates(summary, records[..i])
    ensures var p := records[i].productName;
      var entered := if p in summary then summary else summary[p := Fresh(p)];
      var listed := if p in summary then names else names + [p];
      && listed == Names(records[..i + 1])
      && SameKeys(entered[p := Add(entered[p], records[i])], listed)
      && Tabulates(entered[p := Add(entered[p], records[i])], records[..i + 1])
  {
    var rs, r, p := records[..i], records[i], records[i].productName;
    assert records[..i + 1] == rs + [r];
    NamesAfter(rs, r);
    if p !in summary {
      TabulatesAfterFresh(summary, rs, p);
      TabulatesAfterAdd(summary[p := Fresh(p)], rs, r);
    } else {
      TabulatesAfterAdd(summary, rs, r);
    }
  }

  /** The table holds, for each of its names, exactly the reference entry over `rs`. */
  predicate Tabulates(summary: map<string, Accumulator>, rs: seq<Record>)
  {
    forall n :: n in summary ==> summary[n] == Expected(rs, n)
  }

  lemma TabulatesAfterAdd(summary: map<string, Accumulator>, rs: seq<Record>, r: Record)
    requires r.productName in summary
    requires Tabulates(summary, rs)
    ensures Tabulates(summary[r.productName := Add(summary[r.productName], r)], rs + [r])
  {
    ExpectedAfter(rs, r);
  }

  lemma TabulatesAfterFresh(summary: map<string, Accumulator>, rs: seq<Record>, name: string)
    requires name !in Names(rs)
    requires Tabulates(summary, rs)
    ensures Tabulates(summary[name := Fresh(name)], rs)
  {
    NotYetNamed(rs, name);
  }

  lemma NamesAfter(rs: seq<Record>, r: Record)
    ensures Names(rs + [r]) == if r.productName in Names(rs) then Names(rs) else Names(rs) + [r.productName]
  {
    InitOfAppend(rs, r);
  }

  /** The finalisation pass: every entry of the table turned into its row. */
  method FinalizeEach(summary: map<string, Accumulator>, names: seq<string>)
    returns (finished: map<string, ProductRow>)
    requires forall n :: n in summary <==> n in names
    ensures forall n :: n in finished <==> n in summary
    ensures forall n :: n in finished ==> finished[n] == Finalize(summary[n])
  {
    finished := map[];
    var i := 0;
    while i < |names|
      invariant 0 <= i <= |names|
      invariant forall j :: 0 <= j < i ==> names[j] in finished
      invariant forall n :: n in finished ==> n in summary && finished[n] == Finalize(summary[n])
    {
      finished := finished[names[i] := Finalize(summary[names[i]])];
      i := i + 1;
    }
  }

  /** The writing pass: the finished rows in the table's insertion order. */
  method EmitInOrder(finished: map<string, ProductRow>, names: seq<string>) returns (rows: seq<ProductRow>)
    requires forall n :: n in names ==> n in finished
    ensures |rows| == |names|
    ensures forall j :: 0 <= j < |names| ==> rows[j] == finished[names[j]]
  {
    rows := [];
    var i := 0;
    while i < |names|
      invariant 0 <= i <= |names|
      invariant |rows| == i
      invariant forall j :: 0 <= j < i ==> rows[j] == finished[names[j]]
    {
      assert names[i] in names;
      rows := rows + [finished[names[i]]];
      i := i + 1;
    }
  }

  /** All passes: group, finalise every entry, emit the rows in table order. */
  method Summarise(records: seq<Record>) returns (rows: seq<ProductRow>)
    ensures rows == SummaryRows(records)
  {
    var summary, names := GroupByProduct(records);
    var finished := FinalizeEach(summary, names);
    rows := EmitInOrder(finished, names);
    forall j | 0 <= j < |names| ensures rows[j] == SummaryRows(records)[j] {
      assert names[j] in names;
    }
  }

  // ---------------------------------------------------------------------------
  // Proof steps of the grouping loop

  lemma TalliesOfAppend(rs: seq<Record>, r: Record)
    ensures TotalQuantity(rs + [r]) == TotalQuantity(rs) + r.quantity
    ensures TotalCost(rs + [r]) == TotalCost(rs) + r.costPrice
    ensures TotalRevenue(rs + [r]) == TotalRevenue(rs) + r.salePrice
    ensures forall st :: StatusCount(rs + [r], st) == StatusCount(rs, st) + (if r.status == st then 1 else 0)
    ensures PositiveGrowthCount(rs + [r])
         == PositiveGrowthCount(rs) + (if GrowthPeriodDays(r) > 0 then 1 else 0)
    ensures PositiveGrowthTotal(rs + [r])
         == PositiveGrowthTotal(rs) + (if GrowthPeriodDays(r) > 0 then GrowthPeriodDays(r) else 0)
  {
    InitOfAppend(rs, r);
  }

  /** Reading one more record changes only its own product's reference entry, by `Add`. */
  lemma ExpectedAfter(rs: seq<Record>, r: Record)
    ensures forall n :: Expected(rs + [r], n)
                        == if n == r.productName then Add(Expected(rs, n), r) else Expected(rs, n)
  {
    InitOfAppend(rs, r);
    forall n ensures Expected(rs + [r], n)
                     == if n == r.productName then Add(Expected(rs, n), r) else Expected(rs, n)
    {
      if n == r.productName {
        assert WithName(rs + [r], n) == WithName(rs, n) + [r];
        TalliesOfAppend(WithName(rs, n), r);
      } else {
        assert WithName(rs + [r], n) == WithName(rs, n);
      }
    }
  }

  /** A name not met yet has no records so far: its reference entry is the fresh one. */
  lemma NotYetNamed(rs: seq<Record>, name: string)
    requires name !in Names(rs)
    ensures Expected(rs, name) == Fresh(name)
  {
    NamesExactly(rs);
    WithNameExactly(rs, name);
    assert WithName(rs, name) == [];
  }

  // ---------------------------------------------------------------------------
  // Properties of the summary

  /** Names are listed once each, and a name is listed exactly when some record carries it. */
  lemma {:induction false} NamesExactly(rs: seq<Record>)
    ensures forall i, j :: 0 <= i < j < |Names(rs)| ==> Names(rs)[i] != Names(rs)[j]
    ensures forall n :: n in Names(rs) <==> exists r :: r in rs && r.productName == n
  {
    if rs != [] {
      NamesExactly(Init(rs));
      assert rs == Init(rs) + [Last(rs)];
      forall n ensures n in Names(rs) <==> exists r :: r in rs && r.productName == n {
        if n == Last(rs).productName {
          assert Last(rs) in rs;
        } else if exists r :: r in rs && r.productName == n {
          var r :| r in rs && r.productName == n;
          assert r in Init(rs);
        }
      }
    }
  }

  /** A summary row's totals are the sums of the raw quantity, cost and sale price over
      exactly that product's records (there is at least one), its profit is revenue minus
      cost, and its status counters never exceed the product's record count, since
      unrecognised statuses are not counted. */
  lemma SummaryRowTotals(rs: seq<Record>, i: int)
    requires 0 <= i < |SummaryRows(rs)|
    ensures var row := SummaryRows(rs)[i]; var mine := WithName(rs, row.productName);
      && row.productName == Names(rs)[i]
      && |mine| >= 1
      && (forall r :: r in mine <==> r in rs && r.productName == row.productName)
      && row.totalQuantity == TotalQuantity(mine)
      && row.totalCost == TotalCost(mine)
      && row.totalRevenue == TotalRevenue(mine)
      && row.totalProfit == row.totalRevenue - row.totalCost
      && row.countPlanted == StatusCount(mine, Planted)
      && row.countHarvested == StatusCount(mine, Harvested)
      && row.countSold == StatusCount(mine, Sold)
      && row.countPlanted + row.countHarvested + row.countSold <= |mine|
  {
    var name := Names(rs)[i];
    var mine := WithName(rs, name);
    NamesExactly(rs);
    assert name in Names(rs);
    WithNameExactly(rs, name);
    var r :| r in rs && r.productName == name;
    assert r in mine;
    StatusCountsBounded(mine);
  }

  /** A summary row's ROI is 0 without a positive total cost, and otherwise the total profit
      over the total cost as a percentage, to within the rounding to 2 places. */
  lemma SummaryRowReturn(rs: seq<Record>, i: int)
    requires 0 <= i < |SummaryRows(rs)|
    ensures var row := SummaryRows(rs)[i];
      && (row.totalCost <= 0.0 ==> row.totalRoiPercent == 0.0)
      && (row.totalCost > 0.0 ==>
            -0.005 <= row.totalRoiPercent - row.totalProfit / row.totalCost * 100.0 <= 0.005)
  {
    var acc := Expected(rs, Names(rs)[i]);
    if acc.totalCost > 0.0 {
      RoundClose((acc.totalRevenue - acc.totalCost) / acc.totalCost * 100.0, 2);
    }
  }

  /** A summary row's average growth period is 0 when none of the product's periods is
      positive, and otherwise the mean of the positive ones only, to within the rounding to
      1 place, hence at least one day. */
  lemma SummaryRowAverageGrowth(rs: seq<Record>, i: int)
    requires 0 <= i < |SummaryRows(rs)|
    ensures var row := SummaryRows(rs)[i]; var mine := WithName(rs, row.productName);
      && (PositiveGrowthCount(mine) == 0 ==> row.avgGrowthPeriod == 0.0)
      && (PositiveGrowthCount(mine) > 0 ==>
            && row.avgGrowthPeriod >= 1.0
            && -0.05 <= row.avgGrowthPeriod
                         - PositiveGrowthTotal(mine) as real / PositiveGrowthCount(mine) as real <= 0.05)
  {
    var mine := WithName(rs, Names(rs)[i]);
    if PositiveGrowthCount(mine) > 0 {
      AverageOfPositives(PositiveGrowthTotal(mine), PositiveGrowthCount(mine), mine);
    }
  }

  lemma AverageOfPositives(total: int, count: nat, mine: seq<Record>)
    requires count > 0 && total == PositiveGrowthTotal(mine) && count == PositiveGrowthCount(mine)
    ensures var avg := Round(total as real / count as real, 1);
      avg >= 1.0 && -0.05 <= avg - total as real / count as real <= 0.05
  {
    PositiveGrowthBounds(mine);
    var mean := total as real / count as real;
    AtLeastOne(total as real, count as real);
    RoundClose(mean, 1);
    assert Scale(1) == 10.0;
    RoundExact(1.0, 10, 1);
    RoundMonotone(1.0, mean, 1);
  }

  lemma AtLeastOne(a: real, b: real)
    requires b > 0.0 && a >= b
    ensures a / b >= 1.0
  {
  }

  /** The worked case: two "Tomate" records costing 50 and 30 and selling for 80 and 45 give
      total cost 80, revenue 125, profit 45 and ROI 56.25. */
  lemma TomateExample(a: Record, b: Record)
    requires a.productName == "Tomate" && a.costPrice == 50.0 && a.salePrice == 80.0
    requires b.productName == "Tomate" && b.costPrice == 30.0 && b.salePrice == 45.0
    ensures var row := SummaryRows([a, b])[0];
      |SummaryRows([a, b])| == 1
      && row.productName == "Tomate"
      && row.totalCost == 80.0 && row.totalRevenue == 125.0
      && row.totalProfit == 45.0 && row.totalRoiPercent == 56.25
  {
    var rs := [a, b];
    assert Init(rs) == [a] && Last(rs) == b && Init([a]) == [] && Last([a]) == a;
    assert Names([a]) == ["Tomate"];
    assert Names(rs) == ["Tomate"];
    assert WithName([a], "Tomate") == [a];
    assert WithName(rs, "Tomate") == rs;
    assert TotalCost([a]) == 50.0 && TotalRevenue([a]) == 80.0;
    assert TotalCost(rs) == 80.0 && TotalRevenue(rs) == 125.0;
    assert Scale(2) == 100.0;
    RoundExact(56.25, 5625, 2);
    assert (125.0 - 80.0) / 80.0 * 100.0 == 56.25;
  }
}
