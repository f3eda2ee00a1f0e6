/** The per-month analysis of `export_monthly_analysis`: records bucketed by the `YYYY-MM` of
    their harvest date (records without a usable harvest date are skipped), raw quantities
    and prices summed per bucket, profit, ROI, efficiency and average quantity computed from
    the totals, and the rows emitted in ascending key order. */
module MonthlyAnalysis {
  import opened Wrappers
  import opened Calendar
  import opened Metrics
  import opened Tallies
  import opened Rounding
  import Strings

  /** The bucket key of a record: absent, empty or unparsable harvest dates give none. */
  function HarvestMonth(r: Record): Option<string>
  {
    if !IsPresent(r.harvestDate) then None
    else
      match r.harvestDate
      case Text(s) => (match Parse(s) case Some(d) => Some(MonthKey(d)) case None => None)
      case Stamp(t) => Some(MonthKey(t.date))
      case Missing => None
  }

  /** The records that land in bucket `key`, in their original order. */
  function InMonth(rs: seq<Record>, key: string): seq<Record>
  {
    if rs == [] then []
    else InMonth(Init(rs), key) + (if HarvestMonth(Last(rs)) == Some(key) then [Last(rs)] else [])
  }

  /** The records that land in some bucket. */
  function Dated(rs: seq<Record>): seq<Record>
  {
    if rs == [] then []
    else Dated(Init(rs)) + (if HarvestMonth(Last(rs)).Some? then [Last(rs)] else [])
  }

  /** Bucket keys in the order they are first met. */
  function MonthKeys(rs: seq<Record>): seq<string>
  {
    if rs == [] then []
    else
      var ks := MonthKeys(Init(rs));
      match HarvestMonth(Last(rs))
      case None => ks
      case Some(k) => if k in ks then ks else ks + [k]
  }

  /** One entry of the monthly table while the records are read. */
  datatype MonthAccumulator = MonthAccumulator(
    yearMonth: string,
    totalQuantity: real,
    totalCost: real,
    totalRevenue: real,
    productionCount: nat)

  /** A row of the monthly analysis file, fields in its column order. */
  datatype MonthRow = MonthRow(
    yearMonth: string,
    productionCount: nat,
    totalQuantity: real,
    totalCost: real,
    totalRevenue: real,
    totalProfit: real,
    roiPercent: real,
    efficiency: real,
    avgQuantityPerProduction: real)

  /** The monthly file's column names, in the order of the `MonthRow` fields. */
  const MONTHLY_HEADERS: seq<string> := [
    "year_month", "production_count", "total_quantity", "total_cost", "total_revenue",
    "total_profit", "roi_percent", "efficiency", "avg_quantity_per_production"]

  function FreshMonth(key: string): MonthAccumulator
  {
    MonthAccumulator(key, 0.0, 0.0, 0.0, 0)
  }

  function AddToMonth(acc: MonthAccumulator, r: Record): MonthAccumulator
  {
    acc.(totalQuantity := acc.totalQuantity + r.quantity,
         totalCost := acc.totalCost + r.costPrice,
         totalRevenue := acc.totalRevenue + r.salePrice,
         productionCount := acc.productionCount + 1)
  }

  /** Reference: bucket `key` stated through sums over the records that land in it. */
  function ExpectedMonth(rs: seq<Record>, key: string): MonthAccumulator
  {
    var mine := InMonth(rs, key);
    MonthAccumulator(key, TotalQuantity(mine), TotalCost(mine), TotalRevenue(mine), |mine|)
  }

  /** The finalisation pass: profit from the totals; ROI to 2 places and efficiency to 4
      places, both 0 when the total cost is not positive; average quantity to 2 places, 0
      for an empty bucket (a case that never arises). */
  function FinalizeMonth(acc: MonthAccumulator): MonthRow
  {
    var profit := acc.totalRevenue - acc.totalCost;
    MonthRow(
      acc.yearMonth, acc.productionCount, acc.totalQuantity, acc.totalCost, acc.totalRevenue,
      profit,
      MonthRoiPercent(profit, acc.totalCost),
      MonthEfficiency(acc.totalQuantity, acc.totalCost),
      AverageQuantity(acc.totalQuantity, acc.productionCount))
  }

  function MonthRoiPercent(profit: real, cost: real): real
  {
    if cost > 0.0 then Round(profit / cost * 100.0, 2) else 0.0
  }

  function MonthEfficiency(quantity: real, cost: real): real
  {
    if cost > 0.0 then Round(quantity / cost, 4) else 0.0
  }

  function AverageQuantity(quantity: real, count: nat): real
  {
    if count > 0 then Round(quantity / count as real, 2) else 0.0
  }

  /** The rows for the buckets `keys`, in that order. */
  function RowsFor(rs: seq<Record>, keys: seq<string>): seq<MonthRow>
  {
    seq(|keys|, i requires 0 <= i < |keys| => FinalizeMonth(ExpectedMonth(rs, keys[i])))
  }

  /** Reference: the rows of the monthly analysis file, one per bucket in ascending key order. */
  function MonthlyRows(rs: seq<Record>): seq<MonthRow>
  {
    RowsFor(rs, Strings.SortedKeys(MonthKeys(rs)))
  }

  function TotalProductionCount(rows: seq<MonthRow>): nat
  {
    if rows == [] then 0
    else TotalProductionCount(rows[..|rows| - 1]) + rows[|rows| - 1].productionCount
  }

  // ---------------------------------------------------------------------------
  // The passes

  /** The bucketing loop: the table holds, for every bucket met, exactly the reference
      entry, and the keys come in first-met order. */
  method GroupByMonth(records: seq<Record>) returns (monthly: map<string, MonthAccumulator>, keys: seq<string>)
    ensures keys == MonthKeys(records)
    ensures forall k :: k in monthly <==> k in keys
    ensures forall k :: k in monthly ==> monthly[k] == ExpectedMonth(records, k)
  {
    monthly, keys := map[], [];
    var i := 0;
    while i < |records|
      invariant 0 <= i <= |records|
      invariant keys == MonthKeys(records[..i])
      invariant SameKeys(monthly, keys)
      invariant Tabulates(monthly, records[..i])
    {
      var r := records[i];
      var month := HarvestMonth(r);
      if month.Some? {
        var key := month.value;
        if key !in monthly {
          OpenStep(monthly, keys, records, i, key);
          monthly := monthly[key := FreshMonth(key)];
          keys := keys + [key];
        } else {
          AddStep(monthly, keys, records, i, key);
        }
        monthly := monthly[key := AddToMonth(monthly[key], r)];
      } else {
        SkipStep(monthly, keys, records, i);
      }
      i := i + 1;
    }
    assert records[..i] == records;
  }

  /** The finalisation pass: every bucket of the table turned into its row. */
  method FinalizeEach(monthly: map<string, MonthAccumulator>, keys: seq<string>)
    returns (finished: map<string, MonthRow>)
    requires forall k :: k in monthly <==> k in keys
    ensures forall k :: k in finished <==> k in monthly
    ensures forall k :: k in finished ==> finished[k] == FinalizeMonth(monthly[k])
  {
    finished := map[];
    var i := 0;
    while i < |keys|
      invariant 0 <= i <= |keys|
      invariant forall j :: 0 <= j < i ==> keys[j] in finished
      invariant forall k :: k in finished ==> k in monthly && finished[k] == FinalizeMonth(monthly[k])
    {
      finished := finished[keys[i] := FinalizeMonth(monthly[keys[i]])];
      i := i + 1;
    }
  }

  /** The writing pass: the finished rows looked up in the order of `ordered`. */
  method EmitInOrder(finished: map<string, MonthRow>, ordered: seq<string>) returns (rows: seq<MonthRow>)
    requires forall k :: k in ordered ==> k in finished
    ensures |rows| == |ordered|
    ensures forall j :: 0 <= j < |ordered| ==> rows[j] == finished[ordered[j]]
  {
    rows := [];
    var i := 0;
    while i < |ordered|
      invariant 0 <= i <= |ordered|
      invariant |rows| == i
      invariant forall j :: 0 <= j < i ==> rows[j] == finished[ordered[j]]
    {
      assert ordered[i] in ordered;
      rows := rows + [finished[ordered[i]]];
      i := i + 1;
    }
  }

  /** All passes: bucket, finalise every bucket, emit the rows in ascending key order. */
  method MonthlyAnalysisRows(records: seq<Record>) returns (rows: seq<MonthRow>)
    ensures rows == MonthlyRows(records)
  {
    var monthly, keys := GroupByMonth(records);
    var finished := FinalizeEach(monthly, keys);
    var ordered := Strings.SortedKeys(keys);
    rows := EmitInOrder(finished, ordered);
    forall j | 0 <= j < |ordered| ensures rows[j] == MonthlyRows(records)[j] {
      assert ordered[j] in ordered;
    }
  }

  /** The table holds, for each of its keys, exactly the reference entry over `rs`. */
  predicate Tabulates(monthly: map<string, MonthAccumulator>, rs: seq<Record>)
  {
    forall k :: k in monthly ==> monthly[k] == ExpectedMonth(rs, k)
  }

  lemma TabulatesAfterAdd(monthly: map<string, MonthAccumulator>, rs: seq<Record>, r: Record, key: string)
    requires HarvestMonth(r) == Some(key) && key in monthly
    requires Tabulates(monthly, rs)
    ensures Tabulates(monthly[key := AddToMonth(monthly[key], r)], rs + [r])
  {
    ExpectedMonthAdded(rs, r, key);
  }

  /** The table's keys are exactly the listed month keys. */
  ghost predicate SameKeys(monthly: map<string, MonthAccumulator>, keys: seq<string>)
  {
    forall k :: k in monthly <==> k in keys
  }

  // ---------------------------------------------------------------------------
  // Proof steps of the bucketing loop

  /** A pass of the bucketing loop over a record without a usable harvest date keeps the
      keys and the buckets in step with the records read so far. */
  lemma SkipStep(monthly: map<string, MonthAccumulator>, keys: seq<string>, records: seq<Record>, i: nat)
    requires i < |records| && HarvestMonth(records[i]).None?
    requires keys == MonthKeys(records[..i])
    requires Tabulates(monthly, records[..i])
    ensures keys == MonthKeys(records[..i + 1])
    ensures Tabulates(monthly, records[..i + 1])
  {
    assert records[..i + 1] == records[..i] + [records[i]];
    ExpectedMonthSkipped(records[..i], records[i]);
  }

  /** A pass over a record whose month `key` already has a bucket adds the record to it. */
  lemma AddStep(monthly: map<string, MonthAccumulator>, keys: seq<string>, records: seq<Record>, i: nat, key: string)
    requires i < |records| && HarvestMonth(records[i]) == Some(key)
    requires keys == MonthKeys(records[..i]) && key in keys
    requires Tabulates(monthly, records[..i])
    requires key in monthly
    ensures keys == MonthKeys(records[..i + 1])
    ensures Tabulates(monthly[key := AddToMonth(monthly[key], records[i])], records[..i + 1])
  {
    assert records[..i + 1] == records[..i] + [records[i]];
    ExpectedMonthAdded(records[..i], records[i], key);
    TabulatesAfterAdd(monthly, records[..i], records[i], key);
  }

  /** A pass over a record of a month `key` not met before opens its bucket and adds the
      record to it, and lists `key`. */
  lemma OpenStep(monthly: map<string, MonthAccumulator>, keys: seq<string>, records: seq<Record>, i: nat, key: string)
    requires i < |records| && HarvestMonth(records[i]) == Some(key)
    requires keys == MonthKeys(records[..i]) && key !in keys
    requires Tabulates(monthly, records[..i])
    ensures keys + [key] == MonthKeys(records[..i + 1])
    ensures var started := monthly[key := FreshMonth(key)];
      Tabulates(started[key := AddToMonth(started[key], records[i])], records[..i + 1])
  {
    var rs, r := records[..i], records[i];
    assert records[..i + 1] == rs + [r];
    ExpectedMonthAdded(rs, r, key);
    MonthNotYetSeen(rs, key);
    TabulatesAfterAdd(monthly[key := FreshMonth(key)], rs, r, key);
  }

  /** A record without a usable harvest date changes no bucket and adds no key. */
  lemma ExpectedMonthSkipped(rs: seq<Record>, r: Record)
    requires HarvestMonth(r).None?
    ensures MonthKeys(rs + [r]) == MonthKeys(rs)
    ensures forall k :: ExpectedMonth(rs + [r], k) == ExpectedMonth(rs, k)
  {
    InitOfAppend(rs, r);
    forall k ensures ExpectedMonth(rs + [r], k) == ExpectedMonth(rs, k) {
      assert InMonth(rs + [r], k) == InMonth(rs, k);
    }
  }

  /** A record of month `key` is added to that bucket only, and `key` is listed if new. */
  lemma ExpectedMonthAdded(rs: seq<Record>, r: Record, key: string)
    requires HarvestMonth(r) == Some(key)
    ensures MonthKeys(rs + [r]) == if key in MonthKeys(rs) then MonthKeys(rs) else MonthKeys(rs) + [key]
    ensures ExpectedMonth(rs + [r], key) == AddToMonth(ExpectedMonth(rs, key), r)
    ensures forall k :: k != key ==> ExpectedMonth(rs + [r], k) == ExpectedMonth(rs, k)
  {
    InitOfAppend(rs, r);
    var mine := InMonth(rs, key);
    assert InMonth(rs + [r], key) == mine + [r];
    InitOfAppend(mine, r);
    forall k | k != key ensures ExpectedMonth(rs + [r], k) == ExpectedMonth(rs, k) {
      assert InMonth(rs + [r], k) == InMonth(rs, k);
    }
  }

  lemma MonthNotYetSeen(rs: seq<Record>, key: string)
    requires key !in MonthKeys(rs)
    ensures ExpectedMonth(rs, key) == FreshMonth(key)
  {
    MonthKeysExactly(rs);
    InMonthExactly(rs, key);
    assert InMonth(rs, key) == [];
  }

  // ---------------------------------------------------------------------------
  // Properties of the buckets

  /** A record is in bucket `key` exactly when it is an input record whose harvest month is
      `key`: a record with no usable harvest date is in no bucket. */
  lemma {:induction false} InMonthExactly(rs: seq<Record>, key: string)
    ensures |InMonth(rs, key)| <= |rs|
    ensures forall r :: r in InMonth(rs, key) <==> r in rs && HarvestMonth(r) == Some(key)
  {
    if rs != [] {
      InMonthExactly(Init(rs), key);
      assert rs == Init(rs) + [Last(rs)];
    }
  }

  /** Bucket keys are listed once each, and a key is listed exactly when some record's
      harvest month is that key. */
  lemma {:induction false} MonthKeysExactly(rs: seq<Record>)
    ensures forall i, j :: 0 <= i < j < |MonthKeys(rs)| ==> MonthKeys(rs)[i] != MonthKeys(rs)[j]
    ensures forall k :: k in MonthKeys(rs) <==> exists r :: r in rs && HarvestMonth(r) == Some(k)
  {
    if rs != [] {
      MonthKeysExactly(Init(rs));
      assert rs == Init(rs) + [Last(rs)];
      forall k ensures k in MonthKeys(rs) <==> exists r :: r in rs && HarvestMonth(r) == Some(k) {
        if HarvestMonth(Last(rs)) == Some(k) {
          assert Last(rs) in rs;
        } else if exists r :: r in rs && HarvestMonth(r) == Some(k) {
          var r :| r in rs && HarvestMonth(r) == Some(k);
          assert r in Init(rs);
        }
      }
    }
  }

  /** Rows come out in strictly ascending `year_month` order, there is one row for every
      bucket that some record lands in, and no other. */
  lemma MonthlyRowsOrderAndCover(rs: seq<Record>)
    ensures forall i, j :: 0 <= i < j < |MonthlyRows(rs)|
              ==> Strings.Less(MonthlyRows(rs)[i].yearMonth, MonthlyRows(rs)[j].yearMonth)
    ensures forall k :: (exists i :: 0 <= i < |MonthlyRows(rs)| && MonthlyRows(rs)[i].yearMonth == k)
                        <==> (exists r :: r in rs && HarvestMonth(r) == Some(k))
  {
    var ordered := Strings.SortedKeys(MonthKeys(rs));
    MonthKeysExactly(rs);
    forall k ensures (exists i :: 0 <= i < |MonthlyRows(rs)| && MonthlyRows(rs)[i].yearMonth == k)
                     <==> (exists r :: r in rs && HarvestMonth(r) == Some(k))
    {
      if exists r :: r in rs && HarvestMonth(r) == Some(k) {
        assert k in ordered;
        var i :| 0 <= i < |ordered| && ordered[i] == k;
        assert MonthlyRows(rs)[i].yearMonth == k;
      }
    }
  }

  /** The monthly file has no data rows exactly when no record has a usable harvest date. */
  lemma MonthlyRowsEmpty(rs: seq<Record>)
    ensures MonthlyRows(rs) == [] <==> forall r :: r in rs ==> HarvestMonth(r).None?
  {
    MonthlyRowsOrderAndCover(rs);
    if MonthlyRows(rs) != [] {
      assert MonthlyRows(rs)[0].yearMonth == MonthlyRows(rs)[0].yearMonth;
    }
  }

  /** Ascending key order is calendar order: an earlier row's key is the key of an earlier
      month than a later row's. */
  lemma MonthlyRowsChronological(rs: seq<Record>, i: int, j: int, earlier: CalendarDate, later: CalendarDate)
    requires 0 <= i < j < |MonthlyRows(rs)|
    requires MonthlyRows(rs)[i].yearMonth == MonthKey(earlier)
    requires MonthlyRows(rs)[j].yearMonth == MonthKey(later)
    ensures earlier.year < later.year || (earlier.year == later.year && earlier.month < later.month)
  {
    MonthlyRowsOrderAndCover(rs);
    MonthKeyChronological(earlier, later);
  }

  /** Each row counts exactly the records of its bucket, at least one, and carries their
      totals; profit is revenue minus cost. */
  lemma MonthlyRowTotals(rs: seq<Record>, i: int)
    requires 0 <= i < |MonthlyRows(rs)|
    ensures var row := MonthlyRows(rs)[i]; var mine := InMonth(rs, row.yearMonth);
      && row.productionCount == |mine| >= 1
      && row.totalQuantity == TotalQuantity(mine)
      && row.totalCost == TotalCost(mine)
      && row.totalRevenue == TotalRevenue(mine)
      && row.totalProfit == row.totalRevenue - row.totalCost
  {
    var ordered := Strings.SortedKeys(MonthKeys(rs));
    var key := ordered[i];
    assert key in ordered;
    MonthKeysExactly(rs);
    InMonthExactly(rs, key);
    var r :| r in rs && HarvestMonth(r) == Some(key);
    assert r in InMonth(rs, key);
  }

  /** The average quantity is the total over the count to within rounding to 2 places: the
      count is never 0, so the zero branch of the finalisation is never taken. */
  lemma MonthlyRowAverage(rs: seq<Record>, i: int)
    requires 0 <= i < |MonthlyRows(rs)|
    ensures var row := MonthlyRows(rs)[i];
      && row.productionCount >= 1
      && -0.005 <= row.avgQuantityPerProduction - row.totalQuantity / row.productionCount as real <= 0.005
  {
    MonthlyRowTotals(rs, i);
    var key := Strings.SortedKeys(MonthKeys(rs))[i];
    FinalizedAverage(ExpectedMonth(rs, key));
  }

  /** ROI and efficiency are 0 unless the total cost is positive, and then they are the
      ratios of the totals to within the rounding to 2 and 4 places. */
  lemma MonthlyRowRatios(rs: seq<Record>, i: int)
    requires 0 <= i < |MonthlyRows(rs)|
    ensures var row := MonthlyRows(rs)[i];
      && (row.totalCost <= 0.0 ==> row.roiPercent == 0.0 && row.efficiency == 0.0)
      && (row.totalCost > 0.0 ==>
            && -0.005 <= row.roiPercent - row.totalProfit / row.totalCost * 100.0 <= 0.005
            && -0.00005 <= row.efficiency - row.totalQuantity / row.totalCost <= 0.00005)
  {
    var key := Strings.SortedKeys(MonthKeys(rs))[i];
    FinalizedRatios(ExpectedMonth(rs, key));
  }

  /** The finalised average of a non-empty bucket is within rounding of its exact value. */
  lemma FinalizedAverage(acc: MonthAccumulator)
    requires acc.productionCount > 0
    ensures var row := FinalizeMonth(acc);
      -0.005 <= row.avgQuantityPerProduction - row.totalQuantity / row.productionCount as real <= 0.005
  {
    RoundClose(acc.totalQuantity / acc.productionCount as real, 2);
    assert Scale(2) == 100.0;
  }

  /** The finalised ratios of a bucket: 0 without a positive cost, otherwise within rounding
      of the exact ratios. */
  lemma FinalizedRatios(acc: MonthAccumulator)
    ensures var row := FinalizeMonth(acc);
      && (row.totalCost <= 0.0 ==> row.roiPercent == 0.0 && row.efficiency == 0.0)
      && (row.totalCost > 0.0 ==>
            && -0.005 <= row.roiPercent - row.totalProfit / row.totalCost * 100.0 <= 0.005
            && -0.00005 <= row.efficiency - row.totalQuantity / row.totalCost <= 0.00005)
  {
    var profit := acc.totalRevenue - acc.totalCost;
    if acc.totalCost > 0.0 {
      RoundClose(profit / acc.totalCost * 100.0, 2);
      RoundClose(acc.totalQuantity / acc.totalCost, 4);
      assert Scale(2) == 100.0 && Scale(4) == 10000.0;
    }
  }

  // ---------------------------------------------------------------------------
  // The buckets partition the dated records

  /** Sum of the bucket sizes over `keys`. */
  function BucketSizes(rs: seq<Record>, keys: seq<string>): nat
  {
    if keys == [] then 0
    else BucketSizes(rs, keys[..|keys| - 1]) + |InMonth(rs, keys[|keys| - 1])|
  }

  function Occurrences(keys: seq<string>, k: string): nat
  {
    if keys == [] then 0
    else Occurrences(keys[..|keys| - 1], k) + (if keys[|keys| - 1] == k then 1 else 0)
  }

  predicate Distinct(keys: seq<string>)
  {
    forall i, j :: 0 <= i < j < |keys| ==> keys[i] != keys[j]
  }

  lemma {:induction false} OccurrencesOfDistinct(keys: seq<string>, k: string)
    requires Distinct(keys)
    ensures Occurrences(keys, k) == if k in keys then 1 else 0
  {
    if keys != [] {
      var init := keys[..|keys| - 1];
      OccurrencesOfDistinct(init, k);
      assert keys == init + [keys[|keys| - 1]];
      if keys[|keys| - 1] == k {
        assert k !in init;
      }
    }
  }

  lemma {:induction false} BucketSizesStep(rs: seq<Record>, r: Record, keys: seq<string>)
    ensures BucketSizes(rs + [r], keys)
         == BucketSizes(rs, keys) + (match HarvestMonth(r) case None => 0 case Some(k) => Occurrences(keys, k))
  {
    InitOfAppend(rs, r);
    if keys != [] {
      BucketSizesStep(rs, r, keys[..|keys| - 1]);
    }
  }

  lemma {:induction false} BucketSizesEmpty(keys: seq<string>)
    ensures BucketSizes([], keys) == 0
  {
    if keys != [] {
      BucketSizesEmpty(keys[..|keys| - 1]);
    }
  }

  /** Over distinct keys covering every record's bucket, the bucket sizes add up to the number
      of records that have a usable harvest date. */
  lemma {:induction false} BucketsPartitionDated(rs: seq<Record>, keys: seq<string>)
    requires Distinct(keys)
    requires forall r :: r in rs && HarvestMonth(r).Some? ==> HarvestMonth(r).value in keys
    ensures BucketSizes(rs, keys) == |Dated(rs)|
  {
    if rs == [] {
      BucketSizesEmpty(keys);
    } else {
      var init, r := Init(rs), Last(rs);
      assert rs == init + [r];
      BucketsPartitionDated(init, keys);
      BucketSizesStep(init, r, keys);
      if HarvestMonth(r).Some? {
        OccurrencesOfDistinct(keys, HarvestMonth(r).value);
      }
    }
  }

  lemma {:induction false} TotalOfRowsFor(rs: seq<Record>, keys: seq<string>)
    ensures TotalProductionCount(RowsFor(rs, keys)) == BucketSizes(rs, keys)
  {
    if keys != [] {
      var init := keys[..|keys| - 1];
      assert RowsFor(rs, keys)[..|keys| - 1] == RowsFor(rs, init);
      TotalOfRowsFor(rs, init);
    }
  }

  /** The production counts of all rows add up to the number of records with a usable harvest
      date: every such record is counted in exactly one bucket, every other in none. */
  lemma ProductionCountsAddUp(rs: seq<Record>)
    ensures TotalProductionCount(MonthlyRows(rs)) == |Dated(rs)|
  {
    var ordered := Strings.SortedKeys(MonthKeys(rs));
    MonthKeysExactly(rs);
    forall i, j | 0 <= i < j < |ordered| ensures ordered[i] != ordered[j] {
      Strings.AscendingDistinct(ordered, i, j);
    }
    forall r | r in rs && HarvestMonth(r).Some? ensures HarvestMonth(r).value in ordered {
      assert HarvestMonth(r).value in MonthKeys(rs);
    }
    BucketsPartitionDated(rs, ordered);
    TotalOfRowsFor(rs, ordered);
  }

  /** The dated records are exactly the input records that have a usable harvest date. */
  lemma {:induction false} DatedExactly(rs: seq<Record>)
    ensures |Dated(rs)| <= |rs|
    ensures forall r :: r in Dated(rs) <==> r in rs && HarvestMonth(r).Some?
  {
    if rs != [] {
      DatedExactly(Init(rs));
      assert rs == Init(rs) + [Last(rs)];
    }
  }
}
