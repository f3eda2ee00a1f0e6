/** Reference definitions the aggregations are proved against: sums and counts over a
    sequence of records, and the records of one product. Each is defined by peeling off the
    last record, the order in which the exporters' loops visit them. */
module Tallies {
  import opened Metrics

  function Last(rs: seq<Record>): Record
    requires rs != []
  {
    rs[|rs| - 1]
  }

  function Init(rs: seq<Record>): seq<Record>
    requires rs != []
  {
    rs[..|rs| - 1]
  }

  function TotalQuantity(rs: seq<Record>): real
  {
    if rs == [] then 0.0 else TotalQuantity(Init(rs)) + Last(rs).quantity
  }

  function TotalCost(rs: seq<Record>): real
  {
    if rs == [] then 0.0 else TotalCost(Init(rs)) + Last(rs).costPrice
  }

  function TotalRevenue(rs: seq<Record>): real
  {
    if rs == [] then 0.0 else TotalRevenue(Init(rs)) + Last(rs).salePrice
  }

  /** How many records carry `status`. */
  function StatusCount(rs: seq<Record>, status: Status): nat
  {
    if rs == [] then 0 else StatusCount(Init(rs), status) + (if Last(rs).status == status then 1 else 0)
  }

  /** The sum of the growth periods that are positive. */
  function PositiveGrowthTotal(rs: seq<Record>): int
  {
    if rs == [] then 0
    else
      var g := GrowthPeriodDays(Last(rs));
      PositiveGrowthTotal(Init(rs)) + (if g > 0 then g else 0)
  }

  /** How many records have a positive growth period. */
  function PositiveGrowthCount(rs: seq<Record>): nat
  {
    if rs == [] then 0
    else PositiveGrowthCount(Init(rs)) + (if GrowthPeriodDays(Last(rs)) > 0 then 1 else 0)
  }

  /** The records whose product name is exactly `name`, in their original order. */
  function WithName(rs: seq<Record>, name: string): seq<Record>
  {
    if rs == [] then []
    else WithName(Init(rs), name) + (if Last(rs).productName == name then [Last(rs)] else [])
  }

  lemma InitOfAppend(rs: seq<Record>, r: Record)
    ensures Init(rs + [r]) == rs && Last(rs + [r]) == r
  {
  }

  /** The records of one product are records of the input, all with that name, and every
      record of that name is among them. */
  lemma {:induction false} WithNameExactly(rs: seq<Record>, name: string)
    ensures |WithName(rs, name)| <= |rs|
    ensures forall x :: x in WithName(rs, name) <==> x in rs && x.productName == name
  {
    if rs != [] {
      WithNameExactly(Init(rs), name);
      assert rs == Init(rs) + [Last(rs)];
    }
  }

  /** Unrecognised statuses are not counted, so the three counters never exceed the number of
      records, and they reach it exactly when every status is one of the three. */
  lemma {:induction false} StatusCountsBounded(rs: seq<Record>)
    ensures StatusCount(rs, Planted) + StatusCount(rs, Harvested) + StatusCount(rs, Sold) <= |rs|
    ensures StatusCount(rs, Planted) + StatusCount(rs, Harvested) + StatusCount(rs, Sold) == |rs|
            <==> forall i :: 0 <= i < |rs| ==> !rs[i].status.Unrecognised?
  {
    if rs != [] {
      StatusCountsBounded(Init(rs));
      var statusOk := forall i :: 0 <= i < |rs| ==> !rs[i].status.Unrecognised?;
      assert statusOk <==>
        (forall i :: 0 <= i < |Init(rs)| ==> !Init(rs)[i].status.Unrecognised?) && !Last(rs).status.Unrecognised?;
    }
  }

  /** Each positive growth period is at least one day, so the sum is at least the count, and
      both are zero together. */
  lemma {:induction false} PositiveGrowthBounds(rs: seq<Record>)
    ensures PositiveGrowthCount(rs) <= |rs|
    ensures PositiveGrowthTotal(rs) >= PositiveGrowthCount(rs)
    ensures PositiveGrowthCount(rs) == 0 <==> PositiveGrowthTotal(rs) == 0
  {
    if rs != [] {
      PositiveGrowthBounds(Init(rs));
    }
  }
}
