/** `DatasetStatsView.get` (backend/api/views.py:72-91): the number of
    records of a dataset, the mean of each float column, and how many
    records there are of each equipment type. Averages are exact reals. */
module Statistics {
  import opened Tables
  import opened Listings

  datatype Column = Flowrate | Pressure | Temperature

  function Reading(r: Record, c: Column): real
  {
    match c
    case Flowrate => r.flowrate
    case Pressure => r.pressure
    case Temperature => r.temperature
  }

  function ColumnSum(rs: seq<Record>, c: Column): real
  {
    if rs == [] then 0.0 else Reading(rs[0], c) + ColumnSum(rs[1..], c)
  }

  /** `Avg(column)` over a non-empty set of records. */
  function Mean(rs: seq<Record>, c: Column): real
    requires |rs| > 0
  {
    ColumnSum(rs, c) / (|rs| as real)
  }

  /** The equipment types present. */
  function Types(rs: seq<Record>): set<string>
  {
    set r | r in rs :: r.kind
  }

  /** How many records have a type in `kinds`. */
  function CountKinds(rs: seq<Record>, kinds: set<string>): nat
  {
    if rs == [] then 0
    else (if rs[0].kind in kinds then 1 else 0) + CountKinds(rs[1..], kinds)
  }

  /** `values('equipment_type').annotate(count=Count('equipment_type'))`
      turned into a dict: each type present, with its number of records. */
  function Distribution(rs: seq<Record>): map<string, nat>
  {
    map k | k in Types(rs) :: CountKinds(rs, {k})
  }

  datatype Summary = Summary(totalCount: nat, averageFlowrate: real, averagePressure: real,
                             averageTemperature: real, typeDistribution: map<string, nat>)

  /** The summary's average of column `c`. */
  function Average(s: Summary, c: Column): real
  {
    match c
    case Flowrate => s.averageFlowrate
    case Pressure => s.averagePressure
    case Temperature => s.averageTemperature
  }

  datatype StatsResponse = NotFound | Found(summary: Summary)

  /** The stats of dataset `id`: "not found or empty" exactly when no record
      belongs to it, otherwise the count, the three means and the type
      distribution of its records. */
  function DatasetStats(records: seq<Record>, id: nat): (r: StatsResponse)
    ensures r.NotFound? <==> forall x :: x in records ==> x.dataset != id
    ensures r.Found? ==>
              r.summary.totalCount > 0 &&
              r.summary.typeDistribution.Keys == set x | x in records && x.dataset == id :: x.kind
  {
    var rs := DatasetRecords(records, id);
    assert forall x :: x in rs <==> x in records && x.dataset == id by {
      forall x ensures x in rs <==> x in records && x.dataset == id {
        assert x in rs <==> x in multiset(rs);
        assert x in records <==> x in multiset(records);
      }
    }
    if |rs| == 0 then NotFound
    else
      assert rs[0] in rs;
      Found(Summary(|rs|, Mean(rs, Flowrate), Mean(rs, Pressure), Mean(rs, Temperature),
                    Distribution(rs)))
  }

  // ---------------------------------------------------------------------
  // The type distribution counts every record once

  /** The sum of `m`'s values over `keys`. */
  ghost function SumOver(m: map<string, nat>, keys: set<string>): nat
    requires keys <= m.Keys
  {
    if keys == {} then 0
    else
      var k :| k in keys;
      m[k] + SumOver(m, keys - {k})
  }

  lemma {:induction false} CountKindsSplit(rs: seq<Record>, kinds: set<string>, k: string)
    requires k in kinds
    ensures CountKinds(rs, kinds) == CountKinds(rs, {k}) + CountKinds(rs, kinds - {k})
  {
    if rs != [] {
      CountKindsSplit(rs[1..], kinds, k);
    }
  }

  lemma {:induction false} CountKindsAll(rs: seq<Record>, kinds: set<string>)
    requires forall x :: x in rs ==> x.kind in kinds
    ensures CountKinds(rs, kinds) == |rs|
  {
    if rs != [] {
      assert rs[0] in rs;
      CountKindsAll(rs[1..], kinds);
    }
  }

  lemma {:induction false} SumOverCounts(rs: seq<Record>, keys: set<string>)
    requires keys <= Types(rs)
    ensures SumOver(Distribution(rs), keys) == CountKinds(rs, keys)
    decreases keys
  {
    if keys != {} {
      var m := Distribution(rs);
      var k :| k in keys && SumOver(m, keys) == m[k] + SumOver(m, keys - {k});
      SumOverCounts(rs, keys - {k});
      CountKindsSplit(rs, keys, k);
    } else {
      assert CountKinds(rs, {}) == 0 by {
        CountKindsNone(rs);
      }
    }
  }

  lemma {:induction false} CountKindsNone(rs: seq<Record>)
    ensures CountKinds(rs, {}) == 0
  {
    if rs != [] {
      CountKindsNone(rs[1..]);
    }
  }

  /** The counts of the type distribution add up to the number of records,
      and every listed type has at least one record. */
  lemma DistributionTotal(rs: seq<Record>)
    ensures SumOver(Distribution(rs), Distribution(rs).Keys) == |rs|
    ensures forall k :: k in Distribution(rs) ==> Distribution(rs)[k] > 0
  {
    assert Distribution(rs).Keys == Types(rs);
    SumOverCounts(rs, Types(rs));
    CountKindsAll(rs, Types(rs));
    forall k | k in Distribution(rs) ensures Distribution(rs)[k] > 0 {
      var x :| x in rs && x.kind == k;
      CountKindsPositive(rs, x);
    }
  }

  lemma {:induction false} CountKindsPositive(rs: seq<Record>, x: Record)
    requires x in rs
    ensures CountKinds(rs, {x.kind}) > 0
  {
    if rs[0] != x {
      CountKindsPositive(rs[1..], x);
    }
  }

  /** The equipment type of each record, in order. */
  function Kinds(rs: seq<Record>): seq<string>
  {
    seq(|rs|, i requires 0 <= i < |rs| => rs[i].kind)
  }

  lemma {:induction false} CountKindsMultiset(rs: seq<Record>, k: string)
    ensures CountKinds(rs, {k}) == multiset(Kinds(rs))[k]
  {
    if rs != [] {
      CountKindsMultiset(rs[1..], k);
      assert Kinds(rs) == [rs[0].kind] + Kinds(rs[1..]);
    }
  }

  /** `Count('equipment_type')` per group: each type of the dataset maps to
      the number of its records of that type, and a type absent from the
      map has no record. */
  lemma DistributionCounts(records: seq<Record>, id: nat)
    ensures DatasetStats(records, id).Found? ==>
      var d := DatasetStats(records, id).summary.typeDistribution;
      forall k :: multiset(Kinds(DatasetRecords(records, id)))[k] == if k in d then d[k] else 0
  {
    var rs := DatasetRecords(records, id);
    if DatasetStats(records, id).Found? {
      var d := DatasetStats(records, id).summary.typeDistribution;
      assert d == Distribution(rs);
      forall k ensures multiset(Kinds(rs))[k] == if k in d then d[k] else 0 {
        CountKindsMultiset(rs, k);
        if k !in d {
          CountKindsAbsent(rs, k);
        }
      }
    }
  }

  lemma {:induction false} CountKindsAbsent(rs: seq<Record>, k: string)
    requires k !in Types(rs)
    ensures CountKinds(rs, {k}) == 0
  {
    if rs != [] {
      assert rs[0] in rs;
      assert forall x :: x in rs[1..] ==> x in rs;
      CountKindsAbsent(rs[1..], k);
    }
  }

  // ---------------------------------------------------------------------
  // Each mean lies between the least and the greatest reading

  /** `x` added up `n` times. */
  function Times(x: real, n: nat): real
  {
    if n == 0 then 0.0 else x + Times(x, n - 1)
  }

  lemma {:induction false} ColumnSumBounds(rs: seq<Record>, c: Column, lo: real, hi: real)
    requires forall x :: x in rs ==> lo <= Reading(x, c) <= hi
    ensures Times(lo, |rs|) <= ColumnSum(rs, c) <= Times(hi, |rs|)
  {
    if rs != [] {
      assert rs[0] in rs;
      ColumnSumBounds(rs[1..], c, lo, hi);
    }
  }

  lemma {:induction false} TimesProduct(x: real, n: nat)
    ensures Times(x, n) == x * (n as real)
  {
    if n > 0 {
      TimesProduct(x, n - 1);
      Distribute(x, (n - 1) as real);
    }
  }

  lemma Distribute(x: real, m: real)
    ensures x * (m + 1.0) == x * m + x
  {
  }

  lemma QuotientBounds(s: real, n: real, lo: real, hi: real)
    requires n > 0.0
    requires lo * n <= s <= hi * n
    ensures lo <= s / n <= hi
  {
    var q := s / n;
    assert q * n == s;
    assert (q - lo) * n >= 0.0;
    assert (hi - q) * n >= 0.0;
  }

  /** A mean is bounded by any bounds of the column's readings. */
  lemma MeanBounds(rs: seq<Record>, c: Column, lo: real, hi: real)
    requires |rs| > 0
    requires forall x :: x in rs ==> lo <= Reading(x, c) <= hi
    ensures lo <= Mean(rs, c) <= hi
  {
    var n, total := |rs| as real, ColumnSum(rs, c);
    ColumnSumBounds(rs, c, lo, hi);
    TimesProduct(lo, |rs|);
    TimesProduct(hi, |rs|);
    assert lo * n <= total <= hi * n;
    QuotientBounds(total, n, lo, hi);
  }

  /** The stats of a dataset: its count is the number of its records, the
      distribution's counts add up to it, and each average lies between any
      lower and upper bound of that column's readings. */
  lemma StatsProperties(records: seq<Record>, id: nat, c: Column, lo: real, hi: real)
    requires forall x :: x in records && x.dataset == id ==> lo <= Reading(x, c) <= hi
    ensures DatasetStats(records, id).Found? ==>
      var s := DatasetStats(records, id).summary;
      var mean := Average(s, c);
      s.totalCount == |multiset(DatasetRecords(records, id))| &&
      SumOver(s.typeDistribution, s.typeDistribution.Keys) == s.totalCount &&
      lo <= mean <= hi
  {
    var rs := DatasetRecords(records, id);
    if DatasetStats(records, id).Found? {
      var s := DatasetStats(records, id).summary;
      FoundSummary(records, id);
      DistributionTotal(rs);
      forall x | x in rs ensures lo <= Reading(x, c) <= hi {
        assert x in multiset(rs);
      }
      MeanBounds(rs, c, lo, hi);
      assert Average(s, c) == Mean(rs, c);
    }
  }

  /** The summary a found dataset gets, spelled out over its records. */
  lemma FoundSummary(records: seq<Record>, id: nat)
    ensures DatasetStats(records, id).Found? ==>
      var rs := DatasetRecords(records, id);
      |rs| > 0 &&
      DatasetStats(records, id).summary ==
        Summary(|rs|, Mean(rs, Flowrate), Mean(rs, Pressure), Mean(rs, Temperature), Distribution(rs))
  {
  }

  /** Each average, added up once per record, is the sum of that column over
      the dataset's records. */
  lemma StatsAverage(records: seq<Record>, id: nat, c: Column)
    ensures DatasetStats(records, id).Found? ==>
      var s := DatasetStats(records, id).summary;
      Times(Average(s, c), s.totalCount) == ColumnSum(DatasetRecords(records, id), c)
  {
    var rs := DatasetRecords(records, id);
    if DatasetStats(records, id).Found? {
      FoundSummary(records, id);
      SummaryTimesCount(DatasetStats(records, id).summary, rs, c);
    }
  }

  lemma SummaryTimesCount(s: Summary, rs: seq<Record>, c: Column)
    requires |rs| > 0
    requires s == Summary(|rs|, Mean(rs, Flowrate), Mean(rs, Pressure), Mean(rs, Temperature),
                          Distribution(rs))
    ensures Times(Average(s, c), s.totalCount) == ColumnSum(rs, c)
  {
    assert Average(s, c) == Mean(rs, c);
    TimesProduct(Mean(rs, c), |rs|);
    QuotientTimes(ColumnSum(rs, c), |rs| as real);
  }

  lemma QuotientTimes(s: real, n: real)
    requires n != 0.0
    ensures (s / n) * n == s
  {
  }

  /** The worked example: a pump and a valve of dataset 1. */
  function PumpValve(): seq<Record>
  {
    [Record(1, "P-1", "Pump", 120.0, 15.0, 60.0), Record(1, "V-1", "Valve", 0.0, 5.0, 25.0)]
  }

  lemma PumpAndValve()
    ensures DatasetStats(PumpValve(), 1) ==
              Found(Summary(2, 60.0, 10.0, 42.5, map["Pump" := 1, "Valve" := 1]))
  {
    var records := PumpValve();
    assert DatasetRecords(records, 1) == records;
    assert records[0] in records;
    FoundSummary(records, 1);
    PumpValveMeans();
    PumpValveDistribution();
  }

  lemma PumpValveMeans()
    ensures Mean(PumpValve(), Flowrate) == 60.0
    ensures Mean(PumpValve(), Pressure) == 10.0
    ensures Mean(PumpValve(), Temperature) == 42.5
  {
    var records := PumpValve();
    assert records[1..][1..] == [];
    assert ColumnSum(records, Flowrate) == 120.0;
    assert ColumnSum(records, Pressure) == 20.0;
    assert ColumnSum(records, Temperature) == 85.0;
  }

  lemma PumpValveDistribution()
    ensures Distribution(PumpValve()) == map["Pump" := 1, "Valve" := 1]
  {
    var records := PumpValve();
    assert records[1..][1..] == [];
    assert Types(records) == {"Pump", "Valve"};
    assert CountKinds(records, {"Pump"}) == 1;
    assert CountKinds(records, {"Valve"}) == 1;
  }
}
